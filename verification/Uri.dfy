/** The URI path pipeline: percent-decoding and slash collapsing (src/HttpParser.cpp) and dot-segment
    removal (src/ResponseHandler.cpp). */
module Uri {
  import opened Text

  predicate HexDigit(c: char)
  {
    '0' <= c <= '9' || 'a' <= c <= 'f' || 'A' <= c <= 'F'
  }

  function HexValue(c: char): (v: nat)
    requires HexDigit(c)
    ensures v < 16
  {
    if '0' <= c <= '9' then c as int - '0' as int else Lower(c) as int - 'a' as int + 10
  }

  /** An escape that decodes to a slash is left as written. */
  function PctDecoded(s: string): string
  {
    if s == "" then ""
    else if s[0] == '%' && |s| > 2 && HexDigit(s[1]) && HexDigit(s[2]) then
      var v := HexValue(s[1]) * 16 + HexValue(s[2]);
      if v == '/' as int then "%" + PctDecoded(s[1..]) else [v as char] + PctDecoded(s[3..])
    else [s[0]] + PctDecoded(s[1..])
  }

  predicate EscapeAt(s: string, i: nat)
  {
    i + 2 < |s| && s[i] == '%' && HexDigit(s[i + 1]) && HexDigit(s[i + 2])
  }

  lemma DecodeFrom(s: string, i: nat)
    requires i < |s|
    ensures PctDecoded(s[i..]) ==
            if EscapeAt(s, i) then
              var v := HexValue(s[i + 1]) * 16 + HexValue(s[i + 2]);
              if v == '/' as int then "%" + PctDecoded(s[i + 1..]) else [v as char] + PctDecoded(s[i + 3..])
            else [s[i]] + PctDecoded(s[i + 1..])
  {
    var rest := s[i..];
    assert rest[1..] == s[i + 1..];
    if |rest| > 2 { assert rest[3..] == s[i + 3..] && rest[1] == s[i + 1] && rest[2] == s[i + 2]; }
  }

  lemma DecodedSoFar(out: string, piece: string, s: string, i: nat, next: nat)
    requires i <= |s| && next <= |s| && PctDecoded(s[i..]) == piece + PctDecoded(s[next..])
    ensures out + PctDecoded(s[i..]) == (out + piece) + PctDecoded(s[next..])
  {
  }

  /** One step of the loop: what is appended, and where it goes on. */
  method DecodeStep(s: string, i: nat) returns (piece: string, next: nat)
    requires i < |s|
    ensures i < next <= |s| && PctDecoded(s[i..]) == piece + PctDecoded(s[next..])
  {
    DecodeFrom(s, i);
    if s[i] == '%' && i + 2 < |s| && HexDigit(s[i + 1]) && HexDigit(s[i + 2]) {
      var val := HexValue(s[i + 1]) * 16 + HexValue(s[i + 2]);
      if val != '/' as int { return [val as char], i + 3; }
    }
    piece, next := [s[i]], i + 1;
  }

  method PctDecode(s: string) returns (out: string)
    ensures out == PctDecoded(s)
  {
    out := "";
    var i := 0;
    assert s[0..] == s;
    while i < |s|
      invariant i <= |s|
      invariant out + PctDecoded(s[i..]) == PctDecoded(s)
    {
      var piece, next := DecodeStep(s, i);
      DecodedSoFar(out, piece, s, i, next);
      out, i := out + piece, next;
    }
    assert s[|s|..] == "" && out + "" == out;
  }

  predicate NoSlash(s: string) { forall i :: 0 <= i < |s| ==> s[i] != '/' }

  /** Segments between slashes; one more than there are slashes. */
  function Segments(s: string): (r: seq<string>)
    ensures r != [] && forall i :: 0 <= i < |r| ==> NoSlash(r[i])
    decreases |s|
  {
    var k := Find(s, '/', 0);
    if k == |s| then [s] else [s[..k]] + Segments(s[k + 1..])
  }

  function DecodedEach(segs: seq<string>): (r: seq<string>)
    ensures |r| == |segs| && forall i :: 0 <= i < |segs| ==> r[i] == PctDecoded(segs[i])
  {
    seq(|segs|, i requires 0 <= i < |segs| => PctDecoded(segs[i]))
  }

  lemma Behind(piece: string, x: string, y: string)
    ensures piece + (x + y) == (piece + x) + y
  {
  }

  /** In front of a slash the same escapes start as in the string that ends there. */
  lemma SameEscapes(t: string, u: string, i: nat)
    requires i < |u| < |t| && t[|u|] == '/' && forall k :: 0 <= k < |u| ==> t[k] == u[k]
    ensures EscapeAt(t, i) <==> EscapeAt(u, i)
    ensures EscapeAt(u, i) ==> t[i + 1] == u[i + 1] && t[i + 2] == u[i + 2]
  {
    if i + 2 >= |u| { assert i + 1 == |u| || i + 2 == |u|; }
  }

  lemma PlainInFront(t: string, u: string, i: nat, rest: string)
    requires i < |u| && i < |t| && t[i] == u[i] && !EscapeAt(t, i) && !EscapeAt(u, i)
    requires PctDecoded(t[i + 1..]) == PctDecoded(u[i + 1..]) + rest
    ensures PctDecoded(t[i..]) == PctDecoded(u[i..]) + rest
  {
    DecodeFrom(t, i);
    DecodeFrom(u, i);
    Behind([u[i]], PctDecoded(u[i + 1..]), rest);
  }

  lemma EscapeInFront(t: string, u: string, i: nat, rest: string)
    requires EscapeAt(t, i) && EscapeAt(u, i) && t[i + 1] == u[i + 1] && t[i + 2] == u[i + 2]
    requires PctDecoded(t[i + 1..]) == PctDecoded(u[i + 1..]) + rest
    requires PctDecoded(t[i + 3..]) == PctDecoded(u[i + 3..]) + rest
    ensures PctDecoded(t[i..]) == PctDecoded(u[i..]) + rest
  {
    var v := HexValue(u[i + 1]) * 16 + HexValue(u[i + 2]);
    DecodeFrom(t, i);
    DecodeFrom(u, i);
    Behind("%", PctDecoded(u[i + 1..]), rest);
    Behind([v as char], PctDecoded(u[i + 3..]), rest);
  }

  lemma SlashItself(t: string, i: nat)
    requires i < |t| && t[i] == '/'
    ensures PctDecoded(t[i..]) == "/" + PctDecoded(t[i + 1..])
  {
    DecodeFrom(t, i);
  }

  /** Up to a slash the string in front of it is decoded as if it stood alone. */
  lemma {:induction false} DecodesUpToSlash(t: string, u: string, i: nat)
    requires i <= |u| < |t| && t[|u|] == '/' && forall k :: 0 <= k < |u| ==> t[k] == u[k]
    ensures PctDecoded(t[i..]) == PctDecoded(u[i..]) + ("/" + PctDecoded(t[|u| + 1..]))
    decreases |u| - i
  {
    var rest := "/" + PctDecoded(t[|u| + 1..]);
    if i == |u| {
      SlashItself(t, i);
      assert u[i..] == "" && "" + rest == rest;
    } else {
      SameEscapes(t, u, i);
      DecodesUpToSlash(t, u, i + 1);
      if EscapeAt(u, i) {
        DecodesUpToSlash(t, u, i + 3);
        EscapeInFront(t, u, i, rest);
      } else {
        PlainInFront(t, u, i, rest);
      }
    }
  }

  lemma SlashBetween(a: string, b: string)
    ensures var t := a + "/" + b;
            |t| > |a| && t[|a|] == '/' && t[|a| + 1..] == b && t[0..] == t && a[0..] == a && forall k :: 0 <= k < |a| ==> t[k] == a[k]
  {
  }

  /** No escape reaches across a slash. */
  lemma DecodeSplitsAtSlash(a: string, b: string)
    ensures PctDecoded(a + "/" + b) == PctDecoded(a) + "/" + PctDecoded(b)
  {
    SlashBetween(a, b);
    DecodesUpToSlash(a + "/" + b, a, 0);
    Behind(PctDecoded(a), "/", PctDecoded(b));
  }

  lemma {:induction false} DecodeMakesNoSlash(s: string)
    requires NoSlash(s)
    ensures NoSlash(PctDecoded(s))
    decreases |s|
  {
    if s != "" {
      DecodeMakesNoSlash(s[1..]);
      if s[0] == '%' && |s| > 2 && HexDigit(s[1]) && HexDigit(s[2]) {
        DecodeMakesNoSlash(s[3..]);
      }
    }
  }

  lemma SlashFreeIsOneSegment(s: string)
    requires NoSlash(s)
    ensures Segments(s) == [s]
  {
  }

  lemma SegmentsSplitAtSlash(a: string, b: string)
    requires NoSlash(a)
    ensures Segments(a + "/" + b) == [a] + Segments(b)
  {
    var t := a + "/" + b;
    assert t[|a|] == '/';
    assert forall i :: 0 <= i < |a| ==> t[i] == a[i];
    assert Find(t, '/', 0) == |a|;
    assert t[..|a|] == a && t[|a| + 1..] == b;
  }

  /** Decoding a path and then cutting it into segments is the same as cutting first: no
      encoded byte can add, remove or merge a segment. */
  lemma {:induction false} DecodingKeepsSegments(s: string)
    ensures Segments(PctDecoded(s)) == DecodedEach(Segments(s))
    decreases |s|
  {
    var k := Find(s, '/', 0);
    if k == |s| {
      DecodeMakesNoSlash(s);
      SlashFreeIsOneSegment(PctDecoded(s));
    } else {
      var a, b := s[..k], s[k + 1..];
      assert s == a + "/" + b;
      DecodeSplitsAtSlash(a, b);
      DecodeMakesNoSlash(a);
      SegmentsSplitAtSlash(PctDecoded(a), PctDecoded(b));
      DecodingKeepsSegments(b);
    }
  }

  // ---------------------------------------------------------------- cleanPath

  function Squeezed(s: string, lastWasSlash: bool): string
  {
    if s == "" then ""
    else if s[0] == '/' then (if lastWasSlash then "" else "/") + Squeezed(s[1..], true)
    else [s[0]] + Squeezed(s[1..], false)
  }

  function Cleaned(path: string): string
  {
    var r := Squeezed(path, false);
    if |r| > 1 && r[|r| - 1] == '/' then r[..|r| - 1] else r
  }

  lemma SqueezedOneMore(path: string, i: nat, lastWasSlash: bool)
    requires i < |path|
    ensures Squeezed(path[i..], lastWasSlash) ==
            (if path[i] == '/' && lastWasSlash then "" else [path[i]]) + Squeezed(path[i + 1..], path[i] == '/')
  {
    assert path[i..][1..] == path[i + 1..];
    if path[i] == '/' { assert [path[i]] == "/"; }
  }

  method CleanPath(path: string) returns (result: string)
    ensures result == Cleaned(path)
  {
    result := "";
    var lastWasSlash := false;
    assert path[0..] == path;
    for i := 0 to |path|
      invariant result + Squeezed(path[i..], lastWasSlash) == Squeezed(path, false)
    {
      SqueezedOneMore(path, i, lastWasSlash);
      ghost var piece := if path[i] == '/' && lastWasSlash then "" else [path[i]];
      Behind(result, piece, Squeezed(path[i + 1..], path[i] == '/'));
      assert result + "" == result;
      if path[i] == '/' {
        if !lastWasSlash { result := result + [path[i]]; }
        lastWasSlash := true;
      } else {
        result := result + [path[i]];
        lastWasSlash := false;
      }
    }
    assert path[|path|..] == "" && result + "" == result;
    if |result| > 1 && result[|result| - 1] == '/' { result := result[..|result| - 1]; }
  }

  ghost predicate NoDoubleSlash(s: string)
  {
    forall i :: 0 <= i < |s| - 1 ==> !(s[i] == '/' && s[i + 1] == '/')
  }

  ghost predicate IsClean(s: string)
  {
    NoDoubleSlash(s) && (|s| > 1 ==> s[|s| - 1] != '/')
  }

  lemma {:induction false} SqueezedHasNoDouble(s: string, last: bool)
    ensures var r := Squeezed(s, last);
            NoDoubleSlash(r) && (last && r != "" ==> r[0] != '/')
    ensures s != "" && !last ==> Squeezed(s, last) != ""
    decreases |s|
  {
    if s != "" {
      SqueezedHasNoDouble(s[1..], s[0] == '/');
      var r, t := Squeezed(s, last), Squeezed(s[1..], s[0] == '/');
      if !(s[0] == '/' && last) {
        assert r == [s[0]] + t;
        forall i | 0 <= i < |r| - 1 ensures !(r[i] == '/' && r[i + 1] == '/') {
          if i > 0 { assert r[i] == t[i - 1] && r[i + 1] == t[i]; }
        }
      }
    }
  }

  lemma {:induction false} SqueezeFixes(s: string, last: bool)
    requires NoDoubleSlash(s) && (last && s != "" ==> s[0] != '/')
    ensures Squeezed(s, last) == s
    decreases |s|
  {
    if s != "" {
      forall i | 0 <= i < |s[1..]| - 1 ensures !(s[1..][i] == '/' && s[1..][i + 1] == '/') {
        assert s[1..][i] == s[i + 1] && s[1..][i + 1] == s[i + 2];
      }
      if |s| > 1 { assert !(s[0] == '/' && s[0 + 1] == '/'); }
      SqueezeFixes(s[1..], s[0] == '/');
    }
  }

  lemma CleanedIsClean(path: string)
    ensures IsClean(Cleaned(path))
    ensures path != "" ==> Cleaned(path) != ""
    ensures path != "" && path[0] == '/' ==> Cleaned(path)[0] == '/'
  {
    var r := Squeezed(path, false);
    SqueezedHasNoDouble(path, false);
    if |r| > 1 && r[|r| - 1] == '/' {
      var j := |r| - 2;
      assert r[j + 1] == '/';
    }
  }

  lemma CleanPathIsIdempotent(path: string)
    ensures Cleaned(Cleaned(path)) == Cleaned(path)
    ensures IsClean(path) ==> Cleaned(path) == path
  {
    CleanedIsClean(path);
    SqueezeFixes(Cleaned(path), false);
    if IsClean(path) { SqueezeFixes(path, false); }
  }

  // ------------------------------------------------------------ normalizePath

  /** One segment on the stack; None when `..` climbs above the root. */
  function Push(stack: seq<string>, seg: string): Option<seq<string>>
  {
    if seg == "" || seg == "." then Some(stack)
    else if seg == ".." then (if stack == [] then None else Some(stack[..|stack| - 1]))
    else Some(stack + [seg])
  }

  function Walk(segs: seq<string>, stack: seq<string>): Option<seq<string>>
    decreases |segs|
  {
    if segs == [] then Some(stack)
    else
      var next := Push(stack, segs[0]);
      if next.None? then None else Walk(segs[1..], next.value)
  }

  function Joined(segs: seq<string>): string
  {
    if segs == [] then "" else if |segs| == 1 then segs[0] else segs[0] + "/" + Joined(segs[1..])
  }

  predicate EndsWithSlash(s: string) { s != "" && s[|s| - 1] == '/' }

  function Rebuilt(stack: seq<string>, trailing: bool): string
  {
    var r := "/" + Joined(stack);
    if trailing && r[|r| - 1] != '/' then r + "/" else r
  }

  /** Dot-segment removal with a stack (section 5.2.4 of RFC 3986), refusing where the RFC clamps. */
  function Normalized(path: string): string
  {
    var st := Walk(Segments(path), []);
    if st.None? then "" else Rebuilt(st.value, |path| > 1 && EndsWithSlash(path))
  }

  lemma WalkAtSlash(seg: string, rest: string, stack: seq<string>)
    requires NoSlash(seg)
    ensures Walk(Segments(seg + "/" + rest), stack) ==
            var next := Push(stack, seg);
            if next.None? then None else Walk(Segments(rest), next.value)
  {
    SegmentsSplitAtSlash(seg, rest);
    assert ([seg] + Segments(rest))[1..] == Segments(rest);
  }

  lemma WalkAtEnd(seg: string, stack: seq<string>)
    requires NoSlash(seg)
    ensures Walk(Segments(seg), stack) == Push(stack, seg)
  {
    SlashFreeIsOneSegment(seg);
    assert [seg][1..] == [];
  }

  /** One turn of the scan: a slash closes the pending segment, any other byte extends it. */
  lemma WalkByByte(path: string, i: nat, seg: string, stack: seq<string>)
    requires NoSlash(seg) && i < |path|
    ensures Walk(Segments(seg + path[i..]), stack) ==
            if path[i] != '/' then Walk(Segments((seg + [path[i]]) + path[i + 1..]), stack)
            else if Push(stack, seg).None? then None
            else Walk(Segments("" + path[i + 1..]), Push(stack, seg).value)
  {
    if path[i] == '/' {
      assert seg + path[i..] == seg + "/" + path[i + 1..];
      assert "" + path[i + 1..] == path[i + 1..];
      WalkAtSlash(seg, path[i + 1..], stack);
    } else {
      assert seg + path[i..] == (seg + [path[i]]) + path[i + 1..];
    }
  }

  method PushSegment(segments: seq<string>, seg: string) returns (r: Option<seq<string>>)
    ensures r == Push(segments, seg)
  {
    r := Some(segments);
    if |seg| > 0 {
      if seg == ".." {
        if segments == [] { return None; }
        r := Some(segments[..|segments| - 1]);
      } else if seg != "." {
        r := Some(segments + [seg]);
      }
    }
  }

  method NormalizePath(path: string) returns (result: string)
    ensures result == Normalized(path)
  {
    var segments: seq<string> := [];
    var seg := "";
    assert "" + path[0..] == path;
    for i := 0 to |path|
      invariant NoSlash(seg)
      invariant Walk(Segments(path), []) == Walk(Segments(seg + path[i..]), segments)
    {
      WalkByByte(path, i, seg, segments);
      if path[i] == '/' {
        var next := PushSegment(segments, seg);
        if next.None? { return ""; }
        segments, seg := next.value, "";
      } else {
        seg := seg + [path[i]];
      }
    }
    assert seg + path[|path|..] == seg;
    WalkAtEnd(seg, segments);
    var last := PushSegment(segments, seg);
    if last.None? { return ""; }
    result := JoinSegments(last.value);
    if |path| > 1 && path[|path| - 1] == '/' && result[|result| - 1] != '/' {
      result := result + "/";
    }
  }

  method JoinSegments(segments: seq<string>) returns (result: string)
    ensures result == "/" + Joined(segments)
  {
    result := "/";
    assert segments[0..] == segments;
    for i := 0 to |segments|
      invariant i < |segments| ==> result + Joined(segments[i..]) == "/" + Joined(segments)
      invariant i == |segments| ==> result == "/" + Joined(segments)
    {
      assert segments[i..][1..] == segments[i + 1..];
      result := result + segments[i];
      if i + 1 < |segments| { result := result + "/"; }
    }
  }

  predicate Ordinary(seg: string) { seg != "" && seg != "." && seg != ".." }

  /** Ordinary names minus `..` segments. */
  function Depth(segs: seq<string>): int
  {
    if segs == [] then 0
    else Depth(segs[..|segs| - 1]) + (var s := segs[|segs| - 1]; if Ordinary(s) then 1 else if s == ".." then -1 else 0)
  }

  lemma {:induction false} DepthOfCons(segs: seq<string>)
    requires segs != []
    ensures Depth(segs) == Depth([segs[0]]) + Depth(segs[1..])
    decreases |segs|
  {
    if |segs| == 1 {
      assert segs == [segs[0]];
    } else {
      DepthOfCons(segs[..|segs| - 1]);
      assert segs[1..][..|segs| - 2] == segs[..|segs| - 1][1..];
    }
  }

  lemma {:induction false} WalkRefusesIffAbove(segs: seq<string>, stack: seq<string>)
    ensures Walk(segs, stack).None? <==> exists n :: 0 <= n <= |segs| && |stack| + Depth(segs[..n]) < 0
    ensures Walk(segs, stack).Some? ==> |Walk(segs, stack).value| == |stack| + Depth(segs)
    decreases |segs|
  {
    if segs == [] {
      assert forall n :: 0 <= n <= |segs| ==> segs[..n] == [];
    } else {
      var next := Push(stack, segs[0]);
      assert segs[..1] == [segs[0]] && [segs[0]][..0] == [];
      DepthOfCons(segs);
      if next.None? {
        assert Depth(segs[..1]) == -1;
      } else {
        WalkRefusesIffAbove(segs[1..], next.value);
        assert |next.value| == |stack| + Depth([segs[0]]);
        forall n | 0 <= n <= |segs[1..]|
          ensures |next.value| + Depth(segs[1..][..n]) == |stack| + Depth(segs[..n + 1])
        {
          DepthOfCons(segs[..n + 1]);
          assert segs[..n + 1][1..] == segs[1..][..n];
        }
        if n :| 0 <= n <= |segs| && |stack| + Depth(segs[..n]) < 0 {
          assert n > 0;
          assert |next.value| + Depth(segs[1..][..n - 1]) < 0;
        }
      }
    }
  }

  /** A path is refused exactly when some prefix of it climbs above the root. */
  lemma EmptyIffClimbsAboveRoot(path: string)
    ensures Normalized(path) == "" <==>
            exists n :: 0 <= n <= |Segments(path)| && Depth(Segments(path)[..n]) < 0
  {
    var segs := Segments(path);
    var bottom: seq<string> := [];
    WalkRefusesIffAbove(segs, bottom);
    assert forall n :: 0 <= n <= |segs| ==> |bottom| + Depth(segs[..n]) == Depth(segs[..n]);
    if Walk(segs, []).None? {
      var n :| 0 <= n <= |segs| && |bottom| + Depth(segs[..n]) < 0;
      assert Depth(Segments(path)[..n]) < 0;
    } else {
      assert Normalized(path)[0] == '/';
    }
  }

  ghost predicate Names(stack: seq<string>)
  {
    forall i :: 0 <= i < |stack| ==> NoSlash(stack[i]) && Ordinary(stack[i])
  }

  lemma {:induction false} WalkKeepsNames(segs: seq<string>, stack: seq<string>)
    requires Names(stack) && forall i :: 0 <= i < |segs| ==> NoSlash(segs[i])
    ensures Walk(segs, stack).Some? ==> Names(Walk(segs, stack).value)
    decreases |segs|
  {
    if segs != [] && Push(stack, segs[0]).Some? {
      WalkKeepsNames(segs[1..], Push(stack, segs[0]).value);
    }
  }

  lemma {:induction false} WalkOverNames(names: seq<string>, tail: seq<string>, stack: seq<string>)
    requires Names(names) && (tail == [] || tail == [""])
    ensures Walk(names + tail, stack) == Some(stack + names)
    decreases |names|
  {
    if names == [] {
      assert names + tail == tail && stack + names == stack;
      if tail == [""] { assert Walk(tail[1..], stack) == Some(stack); }
    } else {
      assert (names + tail)[1..] == names[1..] + tail;
      WalkOverNames(names[1..], tail, stack + [names[0]]);
      assert stack + [names[0]] + names[1..] == stack + names;
    }
  }

  lemma {:induction false} SegmentsOfJoined(segs: seq<string>)
    requires segs != [] && forall i :: 0 <= i < |segs| ==> NoSlash(segs[i])
    ensures Segments(Joined(segs)) == segs
    decreases |segs|
  {
    if |segs| == 1 {
      SlashFreeIsOneSegment(segs[0]);
    } else {
      SegmentsOfJoined(segs[1..]);
      SegmentsSplitAtSlash(segs[0], Joined(segs[1..]));
    }
  }

  lemma {:induction false} JoinedOfSegments(s: string)
    ensures Joined(Segments(s)) == s
    decreases |s|
  {
    var k := Find(s, '/', 0);
    if k < |s| {
      JoinedOfSegments(s[k + 1..]);
      assert Segments(s)[1..] == Segments(s[k + 1..]);
      assert s == s[..k] + "/" + s[k + 1..];
    }
  }

  lemma {:induction false} JoinedAppendEmpty(names: seq<string>)
    requires names != []
    ensures Joined(names + [""]) == Joined(names) + "/"
    decreases |names|
  {
    if |names| > 1 {
      assert (names + [""])[1..] == names[1..] + [""];
      JoinedAppendEmpty(names[1..]);
    } else {
      assert (names + [""])[1..] == [""];
    }
  }

  lemma {:induction false} JoinedNamesEnd(names: seq<string>)
    requires Names(names) && names != []
    ensures Joined(names) != "" && Joined(names)[|Joined(names)| - 1] != '/'
    decreases |names|
  {
    if |names| > 1 { JoinedNamesEnd(names[1..]); }
  }

  /** A rebuilt path, as the join of its segments. */
  function Layout(names: seq<string>, trailing: bool): seq<string>
  {
    if names == [] then [""] else if trailing then names + [""] else names
  }

  lemma RebuiltIsJoined(names: seq<string>, trailing: bool)
    requires Names(names)
    ensures Rebuilt(names, trailing) == "/" + Joined(Layout(names, trailing))
  {
    if names != [] {
      JoinedNamesEnd(names);
      var j := Joined(names);
      assert ("/" + j)[|j|] == j[|j| - 1];
      if trailing {
        JoinedAppendEmpty(names);
        assert "/" + (j + "/") == ("/" + j) + "/";
      }
    }
  }

  /** Splitting a rebuilt path gives back the stack it was built from. */
  lemma SegmentsOfRebuilt(names: seq<string>, trailing: bool)
    requires Names(names)
    ensures Segments(Rebuilt(names, trailing)) == [""] + Layout(names, trailing)
  {
    RebuiltIsJoined(names, trailing);
    var segs := Layout(names, trailing);
    SegmentsOfJoined(segs);
    assert "" + "/" + Joined(segs) == "/" + Joined(segs);
    SegmentsSplitAtSlash("", Joined(segs));
  }

  lemma NormalizeOfRebuilt(names: seq<string>, trailing: bool)
    requires Names(names)
    ensures Normalized(Rebuilt(names, trailing)) == Rebuilt(names, trailing)
  {
    var r := Rebuilt(names, trailing);
    SegmentsOfRebuilt(names, trailing);
    var segs := [""] + Layout(names, trailing);
    assert segs[1..] == Layout(names, trailing);
    assert Walk(segs, []) == Walk(segs[1..], []);
    if names == [] {
      assert [""][1..] == [];
      assert Walk([""], []) == Some([]);
    } else {
      RebuiltIsJoined(names, trailing);
      JoinedNamesEnd(names);
      var tail := if trailing then [""] else [];
      assert segs[1..] == names + tail;
      WalkOverNames(names, tail, []);
      assert [] + names == names;
      RebuiltEnding(names, trailing);
    }
  }

  lemma RebuiltEnding(names: seq<string>, trailing: bool)
    requires Names(names) && names != []
    ensures var r := Rebuilt(names, trailing); |r| > 1 && EndsWithSlash(r) == trailing
  {
    JoinedNamesEnd(names);
    var j := Joined(names);
    assert ("/" + j)[|j|] == j[|j| - 1];
  }

  /** Normalising twice is normalising once. */
  lemma NormalizePathIsIdempotent(path: string)
    requires Normalized(path) != ""
    ensures Normalized(Normalized(path)) == Normalized(path)
  {
    WalkKeepsNames(Segments(path), []);
    NormalizeOfRebuilt(Walk(Segments(path), []).value, |path| > 1 && EndsWithSlash(path));
  }

  /** A cleaned absolute path without dot segments is returned unchanged, so routing sees the
      same path before and after the response handler normalises it. */
  lemma NormalizeKeepsCleanPaths(path: string)
    requires IsClean(path) && path != "" && path[0] == '/'
    requires forall i :: 0 <= i < |Segments(path)| ==> Segments(path)[i] != "." && Segments(path)[i] != ".."
    ensures Normalized(path) == path
  {
    var rest := path[1..];
    assert path == "" + "/" + rest;
    SegmentsSplitAtSlash("", rest);
    JoinedOfSegments(rest);
    var names := Segments(rest);
    if rest == "" {
      NormalizeOfRebuilt([], false);
    } else {
      assert Segments(path) == [""] + names;
      forall i | 0 <= i < |names| ensures Ordinary(names[i]) {
        assert names[i] == Segments(path)[i + 1];
        assert path[1] == rest[0];
        CleanHasNoEmptySegment(rest, i);
      }
      assert Rebuilt(names, false) == path;
      NormalizeOfRebuilt(names, false);
    }
  }

  lemma {:induction false} CleanHasNoEmptySegment(s: string, i: nat)
    requires s != "" && NoDoubleSlash(s) && s[0] != '/' && s[|s| - 1] != '/'
    requires i < |Segments(s)|
    ensures Segments(s)[i] != ""
    decreases |s|
  {
    var k := Find(s, '/', 0);
    if k < |s| && i > 0 {
      var t := s[k + 1..];
      assert s[k] == '/' && !(s[k] == '/' && s[k + 1] == '/');
      forall j | 0 <= j < |t| - 1 ensures !(t[j] == '/' && t[j + 1] == '/') {
        assert t[j] == s[k + 1 + j] && t[j + 1] == s[k + 1 + j + 1];
      }
      assert t[|t| - 1] == s[|s| - 1];
      CleanHasNoEmptySegment(t, i - 1);
    }
  }
}
