/** What decoding, cleaning and normalising do to the parts of a path, and what hexadecimal digits are worth:
    laws that determine the functions of module Uri without their definitions. */
module UriLaws {
  import opened Text
  import opened Uri
  import opened Chunked

  // ------------------------------------------------------ hexadecimal digits

  const LOWER_HEX := "0123456789abcdef"
  const UPPER_HEX := "0123456789ABCDEF"

  predicate Table(digits: string) { digits == LOWER_HEX || digits == UPPER_HEX }

  /** A digit is worth its place in one of the two tables. */
  lemma HexValueIsPlace(digits: string, n: nat)
    requires Table(digits) && n < 16
    ensures |digits| == 16 && HexDigit(digits[n]) && HexValue(digits[n]) == n
  {
  }

  lemma OnlyTheseAreDigits(c: char)
    ensures HexDigit(c) <==> exists n: nat :: n < 16 && (LOWER_HEX[n] == c || UPPER_HEX[n] == c)
  {
    if HexDigit(c) {
      var n := HexValue(c);
      assert LOWER_HEX[n] == c || UPPER_HEX[n] == c;
    }
  }

  /** A number in positional notation, most significant digit first. */
  function InHex(digits: string, n: nat): (s: string)
    requires |digits| == 16
    ensures s != ""
  {
    if n < 16 then [digits[n]] else InHex(digits, n / 16) + [digits[n % 16]]
  }

  lemma {:induction false} InHexIsHex(digits: string, n: nat)
    requires Table(digits)
    ensures AllHex(InHex(digits, n)) && HexNumber(InHex(digits, n)) == n
  {
    HexValueIsPlace(digits, n % 16);
    if n < 16 {
      assert InHex(digits, n)[..0] == "" && HexNumber("") == 0;
    } else {
      InHexIsHex(digits, n / 16);
      var s := InHex(digits, n);
      assert s[..|s| - 1] == InHex(digits, n / 16);
    }
  }

  /** Chunk sizes written in either case are read back. */
  lemma SizesReadBack(digits: string, n: nat)
    requires Table(digits)
    ensures SizeOf(InHex(digits, n)) == if n <= MAX_ALLOWED_CHUNK then Size(n) else BadLine(413)
  {
    InHexIsHex(digits, n);
    SizeGuardsAreExact(InHex(digits, n), "");
    assert InHex(digits, n) + "" == InHex(digits, n);
  }

  /** The digits of a size line: those in front of its extension. */
  ghost predicate SizeParts(line: string, digits: string, ext: string)
  {
    && line == digits + ext && digits != "" && AllHex(digits)
    && (ext != "" ==> ext[0] == ';') && forall i :: 0 <= i < |ext| ==> ExtensionChar(ext[i])
  }

  lemma {:induction false} DigitsInFront(line: string, i: nat, acc: nat)
    requires i <= |line| && SizeFrom(line, i, acc).Sized?
    ensures var e := SizeFrom(line, i, acc).ext;
            i <= e <= |line| && (e < |line| ==> line[e] == ';') && forall j :: i <= j < e ==> HexDigit(line[j])
    decreases |line| - i
  {
    if i < |line| && line[i] != ';' { DigitsInFront(line, i + 1, acc * 16 + HexValue(line[i])); }
  }

  /** Exactly such lines are sizes, and their digits say how large. */
  lemma SizeIsReadIff(line: string, n: nat)
    ensures SizeOf(line) == Size(n) <==>
            n <= MAX_ALLOWED_CHUNK && exists digits, ext :: SizeParts(line, digits, ext) && HexNumber(digits) == n
  {
    if SizeOf(line) == Size(n) {
      DigitsInFront(line, 0, 0);
      var e := SizeFrom(line, 0, 0).ext;
      assert line == line[..e] + line[e..];
      forall i | 0 <= i < |line[e..]| ensures ExtensionChar(line[e..][i]) { assert line[e..][i] == line[e + i]; }
      assert SizeParts(line, line[..e], line[e..]);
      SizeGuardsAreExact(line[..e], line[e..]);
    }
    if digits, ext :| n <= MAX_ALLOWED_CHUNK && SizeParts(line, digits, ext) && HexNumber(digits) == n {
      SizeGuardsAreExact(digits, ext);
    }
  }

  /** A size line is refused as too large only when its digits say so; otherwise as malformed. */
  lemma {:induction false} TooLargeOnlyIf(line: string, i: nat, acc: nat)
    requires i <= |line| && AllHex(line[..i]) && acc == HexNumber(line[..i]) && SizeFrom(line, i, acc) == BadSize(413)
    ensures exists k :: i < k <= |line| && AllHex(line[..k]) && HexNumber(line[..k]) > MAX_ALLOWED_CHUNK
    decreases |line| - i
  {
    var next := acc * 16 + HexValue(line[i]);
    assert line[..i + 1][..i] == line[..i];
    assert AllHex(line[..i + 1]) && HexNumber(line[..i + 1]) == next;
    if acc <= MAX_ALLOWED_CHUNK / 16 && next <= MAX_ALLOWED_CHUNK { TooLargeOnlyIf(line, i + 1, next); }
  }

  // ----------------------------------------------------------------- escapes

  /** The escape of a byte, each digit in either case. */
  function Escape(high: string, low: string, v: nat): string
    requires |high| == 16 && |low| == 16 && v < 256
  {
    "%" + [high[v / 16]] + [low[v % 16]]
  }

  lemma EscapeIs(high: string, low: string, v: nat, rest: string)
    requires Table(high) && Table(low) && v < 256
    ensures var s := Escape(high, low, v) + rest;
            && |s| > 2 && s[0] == '%' && s[1] == high[v / 16] && s[2] == low[v % 16] && s[1..] == [s[1]] + ([s[2]] + rest) && s[3..] == rest
            && HexDigit(s[1]) && HexDigit(s[2]) && HexValue(s[1]) * 16 + HexValue(s[2]) == v
  {
    HexValueIsPlace(high, v / 16);
    HexValueIsPlace(low, v % 16);
  }

  /** An escape of any byte but a slash is decoded to that byte, whatever follows. */
  lemma EscapesAreDecoded(high: string, low: string, v: nat, rest: string)
    requires Table(high) && Table(low) && v < 256 && v != '/' as int
    ensures PctDecoded(Escape(high, low, v) + rest) == [v as char] + PctDecoded(rest)
  {
    EscapeIs(high, low, v, rest);
  }

  /** An escape of a slash stays as it is written. */
  lemma SlashEscapesStay(high: string, low: string, rest: string)
    requires Table(high) && Table(low)
    ensures PctDecoded(Escape(high, low, '/' as int) + rest) == Escape(high, low, '/' as int) + PctDecoded(rest)
  {
    var v := '/' as int;
    EscapeIs(high, low, v, rest);
    var a, b := high[v / 16], low[v % 16];
    OthersStay(b, rest);
    OthersStay(a, [b] + rest);
    assert "%" + ([a] + ([b] + PctDecoded(rest))) == Escape(high, low, v) + PctDecoded(rest);
  }

  /** Every other byte stays, also a percent sign without two digits behind it. */
  lemma OthersStay(c: char, rest: string)
    requires c == '%' ==> |rest| < 2 || !HexDigit(rest[0]) || !HexDigit(rest[1])
    ensures PctDecoded([c] + rest) == [c] + PctDecoded(rest)
  {
    var s := [c] + rest;
    assert s[1..] == rest;
    if |s| > 2 { assert s[1] == rest[0] && s[2] == rest[1]; }
  }

  // ---------------------------------------------------------------- cleaning

  lemma {:induction false} SqueezedOfDouble(a: string, b: string, last: bool)
    ensures Squeezed(a + ("//" + b), last) == Squeezed(a + ("/" + b), last)
    decreases |a|
  {
    if a == "" {
      assert a + ("//" + b) == "//" + b && a + ("/" + b) == "/" + b;
      assert ("//" + b)[1..] == "/" + b && ("/" + b)[1..] == b;
    } else {
      assert (a + ("//" + b))[1..] == a[1..] + ("//" + b) && (a + ("/" + b))[1..] == a[1..] + ("/" + b);
      SqueezedOfDouble(a[1..], b, a[0] == '/');
    }
  }

  /** Two slashes are one. */
  lemma CleanedOfDouble(a: string, b: string)
    ensures Cleaned(a + ("//" + b)) == Cleaned(a + ("/" + b))
  {
    SqueezedOfDouble(a, b, false);
  }

  lemma {:induction false} SqueezedAtEnd(a: string, last: bool)
    requires a != ""
    ensures Squeezed(a + "/", last) == Squeezed(a, last) + (if a[|a| - 1] == '/' then "" else "/")
    ensures a[|a| - 1] != '/' ==> Squeezed(a, last) != "" && Squeezed(a, last)[|Squeezed(a, last)| - 1] != '/'
    decreases |a|
  {
    assert (a + "/")[1..] == a[1..] + "/";
    if |a| == 1 {
      assert a[1..] == "" && a[1..] + "/" == "/" && "/"[1..] == "";
    } else {
      SqueezedAtEnd(a[1..], a[0] == '/');
      assert a[1..][|a[1..]| - 1] == a[|a| - 1];
    }
  }

  /** A slash at the end does not matter. */
  lemma CleanedOfTrailing(a: string)
    requires a != ""
    ensures Cleaned(a + "/") == Cleaned(a)
  {
    SqueezedAtEnd(a, false);
    var r := Squeezed(a, false);
    if a[|a| - 1] != '/' { assert (r + "/")[..|r|] == r; } else { assert r + "" == r; }
  }

  // -------------------------------------------------------------- normalising

  lemma Regrouped(head: string, tail: string, b: string)
    ensures (head + "/" + tail) + "/" + b == head + "/" + (tail + "/" + b)
  {
  }

  lemma ListsRegroup(x: seq<string>, y: seq<string>, z: seq<string>)
    ensures x + (y + z) == (x + y) + z
  {
  }

  lemma {:induction false} SegmentsJoin(a: string, b: string)
    ensures Segments(a + "/" + b) == Segments(a) + Segments(b)
    decreases |a|
  {
    var k := Find(a, '/', 0);
    if k == |a| {
      SegmentsSplitAtSlash(a, b);
      SlashFreeIsOneSegment(a);
    } else {
      var head, tail := a[..k], a[k + 1..];
      assert a == head + "/" + tail;
      SegmentsJoin(tail, b);
      Regrouped(head, tail, b);
      SegmentsSplitAtSlash(head, tail + "/" + b);
      SegmentsSplitAtSlash(head, tail);
      ListsRegroup([head], Segments(tail), Segments(b));
    }
  }

  function WalkOn(segs: seq<string>, stack: Option<seq<string>>): Option<seq<string>>
  {
    if stack.None? then None else Walk(segs, stack.value)
  }

  lemma {:induction false} WalkJoins(xs: seq<string>, ys: seq<string>, stack: seq<string>)
    ensures Walk(xs + ys, stack) == WalkOn(ys, Walk(xs, stack))
    decreases |xs|
  {
    if xs == [] {
      assert xs + ys == ys;
    } else {
      assert (xs + ys)[1..] == xs[1..] + ys;
      var next := Push(stack, xs[0]);
      if next.Some? { WalkJoins(xs[1..], ys, next.value); }
    }
  }

  lemma WalkAcross(a: string, b: string)
    ensures Walk(Segments(a + "/" + b), []) == WalkOn(Segments(b), Walk(Segments(a), []))
  {
    SegmentsJoin(a, b);
    WalkJoins(Segments(a), Segments(b), []);
  }

  /** Paths that lead to the same stack and end alike. */
  lemma SameNormalized(p: string, q: string)
    requires Walk(Segments(p), []) == Walk(Segments(q), [])
    requires p != "" && q != "" && (EndsWithSlash(p) <==> EndsWithSlash(q)) && (|p| == 1 || |q| == 1 ==> Walk(Segments(p), []) == Some([]))
    ensures Normalized(p) == Normalized(q)
  {
  }

  /** A segment that leaves every stack as it was. */
  lemma IdleSegment(a: string, seg: string, b: string)
    requires seg == "" || seg == "."
    ensures Normalized(a + "/" + (seg + "/" + b)) == Normalized(a + "/" + b)
  {
    var p, q := a + "/" + (seg + "/" + b), a + "/" + b;
    WalkAcross(a, seg + "/" + b);
    WalkAcross(a, b);
    SegmentsSplitAtSlash(seg, b);
    assert ([seg] + Segments(b))[1..] == Segments(b);
    Endings(a, seg, b);
    if |q| == 1 { assert a == "" && b == ""; RootIsEmpty(); }
    SameNormalized(p, q);
  }

  lemma RootIsEmpty()
    ensures Walk(Segments("" + "/" + ""), []) == Some([])
  {
    SegmentsSplitAtSlash("", "");
    SlashFreeIsOneSegment("");
    assert [""] + [""] == ["", ""] && ["", ""][1..] == [""] && [""][1..] == [];
    var none: seq<string> := [];
    assert Walk([""], none) == Some(none);
  }

  lemma Endings(a: string, middle: string, b: string)
    ensures EndsWithSlash(a + "/" + (middle + "/" + b)) <==> EndsWithSlash(a + "/" + b)
    ensures |a + "/" + (middle + "/" + b)| > 1
  {
    var p, q := a + "/" + (middle + "/" + b), a + "/" + b;
    if b == "" {
      assert q[|q| - 1] == '/' && p[|p| - 1] == '/';
    } else {
      assert q[|q| - 1] == b[|b| - 1] && p[|p| - 1] == b[|b| - 1];
    }
  }

  /** A dot segment is nothing. */
  lemma DotIsNothing(a: string, b: string)
    ensures Normalized(a + "/" + ("." + "/" + b)) == Normalized(a + "/" + b)
  {
    IdleSegment(a, ".", b);
  }

  /** An empty segment is nothing. */
  lemma EmptyIsNothing(a: string, b: string)
    ensures Normalized(a + "/" + ("" + "/" + b)) == Normalized(a + "/" + b)
  {
    IdleSegment(a, "", b);
  }

  lemma NameThenParent(name: string, stack: seq<string>)
    requires NoSlash(name) && Ordinary(name)
    ensures Walk([name, ".."], stack) == Some(stack)
  {
    assert [name, ".."][1..] == [".."] && [".."][1..] == [];
    assert (stack + [name])[..|stack|] == stack;
  }

  /** A name and the parent segment behind it are nothing, wherever they stand. */
  lemma ParentTakesTheNameBefore(a: string, name: string, b: string)
    requires NoSlash(name) && Ordinary(name)
    ensures Normalized(a + "/" + (name + "/" + ".." + "/" + b)) == Normalized(a + "/" + b)
  {
    var middle := name + "/" + "..";
    var p, q := a + "/" + (middle + "/" + b), a + "/" + b;
    WalkAcross(a, middle + "/" + b);
    WalkAcross(a, b);
    SegmentsSplitAtSlash(name, "..");
    SlashFreeIsOneSegment("..");
    assert Segments(middle) == [name] + [".."] == [name, ".."];
    SegmentsJoin(middle, b);
    var stack := Walk(Segments(a), []);
    if stack.Some? {
      WalkJoins([name, ".."], Segments(b), stack.value);
      NameThenParent(name, stack.value);
    }
    Endings(a, middle, b);
    if |q| == 1 { assert a == "" && b == ""; RootIsEmpty(); }
    SameNormalized(p, q);
  }

  /** Likewise at the end of a path. */
  lemma ParentAtTheEnd(a: string, name: string)
    requires NoSlash(name) && Ordinary(name) && !EndsWithSlash(a)
    ensures Normalized(a + "/" + (name + "/" + "..")) == Normalized(a)
  {
    var p := a + "/" + (name + "/" + "..");
    WalkAcross(a, name + "/" + "..");
    SegmentsSplitAtSlash(name, "..");
    SlashFreeIsOneSegment("..");
    assert Segments(name + "/" + "..") == [name] + [".."] == [name, ".."];
    var stack := Walk(Segments(a), []);
    if stack.Some? { NameThenParent(name, stack.value); }
    assert p[|p| - 1] == '.';
  }

  /** A path that climbs above the root is refused whatever follows. */
  lemma RefusalStays(a: string, b: string)
    requires Normalized(a) == ""
    ensures Normalized(a + "/" + b) == ""
  {
    WalkAcross(a, b);
  }
}
