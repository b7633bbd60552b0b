/** The header block: `HttpParser::_parseHeaders` of src/HttpParser.cpp up to its final checks. */
module Headers {
  import opened Text

  type HeaderMap = map<string, string>

  const MAX_LINE: nat := 8192
  const MAX_HEADERS: nat := 100

  /** Names that may occur once. */
  const SINGLETON_HEADERS: set<string> := {
    "host", "content-length", "transfer-encoding", "content-type", "content-location",
    "authorization", "date", "location", "retry-after", "max-forwards", "if-modified-since",
    "if-unmodified-since", "if-range"
  }

  function NameOf(line: string): string
  {
    Lowered(Trimmed(line[..Find(line, ':', 0)]))
  }

  function ValueOf(line: string): string
  {
    var colon := Find(line, ':', 0);
    if colon == |line| then "" else Trimmed(line[colon + 1..])
  }

  datatype Added = Stored(headers: HeaderMap) | Rejected(code: nat, headers: HeaderMap)

  /** One header line into the map. */
  function AddLine(headers: HeaderMap, line: string): (r: Added)
    ensures if r.Stored? then |r.headers| <= MAX_HEADERS else r.code == 400 || r.code == 431
  {
    var name, value := NameOf(line), ValueOf(line);
    if Find(line, ':', 0) == |line| || name == "" then Rejected(400, headers)
    else if name in headers && name in SINGLETON_HEADERS then Rejected(400, headers)
    else
      var h := headers[name := if name in headers then headers[name] + ", " + value else value];
      if |h| > MAX_HEADERS then Rejected(431, h) else Stored(h)
  }

  /** Where the line loop stops: out of bytes, on an error, or at the empty line. */
  datatype Block =
    | Waiting(headers: HeaderMap, rest: string)
    | Broken(code: nat, headers: HeaderMap, rest: string)
    | Ended(headers: HeaderMap, rest: string)

  function Collect(headers: HeaderMap, buf: string): Block
    decreases |buf|
  {
    var k := Crlf(buf, 0);
    if k.None? then Waiting(headers, buf)
    else if k.value > MAX_LINE then Broken(431, headers, buf)
    else if k.value == 0 then Ended(headers, buf[2..])
    else
      match AddLine(headers, buf[..k.value])
      case Rejected(code, h) => Broken(code, h, buf[k.value + 2..])
      case Stored(h) => Collect(h, buf[k.value + 2..])
  }

  function WithMore(b: Block, t: string): Block
  {
    match b
    case Waiting(h, rest) => Collect(h, rest + t)
    case Broken(code, h, rest) => Broken(code, h, rest + t)
    case Ended(h, rest) => Ended(h, rest + t)
  }

  /** Bytes that arrive later are read exactly as if they had been there from the start. */
  lemma {:induction false} CollectExtends(headers: HeaderMap, b: string, t: string)
    ensures Collect(headers, b + t) == WithMore(Collect(headers, b), t)
    decreases |b|
  {
    var k := Crlf(b, 0);
    if k.Some? {
      CrlfStable(b, t);
      assert (b + t)[2..] == b[2..] + t;
      assert (b + t)[..k.value] == b[..k.value];
      assert (b + t)[k.value + 2..] == b[k.value + 2..] + t;
      if 0 < k.value <= MAX_LINE && AddLine(headers, b[..k.value]).Stored? {
        CollectExtends(AddLine(headers, b[..k.value]).headers, b[k.value + 2..], t);
      }
    }
  }

  // ------------------------------------------------------------ reference

  /** The lines of a block as sent, each closed by CR LF. */
  function TextOf(lines: seq<string>): string
  {
    if lines == [] then "" else lines[0] + "\r\n" + TextOf(lines[1..])
  }

  function ValuesFor(lines: seq<string>, name: string): seq<string>
  {
    if lines == [] then []
    else (if NameOf(lines[0]) == name then [ValueOf(lines[0])] else []) + ValuesFor(lines[1..], name)
  }

  /** Values in order, joined by ", " (section 3.2.2 of RFC 7230). */
  function CommaJoined(values: seq<string>): string
    requires values != []
  {
    if |values| == 1 then values[0] else CommaJoined(values[..|values| - 1]) + ", " + values[|values| - 1]
  }

  function Before(headers: HeaderMap, name: string): seq<string>
  {
    if name in headers then [headers[name]] else []
  }

  lemma {:induction false} CommaJoinedSplits(x: string, y: string, rest: seq<string>)
    ensures CommaJoined([x, y] + rest) == CommaJoined([x + ", " + y] + rest)
    decreases |rest|
  {
    if rest == [] {
      assert [x, y] + rest == [x, y] && [x, y][..1] == [x];
      assert [x + ", " + y] + rest == [x + ", " + y];
    } else {
      var n := |rest| - 1;
      assert ([x, y] + rest)[..n + 2] == [x, y] + rest[..n];
      assert ([x + ", " + y] + rest)[..n + 1] == [x + ", " + y] + rest[..n];
      CommaJoinedSplits(x, y, rest[..n]);
    }
  }

  function AllFor(headers: HeaderMap, lines: seq<string>, name: string): seq<string>
  {
    Before(headers, name) + ValuesFor(lines, name)
  }

  /** What a finished block means: the map holds, for every name, all its values in the order
      they arrived; nothing else; at most one value for a singleton; at most 100 names. */
  ghost predicate Folds(headers: HeaderMap, lines: seq<string>, result: HeaderMap)
  {
    && (forall name :: name in result <==> AllFor(headers, lines, name) != [])
    && (forall name :: name in result ==> result[name] == CommaJoined(AllFor(headers, lines, name)))
    && (forall name :: name in result && name in SINGLETON_HEADERS ==> |AllFor(headers, lines, name)| == 1)
    && (|headers| <= MAX_HEADERS ==> |result| <= MAX_HEADERS)
  }

  lemma FoldsNone(headers: HeaderMap)
    ensures Folds(headers, [], headers)
  {
    forall name ensures AllFor(headers, [], name) == Before(headers, name) {}
  }

  lemma ValuesForCons(line: string, lines: seq<string>, name: string)
    ensures ValuesFor([line] + lines, name) ==
            (if NameOf(line) == name then [ValueOf(line)] else []) + ValuesFor(lines, name)
  {
    assert ([line] + lines)[1..] == lines;
  }

  lemma OtherNameUntouched(headers: HeaderMap, line: string, lines: seq<string>, name: string)
    requires AddLine(headers, line).Stored? && NameOf(line) != name
    ensures AllFor(headers, [line] + lines, name) == AllFor(AddLine(headers, line).headers, lines, name)
  {
    ValuesForCons(line, lines, name);
  }

  lemma FirstValueStored(headers: HeaderMap, line: string, lines: seq<string>)
    requires AddLine(headers, line).Stored? && NameOf(line) !in headers
    ensures AllFor(headers, [line] + lines, NameOf(line)) == AllFor(AddLine(headers, line).headers, lines, NameOf(line))
  {
    ValuesForCons(line, lines, NameOf(line));
  }

  lemma LaterValueJoined(headers: HeaderMap, line: string, lines: seq<string>)
    requires AddLine(headers, line).Stored? && NameOf(line) in headers
    ensures NameOf(line) !in SINGLETON_HEADERS
    ensures var was, now := AllFor(headers, [line] + lines, NameOf(line)), AllFor(AddLine(headers, line).headers, lines, NameOf(line));
            was != [] && now != [] && CommaJoined(was) == CommaJoined(now)
  {
    var name, value, more := NameOf(line), ValueOf(line), ValuesFor(lines, NameOf(line));
    ValuesForCons(line, lines, name);
    var old_ := headers[name];
    assert AllFor(headers, [line] + lines, name) == [old_, value] + more;
    assert AllFor(AddLine(headers, line).headers, lines, name) == [old_ + ", " + value] + more;
    CommaJoinedSplits(old_, value, more);
  }

  lemma ValuesAfterAdd(headers: HeaderMap, line: string, lines: seq<string>, name: string)
    requires AddLine(headers, line).Stored?
    ensures var was, now := AllFor(headers, [line] + lines, name), AllFor(AddLine(headers, line).headers, lines, name);
            && (was != [] <==> now != []) && (was != [] ==> CommaJoined(was) == CommaJoined(now))
            && (name in SINGLETON_HEADERS ==> |was| == |now|)
  {
    if NameOf(line) != name {
      OtherNameUntouched(headers, line, lines, name);
    } else if name in headers {
      LaterValueJoined(headers, line, lines);
    } else {
      FirstValueStored(headers, line, lines);
    }
  }

  lemma FoldsCons(headers: HeaderMap, line: string, lines: seq<string>, result: HeaderMap)
    requires AddLine(headers, line).Stored? && Folds(AddLine(headers, line).headers, lines, result)
    ensures Folds(headers, [line] + lines, result)
  {
    forall name
      ensures name in result <==> AllFor(headers, [line] + lines, name) != []
      ensures name in result ==> result[name] == CommaJoined(AllFor(headers, [line] + lines, name))
      ensures name in result && name in SINGLETON_HEADERS ==> |AllFor(headers, [line] + lines, name)| == 1
    {
      ValuesAfterAdd(headers, line, lines, name);
    }
  }

  /** Non-empty lines within the limit that contain no CR LF. */
  ghost predicate AreLines(lines: seq<string>)
  {
    forall line :: line in lines ==> 0 < |line| <= MAX_LINE && Crlf(line + "\r\n", 0) == Some(|line|)
  }

  /** A block that was read to its end is the fold of its lines, and the bytes consumed are
      those lines and the empty one. */
  lemma {:induction false} BlockIsFold(headers: HeaderMap, buf: string) returns (lines: seq<string>)
    requires Collect(headers, buf).Ended?
    ensures Folds(headers, lines, Collect(headers, buf).headers)
    ensures buf == TextOf(lines) + "\r\n" + Collect(headers, buf).rest
    ensures AreLines(lines)
    decreases |buf|
  {
    var k := Crlf(buf, 0).value;
    if k == 0 {
      lines := [];
      FoldsNone(headers);
      assert buf == "\r\n" + buf[2..];
      assert TextOf([]) + "\r\n" == "\r\n";
    } else {
      lines := LineThenBlock(headers, buf, k);
    }
  }

  lemma {:induction false} LineThenBlock(headers: HeaderMap, buf: string, k: nat) returns (lines: seq<string>)
    requires Crlf(buf, 0) == Some(k) && 0 < k <= MAX_LINE && Collect(headers, buf).Ended?
    ensures Folds(headers, lines, Collect(headers, buf).headers)
    ensures buf == TextOf(lines) + "\r\n" + Collect(headers, buf).rest
    ensures AreLines(lines)
    decreases |buf|, 0
  {
    var line, rest := buf[..k], buf[k + 2..];
    var added := AddLine(headers, line);
    assert added.Stored? && Collect(headers, buf) == Collect(added.headers, rest);
    var tail := BlockIsFold(added.headers, rest);
    lines := [line] + tail;
    FoldsCons(headers, line, tail, Collect(headers, buf).headers);
    FirstLine(buf, k);
    TextOfCons(buf, k, tail, Collect(headers, buf).rest);
  }

  lemma TextOfCons(buf: string, k: nat, tail: seq<string>, rest: string)
    requires Crlf(buf, 0) == Some(k) && buf[k + 2..] == TextOf(tail) + "\r\n" + rest
    ensures buf == TextOf([buf[..k]] + tail) + "\r\n" + rest
  {
    assert ([buf[..k]] + tail)[1..] == tail;
    assert buf == buf[..k] + "\r\n" + buf[k + 2..];
  }

  lemma FirstLine(buf: string, k: nat)
    requires Crlf(buf, 0) == Some(k)
    ensures Crlf(buf[..k] + "\r\n", 0) == Some(k)
  {
    var t := buf[..k] + "\r\n";
    assert t == buf[..k + 2];
    CrlfIs(t, k);
  }

  // ------------------------------------------------- which blocks are accepted

  /** The lines one after the other, up to the first that is rejected. */
  function AddAll(headers: HeaderMap, lines: seq<string>): Added
    decreases |lines|
  {
    if lines == [] then Stored(headers)
    else
      match AddLine(headers, lines[0])
      case Rejected(code, h) => Rejected(code, h)
      case Stored(h) => AddAll(h, lines[1..])
  }

  function Onward(added: Added, rest: string): Block
  {
    if added.Stored? then Collect(added.headers, rest) else Broken(added.code, added.headers, rest)
  }

  lemma CollectsLine(headers: HeaderMap, line: string, rest: string)
    requires line != "" && Crlf(line + "\r\n", 0) == Some(|line|)
    ensures Collect(headers, line + "\r\n" + rest) ==
            if |line| > MAX_LINE then Broken(431, headers, line + "\r\n" + rest) else Onward(AddLine(headers, line), rest)
  {
    var buf := line + "\r\n" + rest;
    CrlfStable(line + "\r\n", rest);
    assert buf[..|line|] == line && buf[|line| + 2..] == rest;
  }

  lemma {:induction false} LinesArePassed(headers: HeaderMap, lines: seq<string>, tail: string)
    requires AreLines(lines)
    ensures var b, added := Collect(headers, TextOf(lines) + tail), AddAll(headers, lines);
            if added.Stored? then b == Collect(added.headers, tail)
            else b.Broken? && b.code == added.code && b.headers == added.headers
    decreases |lines|
  {
    if lines == [] {
      assert TextOf(lines) + tail == tail;
    } else {
      var more := TextOf(lines[1..]) + tail;
      assert TextOf(lines) + tail == lines[0] + "\r\n" + more;
      CollectsLine(headers, lines[0], more);
      var added := AddLine(headers, lines[0]);
      if added.Stored? { LinesArePassed(added.headers, lines[1..], tail); }
    }
  }

  /** Whatever the lines, the block is what they make of the map, or the rejection of the first that is
      rejected; the bytes behind the empty line are left. */
  lemma BlockOfLines(headers: HeaderMap, lines: seq<string>, rest: string)
    requires AreLines(lines)
    ensures var b, added := Collect(headers, TextOf(lines) + ("\r\n" + rest)), AddAll(headers, lines);
            if added.Stored? then b == Ended(added.headers, rest)
            else b.Broken? && b.code == added.code && b.headers == added.headers
  {
    LinesArePassed(headers, lines, "\r\n" + rest);
    CrlfIs("\r\n" + rest, 0);
    assert ("\r\n" + rest)[2..] == rest;
  }

  /** A line that is too long is refused with 431, whatever its name, once the lines before were stored. */
  lemma LongLineIsRefused(headers: HeaderMap, lines: seq<string>, line: string, rest: string)
    requires AreLines(lines) && AddAll(headers, lines).Stored? && |line| > MAX_LINE && Crlf(line + "\r\n", 0) == Some(|line|)
    ensures var b := Collect(headers, TextOf(lines) + (line + "\r\n" + rest)); b.Broken? && b.code == 431
  {
    LinesArePassed(headers, lines, line + "\r\n" + rest);
    CollectsLine(AddAll(headers, lines).headers, line, rest);
  }

  /** A colon with a name in front of it. */
  predicate HasName(line: string) { Find(line, ':', 0) < |line| && NameOf(line) != "" }

  function NamesIn(lines: seq<string>): (r: set<string>)
  {
    if lines == [] then {} else {NameOf(lines[0])} + NamesIn(lines[1..])
  }

  /** What is asked of the lines of a block: names, singletons once, at most 100 names. */
  ghost predicate Acceptable(headers: HeaderMap, lines: seq<string>)
  {
    && (forall line :: line in lines ==> HasName(line))
    && (forall name :: name in SINGLETON_HEADERS ==> |AllFor(headers, lines, name)| <= 1)
    && |headers.Keys + NamesIn(lines)| <= MAX_HEADERS
  }

  lemma SubsetIsSmaller(a: set<string>, b: set<string>)
    requires a <= b
    ensures |a| <= |b|
  {
    assert |b| == |a| + |b - a| by { assert b == a + (b - a); }
  }

  lemma NamesAfterAdd(headers: HeaderMap, line: string, lines: seq<string>)
    requires AddLine(headers, line).Stored?
    ensures AddLine(headers, line).headers.Keys + NamesIn(lines) == headers.Keys + NamesIn([line] + lines)
  {
    assert ([line] + lines)[1..] == lines;
  }

  lemma FirstLineStored(headers: HeaderMap, line: string, lines: seq<string>)
    requires Acceptable(headers, [line] + lines)
    ensures AddLine(headers, line).Stored?
  {
    var name := NameOf(line);
    assert line in [line] + lines && HasName(line);
    ValuesForCons(line, lines, name);
    assert name in headers ==> |AllFor(headers, [line] + lines, name)| >= 2;
    assert ([line] + lines)[1..] == lines;
    var h := headers[name := if name in headers then headers[name] + ", " + ValueOf(line) else ValueOf(line)];
    SubsetIsSmaller(h.Keys, headers.Keys + NamesIn([line] + lines));
    assert |h| == |h.Keys|;
  }

  lemma AcceptableAfterAdd(headers: HeaderMap, line: string, lines: seq<string>)
    requires AddLine(headers, line).Stored?
    ensures Acceptable(headers, [line] + lines) <==> Acceptable(AddLine(headers, line).headers, lines)
  {
    var h := AddLine(headers, line).headers;
    NamesAfterAdd(headers, line, lines);
    forall name | name in SINGLETON_HEADERS ensures |AllFor(headers, [line] + lines, name)| == |AllFor(h, lines, name)| {
      ValuesAfterAdd(headers, line, lines, name);
    }
    assert forall l :: l in [line] + lines <==> l == line || l in lines;
  }

  /** A block is accepted if and only if every line has a name, no singleton occurs twice and there are at
      most 100 names. */
  lemma {:induction false} AcceptedIff(headers: HeaderMap, lines: seq<string>)
    requires |headers| <= MAX_HEADERS && forall name :: name in SINGLETON_HEADERS ==> |Before(headers, name)| <= 1
    ensures AddAll(headers, lines).Stored? <==> Acceptable(headers, lines)
    decreases |lines|
  {
    if lines == [] {
      assert headers.Keys + NamesIn(lines) == headers.Keys;
      assert |headers| == |headers.Keys|;
      forall name ensures AllFor(headers, lines, name) == Before(headers, name) {}
    } else {
      var line, rest := lines[0], lines[1..];
      assert lines == [line] + rest;
      if AddLine(headers, line).Stored? {
        AcceptableAfterAdd(headers, line, rest);
        AcceptedIff(AddLine(headers, line).headers, rest);
      } else if Acceptable(headers, lines) {
        FirstLineStored(headers, line, rest);
      }
    }
  }

  /** The code of a refused block is that of its first offending line: 400 for a line without a name or a
      singleton that occurs again, 431 for the name after the hundredth. */
  lemma {:induction false} RefusalIsFirstOffence(headers: HeaderMap, lines: seq<string>) returns (k: nat)
    requires AddAll(headers, lines).Rejected?
    ensures k < |lines| && AddAll(headers, lines[..k]).Stored?
    ensures var h, line := AddAll(headers, lines[..k]).headers, lines[k];
            var offends := !HasName(line) || (NameOf(line) in h && NameOf(line) in SINGLETON_HEADERS);
            && AddAll(headers, lines).code == (if offends then 400 else 431)
            && (offends || |h.Keys + {NameOf(line)}| > MAX_HEADERS)
    decreases |lines|
  {
    var added := AddLine(headers, lines[0]);
    if added.Rejected? {
      k := 0;
      assert lines[..0] == [];
      var name := NameOf(lines[0]);
      NewKey(headers, name, if name in headers then headers[name] + ", " + ValueOf(lines[0]) else ValueOf(lines[0]));
    } else {
      var i := RefusalIsFirstOffence(added.headers, lines[1..]);
      k := i + 1;
      assert lines[..k][1..] == lines[1..][..i];
    }
  }

  lemma NewKey(headers: HeaderMap, name: string, value: string)
    ensures |headers[name := value]| == |headers.Keys + {name}|
  {
    assert headers[name := value].Keys == headers.Keys + {name};
  }

  // -------------------------------------------------------- Content-Length

  predicate Decimal(s: string) { forall i :: 0 <= i < |s| ==> '0' <= s[i] <= '9' }

  function DecimalValue(s: string): nat
  {
    if s == "" || !('0' <= s[|s| - 1] <= '9') then 0
    else DecimalValue(s[..|s| - 1]) * 10 + (s[|s| - 1] as int - '0' as int)
  }

  datatype Length = Length(value: nat) | BadLength(code: nat)

  /** `size_t` holds the numbers below this one. */
  const WIDTH: nat := 0x1_0000_0000_0000_0000

  /** The digit loop: the bound is checked after every digit, on what is left of the number in a `size_t`. */
  function LengthFrom(s: string, i: nat, acc: nat, bound: nat): (r: Length)
    requires i <= |s|
    ensures r.BadLength? ==> r.code == 400 || r.code == 413
    ensures r.Length? && acc <= bound ==> r.value <= bound
    decreases |s| - i
  {
    if i == |s| then Length(acc)
    else if !('0' <= s[i] <= '9') then BadLength(400)
    else
      var next := (acc * 10 + (s[i] as int - '0' as int)) % WIDTH;
      if next > bound then BadLength(413) else LengthFrom(s, i + 1, next, bound)
  }

  function ContentLength(s: string, bound: nat): Length
  {
    if s == "" then BadLength(400) else LengthFrom(s, 0, 0, bound)
  }

  method ParseLength(s: string, bound: nat) returns (r: Length)
    ensures r == ContentLength(s, bound)
  {
    if |s| == 0 { return BadLength(400); }
    var cl: nat := 0;
    for i := 0 to |s|
      invariant ContentLength(s, bound) == LengthFrom(s, i, cl, bound)
    {
      if !('0' <= s[i] <= '9') { return BadLength(400); }
      cl := (cl * 10 + (s[i] as int - '0' as int)) % WIDTH;
      if cl > bound { return BadLength(413); }
    }
    r := Length(cl);
  }

  lemma {:induction false} DecimalGrows(s: string, i: nat, n: nat)
    requires i <= n <= |s| && Decimal(s)
    ensures DecimalValue(s[..i]) <= DecimalValue(s[..n])
    decreases n - i
  {
    if i < n {
      DecimalGrows(s, i, n - 1);
      assert s[..n][..n - 1] == s[..n - 1];
    }
  }

  /** Bounds below this one keep the digit loop from wrapping around. */
  const EXACT: nat := WIDTH / 10

  lemma NothingWraps(acc: nat, digit: nat)
    requires acc < EXACT && digit <= 9
    ensures (acc * 10 + digit) % WIDTH == acc * 10 + digit
  {
  }

  lemma DigitIsRead(s: string, i: nat, bound: nat)
    requires i < |s| && Decimal(s) && DecimalValue(s[..i]) <= bound && DecimalValue(s[..i]) < EXACT
    ensures var next := DecimalValue(s[..i + 1]);
            LengthFrom(s, i, DecimalValue(s[..i]), bound) ==
            if next > bound then BadLength(413) else LengthFrom(s, i + 1, next, bound)
  {
    assert s[..i + 1][..i] == s[..i];
    NothingWraps(DecimalValue(s[..i]), s[i] as int - '0' as int);
  }

  lemma {:induction false} LengthFromIs(s: string, i: nat, bound: nat)
    requires i <= |s| && Decimal(s) && DecimalValue(s[..i]) <= bound < EXACT
    ensures LengthFrom(s, i, DecimalValue(s[..i]), bound) == ExactLength(s, bound)
    decreases |s| - i
  {
    if i == |s| {
      assert s[..i] == s;
    } else {
      DigitIsRead(s, i, bound);
      if DecimalValue(s[..i + 1]) > bound {
        DecimalGrows(s, i + 1, |s|);
        assert s[..|s|] == s;
      } else {
        LengthFromIs(s, i + 1, bound);
      }
    }
  }

  /** What the digits say: their value, or 413 exactly when it exceeds the bound. */
  function ExactLength(s: string, bound: nat): Length
  {
    if DecimalValue(s) <= bound then Length(DecimalValue(s)) else BadLength(413)
  }

  /** On digits the guard rejects exactly the values above a bound that is small enough. */
  lemma ContentLengthIsExact(s: string, bound: nat)
    requires s != "" && Decimal(s) && bound < EXACT
    ensures ContentLength(s, bound) == ExactLength(s, bound)
  {
    assert s[..0] == "";
    LengthFromIs(s, 0, bound);
  }

  lemma {:induction false} NumberIsWritten(n: nat) returns (s: string)
    ensures s != "" && Decimal(s) && DecimalValue(s) == n
  {
    var digit := [(n % 10 + '0' as int) as char];
    if n < 10 {
      s := digit;
      assert s[..0] == "";
    } else {
      var front := NumberIsWritten(n / 10);
      s := front + digit;
      assert s[..|front|] == front;
    }
  }

  lemma {:induction false} PrefixIsRead(s: string, i: nat, n: nat, bound: nat)
    requires i <= n <= |s| && Decimal(s) && DecimalValue(s[..n]) <= bound && DecimalValue(s[..n]) <= EXACT
    ensures LengthFrom(s, i, DecimalValue(s[..i]), bound) == LengthFrom(s, n, DecimalValue(s[..n]), bound)
    decreases n - i
  {
    if i < n {
      DecimalGrows(s, i + 1, n);
      assert s[..i + 1][..i] == s[..i];
      DigitIsRead(s, i, bound);
      PrefixIsRead(s, i + 1, n, bound);
    }
  }

  /** Under a larger bound 2^64 is read as 0, however it is written. */
  lemma WideLengthWraps(s: string, bound: nat)
    requires Decimal(s) && DecimalValue(s) == WIDTH && bound >= EXACT
    ensures ContentLength(s, bound) == Length(0)
  {
    var n := |s| - 1;
    assert s[..0] == "" && s[..n] == s[..|s| - 1];
    assert DecimalValue(s[..n]) == EXACT;
    PrefixIsRead(s, 0, n, bound);
  }

  /** Lengths are understood as they are written if and only if the bound is below a tenth of 2^64. */
  lemma LengthsAreExactIff(bound: nat)
    ensures (forall s :: s != "" && Decimal(s) ==> ContentLength(s, bound) == ExactLength(s, bound)) <==> bound < EXACT
  {
    if bound < EXACT {
      forall s | s != "" && Decimal(s) ensures ContentLength(s, bound) == ExactLength(s, bound) { ContentLengthIsExact(s, bound); }
    } else {
      var s := NumberIsWritten(WIDTH);
      WideLengthWraps(s, bound);
      assert ContentLength(s, bound) != ExactLength(s, bound);
    }
  }

  lemma {:induction false} LengthNeedsDigits(s: string, i: nat, acc: nat, bound: nat)
    requires i <= |s|
    ensures LengthFrom(s, i, acc, bound).Length? ==> forall k :: i <= k < |s| ==> '0' <= s[k] <= '9'
    decreases |s| - i
  {
    if i < |s| && '0' <= s[i] <= '9' {
      LengthNeedsDigits(s, i + 1, (acc * 10 + (s[i] as int - '0' as int)) % WIDTH, bound);
    }
  }
}
