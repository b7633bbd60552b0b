/** The request-line state machine of `HttpParser::_parseRequestLine` and the checks behind it,
    up to the path lookup. */
module RequestLine {
  datatype LineState =
    | Start | Verb | SpaceBeforeUri | Uri | Http11
    | H | HT | HTT | HTTP | FirstMajor | Major | FirstMinor | Minor
    | SpaceAfterVersion | AlmostDone

  /** Position of a state along the line. */
  function Rank(st: LineState): nat
  {
    match st
    case Start => 0
    case Verb => 1
    case SpaceBeforeUri => 2
    case Uri => 3
    case Http11 => 4
    case H => 5
    case HT => 6
    case HTT => 7
    case HTTP => 8
    case FirstMajor => 9
    case Major => 10
    case FirstMinor => 11
    case Minor => 12
    case SpaceAfterVersion => 13
    case AlmostDone => 14
  }

  /** The local variables of the scan; -1 stands for a pointer or number not set yet. */
  datatype Scan = Scan(st: LineState, verbStart: int, verbEnd: int, uriStart: int, uriEnd: int, major: int, minor: int)

  datatype Turn = Go(scan: Scan) | Reject(code: nat) | Finish(scan: Scan)

  datatype Outcome = Pending(scan: Scan) | Rejected(code: nat) | Finished(scan: Scan, length: nat)

  const FRESH := Scan(Start, -1, -1, -1, -1, -1, -1)
  const MAX_URI: nat := 8192

  predicate TokenChar(c: char)
  {
    'A' <= c <= 'Z' || 'a' <= c <= 'z' || '0' <= c <= '9' || c == '_' || c == '-'
  }

  predicate UriChar(c: char) { c as int >= 0x20 && c as int != 0x7f }

  predicate Digit(c: char) { '0' <= c <= '9' }

  function DigitValue(c: char): (v: int)
    requires Digit(c)
    ensures 0 <= v <= 9
  {
    c as int - '0' as int
  }

  function Expect(x: Scan, c: char, wanted: char, next: LineState): Turn
  {
    if c == wanted then Go(x.(st := next)) else Reject(400)
  }

  function LineEnd(x: Scan, c: char): Turn
  {
    if c == '\r' then Go(x.(st := AlmostDone))
    else if c == '\n' then Finish(x)
    else if c == ' ' then Go(x.(st := SpaceAfterVersion))
    else Reject(400)
  }

  /** One byte `c` at position `i`. */
  function Step(x: Scan, c: char, i: nat): Turn
  {
    match x.st
    case Start =>
      if c == '\r' || c == '\n' then Go(x)
      else if !TokenChar(c) then Reject(400)
      else Go(x.(verbStart := i, st := Verb))
    case Verb =>
      if c == ' ' then Go(x.(verbEnd := i, st := SpaceBeforeUri))
      else if !TokenChar(c) then Reject(400) else Go(x)
    case SpaceBeforeUri =>
      if c == ' ' then Go(x)
      else if UriChar(c) then Go(x.(uriStart := i, st := Uri)) else Reject(400)
    case Uri =>
      if c == ' ' then Go(x.(uriEnd := i, st := Http11))
      else if UriChar(c) then Go(x) else Reject(400)
    case Http11 => if c == ' ' then Go(x) else Expect(x, c, 'H', H)
    case H => Expect(x, c, 'T', HT)
    case HT => Expect(x, c, 'T', HTT)
    case HTT => Expect(x, c, 'P', HTTP)
    case HTTP => Expect(x, c, '/', FirstMajor)
    case FirstMajor =>
      if !Digit(c) then Reject(400) else if c != '1' then Reject(505)
      else Go(x.(major := DigitValue(c), st := Major))
    case Major =>
      if c == '.' then Go(x.(st := FirstMinor))
      else if Digit(c) && x.major <= 9 then Go(x.(major := x.major * 10 + DigitValue(c)))
      else Reject(400)
    case FirstMinor =>
      if !Digit(c) then Reject(400) else if c != '1' then Reject(505)
      else Go(x.(minor := DigitValue(c), st := Minor))
    case Minor =>
      if Digit(c) then (if x.minor > 9 then Reject(400) else Go(x.(minor := x.minor * 10 + DigitValue(c))))
      else LineEnd(x, c)
    case SpaceAfterVersion => LineEnd(x, c)
    case AlmostDone => if c == '\n' then Finish(x) else Reject(400)
  }

  /** The pointers set so far are ordered and behind position `i`. */
  ghost predicate Ordered(x: Scan, i: nat)
  {
    && (x.st != Start ==> 0 <= x.verbStart < i)
    && (Rank(x.st) >= 2 ==> x.verbStart < x.verbEnd < i)
    && (Rank(x.st) >= 3 ==> x.verbEnd < x.uriStart < i)
    && (Rank(x.st) >= 4 ==> x.uriStart < x.uriEnd < i)
    && (Rank(x.st) >= 10 ==> x.major > 0)
    && (Rank(x.st) >= 12 ==> x.minor > 0)
  }

  function Run(s: string, x: Scan, i: nat): (r: Outcome)
    requires i <= |s| && Ordered(x, i)
    ensures r.Finished? ==> i < r.length <= |s| && Ordered(r.scan, r.length)
                            && Rank(r.scan.st) >= 12
    ensures r.Rejected? ==> r.code == 400 || r.code == 505
    decreases |s| - i
  {
    if i == |s| then Pending(x)
    else
      match Step(x, s[i], i)
      case Go(y) => Run(s, y, i + 1)
      case Reject(code) => Rejected(code)
      case Finish(y) => Finished(y, i + 1)
  }

  /** What the bytes received so far say about the request line. */
  datatype Verdict =
    | Incomplete
    | Refused(code: nat)
    | UnknownVerb(verb: string)
    | Accepted(verb: string, uri: string, length: nat)

  predicate Supported(verb: string)
  {
    verb == "GET" || verb == "HEAD" || verb == "POST" || verb == "DELETE"
  }

  /** The checks after the scan, in their order: version, URI length, method. */
  function Checked(s: string, x: Scan, length: nat): Verdict
    requires length <= |s|
    requires 0 <= x.verbStart < x.verbEnd < x.uriStart < x.uriEnd < length
  {
    if !(x.major == 1 && (x.minor == 0 || x.minor == 1)) then Refused(505)
    else if x.uriEnd - x.uriStart > MAX_URI then Refused(414)
    else if !Supported(s[x.verbStart..x.verbEnd]) then UnknownVerb(s[x.verbStart..x.verbEnd])
    else Accepted(s[x.verbStart..x.verbEnd], s[x.uriStart..x.uriEnd], length)
  }

  function Examine(s: string): Verdict
  {
    match Run(s, FRESH, 0)
    case Pending(_) => Incomplete
    case Rejected(code) => Refused(code)
    case Finished(x, length) => Checked(s, x, length)
  }

  // ------------------------------------------------------------- stability

  lemma {:induction false} RunExtends(s: string, t: string, x: Scan, i: nat)
    requires i <= |s| && Ordered(x, i)
    ensures var r := Run(s, x, i);
            !r.Pending? ==> Run(s + t, x, i) == r
    decreases |s| - i
  {
    if i < |s| {
      assert (s + t)[i] == s[i];
      match Step(x, s[i], i)
      case Go(y) => RunExtends(s, t, y, i + 1);
      case Reject(_) =>
      case Finish(_) =>
    }
  }

  /** A verdict is final: later bytes never change it. */
  lemma VerdictIsStable(s: string, t: string)
    requires !Examine(s).Incomplete?
    ensures Examine(s + t) == Examine(s)
  {
    RunExtends(s, t, FRESH, 0);
    var r := Run(s, FRESH, 0);
    if r.Finished? {
      assert (s + t)[r.scan.verbStart..r.scan.verbEnd] == s[r.scan.verbStart..r.scan.verbEnd];
      assert (s + t)[r.scan.uriStart..r.scan.uriEnd] == s[r.scan.uriStart..r.scan.uriEnd];
    }
  }

  // -------------------------------------------------------------- language

  /** Where a request line is cut: blank lines up to `v`, method up to `g`, spaces up to `u`,
      target up to `t`, spaces up to `h`, version, spaces up to `e`, line end up to `n`. */
  datatype Cuts = Cuts(v: nat, g: nat, u: nat, t: nat, h: nat, e: nat, n: nat)

  /** Empty lines, method, spaces, target, spaces. */
  ghost predicate HeadAt(s: string, c: Cuts)
  {
    && c.v < c.g < c.u < c.t < c.h <= |s|
    && BlankLines(s, c.v)
    && TokenIn(s, c.v, c.g)
    && SpacesIn(s, c.g, c.u)
    && TargetIn(s, c.u, c.t)
    && SpacesIn(s, c.t, c.h)
  }

  /** Section 3.1.1 of RFC 7230, read leniently: runs of spaces for single ones, a bare LF for
      CR LF, and empty lines in front. */
  ghost predicate RequestLineAt(s: string, c: Cuts)
  {
    && c.h + 8 <= c.e < c.n <= |s| && HeadAt(s, c)
    && VersionAt(s, c.h, 8)
    && SpacesIn(s, c.h + 8, c.e)
    && (if c.n == c.e + 1 then s[c.e] == '\n' else c.n == c.e + 2 && s[c.e] == '\r' && s[c.e + 1] == '\n')
  }

  ghost predicate BlankLines(s: string, stop: nat)
    requires stop <= |s|
  {
    forall k :: 0 <= k < stop ==> s[k] == '\r' || s[k] == '\n'
  }

  ghost predicate TokenIn(s: string, from: nat, stop: nat)
    requires stop <= |s|
  {
    forall k :: from <= k < stop ==> TokenChar(s[k])
  }

  ghost predicate TargetIn(s: string, from: nat, stop: nat)
    requires stop <= |s|
  {
    forall k :: from <= k < stop ==> UriChar(s[k]) && s[k] != ' '
  }

  ghost predicate SpacesIn(s: string, from: nat, stop: nat)
    requires stop <= |s|
  {
    forall k :: from <= k < stop ==> s[k] == ' '
  }

  /** The first `n` bytes of "HTTP/1.1" stand at `h`. */
  predicate VersionAt(s: string, h: nat, n: nat)
    requires h + n <= |s|
  {
    && (n > 0 ==> s[h] == 'H') && (n > 1 ==> s[h + 1] == 'T') && (n > 2 ==> s[h + 2] == 'T')
    && (n > 3 ==> s[h + 3] == 'P') && (n > 4 ==> s[h + 4] == '/') && (n > 5 ==> s[h + 5] == '1')
    && (n > 6 ==> s[h + 6] == '.') && (n > 7 ==> s[h + 7] == '1')
  }

  lemma {:induction false} RunLead(s: string, i: nat, j: nat)
    requires i <= j <= |s| && BlankLines(s, j)
    ensures Run(s, FRESH, i) == Run(s, FRESH, j)
    decreases j - i
  {
    if i < j { RunLead(s, i + 1, j); }
  }

  lemma {:induction false} RunVerb(s: string, x: Scan, i: nat, j: nat)
    requires i <= j <= |s| && Ordered(x, i) && x.st == Verb
    requires TokenIn(s, i, j)
    ensures Ordered(x, j) && Run(s, x, i) == Run(s, x, j)
    decreases j - i
  {
    if i < j { RunVerb(s, x, i + 1, j); }
  }

  lemma {:induction false} RunSpaces(s: string, x: Scan, i: nat, j: nat)
    requires i <= j <= |s| && Ordered(x, i) && (x.st == SpaceBeforeUri || x.st == Http11 || x.st == SpaceAfterVersion)
    requires SpacesIn(s, i, j)
    ensures Ordered(x, j) && Run(s, x, i) == Run(s, x, j)
    decreases j - i
  {
    if i < j { RunSpaces(s, x, i + 1, j); }
  }

  lemma {:induction false} RunUri(s: string, x: Scan, i: nat, j: nat)
    requires i <= j <= |s| && Ordered(x, i) && x.st == Uri
    requires TargetIn(s, i, j)
    ensures Ordered(x, j) && Run(s, x, i) == Run(s, x, j)
    decreases j - i
  {
    if i < j { RunUri(s, x, i + 1, j); }
  }

  lemma RunVersion(s: string, x: Scan, h: nat)
    requires Ordered(x, h) && x.st == Http11 && h + 8 <= |s| && VersionAt(s, h, 8)
    ensures var y := x.(st := Minor, major := 1, minor := 1);
            Ordered(y, h + 8) && Run(s, x, h) == Run(s, y, h + 8)
  {
    var x1 := x.(st := H);
    assert Run(s, x, h) == Run(s, x1, h + 1);
    var x2 := x.(st := HT);
    assert Run(s, x1, h + 1) == Run(s, x2, h + 2);
    var x3 := x.(st := HTT);
    assert Run(s, x2, h + 2) == Run(s, x3, h + 3);
    var x4 := x.(st := HTTP);
    assert Run(s, x3, h + 3) == Run(s, x4, h + 4);
    var x5 := x.(st := FirstMajor);
    assert Run(s, x4, h + 4) == Run(s, x5, h + 5);
    var x6 := x.(st := Major, major := 1);
    assert Run(s, x5, h + 5) == Run(s, x6, h + 6);
    var x7 := x6.(st := FirstMinor);
    assert Run(s, x6, h + 6) == Run(s, x7, h + 7);
  }

  /** After the version: optional spaces, then CR LF or LF. */
  lemma RunLineEnd(s: string, x: Scan, i: nat, j: nat)
    requires i <= j < |s| && Ordered(x, i) && x.st == Minor && SpacesIn(s, i, j)
    requires s[j] == '\n' || (j + 1 < |s| && s[j] == '\r' && s[j + 1] == '\n')
    ensures var length := if s[j] == '\n' then j + 1 else j + 2;
            exists st :: Run(s, x, i) == Finished(x.(st := st), length)
  {
    var y := x;
    if i < j {
      y := x.(st := SpaceAfterVersion);
      assert s[i] == ' ';
      assert Run(s, x, i) == Run(s, y, i + 1);
      RunSpaces(s, y, i + 1, j);
    }
    if s[j] == '\n' {
      assert Run(s, y, j) == Finished(y, j + 1);
    } else {
      var z := x.(st := AlmostDone);
      assert Run(s, y, j) == Run(s, z, j + 1);
      assert Run(s, z, j + 1) == Finished(z, j + 2);
    }
  }

  lemma RunAcceptsVerb(s: string, c: Cuts)
    requires HeadAt(s, c)
    ensures Run(s, FRESH, 0) == Run(s, Scan(SpaceBeforeUri, c.v, c.g, -1, -1, -1, -1), c.u)
  {
    RunLead(s, 0, c.v);
    var x1 := Scan(Verb, c.v, -1, -1, -1, -1, -1);
    assert TokenChar(s[c.v]);
    assert Run(s, FRESH, c.v) == Run(s, x1, c.v + 1);
    RunVerb(s, x1, c.v + 1, c.g);
    var x2 := Scan(SpaceBeforeUri, c.v, c.g, -1, -1, -1, -1);
    assert s[c.g] == ' ';
    assert Run(s, x1, c.g) == Run(s, x2, c.g + 1);
    RunSpaces(s, x2, c.g + 1, c.u);
  }

  lemma RunAcceptsTarget(s: string, c: Cuts)
    requires HeadAt(s, c)
    ensures Run(s, Scan(SpaceBeforeUri, c.v, c.g, -1, -1, -1, -1), c.u)
         == Run(s, Scan(Http11, c.v, c.g, c.u, c.t, -1, -1), c.h)
  {
    var x2 := Scan(SpaceBeforeUri, c.v, c.g, -1, -1, -1, -1);
    var x3 := Scan(Uri, c.v, c.g, c.u, -1, -1, -1);
    assert UriChar(s[c.u]) && s[c.u] != ' ';
    assert Run(s, x2, c.u) == Run(s, x3, c.u + 1);
    RunUri(s, x3, c.u + 1, c.t);
    var x4 := Scan(Http11, c.v, c.g, c.u, c.t, -1, -1);
    assert s[c.t] == ' ';
    assert Run(s, x3, c.t) == Run(s, x4, c.t + 1);
    RunSpaces(s, x4, c.t + 1, c.h);
  }

  /** Every well-formed line in front of any further bytes is scanned to its end. */
  lemma RunAcceptsLine(s: string, c: Cuts)
    requires RequestLineAt(s, c)
    ensures exists st :: Run(s, FRESH, 0) == Finished(Scan(st, c.v, c.g, c.u, c.t, 1, 1), c.n)
  {
    RunAcceptsVerb(s, c);
    RunAcceptsTarget(s, c);
    RunVersion(s, Scan(Http11, c.v, c.g, c.u, c.t, -1, -1), c.h);
    RunLineEnd(s, Scan(Minor, c.v, c.g, c.u, c.t, 1, 1), c.h + 8, c.e);
  }

  /** What the scan has established about s[..i], state by state. */
  ghost predicate Shape(s: string, x: Scan, i: nat)
  {
    && i <= |s| && Ordered(x, i)
    && (if x.st == Start then x == FRESH && BlankLines(s, i) else BlankLines(s, x.verbStart))
    && (x.st == Verb ==> TokenIn(s, x.verbStart, i))
    && (Rank(x.st) >= 2 ==> TokenIn(s, x.verbStart, x.verbEnd))
    && (x.st == SpaceBeforeUri ==> SpacesIn(s, x.verbEnd, i))
    && (Rank(x.st) >= 3 ==> SpacesIn(s, x.verbEnd, x.uriStart))
    && (x.st == Uri ==> TargetIn(s, x.uriStart, i))
    && (Rank(x.st) >= 4 ==> TargetIn(s, x.uriStart, x.uriEnd) && Tail(s, x, i))
  }

  ghost predicate Tail(s: string, x: Scan, i: nat)
    requires i <= |s| && Ordered(x, i) && Rank(x.st) >= 4
  {
    if Rank(x.st) <= 9 then VersionBegun(s, x, i, Rank(x.st) - 4)
    else if x.major != 1 then true
    else if Rank(x.st) <= 11 then VersionBegun(s, x, i, Rank(x.st) - 4)
    else if x.minor != 1 then true
    else if x.st == Minor then VersionBegun(s, x, i, 8)
    else if x.st == SpaceAfterVersion then VersionThenSpaces(s, x, i)
    else s[i - 1] == '\r' && VersionThenSpaces(s, x, i - 1)
  }

  /** s[..i] ends in spaces after the target and the first `n` bytes of the version. */
  ghost predicate VersionBegun(s: string, x: Scan, i: nat, n: nat)
    requires i <= |s|
  {
    0 <= x.uriEnd < i - n && SpacesIn(s, x.uriEnd, i - n) && VersionAt(s, i - n, n)
  }

  ghost predicate VersionThenSpaces(s: string, x: Scan, i: int)
  {
    0 <= x.uriEnd && i <= |s| &&
    exists h: nat :: VersionSpan(s, x, h, i)
  }

  ghost predicate VersionSpan(s: string, x: Scan, h: nat, i: int)
    requires 0 <= x.uriEnd && i <= |s|
  {
    x.uriEnd < h && h + 8 <= i && SpacesIn(s, x.uriEnd, h) && VersionAt(s, h, 8) && SpacesIn(s, h + 8, i)
  }

  lemma HeadStep(s: string, x: Scan, i: nat)
    requires i < |s| && Shape(s, x, i) && Step(x, s[i], i).Go? && Rank(x.st) <= 3
    ensures Shape(s, Step(x, s[i], i).scan, i + 1)
  {
  }

  lemma LiteralStep(s: string, x: Scan, i: nat)
    requires i < |s| && Shape(s, x, i) && Step(x, s[i], i).Go? && 4 <= Rank(x.st) <= 9
    ensures Shape(s, Step(x, s[i], i).scan, i + 1)
  {
  }

  lemma NumberStep(s: string, x: Scan, i: nat)
    requires i < |s| && Shape(s, x, i) && Step(x, s[i], i).Go? && 10 <= Rank(x.st) <= 11
    ensures Shape(s, Step(x, s[i], i).scan, i + 1)
  {
  }

  lemma EndingTail(s: string, x: Scan, i: nat)
    requires i < |s| && Shape(s, x, i) && Step(x, s[i], i).Go? && 12 <= Rank(x.st)
    ensures Tail(s, Step(x, s[i], i).scan, i + 1)
  {
    var y := Step(x, s[i], i).scan;
    if x.minor == 1 && x.major == 1 && y.minor == 1 {
      var h: nat;
      if x.st == Minor { h := i - 8; } else { h :| VersionSpan(s, x, h, i); }
      assert VersionSpan(s, y, h, i);
      if y.st == SpaceAfterVersion { assert VersionSpan(s, y, h, i + 1); }
    }
  }

  lemma EndingStep(s: string, x: Scan, i: nat)
    requires i < |s| && Shape(s, x, i) && Step(x, s[i], i).Go? && 12 <= Rank(x.st)
    ensures Shape(s, Step(x, s[i], i).scan, i + 1)
  {
    EndingTail(s, x, i);
  }

  lemma ShapeStep(s: string, x: Scan, i: nat)
    requires i < |s| && Shape(s, x, i) && Step(x, s[i], i).Go?
    ensures Shape(s, Step(x, s[i], i).scan, i + 1)
  {
    if Rank(x.st) >= 12 { EndingStep(s, x, i); }
    else if Rank(x.st) >= 10 { NumberStep(s, x, i); }
    else if Rank(x.st) >= 4 { LiteralStep(s, x, i); }
    else { HeadStep(s, x, i); }
  }

  /** The line read off a scan that is about to finish at the LF at position `i`. */
  lemma CutsAtEnd(s: string, x: Scan, i: nat) returns (c: Cuts)
    requires i < |s| && Shape(s, x, i) && Step(x, s[i], i) == Finish(x) && x.major == 1 && x.minor == 1
    ensures RequestLineAt(s, c) && c.n == i + 1
    ensures c.v == x.verbStart && c.g == x.verbEnd && c.u == x.uriStart && c.t == x.uriEnd
  {
    var stop: nat := if x.st == AlmostDone then i - 1 else i;
    var h: nat;
    if x.st == Minor { h := i - 8; } else { h :| VersionSpan(s, x, h, stop); }
    c := Cuts(x.verbStart, x.verbEnd, x.uriStart, x.uriEnd, h, stop, i + 1);
  }

  /** A scan that finished with version 1.1 has seen a well-formed line and stopped at its LF. */
  lemma {:induction false} RunFindsLine(s: string, x: Scan, i: nat) returns (c: Cuts)
    requires Shape(s, x, i)
    requires Run(s, x, i).Finished? && Run(s, x, i).scan.major == 1 && Run(s, x, i).scan.minor == 1
    ensures RequestLineAt(s, c) && c.n == Run(s, x, i).length
    ensures var y := Run(s, x, i).scan; c.v == y.verbStart && c.g == y.verbEnd && c.u == y.uriStart && c.t == y.uriEnd
    decreases |s| - i
  {
    match Step(x, s[i], i)
    case Go(y) =>
      ShapeStep(s, x, i);
      c := RunFindsLine(s, y, i + 1);
    case Finish(y) =>
      c := CutsAtEnd(s, x, i);
  }

  ghost predicate Begins(s: string, c: Cuts, verb: string, uri: string, length: nat)
  {
    RequestLineAt(s, c) && c.n == length && s[c.v..c.g] == verb && s[c.u..c.t] == uri
  }

  /** Exactly the well-formed lines with a short enough target and a known method are accepted,
      and the bytes to consume are exactly that line. */
  lemma AcceptsExactlyRequestLines(s: string, verb: string, uri: string, length: nat)
    ensures Examine(s) == Accepted(verb, uri, length) <==>
            |uri| <= MAX_URI && Supported(verb) && exists c :: Begins(s, c, verb, uri, length)
  {
    if Examine(s) == Accepted(verb, uri, length) {
      assert Run(s, FRESH, 0).scan.minor != 0 by { MinorIsPositive(s); }
      var c := RunFindsLine(s, FRESH, 0);
      assert Begins(s, c, verb, uri, length);
    }
    if c :| Begins(s, c, verb, uri, length) {
      LineIsExamined(s, c);
    }
  }

  lemma MinorIsPositive(s: string)
    requires Run(s, FRESH, 0).Finished?
    ensures Run(s, FRESH, 0).scan.minor > 0
  {
  }

  /** On a well-formed line only length and method are left to object to, in that order. */
  lemma LineIsExamined(s: string, c: Cuts)
    requires RequestLineAt(s, c)
    ensures var verb, uri := s[c.v..c.g], s[c.u..c.t];
            Examine(s) ==
            if |uri| > MAX_URI then Refused(414)
            else if !Supported(verb) then UnknownVerb(verb)
            else Accepted(verb, uri, c.n)
  {
    RunAcceptsLine(s, c);
  }

  /** Another version than 1.x, or 1.x with a minor number that does not start with 1, is refused with
      505 as soon as its digit is read, whatever the length of the target and the method. */
  lemma OtherVersionIsRefusedFirst(s: string, c: Cuts)
    requires HeadAt(s, c) && c.h + 8 <= |s|
    requires VersionAt(s, c.h, 5) && Digit(s[c.h + 5])
    requires s[c.h + 5] != '1' || (VersionAt(s, c.h, 7) && Digit(s[c.h + 7]) && s[c.h + 7] != '1')
    ensures Examine(s) == Refused(505)
  {
    RunAcceptsVerb(s, c);
    RunAcceptsTarget(s, c);
    RunRefusesVersion(s, Scan(Http11, c.v, c.g, c.u, c.t, -1, -1), c.h);
  }

  lemma RunToNumber(s: string, x: Scan, h: nat)
    requires Ordered(x, h) && x.st == Http11 && h + 5 <= |s| && VersionAt(s, h, 5)
    ensures Run(s, x, h) == Run(s, x.(st := FirstMajor), h + 5)
  {
    assert Run(s, x, h) == Run(s, x.(st := H), h + 1);
    assert Run(s, x.(st := H), h + 1) == Run(s, x.(st := HT), h + 2);
    assert Run(s, x.(st := HT), h + 2) == Run(s, x.(st := HTT), h + 3);
    assert Run(s, x.(st := HTT), h + 3) == Run(s, x.(st := HTTP), h + 4);
  }

  lemma RunRefusesVersion(s: string, x: Scan, h: nat)
    requires Ordered(x, h) && x.st == Http11 && h + 8 <= |s|
    requires VersionAt(s, h, 5) && Digit(s[h + 5])
    requires s[h + 5] != '1' || (VersionAt(s, h, 7) && Digit(s[h + 7]) && s[h + 7] != '1')
    ensures Run(s, x, h) == Rejected(505)
  {
    RunToNumber(s, x, h);
    if s[h + 5] == '1' {
      var y := x.(st := Major, major := 1);
      assert Run(s, x.(st := FirstMajor), h + 5) == Run(s, y, h + 6);
      assert Run(s, y, h + 6) == Run(s, y.(st := FirstMinor), h + 7);
    }
  }

  /** A version number as the scan lets it through: a 1, and perhaps one digit more. */
  predicate NumberAt(s: string, i: nat, n: nat)
    requires i + n <= |s|
  {
    (n == 1 || n == 2) && s[i] == '1' && (n == 2 ==> Digit(s[i + 1]))
  }

  /** "HTTP/" and two such numbers, of `m` and `n` digits. */
  ghost predicate NumbersAt(s: string, h: nat, m: nat, n: nat)
    requires h + 6 + m + n <= |s|
  {
    VersionAt(s, h, 5) && NumberAt(s, h + 5, m) && s[h + 5 + m] == '.' && NumberAt(s, h + 6 + m, n)
  }

  function NumberOf(s: string, i: nat, n: nat): (v: int)
    requires i + n <= |s| && NumberAt(s, i, n)
    ensures v > 0 && (v == 1 <==> n == 1)
  {
    if n == 1 then 1 else 10 + DigitValue(s[i + 1])
  }

  lemma RunMajor(s: string, x: Scan, i: nat, m: nat)
    requires Ordered(x, i) && x.st == FirstMajor && i + m < |s| && NumberAt(s, i, m) && s[i + m] == '.'
    ensures Run(s, x, i) == Run(s, x.(st := FirstMinor, major := NumberOf(s, i, m)), i + m + 1)
  {
    var y := x.(st := Major, major := 1);
    assert Run(s, x, i) == Run(s, y, i + 1);
    if m == 2 { assert Run(s, y, i + 1) == Run(s, y.(major := NumberOf(s, i, m)), i + 2); }
    MajorEnds(s, y.(major := NumberOf(s, i, m)), i + m);
  }

  lemma MajorEnds(s: string, x: Scan, i: nat)
    requires Ordered(x, i) && x.st == Major && i < |s| && s[i] == '.'
    ensures Run(s, x, i) == Run(s, x.(st := FirstMinor), i + 1)
  {
  }

  lemma RunMinor(s: string, x: Scan, i: nat, n: nat)
    requires Ordered(x, i) && x.st == FirstMinor && i + n <= |s| && NumberAt(s, i, n)
    ensures Run(s, x, i) == Run(s, x.(st := Minor, minor := NumberOf(s, i, n)), i + n)
  {
    var y := x.(st := Minor, minor := 1);
    MinorBegins(s, x, i);
    if n == 2 { MinorGoesOn(s, y, i + 1); }
  }

  lemma MinorBegins(s: string, x: Scan, i: nat)
    requires Ordered(x, i) && x.st == FirstMinor && i < |s| && s[i] == '1'
    ensures Run(s, x, i) == Run(s, x.(st := Minor, minor := 1), i + 1)
  {
  }

  lemma MinorGoesOn(s: string, x: Scan, i: nat)
    requires Ordered(x, i) && x.st == Minor && x.minor == 1 && i < |s| && Digit(s[i])
    ensures Run(s, x, i) == Run(s, x.(minor := 10 + DigitValue(s[i])), i + 1)
  {
  }

  /** And a longer number such as 1.12 is refused with 505 at the end of its line, ahead of the length of
      the target and of the method. */
  lemma LongVersionIsRefusedFirst(s: string, c: Cuts, m: nat, n: nat)
    requires HeadAt(s, c) && c.h + 6 + m + n <= c.e < |s| && NumbersAt(s, c.h, m, n) && (m == 2 || n == 2)
    requires SpacesIn(s, c.h + 6 + m + n, c.e)
    requires s[c.e] == '\n' || (c.e + 1 < |s| && s[c.e] == '\r' && s[c.e + 1] == '\n')
    ensures Examine(s) == Refused(505)
  {
    RunAcceptsVerb(s, c);
    RunAcceptsTarget(s, c);
    RunToNumber(s, Scan(Http11, c.v, c.g, c.u, c.t, -1, -1), c.h);
    RunNumbers(s, Scan(FirstMajor, c.v, c.g, c.u, c.t, -1, -1), c.h, m, n, c.e);
  }

  lemma RunNumbers(s: string, x: Scan, h: nat, m: nat, n: nat, e: nat)
    requires h + 6 + m + n <= e < |s| && NumbersAt(s, h, m, n) && Ordered(x, h + 5) && x.st == FirstMajor
    requires SpacesIn(s, h + 6 + m + n, e) && (s[e] == '\n' || (e + 1 < |s| && s[e] == '\r' && s[e + 1] == '\n'))
    ensures var r := Run(s, x, h + 5);
            r.Finished? && r.scan == x.(st := r.scan.st, major := NumberOf(s, h + 5, m), minor := NumberOf(s, h + 6 + m, n))
  {
    var y := x.(st := FirstMinor, major := NumberOf(s, h + 5, m));
    RunMajor(s, x, h + 5, m);
    RunMinor(s, y, h + 6 + m, n);
    RunLineEnd(s, y.(st := Minor, minor := NumberOf(s, h + 6 + m, n)), h + 6 + m + n, e);
  }

  // --------------------------------------------------------- viable prefixes

  /** The shortest line; the byte at the rank of a state goes on from it. */
  const SHORTEST := "G / HTTP/1.1\n"

  function Onward(st: LineState): (n: nat) { if Rank(st) < 12 then Rank(st) else 12 }

  lemma RestAdvances(x: Scan, i: nat)
    requires Ordered(x, i)
    ensures var turn := Step(x, SHORTEST[Onward(x.st)], i);
            if Rank(x.st) >= 12 then turn.Finish? else turn.Go? && Rank(turn.scan.st) == Rank(x.st) + 1
  {
  }

  lemma OneOn(s: string, i: nat, line: string, n: nat)
    requires i <= |s| && n < |line| && s[i..] == line[n..]
    ensures i < |s| && s[i] == line[n] && s[i + 1..] == line[n + 1..]
  {
    assert s[i] == s[i..][0] && s[i + 1..] == s[i..][1..] == line[n + 1..];
  }

  lemma RunAdvances(s: string, x: Scan, i: nat) returns (y: Scan)
    requires i < |s| && Ordered(x, i) && s[i] == SHORTEST[Onward(x.st)]
    ensures if Rank(x.st) >= 12 then Run(s, x, i).Finished?
            else Ordered(y, i + 1) && Run(s, x, i) == Run(s, y, i + 1) && Rank(y.st) == Rank(x.st) + 1
  {
    RestAdvances(x, i);
    y := Step(x, s[i], i).scan;
  }

  lemma {:induction false} RestCompletes(s: string, x: Scan, i: nat)
    requires i <= |s| && Ordered(x, i) && s[i..] == SHORTEST[Onward(x.st)..]
    ensures Run(s, x, i).Finished?
    decreases 14 - Rank(x.st)
  {
    OneOn(s, i, SHORTEST, Onward(x.st));
    var y := RunAdvances(s, x, i);
    if Rank(x.st) < 12 { RestCompletes(s, y, i + 1); }
  }

  lemma {:induction false} PendingIsReached(s: string, t: string, x: Scan, i: nat)
    requires i <= |s| && Ordered(x, i) && Run(s, x, i).Pending?
    ensures var y := Run(s, x, i).scan; Ordered(y, |s|) && Run(s + t, x, i) == Run(s + t, y, |s|)
    decreases |s| - i
  {
    if i < |s| {
      assert (s + t)[i] == s[i];
      PendingIsReached(s, t, Step(x, s[i], i).scan, i + 1);
    }
  }

  /** The end of a line is found in the bytes. */
  ghost predicate EndsLine(s: string) { Run(s, FRESH, 0).Finished? }

  /** The scan refuses exactly when no further bytes whatever could complete the line, so at the first byte
      that rules them all out, and neither method nor length have been looked at. */
  lemma ScanRefusesIff(s: string)
    ensures Run(s, FRESH, 0).Rejected? <==> forall t :: !EndsLine(s + t)
    ensures Examine(s) == Refused(400) <==> Run(s, FRESH, 0) == Rejected(400)
  {
    var r := Run(s, FRESH, 0);
    if r.Rejected? {
      forall t ensures !EndsLine(s + t) { RunExtends(s, t, FRESH, 0); }
    } else if r.Finished? {
      assert s + "" == s;
      assert EndsLine(s + "");
    } else {
      var t := SHORTEST[Onward(r.scan.st)..];
      PendingIsReached(s, t, FRESH, 0);
      assert (s + t)[|s|..] == t;
      RestCompletes(s + t, r.scan, |s|);
      assert EndsLine(s + t);
    }
  }
}
