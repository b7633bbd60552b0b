/** The header part of CGI output: where it ends, and the response header made of it
    (`findHeaderEnd` and `flushCgiHeaders` of src/EventLoop/EventLoop_helper_cgi.cpp). */
module CgiHeaders {
  import opened Text
  import Buffers

  const BLANK_LINE := "\r\n\r\n"

  /** Offset of the body: any CRLFCRLF is preferred to an earlier LFLF. */
  function HeaderEnd(s: string): (r: Option<nat>)
    ensures r.Some? ==> 2 <= r.value <= |s| && s[r.value - 1] == '\n'
  {
    var crlf := Seek(s, BLANK_LINE, 0);
    if crlf.Some? then Some(crlf.value + 4)
    else
      var lf := Seek(s, "\n\n", 0);
      if lf.Some? then Some(lf.value + 2) else None
  }

  lemma FourAt(s: string, i: nat)
    ensures OccursAt(s, BLANK_LINE, i) <==> i + 3 < |s| && s[i] == '\r' && s[i + 1] == '\n' && s[i + 2] == '\r' && s[i + 3] == '\n'
  {
  }

  lemma TwoAt(s: string, i: nat)
    ensures OccursAt(s, "\n\n", i) <==> i + 1 < |s| && s[i] == '\n' && s[i + 1] == '\n'
  {
  }

  method FindHeaderEnd(d: string) returns (r: Option<nat>)
    ensures r == HeaderEnd(d)
  {
    var n := |d|;
    if n < 2 { return None; }
    var i := 0;
    while i + 3 < n
      invariant Seek(d, BLANK_LINE, 0) == Seek(d, BLANK_LINE, i)
    {
      FourAt(d, i);
      if d[i] == '\r' && d[i + 1] == '\n' && d[i + 2] == '\r' && d[i + 3] == '\n' { return Some(i + 4); }
      i := i + 1;
    }
    i := 0;
    while i + 1 < n
      invariant Seek(d, "\n\n", 0) == Seek(d, "\n\n", i)
    {
      TwoAt(d, i);
      if d[i] == '\n' && d[i + 1] == '\n' { return Some(i + 2); }
      i := i + 1;
    }
    return None;
  }

  /** The boundary found can depend on how the pipe was read: it is final exactly when it was a
      CRLFCRLF, or none follows. */
  lemma BoundaryIsFinalIff(s: string, t: string)
    requires HeaderEnd(s).Some?
    ensures HeaderEnd(s + t) == HeaderEnd(s) <==> Seek(s, BLANK_LINE, 0).Some? || Seek(s + t, BLANK_LINE, 0).None?
  {
    if Seek(s, BLANK_LINE, 0).Some? {
      SeekStable(s, t, BLANK_LINE);
    } else {
      var k := Seek(s, "\n\n", 0).value;
      SeekStable(s, t, "\n\n");
      TwoAt(s + t, k);
      if Seek(s + t, BLANK_LINE, 0).Some? {
        FourAt(s + t, Seek(s + t, BLANK_LINE, 0).value);
      }
    }
  }

  /** A read split that moves the boundary. */
  lemma BoundaryMoves()
    ensures HeaderEnd("a\n\nb") == Some(3) && HeaderEnd("a\n\nb" + "\r\n\r\n") == Some(8)
  {
    var s, t := "a\n\nb", "\r\n\r\n";
    forall i: nat ensures !OccursAt(s, BLANK_LINE, i) { FourAt(s, i); }
    TwoAt(s, 0);
    TwoAt(s, 1);
    SeekIs(s, "\n\n", 0, 1);
    forall i: nat | i <= 4 ensures OccursAt(s + t, BLANK_LINE, i) <==> i == 4 { FourAt(s + t, i); }
    SeekIs(s + t, BLANK_LINE, 0, 4);
  }

  // -------------------------------------------------------- response header

  /** What the header lines amount to. */
  datatype Fields = Fields(status: int, contentType: string, extra: string)

  const DEFAULTS := Fields(200, "text/html", "")

  /** How the C++ library reads an `int`, and the status code with its reason phrase. */
  datatype Phrases = Phrases(read: string -> int, status: int -> string)

  ghost predicate Printable(phrases: Phrases)
  {
    forall n :: NoFeed(phrases.status(n))
  }

  predicate NoFeed(s: string) { '\n' !in s }

  function WithoutLeadingBlanks(s: string): string
  {
    var k := BlankEnd(s, 0);
    if k < |s| then s[k..] else s
  }

  function FoldLine(phrases: Phrases, f: Fields, line: string): Fields
  {
    var colon := Find(line, ':', 0);
    if colon == |line| then f
    else
      var key, val := line[..colon], WithoutLeadingBlanks(line[colon + 1..]);
      if Lowered(key) == "status" then f.(status := phrases.read(val))
      else if Lowered(key) == "content-type" then f.(contentType := val)
      else f.(extra := f.extra + key + ": " + val + "\r\n")
  }

  function WithoutCr(line: string): string
  {
    if line != "" && line[|line| - 1] == '\r' then line[..|line| - 1] else line
  }

  /** What a line does to the fields. */
  type Fold = (Fields, string) -> Fields

  function LineStep(phrases: Phrases): Fold
  {
    (f: Fields, line: string) => FoldLine(phrases, f, line)
  }

  /** Line by line; what follows the last line feed is ignored. */
  function FoldLines(step: Fold, f: Fields, s: string, start: nat): Fields
    requires start <= |s|
    decreases |s| - start
  {
    var k := Find(s, '\n', start);
    if k == |s| then f else FoldLines(step, step(f, WithoutCr(s[start..k])), s, k + 1)
  }

  function Line(s: string): string { s + "\r\n" }

  const SERVER := "Server: webserv/1.0"
  const CODING := "Transfer-Encoding: chunked"
  const KEEP := "Connection: keep-alive"
  const CLOSE := "Connection: close"

  function StatusLine(phrases: Phrases, f: Fields): string { "HTTP/1.1 " + phrases.status(f.status) }

  function TypeLine(f: Fields): string { "Content-Type: " + f.contentType }

  function Preamble(phrases: Phrases, f: Fields, keepAlive: bool): string
  {
    Line(StatusLine(phrases, f)) + Line(SERVER) + Line(TypeLine(f)) + Line(CODING) + Line(if keepAlive then KEEP else CLOSE)
  }

  function ResponseLines(phrases: Phrases, keepAlive: bool, header: string): string
  {
    var f := FoldLines(LineStep(phrases), DEFAULTS, header, 0);
    Preamble(phrases, f, keepAlive) + f.extra
  }

  function Rendered(phrases: Phrases, keepAlive: bool, header: string): string
  {
    Line(ResponseLines(phrases, keepAlive, header))
  }

  // The loop of `flushCgiHeaders`.

  lemma FindIs(s: string, c: char, start: nat, i: nat)
    requires start <= i <= |s| && forall k :: start <= k < i ==> s[k] != c
    requires i < |s| ==> s[i] == c
    ensures Find(s, c, start) == i
  {
  }

  lemma NoMoreLines(step: Fold, f: Fields, s: string, start: nat)
    requires start <= |s| && forall k :: start <= k < |s| ==> s[k] != '\n'
    ensures FoldLines(step, f, s, start) == f
  {
    FindIs(s, '\n', start, |s|);
  }

  lemma OneMoreLine(step: Fold, f: Fields, s: string, start: nat, i: nat)
    requires start <= i < |s| && s[i] == '\n' && forall k :: start <= k < i ==> s[k] != '\n'
    ensures FoldLines(step, f, s, start) == FoldLines(step, step(f, WithoutCr(s[start..i])), s, i + 1)
  {
    FindIs(s, '\n', start, i);
  }

  /** The line that ends at `i`, without its CR. */
  method LineAt(data: string, lineStart: nat, i: nat) returns (line: string)
    requires lineStart <= i <= |data|
    ensures line == WithoutCr(data[lineStart..i])
  {
    var lineLen := i - lineStart;
    if lineLen > 0 && data[i - 1] == '\r' { lineLen := lineLen - 1; }
    line := data[lineStart..lineStart + lineLen];
  }

  method TakeLineAt(step: Fold, f: Fields, data: string, lineStart: nat, i: nat) returns (r: Fields)
    requires lineStart <= i < |data| && data[i] == '\n' && forall k :: lineStart <= k < i ==> data[k] != '\n'
    ensures FoldLines(step, r, data, i + 1) == FoldLines(step, f, data, lineStart)
  {
    OneMoreLine(step, f, data, lineStart, i);
    var line := LineAt(data, lineStart, i);
    r := step(f, line);
  }

  method CollectFields(step: Fold, data: string) returns (f: Fields)
    ensures f == FoldLines(step, DEFAULTS, data, 0)
  {
    f := DEFAULTS;
    var lineStart := 0;
    for i := 0 to |data|
      invariant 0 <= lineStart <= i && forall k :: lineStart <= k < i ==> data[k] != '\n'
      invariant FoldLines(step, f, data, lineStart) == FoldLines(step, DEFAULTS, data, 0)
    {
      if data[i] != '\n' { continue; }
      f := TakeLineAt(step, f, data, lineStart, i);
      lineStart := i + 1;
    }
    NoMoreLines(step, f, data, lineStart);
  }

  /** The header block goes to the write buffer in one piece. */
  method FlushCgiHeaders(phrases: Phrases, keepAlive: bool, data: string, wb: Buffers.Buffer) returns (thrown: bool)
    requires wb.Valid()
    modifies wb
    ensures wb.Valid() && wb.cmbs == old(wb.cmbs)
    ensures wb.Contents() == if thrown then old(wb.Contents()) else old(wb.Contents()) + Rendered(phrases, keepAlive, data)
    ensures thrown == !Buffers.Room(old(wb.Contents()), Rendered(phrases, keepAlive, data), wb.cmbs)
  {
    var f := CollectFields(LineStep(phrases), data);
    var block := Line(Preamble(phrases, f, keepAlive) + f.extra);
    thrown := wb.Append(block);
  }

  // ------------------------------------------------ the client finds its end

  /** From `i` to `e` the text is lines, each closed by CRLF, none empty and none with a line feed of
      its own. */
  ghost predicate LinesIn(s: string, i: int, e: int)
    requires 0 <= i <= e <= |s|
    decreases e - i
  {
    i == e || exists k :: LineIs(s, i, k, e) && LinesIn(s, k + 2, e)
  }

  ghost predicate LineIs(s: string, i: int, k: int, e: int)
    requires 0 <= i <= e <= |s|
  {
    i < k && k + 2 <= e && s[k] == '\r' && s[k + 1] == '\n' && forall j :: i <= j < k ==> s[j] != '\n'
  }

  ghost predicate Lines(s: string) { LinesIn(s, 0, |s|) }

  /** Lines are lines wherever they stand. */
  lemma {:induction false} LinesShift(s: string, t: string, n: int, i: int, e: int)
    requires 0 <= i <= e <= |s| && 0 <= n && n + e <= |t| && LinesIn(s, i, e)
    requires forall k :: i <= k < e ==> t[n + k] == s[k]
    ensures LinesIn(t, n + i, n + e)
    decreases e - i
  {
    if i < e {
      var k :| LineIs(s, i, k, e) && LinesIn(s, k + 2, e);
      LinesShift(s, t, n, k + 2, e);
      assert forall j :: n + i <= j < n + k ==> t[j] == s[j - n];
      assert LineIs(t, n + i, n + k, n + e);
    }
  }

  lemma {:induction false} LinesMeet(s: string, i: int, m: int, e: int)
    requires 0 <= i <= m <= e <= |s| && LinesIn(s, i, m) && LinesIn(s, m, e)
    ensures LinesIn(s, i, e)
    decreases m - i
  {
    if i < m {
      var k :| LineIs(s, i, k, m) && LinesIn(s, k + 2, m);
      LinesMeet(s, k + 2, m, e);
      assert LineIs(s, i, k, e);
    }
  }

  lemma LinesJoin(a: string, b: string)
    requires Lines(a) && Lines(b)
    ensures Lines(a + b)
  {
    LinesShift(a, a + b, 0, 0, |a|);
    LinesShift(b, a + b, |a|, 0, |b|);
    LinesMeet(a + b, 0, |a|, |a + b|);
  }

  lemma OneLine(line: string)
    requires line != "" && NoFeed(line)
    ensures Lines(Line(line))
  {
    var s := Line(line);
    assert forall j :: 0 <= j < |line| ==> s[j] == line[j];
    assert LineIs(s, 0, |line|, |s|) && LinesIn(s, |line| + 2, |s|);
  }

  /** The first blank line at or after `i` starts at `r`. */
  ghost predicate FirstBlank(s: string, i: int, r: int)
  {
    0 <= i <= r && OccursAt(s, BLANK_LINE, r) && forall j :: i <= j < r ==> !OccursAt(s, BLANK_LINE, j)
  }

  lemma LastLine(s: string, i: int, k: int, e: int)
    requires 0 <= i < e && e + 2 <= |s| && LineIs(s, i, k, e) && k + 2 == e && s[e] == '\r' && s[e + 1] == '\n'
    ensures FirstBlank(s, i, k)
  {
    FourAt(s, k);
    forall j | i <= j < k ensures !OccursAt(s, BLANK_LINE, j) { NoneInLine(s, i, k, e, j); }
  }

  lemma EarlierLine(s: string, i: int, k: int, e: int, r: int)
    requires 0 <= i <= e <= |s| && LineIs(s, i, k, e) && LinesIn(s, k + 2, e) && k + 2 < e && FirstBlank(s, k + 2, r)
    ensures FirstBlank(s, i, r)
  {
    forall j | i <= j < k + 2 ensures !OccursAt(s, BLANK_LINE, j) { NotBefore(s, i, k, e, j); }
  }

  /** Behind complete lines the first blank line is the one that closes them. */
  lemma {:induction false} BlankLineAfterLines(s: string, i: int, e: int)
    requires 0 <= i < e && e + 2 <= |s| && LinesIn(s, i, e) && s[e] == '\r' && s[e + 1] == '\n'
    ensures FirstBlank(s, i, e - 2)
    decreases e - i
  {
    var k :| LineIs(s, i, k, e) && LinesIn(s, k + 2, e);
    if k + 2 == e {
      LastLine(s, i, k, e);
    } else {
      BlankLineAfterLines(s, k + 2, e);
      EarlierLine(s, i, k, e, e - 2);
    }
  }

  lemma NoneInLine(s: string, i: int, k: int, e: int, j: int)
    requires 0 <= i <= e <= |s| && LineIs(s, i, k, e) && i <= j < k
    ensures !OccursAt(s, BLANK_LINE, j)
  {
    FourAt(s, j);
  }

  /** Nor does one start at the end of a line that another line follows. */
  lemma NotBefore(s: string, i: int, k: int, e: int, j: int)
    requires 0 <= i <= e <= |s| && LineIs(s, i, k, e) && LinesIn(s, k + 2, e) && k + 2 < e && i <= j < k + 2
    ensures !OccursAt(s, BLANK_LINE, j)
  {
    if j < k {
      NoneInLine(s, i, k, e, j);
    } else {
      FourAt(s, j);
      var m :| LineIs(s, k + 2, m, e) && LinesIn(s, m + 2, e);
    }
  }

  lemma LineJoins(s: string, line: string)
    requires Lines(s) && line != "" && NoFeed(line)
    ensures Lines(s + Line(line))
  {
    OneLine(line);
    LinesJoin(s, Line(line));
  }

  /** No header line brings a line feed into the response. */
  ghost predicate FieldsAreLines(f: Fields)
  {
    NoFeed(f.contentType) && Lines(f.extra)
  }

  lemma ExtraIsLine(key: string, val: string)
    requires NoFeed(key) && NoFeed(val)
    ensures NoFeed(key + ": " + val)
  {
  }

  lemma ExtraJoins(extra: string, key: string, val: string)
    requires Lines(extra) && NoFeed(key) && NoFeed(val)
    ensures Lines(extra + key + ": " + val + "\r\n")
  {
    ExtraIsLine(key, val);
    LineJoins(extra, key + ": " + val);
    assert extra + key + ": " + val + "\r\n" == extra + Line(key + ": " + val);
  }

  lemma LineKeepsLines(phrases: Phrases, f: Fields, line: string)
    requires FieldsAreLines(f) && NoFeed(line)
    ensures FieldsAreLines(FoldLine(phrases, f, line))
  {
    var colon := Find(line, ':', 0);
    if colon < |line| {
      var key, val := line[..colon], WithoutLeadingBlanks(line[colon + 1..]);
      ExtraJoins(f.extra, key, val);
    }
  }

  lemma PieceHasNoFeed(s: string, start: nat)
    requires start <= |s| && Find(s, '\n', start) < |s|
    ensures NoFeed(WithoutCr(s[start..Find(s, '\n', start)]))
  {
  }

  /** What one line keeps, all lines keep. */
  lemma {:induction false} FoldKeeps(keeps: Fields -> bool, step: Fold, f: Fields, s: string, start: nat)
    requires start <= |s| && keeps(f)
    requires forall g, line :: keeps(g) && NoFeed(line) ==> keeps(step(g, line))
    ensures keeps(FoldLines(step, f, s, start))
    decreases |s| - start
  {
    var k := Find(s, '\n', start);
    if k < |s| {
      PieceHasNoFeed(s, start);
      FoldKeeps(keeps, step, step(f, WithoutCr(s[start..k])), s, k + 1);
    }
  }

  lemma FoldKeepsLines(phrases: Phrases, s: string)
    ensures FieldsAreLines(FoldLines(LineStep(phrases), DEFAULTS, s, 0))
  {
    var step := LineStep(phrases);
    forall g, line | FieldsAreLines(g) && NoFeed(line) ensures FieldsAreLines(step(g, line)) {
      LineKeepsLines(phrases, g, line);
    }
    FoldKeeps(FieldsAreLines, step, DEFAULTS, s, 0);
  }

  lemma FiveLines(a: string, b: string, c: string, d: string, e: string)
    requires a != "" && b != "" && c != "" && d != "" && e != ""
    requires NoFeed(a) && NoFeed(b) && NoFeed(c) && NoFeed(d) && NoFeed(e)
    ensures Lines(Line(a) + Line(b) + Line(c) + Line(d) + Line(e))
  {
    OneLine(a);
    LineJoins(Line(a), b);
    LineJoins(Line(a) + Line(b), c);
    LineJoins(Line(a) + Line(b) + Line(c), d);
    LineJoins(Line(a) + Line(b) + Line(c) + Line(d), e);
  }

  lemma PreambleIsLines(phrases: Phrases, f: Fields, keepAlive: bool)
    requires Printable(phrases) && NoFeed(f.contentType)
    ensures Lines(Preamble(phrases, f, keepAlive))
  {
    FiveLines(StatusLine(phrases, f), SERVER, TypeLine(f), CODING, if keepAlive then KEEP else CLOSE);
  }

  lemma ResponseLinesAreLines(phrases: Phrases, keepAlive: bool, header: string)
    requires Printable(phrases)
    ensures Lines(ResponseLines(phrases, keepAlive, header)) && |ResponseLines(phrases, keepAlive, header)| >= 2
  {
    var f := FoldLines(LineStep(phrases), DEFAULTS, header, 0);
    FoldKeepsLines(phrases, header);
    PreambleIsLines(phrases, f, keepAlive);
    LinesJoin(Preamble(phrases, f, keepAlive), f.extra);
  }

  /** Whatever the CGI program printed, a client that looks for the first blank line finds the end of
      the response header, not something inside it. */
  lemma HeaderBlockIsDelimited(phrases: Phrases, keepAlive: bool, header: string, rest: string)
    requires Printable(phrases)
    ensures var block := Rendered(phrases, keepAlive, header);
            |block| >= 4 && Seek(block + rest, BLANK_LINE, 0) == Some(|block| - 4)
  {
    ResponseLinesAreLines(phrases, keepAlive, header);
    ClosedByBlankLine(ResponseLines(phrases, keepAlive, header), rest);
  }

  lemma ClosedByBlankLine(lines: string, rest: string)
    requires Lines(lines) && lines != ""
    ensures Seek(Line(lines) + rest, BLANK_LINE, 0) == Some(|lines| - 2)
  {
    var s := Line(lines) + rest;
    LinesShift(lines, s, 0, 0, |lines|);
    BlankLineAfterLines(s, 0, |lines|);
    SeekIs(s, BLANK_LINE, 0, |lines| - 2);
  }
}
