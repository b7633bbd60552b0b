/** What the response header made of a program's header says: its lines one by one, and all of them read with the
    header reader of this very server. */
module CgiHeaderLaws {
  import opened Text
  import opened CgiHeaders
  import opened HeaderLaws
  import Headers

  // --------------------------------------------------- the program's own lines

  /** Lines as a program may print them, some closed by CR LF and some by LF. */
  function Printed(lines: seq<string>, crlf: seq<bool>): string
    requires |lines| == |crlf|
    decreases |lines|
  {
    if lines == [] then "" else lines[0] + (if crlf[0] then "\r\n" else "\n") + Printed(lines[1..], crlf[1..])
  }

  /** What stands in front of each line feed, without a carriage return at its end. */
  function LinesOf(s: string): seq<string>
    decreases |s|
  {
    var k := Find(s, '\n', 0);
    if k == |s| then [] else [WithoutCr(s[..k])] + LinesOf(s[k + 1..])
  }

  ghost predicate AreLines(lines: seq<string>, crlf: seq<bool>)
  {
    |lines| == |crlf| &&
    forall i :: 0 <= i < |lines| ==> NoFeed(lines[i]) && (crlf[i] || lines[i] == "" || lines[i][|lines[i]| - 1] != '\r')
  }

  lemma FirstLineIs(line: string, crlf: bool, rest: string)
    requires NoFeed(line) && (crlf || line == "" || line[|line| - 1] != '\r')
    ensures var s := line + (if crlf then "\r\n" else "\n") + rest; LinesOf(s) == [line] + LinesOf(rest)
  {
    var s := line + (if crlf then "\r\n" else "\n") + rest;
    var k := |line| + if crlf then 1 else 0;
    assert forall j :: 0 <= j < |line| ==> s[j] == line[j];
    FindIs(s, '\n', 0, k);
    assert s[k + 1..] == rest && s[..k] == if crlf then line + "\r" else line;
    if crlf { assert (line + "\r")[..|line|] == line; }
  }

  /** Both ends of line are understood. */
  lemma {:induction false} LinesReadBack(lines: seq<string>, crlf: seq<bool>)
    requires AreLines(lines, crlf)
    ensures LinesOf(Printed(lines, crlf)) == lines
    decreases |lines|
  {
    if lines != [] {
      LinesReadBack(lines[1..], crlf[1..]);
      FirstLineIs(lines[0], crlf[0], Printed(lines[1..], crlf[1..]));
    }
  }

  lemma {:induction false} LinesHaveNoFeed(s: string)
    ensures forall i :: 0 <= i < |LinesOf(s)| ==> NoFeed(LinesOf(s)[i])
    decreases |s|
  {
    var k := Find(s, '\n', 0);
    if k < |s| {
      PieceHasNoFeed(s, 0);
      assert s[0..k] == s[..k];
      LinesHaveNoFeed(s[k + 1..]);
      assert forall i :: 1 <= i < |LinesOf(s)| ==> LinesOf(s)[i] == LinesOf(s[k + 1..])[i - 1];
    }
  }

  // --------------------------------------------------------------- one by one

  function KeyOf(line: string): string { line[..Find(line, ':', 0)] }

  /** What stands behind the colon and the blanks that follow it; only blanks are left as they are. */
  function GivenOf(line: string): string
    requires ':' in line
  {
    WithoutLeadingBlanks(line[Find(line, ':', 0) + 1..])
  }

  predicate Is(line: string, name: string) { ':' in line && Lowered(KeyOf(line)) == name }

  predicate IsOwn(line: string) { ':' in line && !Is(line, "status") && !Is(line, "content-type") }

  lemma FieldParts(key: string, blanks: string, given: string)
    requires ':' !in key && AllBlank(blanks) && (given != "" ==> Solid(given[0]))
    ensures var line := key + ":" + (blanks + given);
            && ':' in line && KeyOf(line) == key && GivenOf(line) == if given == "" then blanks else given
  {
    var line, right := key + ":" + (blanks + given), blanks + given;
    SplitAtColon(key, right);
    assert line[|key|] == ':' && line[..|key|] == key && line[|key| + 1..] == right;
    if given == "" {
      BlankRest(right, 0);
    } else {
      assert right[|blanks|] == given[0];
      BlanksPassed(right, 0, |blanks|);
      assert right[|blanks|..] == given;
    }
  }

  /** A line sets the status, or the content type, or is passed on; without a colon it does nothing. */
  lemma LineDoes(phrases: Phrases, f: Fields, line: string)
    ensures FoldLine(phrases, f, line) ==
            if ':' !in line then f
            else if Is(line, "status") then Fields(phrases.read(GivenOf(line)), f.contentType, f.extra)
            else if Is(line, "content-type") then Fields(f.status, GivenOf(line), f.extra)
            else Fields(f.status, f.contentType, f.extra + (KeyOf(line) + ": " + GivenOf(line) + "\r\n"))
  {
    if ':' in line {
      assert Find(line, ':', 0) < |line|;
      var key, given := KeyOf(line), GivenOf(line);
      assert f.extra + key + ": " + given + "\r\n" == f.extra + (key + ": " + given + "\r\n");
    }
  }

  // ---------------------------------------------------------------- all of them

  /** What the last line of this name says. */
  function Last(lines: seq<string>, name: string): Option<string>
  {
    if lines == [] then None
    else
      var n := |lines| - 1;
      if Is(lines[n], name) then Some(GivenOf(lines[n])) else Last(lines[..n], name)
  }

  function Or(o: Option<string>, other: string): string { if o.Some? then o.value else other }

  /** The lines that are passed on, in order. */
  function Own(lines: seq<string>): seq<string>
  {
    if lines == [] then []
    else
      var n := |lines| - 1;
      Own(lines[..n]) + if IsOwn(lines[n]) then [KeyOf(lines[n]) + ": " + GivenOf(lines[n])] else []
  }

  function StatusGiven(phrases: Phrases, lines: seq<string>): int
  {
    var last := Last(lines, "status");
    if last.Some? then phrases.read(last.value) else 200
  }

  function TypeGiven(lines: seq<string>): string { Or(Last(lines, "content-type"), "text/html") }

  function FoldAll(step: Fold, f: Fields, lines: seq<string>): Fields
  {
    if lines == [] then f else step(FoldAll(step, f, lines[..|lines| - 1]), lines[|lines| - 1])
  }

  lemma {:induction false} FoldFirst(step: Fold, f: Fields, line: string, rest: seq<string>)
    ensures FoldAll(step, f, [line] + rest) == FoldAll(step, step(f, line), rest)
    decreases |rest|
  {
    var all, n := [line] + rest, |rest|;
    if n == 0 {
      assert all[..0] == [];
    } else {
      assert all[..n] == [line] + rest[..n - 1];
      FoldFirst(step, f, line, rest[..n - 1]);
    }
  }

  lemma FindBehind(s: string, start: nat)
    requires start <= |s|
    ensures Find(s, '\n', start) == start + Find(s[start..], '\n', 0)
  {
    var k := Find(s[start..], '\n', 0);
    assert forall j :: start <= j < |s| ==> s[j] == s[start..][j - start];
    FindIs(s, '\n', start, start + k);
  }

  lemma LinesOfBehind(s: string, start: nat)
    requires start <= |s|
    ensures var k := Find(s, '\n', start);
            LinesOf(s[start..]) == if k == |s| then [] else [WithoutCr(s[start..k])] + LinesOf(s[k + 1..])
  {
    FindBehind(s, start);
    var k, t := Find(s, '\n', start), s[start..];
    if k < |s| { assert t[..k - start] == s[start..k] && t[k - start + 1..] == s[k + 1..]; }
  }

  lemma {:induction false} FoldIsOfLines(step: Fold, f: Fields, s: string, start: nat)
    requires start <= |s|
    ensures FoldLines(step, f, s, start) == FoldAll(step, f, LinesOf(s[start..]))
    decreases |s| - start
  {
    LinesOfBehind(s, start);
    var k := Find(s, '\n', start);
    if k < |s| {
      var line := WithoutCr(s[start..k]);
      FoldIsOfLines(step, step(f, line), s, k + 1);
      FoldFirst(step, f, line, LinesOf(s[k + 1..]));
    }
  }

  lemma {:induction false} TextOfMore(lines: seq<string>, line: string)
    ensures Headers.TextOf(lines + [line]) == Headers.TextOf(lines) + (line + "\r\n")
    decreases |lines|
  {
    if lines == [] {
      assert [] + [line] == [line] && [line][1..] == [] && line + "\r\n" + "" == "" + (line + "\r\n");
    } else {
      assert (lines + [line])[1..] == lines[1..] + [line];
      TextOfMore(lines[1..], line);
    }
  }

  lemma {:induction false} FoldTells(phrases: Phrases, lines: seq<string>)
    ensures FoldAll(LineStep(phrases), DEFAULTS, lines) ==
            Fields(StatusGiven(phrases, lines), TypeGiven(lines), Headers.TextOf(Own(lines)))
    decreases |lines|
  {
    if lines != [] {
      var n := |lines| - 1;
      FoldTells(phrases, lines[..n]);
      LineDoes(phrases, FoldAll(LineStep(phrases), DEFAULTS, lines[..n]), lines[n]);
      if IsOwn(lines[n]) {
        TextOfMore(Own(lines[..n]), KeyOf(lines[n]) + ": " + GivenOf(lines[n]));
      } else {
        assert Own(lines[..n]) + [] == Own(lines[..n]);
      }
    }
  }

  /** What the header block is made of. */
  lemma FieldsTell(phrases: Phrases, header: string)
    ensures FoldLines(LineStep(phrases), DEFAULTS, header, 0) ==
            Fields(StatusGiven(phrases, LinesOf(header)), TypeGiven(LinesOf(header)), Headers.TextOf(Own(LinesOf(header))))
  {
    FoldIsOfLines(LineStep(phrases), DEFAULTS, header, 0);
    assert header[0..] == header;
    FoldTells(phrases, LinesOf(header));
  }

  // ------------------------------------------------------ as the client reads it

  function StatusSent(phrases: Phrases, header: string): string
  {
    "HTTP/1.1 " + phrases.status(StatusGiven(phrases, LinesOf(header)))
  }

  function Word(keepAlive: bool): string { if keepAlive then "keep-alive" else "close" }

  /** The lines behind the status line: four of the server's, then the program's own. */
  function Sent(keepAlive: bool, header: string): seq<string>
  {
    [Field("Server", "webserv/1.0"), Field("Content-Type", TypeGiven(LinesOf(header))), Field("Transfer-Encoding", "chunked"),
     Field("Connection", Word(keepAlive))]
    + Own(LinesOf(header))
  }

  lemma TextOfFirst(line: string, rest: seq<string>)
    ensures Headers.TextOf([line] + rest) == Line(line) + Headers.TextOf(rest)
  {
    assert ([line] + rest)[1..] == rest;
  }

  lemma TextOfFour(a: string, b: string, c: string, d: string, rest: seq<string>)
    ensures Headers.TextOf([a, b, c, d] + rest) == Line(a) + (Line(b) + (Line(c) + (Line(d) + Headers.TextOf(rest))))
  {
    TextOfFirst(d, rest);
    TextOfFirst(c, [d] + rest);
    TextOfFirst(b, [c] + ([d] + rest));
    TextOfFirst(a, [b] + ([c] + ([d] + rest)));
    assert [a] + ([b] + ([c] + ([d] + rest))) == [a, b, c, d] + rest;
  }

  lemma Regrouped(s: string, a: string, b: string, c: string, d: string, rest: string)
    ensures s + a + b + c + d + rest + "\r\n" == s + ((a + (b + (c + (d + rest)))) + "\r\n")
  {
  }

  lemma RenderedOf(phrases: Phrases, keepAlive: bool, header: string, own: seq<string>)
    requires FoldLines(LineStep(phrases), DEFAULTS, header, 0).extra == Headers.TextOf(own)
    ensures var f := FoldLines(LineStep(phrases), DEFAULTS, header, 0);
            Rendered(phrases, keepAlive, header) ==
            Line(StatusLine(phrases, f))
            + (Headers.TextOf([SERVER, TypeLine(f), CODING, if keepAlive then KEEP else CLOSE] + own) + "\r\n")
  {
    var f := FoldLines(LineStep(phrases), DEFAULTS, header, 0);
    var last := if keepAlive then KEEP else CLOSE;
    TextOfFour(SERVER, TypeLine(f), CODING, last, own);
    Regrouped(Line(StatusLine(phrases, f)), Line(SERVER), Line(TypeLine(f)), Line(CODING), Line(last), f.extra);
  }

  lemma WordsAre(f: Fields, keepAlive: bool)
    ensures SERVER == Field("Server", "webserv/1.0") && TypeLine(f) == Field("Content-Type", f.contentType)
    ensures CODING == Field("Transfer-Encoding", "chunked")
    ensures (if keepAlive then KEEP else CLOSE) == Field("Connection", Word(keepAlive))
  {
  }

  /** The header block: status line, those lines, blank line. */
  lemma RenderedIs(phrases: Phrases, keepAlive: bool, header: string)
    ensures Rendered(phrases, keepAlive, header) == StatusSent(phrases, header) + "\r\n" + (Headers.TextOf(Sent(keepAlive, header)) + "\r\n")
  {
    FieldsTell(phrases, header);
    WordsAre(FoldLines(LineStep(phrases), DEFAULTS, header, 0), keepAlive);
    RenderedOf(phrases, keepAlive, header, Own(LinesOf(header)));
  }

  lemma {:induction false} LastHasNoFeed(lines: seq<string>, name: string)
    requires forall i :: 0 <= i < |lines| ==> NoFeed(lines[i])
    ensures NoFeed(Or(Last(lines, name), ""))
    decreases |lines|
  {
    if lines != [] { LastHasNoFeed(lines[..|lines| - 1], name); }
  }

  lemma {:induction false} OwnAreWhole(lines: seq<string>)
    requires forall i :: 0 <= i < |lines| ==> NoFeed(lines[i])
    ensures WholeLines(Own(lines))
    decreases |lines|
  {
    if lines != [] {
      var n := |lines| - 1;
      OwnAreWhole(lines[..n]);
      assert NoFeed(lines[n]);
      if IsOwn(lines[n]) { ExtraIsLine(KeyOf(lines[n]), GivenOf(lines[n])); }
    }
  }

  lemma FourMore(a: string, b: string, c: string, d: string, own: seq<string>)
    requires WholeLines([a, b, c, d]) && WholeLines(own)
    ensures WholeLines([a, b, c, d] + own)
  {
  }

  lemma SentAreWhole(keepAlive: bool, header: string)
    ensures WholeLines(Sent(keepAlive, header))
  {
    LinesHaveNoFeed(header);
    OwnAreWhole(LinesOf(header));
    LastHasNoFeed(LinesOf(header), "content-type");
    FourAreWhole(TypeGiven(LinesOf(header)), keepAlive);
    FourMore(Field("Server", "webserv/1.0"), Field("Content-Type", TypeGiven(LinesOf(header))), Field("Transfer-Encoding", "chunked"),
             Field("Connection", Word(keepAlive)), Own(LinesOf(header)));
  }

  lemma FieldIsWhole(name: string, value: string)
    requires NoFeed(name) && NoFeed(value)
    ensures Field(name, value) != "" && NoFeed(Field(name, value))
  {
  }

  lemma FourAreWhole(kind: string, keepAlive: bool)
    requires NoFeed(kind)
    ensures WholeLines([Field("Server", "webserv/1.0"), Field("Content-Type", kind), Field("Transfer-Encoding", "chunked"),
                        Field("Connection", Word(keepAlive))])
  {
    FieldIsWhole("Server", "webserv/1.0");
    FieldIsWhole("Content-Type", kind);
    FieldIsWhole("Transfer-Encoding", "chunked");
    FieldIsWhole("Connection", Word(keepAlive));
  }

  // What the four say.

  lemma LowServer()
    ensures ':' !in "Server" && Trim("Server") && Lowered("Server") == "server"
  {
  }

  lemma LowType()
    ensures ':' !in "Content-Type" && Trim("Content-Type") && Lowered("Content-Type") == "content-type"
  {
  }

  lemma LowCoding()
    ensures ':' !in "Transfer-Encoding" && Trim("Transfer-Encoding") && Lowered("Transfer-Encoding") == "transfer-encoding"
  {
  }

  lemma LowConnection()
    ensures ':' !in "Connection" && Trim("Connection") && Lowered("Connection") == "connection"
  {
  }

  function One(line: string, name: string): seq<string>
  {
    if Headers.NameOf(line) == name then [Headers.ValueOf(line)] else []
  }

  lemma ValuesOfFour(a: string, b: string, c: string, d: string, own: seq<string>, name: string)
    ensures Headers.ValuesFor([a, b, c, d] + own, name) ==
            One(a, name) + (One(b, name) + (One(c, name) + (One(d, name) + Headers.ValuesFor(own, name))))
  {
    Headers.ValuesForCons(d, own, name);
    Headers.ValuesForCons(c, [d] + own, name);
    Headers.ValuesForCons(b, [c] + ([d] + own), name);
    Headers.ValuesForCons(a, [b] + ([c] + ([d] + own)), name);
    assert [a] + ([b] + ([c] + ([d] + own))) == [a, b, c, d] + own;
  }

  lemma NamesOfOne(line: string, own: seq<string>)
    ensures Headers.NamesIn([line] + own) == {Headers.NameOf(line)} + Headers.NamesIn(own)
  {
    assert ([line] + own)[1..] == own;
  }

  lemma NamesOfFour(a: string, b: string, c: string, d: string, own: seq<string>)
    ensures Headers.NamesIn([a, b, c, d] + own) ==
            {Headers.NameOf(a), Headers.NameOf(b), Headers.NameOf(c), Headers.NameOf(d)} + Headers.NamesIn(own)
  {
    NamesOfOne(d, own);
    NamesOfOne(c, [d] + own);
    NamesOfOne(b, [c] + ([d] + own));
    NamesOfOne(a, [b] + ([c] + ([d] + own)));
    assert [a] + ([b] + ([c] + ([d] + own))) == [a, b, c, d] + own;
  }

  lemma SolidIsTrimmed(s: string)
    requires Trim(s)
    ensures Trimmed(s) == s
  {
    TrimmedIs("", s, "");
    assert "" + s + "" == s;
  }

  predicate Reads(line: string, name: string, value: string)
  {
    Headers.NameOf(line) == name && Headers.ValueOf(line) == value
  }

  lemma TheFourRead(keepAlive: bool, kind: string)
    ensures Reads(Field("Server", "webserv/1.0"), "server", "webserv/1.0")
    ensures Reads(Field("Content-Type", kind), "content-type", Trimmed(kind))
    ensures Reads(Field("Transfer-Encoding", "chunked"), "transfer-encoding", "chunked")
    ensures Reads(Field("Connection", Word(keepAlive)), "connection", Word(keepAlive))
  {
    LowServer();
    LowType();
    LowCoding();
    LowConnection();
    FieldIs("Server", "webserv/1.0");
    FieldIs("Content-Type", kind);
    FieldIs("Transfer-Encoding", "chunked");
    FieldIs("Connection", Word(keepAlive));
    SolidIsTrimmed("webserv/1.0");
    SolidIsTrimmed("chunked");
    SolidIsTrimmed(Word(keepAlive));
  }

  /** What four fields say of a name. */
  function Choose(name: string, m: (string, string, string, string), v: (string, string, string, string)): seq<string>
  {
    if name == m.0 then [v.0] else if name == m.1 then [v.1] else if name == m.2 then [v.2] else if name == m.3 then [v.3] else []
  }

  predicate Distinct(m: (string, string, string, string))
  {
    m.0 != m.1 && m.0 != m.2 && m.0 != m.3 && m.1 != m.2 && m.1 != m.3 && m.2 != m.3
  }

  lemma OneGives(line: string, m: string, v: string, name: string)
    requires Reads(line, m, v)
    ensures One(line, name) == if name == m then [v] else []
  {
  }

  lemma Chosen(a: seq<string>, b: seq<string>, c: seq<string>, d: seq<string>, rest: seq<string>, name: string,
               m: (string, string, string, string), v: (string, string, string, string))
    requires Distinct(m) && a == (if name == m.0 then [v.0] else []) && b == (if name == m.1 then [v.1] else [])
    requires c == (if name == m.2 then [v.2] else []) && d == (if name == m.3 then [v.3] else [])
    ensures a + (b + (c + (d + rest))) == Choose(name, m, v) + rest
  {
    assert [] + rest == rest;
    if name == m.3 {
      assert [] + ([v.3] + rest) == [v.3] + rest;
    } else if name == m.2 {
      assert [] + ([v.2] + rest) == [v.2] + rest;
    } else if name == m.1 {
      assert [] + ([v.1] + rest) == [v.1] + rest;
    }
  }

  lemma FourGive(a: string, b: string, c: string, d: string, own: seq<string>, name: string,
                 m: (string, string, string, string), v: (string, string, string, string))
    requires Reads(a, m.0, v.0) && Reads(b, m.1, v.1) && Reads(c, m.2, v.2) && Reads(d, m.3, v.3) && Distinct(m)
    ensures Headers.ValuesFor([a, b, c, d] + own, name) == Choose(name, m, v) + Headers.ValuesFor(own, name)
  {
    ValuesOfFour(a, b, c, d, own, name);
    OneGives(a, m.0, v.0, name);
    OneGives(b, m.1, v.1, name);
    OneGives(c, m.2, v.2, name);
    OneGives(d, m.3, v.3, name);
    Chosen(One(a, name), One(b, name), One(c, name), One(d, name), Headers.ValuesFor(own, name), name, m, v);
  }

  function TheNames(): (string, string, string, string) { ("server", "content-type", "transfer-encoding", "connection") }

  lemma NamesAreDistinct()
    ensures Distinct(TheNames())
  {
    assert |TheNames().0| == 6 && |TheNames().1| == 12 && |TheNames().2| == 17 && |TheNames().3| == 10;
  }

  lemma ValuesSent(keepAlive: bool, header: string, name: string)
    ensures Headers.ValuesFor(Sent(keepAlive, header), name) ==
            Choose(name, TheNames(), ("webserv/1.0", Trimmed(TypeGiven(LinesOf(header))), "chunked", Word(keepAlive)))
            + Headers.ValuesFor(Own(LinesOf(header)), name)
  {
    var kind, own := TypeGiven(LinesOf(header)), Own(LinesOf(header));
    TheFourRead(keepAlive, kind);
    NamesAreDistinct();
    FourGive(Field("Server", "webserv/1.0"), Field("Content-Type", kind), Field("Transfer-Encoding", "chunked"),
             Field("Connection", Word(keepAlive)), own, name, TheNames(), ("webserv/1.0", Trimmed(kind), "chunked", Word(keepAlive)));
  }

  // ------------------------------------------------------------- the condition

  const FOUR: set<string> := {"server", "content-type", "transfer-encoding", "connection"}

  /** A header of this name is among the lines. */
  predicate HasLine(lines: seq<string>, name: string) { exists i :: 0 <= i < |lines| && Headers.NameOf(lines[i]) == name }

  /** What the program's own lines must be for the header to be readable: named, not named like the two headers
      that occur once and are the server's to give, none of the others that occur once twice, none too long, and
      not too many with the server's. */
  ghost predicate Presentable(header: string)
  {
    var own := Own(LinesOf(header));
    && (forall i :: 0 <= i < |own| ==> Headers.HasName(own[i]) && |own[i]| <= Headers.MAX_LINE)
    && !HasLine(own, "content-type") && !HasLine(own, "transfer-encoding")
    && (forall name :: name in Headers.SINGLETON_HEADERS ==> |Headers.ValuesFor(own, name)| <= 1)
    && |FOUR + Headers.NamesIn(own)| <= Headers.MAX_HEADERS
    && |Field("Content-Type", TypeGiven(LinesOf(header)))| <= Headers.MAX_LINE
  }

  lemma {:induction false} NoValueIff(lines: seq<string>, name: string)
    ensures Headers.ValuesFor(lines, name) == [] <==> !HasLine(lines, name)
    decreases |lines|
  {
    if lines != [] {
      NoValueIff(lines[1..], name);
      assert forall i :: 1 <= i < |lines| ==> lines[i] == lines[1..][i - 1];
    }
  }

  lemma WhichOccurOnce()
    ensures "content-type" in Headers.SINGLETON_HEADERS && "transfer-encoding" in Headers.SINGLETON_HEADERS
    ensures "server" !in Headers.SINGLETON_HEADERS && "connection" !in Headers.SINGLETON_HEADERS
  {
    assert |"server"| == 6 && |"connection"| == 10;
    assert forall name :: name in Headers.SINGLETON_HEADERS ==> |name| != 6 && |name| != 10;
  }

  /** How many values the server's own lines give a name. */
  lemma ChosenOnce(name: string, v: (string, string, string, string))
    ensures |Choose(name, TheNames(), v)| == if name in FOUR then 1 else 0
  {
  }

  lemma CountSent(keepAlive: bool, header: string, name: string)
    ensures |Headers.ValuesFor(Sent(keepAlive, header), name)| == (if name in FOUR then 1 else 0) + |Headers.ValuesFor(Own(LinesOf(header)), name)|
  {
    ValuesSent(keepAlive, header, name);
    ChosenOnce(name, ("webserv/1.0", Trimmed(TypeGiven(LinesOf(header))), "chunked", Word(keepAlive)));
  }

  lemma OnceIff(once: set<string>, four: set<string>, x: string, y: string, all: seq<string>, own: seq<string>)
    requires once * four == {x, y}
    requires forall name :: |Headers.ValuesFor(all, name)| == (if name in four then 1 else 0) + |Headers.ValuesFor(own, name)|
    ensures (forall name :: name in once ==> |Headers.ValuesFor(all, name)| <= 1) <==>
            (forall name :: name in once ==> |Headers.ValuesFor(own, name)| <= 1)
            && Headers.ValuesFor(own, x) == [] && Headers.ValuesFor(own, y) == []
  {
    assert x in once * four && y in once * four;
    assert forall name :: name in once && name in four ==> name in once * four;
  }

  lemma TheTwo()
    ensures Headers.SINGLETON_HEADERS * FOUR == {"content-type", "transfer-encoding"}
  {
    WhichOccurOnce();
  }

  lemma FieldHasName(name: string, value: string)
    requires Headers.NameOf(Field(name, value)) != ""
    ensures Headers.HasName(Field(name, value))
  {
    assert Field(name, value)[|name|] == ':';
  }

  lemma FourAreNamed(keepAlive: bool, kind: string)
    ensures Headers.HasName(Field("Server", "webserv/1.0")) && Headers.HasName(Field("Content-Type", kind))
    ensures Headers.HasName(Field("Transfer-Encoding", "chunked")) && Headers.HasName(Field("Connection", Word(keepAlive)))
  {
    TheFourRead(keepAlive, kind);
    FieldHasName("Server", "webserv/1.0");
    FieldHasName("Content-Type", kind);
    FieldHasName("Transfer-Encoding", "chunked");
    FieldHasName("Connection", Word(keepAlive));
  }

  lemma NamesSent(keepAlive: bool, header: string)
    ensures Headers.NamesIn(Sent(keepAlive, header)) == FOUR + Headers.NamesIn(Own(LinesOf(header)))
  {
    var kind := TypeGiven(LinesOf(header));
    TheFourRead(keepAlive, kind);
    NamesOfFour(Field("Server", "webserv/1.0"), Field("Content-Type", kind), Field("Transfer-Encoding", "chunked"),
                Field("Connection", Word(keepAlive)), Own(LinesOf(header)));
  }

  predicate Fine(line: string) { Headers.HasName(line) && |line| <= Headers.MAX_LINE }

  lemma AllIff(fine: string -> bool, a: string, b: string, c: string, d: string, own: seq<string>, all: seq<string>)
    requires fine(a) && fine(c) && fine(d) && all == [a, b, c, d] + own
    ensures (forall i :: 0 <= i < |all| ==> fine(all[i])) <==> fine(b) && forall i :: 0 <= i < |own| ==> fine(own[i])
  {
    assert all[0] == a && all[1] == b && all[2] == c && all[3] == d;
    assert forall i :: 0 <= i < |own| ==> own[i] == all[i + 4];
    assert forall i :: 4 <= i < |all| ==> all[i] == own[i - 4];
  }

  lemma FieldLength(name: string, value: string)
    ensures |Field(name, value)| == |name| + 2 + |value|
  {
  }

  lemma ThreeAreFine(keepAlive: bool)
    ensures Fine(Field("Server", "webserv/1.0")) && Fine(Field("Transfer-Encoding", "chunked")) && Fine(Field("Connection", Word(keepAlive)))
  {
    FourAreNamed(keepAlive, "");
    FieldLength("Server", "webserv/1.0");
    FieldLength("Transfer-Encoding", "chunked");
    FieldLength("Connection", Word(keepAlive));
  }

  lemma SentAllIff(fine: string -> bool, keepAlive: bool, header: string, own: seq<string>, all: seq<string>)
    requires fine(Field("Server", "webserv/1.0")) && fine(Field("Transfer-Encoding", "chunked")) && fine(Field("Connection", Word(keepAlive)))
    requires own == Own(LinesOf(header)) && all == Sent(keepAlive, header)
    ensures (forall i :: 0 <= i < |all| ==> fine(all[i])) <==>
            fine(Field("Content-Type", TypeGiven(LinesOf(header)))) && forall i :: 0 <= i < |own| ==> fine(own[i])
  {
    AllIff(fine, Field("Server", "webserv/1.0"), Field("Content-Type", TypeGiven(LinesOf(header))), Field("Transfer-Encoding", "chunked"),
           Field("Connection", Word(keepAlive)), own, all);
  }

  lemma FineAll(lines: seq<string>)
    ensures (forall i :: 0 <= i < |lines| ==> Fine(lines[i])) <==>
            forall i :: 0 <= i < |lines| ==> Headers.HasName(lines[i]) && |lines[i]| <= Headers.MAX_LINE
  {
  }

  lemma SentReadableIff(keepAlive: bool, header: string)
    ensures Readable(Sent(keepAlive, header)) <==> Presentable(header)
  {
    var all, own := Sent(keepAlive, header), Own(LinesOf(header));
    ThreeAreFine(keepAlive);
    FourAreNamed(keepAlive, TypeGiven(LinesOf(header)));
    SentAllIff(Fine, keepAlive, header, own, all);
    FineAll(all);
    FineAll(own);
    forall name ensures |Headers.ValuesFor(all, name)| == (if name in FOUR then 1 else 0) + |Headers.ValuesFor(own, name)| {
      CountSent(keepAlive, header, name);
    }
    TheTwo();
    OnceIff(Headers.SINGLETON_HEADERS, FOUR, "content-type", "transfer-encoding", all, own);
    NamesSent(keepAlive, header);
    NoValueIff(own, "content-type");
    NoValueIff(own, "transfer-encoding");
  }

  // ---------------------------------------------------------------- conclusion

  /** What a client has read: the coding, the type and the word of the server, the program's other headers as
      the program gave them, and nothing else. */
  ghost predicate Tells(h: Headers.HeaderMap, keepAlive: bool, header: string)
  {
    var own := Own(LinesOf(header));
    && (forall name :: name in h <==> name in FOUR || Headers.ValuesFor(own, name) != [])
    && "transfer-encoding" in h && h["transfer-encoding"] == "chunked"
    && "content-type" in h && h["content-type"] == Trimmed(TypeGiven(LinesOf(header)))
    && "connection" in h && h["connection"] == Headers.CommaJoined([Word(keepAlive)] + Headers.ValuesFor(own, "connection"))
    && "server" in h && h["server"] == Headers.CommaJoined(["webserv/1.0"] + Headers.ValuesFor(own, "server"))
    && (forall name :: name in h && name !in FOUR ==>
          Headers.ValuesFor(own, name) != [] && h[name] == Headers.CommaJoined(Headers.ValuesFor(own, name)))
  }

  /** The response in front of `rest`, as a client reads it: the status line, then the block behind it with the
      server's own reader. */
  ghost predicate Announces(all: string, phrases: Phrases, keepAlive: bool, header: string, rest: string)
  {
    var status := StatusSent(phrases, header);
    && Crlf(all, 0) == Some(|status|) && all[..|status|] == status
    && var b := Headers.Collect(map[], all[|status| + 2..]);
       && (b.Ended? <==> Presentable(header))
       && (b.Ended? ==> b.rest == rest && Tells(b.headers, keepAlive, header))
  }

  lemma SaysTells(h: Headers.HeaderMap, keepAlive: bool, header: string)
    requires Says(h, Sent(keepAlive, header)) && Presentable(header)
    ensures Tells(h, keepAlive, header)
  {
    var own, kind := Own(LinesOf(header)), TypeGiven(LinesOf(header));
    forall name ensures name in h <==> name in FOUR || Headers.ValuesFor(own, name) != [] {
      ValuesSent(keepAlive, header, name);
      ChosenOnce(name, ("webserv/1.0", Trimmed(kind), "chunked", Word(keepAlive)));
    }
    NoValueIff(own, "content-type");
    NoValueIff(own, "transfer-encoding");
    NamesAreDistinct();
    ValuesSent(keepAlive, header, "server");
    ValuesSent(keepAlive, header, "content-type");
    ValuesSent(keepAlive, header, "transfer-encoding");
    ValuesSent(keepAlive, header, "connection");
    forall name | name in h && name !in FOUR ensures Headers.ValuesFor(own, name) != [] && h[name] == Headers.CommaJoined(Headers.ValuesFor(own, name)) {
      ValuesSent(keepAlive, header, name);
      ChosenOnce(name, ("webserv/1.0", Trimmed(kind), "chunked", Word(keepAlive)));
      assert [] + Headers.ValuesFor(own, name) == Headers.ValuesFor(own, name);
    }
  }

  /** Any other name is there exactly when the program gave it. */
  lemma OwnNameIff(h: Headers.HeaderMap, keepAlive: bool, header: string, name: string)
    requires Tells(h, keepAlive, header) && name !in FOUR
    ensures name in h <==> HasLine(Own(LinesOf(header)), name)
  {
    NoValueIff(Own(LinesOf(header)), name);
  }

  lemma LengthIsNone()
    ensures "content-length" !in FOUR
  {
    assert |"content-length"| == 14 && |"server"| == 6 && |"content-type"| == 12 && |"transfer-encoding"| == 17 && |"connection"| == 10;
  }

  /** So a length is announced exactly when the program does so itself. */
  lemma LengthIsTheProgramsIff(h: Headers.HeaderMap, keepAlive: bool, header: string)
    requires Tells(h, keepAlive, header)
    ensures "content-length" in h <==> HasLine(Own(LinesOf(header)), "content-length")
  {
    LengthIsNone();
    OwnNameIff(h, keepAlive, header, "content-length");
  }

  /** Without a line of the program's own on it, the connection is the server's to announce. */
  lemma ConnectionIsTheServers(h: Headers.HeaderMap, keepAlive: bool, header: string)
    requires Tells(h, keepAlive, header) && !HasLine(Own(LinesOf(header)), "connection")
    ensures h["connection"] == if keepAlive then "keep-alive" else "close"
  {
    NoValueIff(Own(LinesOf(header)), "connection");
    assert [Word(keepAlive)] + [] == [Word(keepAlive)];
  }

  /** Whatever the program printed. */
  lemma ClientReadsHeader(phrases: Phrases, keepAlive: bool, header: string, rest: string)
    requires Printable(phrases)
    ensures Announces(Rendered(phrases, keepAlive, header) + rest, phrases, keepAlive, header, rest)
  {
    var status, lines := StatusSent(phrases, header), Sent(keepAlive, header);
    var all := Rendered(phrases, keepAlive, header) + rest;
    var behind := Headers.TextOf(lines) + ("\r\n" + rest);
    RenderedIs(phrases, keepAlive, header);
    StatusHasNoFeed(phrases, header);
    LineIsWhole(status);
    CrlfStable(status + "\r\n", behind);
    Behind(status, Headers.TextOf(lines), rest);
    SentAreWhole(keepAlive, header);
    BlockIsReadIff(lines, rest);
    SentReadableIff(keepAlive, header);
    if Presentable(header) { SaysTells(Headers.Collect(map[], behind).headers, keepAlive, header); }
  }

  lemma Behind(status: string, text: string, rest: string)
    ensures status + "\r\n" + (text + "\r\n") + rest == (status + "\r\n") + (text + ("\r\n" + rest))
    ensures ((status + "\r\n") + (text + ("\r\n" + rest)))[..|status|] == status
    ensures ((status + "\r\n") + (text + ("\r\n" + rest)))[|status| + 2..] == text + ("\r\n" + rest)
  {
  }

  lemma StatusHasNoFeed(phrases: Phrases, header: string)
    requires Printable(phrases)
    ensures NoFeed(StatusSent(phrases, header))
  {
  }

  // ------------------------------------------------------- where it goes wrong

  lemma {:induction false} OwnHas(lines: seq<string>, i: nat)
    requires i < |lines| && IsOwn(lines[i])
    ensures (KeyOf(lines[i]) + ": " + GivenOf(lines[i])) in Own(lines)
    decreases |lines|
  {
    if i < |lines| - 1 { OwnHas(lines[..|lines| - 1], i); }
  }

  lemma OwnLineHasName(line: string)
    requires ':' in line
    ensures Headers.NameOf(KeyOf(line) + ": " + GivenOf(line)) == Lowered(Trimmed(KeyOf(line)))
  {
    var key, given := KeyOf(line), GivenOf(line);
    SplitAtColon(key, " " + given);
    FieldText(key, given);
  }

  /** A program that names the coding itself makes its response unreadable to this server's reader. */
  lemma OwnCodingIsUnreadable(header: string, i: nat)
    requires i < |LinesOf(header)| && ':' in LinesOf(header)[i]
    requires Lowered(Trimmed(KeyOf(LinesOf(header)[i]))) == "transfer-encoding"
    ensures !Presentable(header)
  {
    var lines := LinesOf(header);
    var key := KeyOf(lines[i]);
    assert |key| >= |Trimmed(key)| == |"transfer-encoding"| == 17 && |"status"| == 6 && |"content-type"| == 12;
    OwnHas(lines, i);
    OwnLineHasName(lines[i]);
    var k :| 0 <= k < |Own(lines)| && Own(lines)[k] == key + ": " + GivenOf(lines[i]);
    assert HasLine(Own(lines), "transfer-encoding");
  }
}
