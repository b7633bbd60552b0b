/** Two requests that reach the states module Spool warns of, from a fresh connection, byte for byte. */
module SpoolCases {
  import opened Text
  import opened Routing
  import opened Parser
  import opened Spool
  import Uri
  import Host
  import Headers
  import RequestLine
  import Chunked

  /** A server with one location, which runs programs. */
  const CGI := Location("/cgi", "", 0, {".py"})
  const SERVER := ServerConfig("", "/www", 1048576, [CGI])
  const ANY_FILE := Env(_ => Found, [])
  const FRESH := Spooled(Conn(FRESH_REQUEST, "", SERVER), "", 0)

  const TARGET := "/cgi/a.py"

  // -------------------------------------------------------- the request line

  const ENDING := " HTTP/1.1\r\n"

  lemma EndingIsVersion(s: string, h: nat)
    requires h + 11 <= |s| && s[h..h + 11] == ENDING
    ensures s[h] == ' ' && RequestLine.VersionAt(s, h + 1, 8) && s[h + 9] == '\r' && s[h + 10] == '\n'
  {
    forall k | 0 <= k < 11 ensures s[h + k] == ENDING[k] { assert s[h..h + 11][k] == s[h + k]; }
    assert s[h + 1] == ENDING[1] && s[h + 2] == ENDING[2] && s[h + 3] == ENDING[3] && s[h + 4] == ENDING[4]
        && s[h + 5] == ENDING[5] && s[h + 6] == ENDING[6] && s[h + 7] == ENDING[7] && s[h + 8] == ENDING[8];
  }

  lemma Tokens(s: string, from: nat, part: string)
    requires from + |part| <= |s| && s[from..from + |part|] == part
    requires forall k :: 0 <= k < |part| ==> RequestLine.TokenChar(part[k])
    ensures RequestLine.TokenIn(s, from, from + |part|)
  {
    forall k | from <= k < from + |part| ensures RequestLine.TokenChar(s[k]) { assert s[from..from + |part|][k - from] == s[k]; }
  }

  lemma Targets(s: string, from: nat, part: string)
    requires from + |part| <= |s| && s[from..from + |part|] == part
    requires forall k :: 0 <= k < |part| ==> RequestLine.UriChar(part[k]) && part[k] != ' '
    ensures RequestLine.TargetIn(s, from, from + |part|)
  {
    forall k | from <= k < from + |part| ensures RequestLine.UriChar(s[k]) && s[k] != ' ' {
      assert s[from..from + |part|][k - from] == s[k];
    }
  }

  lemma Parts(verb: string, target: string, rest: string)
    ensures var s := verb + " " + target + ENDING + rest;
            var u, e := |verb| + 1, |verb| + 1 + |target|;
            && s[..|verb|] == verb && s[|verb|] == ' ' && s[u..e] == target && e + 11 <= |s| && s[e..e + 11] == ENDING
  {
  }

  ghost predicate Fit(verb: string, target: string)
  {
    && RequestLine.Supported(verb) && (forall k :: 0 <= k < |verb| ==> RequestLine.TokenChar(verb[k]))
    && 0 < |target| <= RequestLine.MAX_URI
    && (forall k :: 0 <= k < |target| ==> RequestLine.UriChar(target[k]) && target[k] != ' ')
  }

  lemma LineBegins(s: string, verb: string, target: string, rest: string)
    requires Fit(verb, target) && s == verb + " " + target + ENDING + rest
    ensures var c := RequestLine.Cuts(0, |verb|, |verb| + 1, |verb| + 1 + |target|, |verb| + 2 + |target|, |verb| + 10 + |target|,
                                      |verb| + 12 + |target|);
            RequestLine.Begins(s, c, verb, target, |verb| + 12 + |target|)
  {
    Parts(verb, target, rest);
    assert s[0..0 + |verb|] == verb;
    Tokens(s, 0, verb);
    Targets(s, |verb| + 1, target);
    EndingIsVersion(s, |verb| + 1 + |target|);
  }

  /** Any supported method and any short enough target. */
  lemma LineIsAccepted(s: string, verb: string, target: string, rest: string)
    requires Fit(verb, target) && s == verb + " " + target + ENDING + rest
    ensures RequestLine.Examine(s) == RequestLine.Accepted(verb, target, |verb| + 12 + |target|)
  {
    LineBegins(s, verb, target, rest);
    RequestLine.AcceptsExactlyRequestLines(s, verb, target, |verb| + 12 + |target|);
  }

  // ---------------------------------------------------------------- the path

  lemma {:induction false} PlainDecodes(s: string)
    requires '%' !in s
    ensures Uri.PctDecoded(s) == s
    decreases |s|
  {
    if s != "" {
      assert s == [s[0]] + s[1..] && s[0] in s;
      forall c | c in s[1..] ensures c in s {}
      PlainDecodes(s[1..]);
    }
  }

  lemma {:induction false} NotFound(s: string, c: char, i: nat)
    requires i <= |s| && c !in s
    ensures Find(s, c, i) == |s|
    decreases |s| - i
  {
    if i < |s| { assert s[i] in s; NotFound(s, c, i + 1); }
  }

  /** A clean path without escapes and query is taken as it stands. */
  lemma PlainPath(path: string)
    requires path != "" && path[0] == '/' && Uri.IsClean(path) && '%' !in path && '?' !in path
    ensures PathOf(path) == path
  {
    assert "http://"[0] == 'h' && "https://"[0] == 'h';
    assert OriginForm(path) == path;
    NotFound(path, '?', 0);
    assert path[..|path|] == path;
    PlainDecodes(path);
    Uri.CleanPathIsIdempotent(path);
  }

  lemma TargetIsPlain()
    ensures PathOf(TARGET) == TARGET
  {
    assert TARGET == ['/', 'c', 'g', 'i', '/', 'a', '.', 'p', 'y'];
    PlainPath(TARGET);
  }

  lemma TargetRunsProgram(c: Conn)
    requires c.config == SERVER && c.req.path == TARGET
    ensures NeedsSpool(c)
  {
    assert CGI.path <= TARGET && TARGET[4] == '/' && TARGET[8] != '/';
    assert Serves(CGI, TARGET);
    assert SERVER.locations == [CGI];
    assert BestOf([CGI], TARGET, 0) == -1;
    assert BestOf([CGI], TARGET, 1) == 0;
    assert TARGET[|TARGET| - 3..] == ".py";
    assert ".py" in CGI.cgiExtensions && EndsWith(TARGET, ".py");
  }

  // ------------------------------------------------------------- the headers

  lemma {:induction false} FoundAt(s: string, c: char, i: nat, k: nat)
    requires i <= k < |s| && s[k] == c && forall j :: i <= j < k ==> s[j] != c
    ensures Find(s, c, i) == k
    decreases k - i
  {
    if i < k { FoundAt(s, c, i + 1, k); }
  }

  predicate Tight(s: string) { s != "" && !Blank(s[0]) && !Blank(s[|s| - 1]) }

  lemma TrimsTo(s: string, lead: string)
    requires Tight(s) && (lead == "" || lead == " ")
    ensures Trimmed(lead + s) == s
  {
    var t := lead + s;
    if lead == " " { assert BlankEnd(t, 0) == BlankEnd(t, 1); }
    assert BlankEnd(t, |lead|) == |lead|;
    assert BlankStart(t, |lead|, |t|) == |t|;
    assert t[|lead|..|t|] == s;
  }

  lemma HeaderLine(line: string, name: string, value: string)
    requires line == name + ": " + value && ':' !in name && Tight(name) && Tight(value)
    ensures Find(line, ':', 0) == |name| < |line| && Headers.NameOf(line) == Lowered(name) && Headers.ValueOf(line) == value
  {
    forall j | 0 <= j < |name| ensures line[j] != ':' { assert line[j] == name[j] && name[j] in name; }
    assert line[|name|] == ':';
    FoundAt(line, ':', 0, |name|);
    assert line[..|name|] == "" + name && line[|name| + 1..] == " " + value;
    TrimsTo(name, "");
    TrimsTo(value, " ");
  }

  lemma LoweredIs(s: string, t: string)
    requires |s| == |t| && forall i :: 0 <= i < |s| ==> Lower(s[i]) == t[i]
    ensures Lowered(s) == t
  {
  }

  /** A header line, with what it is called in the map. */
  datatype Known = Known(line: string, name: string, value: string)

  const HOST := Known("Host: a", "host", "a")
  const CODING := Known("Transfer-Encoding: chunked", "transfer-encoding", "chunked")
  const LENGTH := Known("Content-Length: 1", "content-length", "1")

  ghost predicate Reads(k: Known)
  {
    && Find(k.line, ':', 0) < |k.line| && Headers.NameOf(k.line) == k.name && Headers.ValueOf(k.line) == k.value
    && 0 < |k.line| <= Headers.MAX_LINE && '\r' !in k.line && k.name != ""
  }

  lemma HeaderReads(k: Known, name: string)
    requires k.line == name + ": " + k.value && |k.line| <= Headers.MAX_LINE
    requires ':' !in name && Tight(name) && Tight(k.value) && '\r' !in name && '\r' !in k.value
    requires |name| == |k.name| && forall i :: 0 <= i < |name| ==> Lower(name[i]) == k.name[i]
    ensures Reads(k)
  {
    HeaderLine(k.line, name, k.value);
    LoweredIs(name, k.name);
  }

  lemma HostReads()
    ensures Reads(HOST)
  {
    HeaderReads(HOST, "Host");
  }

  lemma CodingReads()
    ensures Reads(CODING)
  {
    assert CODING.line == "Transfer-Encoding" + ": " + "chunked";
    HeaderReads(CODING, "Transfer-Encoding");
  }

  lemma LengthReads()
    ensures Reads(LENGTH)
  {
    assert LENGTH.line == "Content-Length" + ": " + "1";
    HeaderReads(LENGTH, "Content-Length");
  }

  lemma {:induction false} NoCrlfBefore(line: string, i: nat)
    requires '\r' !in line && i <= |line|
    ensures Crlf(line + "\r\n", i) == Some(|line|)
    decreases |line| - i
  {
    var t := line + "\r\n";
    if i < |line| {
      assert t[i] == line[i] && line[i] in line;
      NoCrlfBefore(line, i + 1);
    }
  }

  lemma LineAdded(headers: Headers.HeaderMap, k: Known, rest: string)
    requires Reads(k) && k.name !in headers && |headers| < Headers.MAX_HEADERS
    ensures Headers.Collect(headers, k.line + "\r\n" + rest) == Headers.Collect(headers[k.name := k.value], rest)
  {
    NoCrlfBefore(k.line, 0);
    Headers.CollectsLine(headers, k.line, rest);
    assert headers[k.name := k.value].Keys == headers.Keys + {k.name};
    assert |headers[k.name := k.value]| == |headers.Keys + {k.name}| == |headers| + 1;
  }

  function Block(framing: Known): string { HOST.line + "\r\n" + (framing.line + "\r\n" + "\r\n") }

  /** The block of the two requests. */
  lemma TwoLines(framing: Known, rest: string)
    requires Reads(framing) && framing.name != "host"
    ensures Headers.Collect(map[], Block(framing) + rest) == Headers.Ended(map["host" := "a", framing.name := framing.value], rest)
  {
    var h: Headers.HeaderMap := map["host" := "a"];
    var last := "\r\n" + rest;
    HostReads();
    assert Block(framing) + rest == HOST.line + "\r\n" + (framing.line + "\r\n" + last);
    LineAdded(map[], HOST, framing.line + "\r\n" + last);
    LineAdded(h, framing, last);
    Headers.BlockOfLines(h[framing.name := framing.value], [], rest);
    assert Headers.TextOf([]) + last == last;
  }

  // ------------------------------------------------------------- two requests

  function Sent(verb: string, framing: Known, body: string): string
  {
    verb + " " + TARGET + ENDING + (Block(framing) + body)
  }

  function HeadsRequest(verb: string): Request
  {
    Request(Heads, 0, verb, TARGET, "", "HTTP/1.1", map[], 0, false, 1048576, FRESH_DECODER)
  }

  lemma LimitIsServers(c: Conn)
    requires c.config == SERVER && c.req.path == TARGET
    ensures ApplyLimit(c) == c.(req := c.req.(maxBody := 1048576))
  {
    TargetRunsProgram(c);
  }

  lemma TargetHasNoQuery()
    ensures QueryOf(TARGET) == ""
  {
    assert TARGET == ['/', 'c', 'g', 'i', '/', 'a', '.', 'p', 'y'];
    assert "http://"[0] == 'h' && "https://"[0] == 'h';
    NotFound(TARGET, '?', 0);
  }

  lemma LookupIs(verb: string, s: string, n: nat)
    requires n <= |s|
    ensures var d := Lookup(ANY_FILE, Conn(FRESH_REQUEST.(state := Line), s, SERVER), verb, TARGET, n);
            d.req.state == Heads && ApplyLimit(d) == Conn(HeadsRequest(verb), s[n..], SERVER)
  {
    TargetIsPlain();
    TargetHasNoQuery();
    LimitIsServers(Lookup(ANY_FILE, Conn(FRESH_REQUEST.(state := Line), s, SERVER), verb, TARGET, n));
  }

  lemma LineThenHeaders(env: Env, c: Conn, verb: string, uri: string, n: nat)
    requires c.req.state == Idle && n <= |c.buf| && RequestLine.Examine(c.buf) == RequestLine.Accepted(verb, uri, n)
    requires Lookup(env, c.(req := c.req.(state := Line)), verb, uri, n).req.state != Line
    ensures Feed(env, c) == FromHeaders(env, ApplyLimit(Lookup(env, c.(req := c.req.(state := Line)), verb, uri, n)))
  {
  }

  /** The request line is read and the file found. */
  lemma LineIsRead(verb: string, framing: Known, body: string)
    requires verb == "GET" || verb == "POST"
    ensures Feed(ANY_FILE, Conn(FRESH_REQUEST, Sent(verb, framing, body), SERVER))
         == FromHeaders(ANY_FILE, Conn(HeadsRequest(verb), Block(framing) + body, SERVER))
  {
    var s, rest := Sent(verb, framing, body), Block(framing) + body;
    var n := |verb| + 12 + |TARGET|;
    VerbAndTargetFit(verb);
    LineIsAccepted(s, verb, TARGET, rest);
    assert s[n..] == rest;
    LookupIs(verb, s, n);
    LineThenHeaders(ANY_FILE, Conn(FRESH_REQUEST, s, SERVER), verb, TARGET, n);
  }

  lemma VerbAndTargetFit(verb: string)
    requires verb == "GET" || verb == "POST"
    ensures Fit(verb, TARGET)
  {
    assert TARGET == ['/', 'c', 'g', 'i', '/', 'a', '.', 'p', 'y'];
  }

  lemma HostIsValid()
    ensures Host.Validated("a") == Some(("a", 0))
  {
    var x := Host.Fresh("a");
    var y := x.(st := Host.InHost);
    assert Host.Step(x, 'a', 0) == Some(y);
    assert Host.Run("a", y, 1) == Some(y);
    assert Host.Run("a", x, 0) == Host.Run("a", y, 1);
    assert "a"[..1] == "a";
  }

  function BodyRequest(verb: string, framing: Known): Request
  {
    HeadsRequest(verb).(state := Body, headers := map["host" := "a", framing.name := framing.value],
                        contentLength := if framing == LENGTH then 1 else 0, chunked := framing == CODING)
  }

  lemma FramingIsKnown(verb: string, framing: Known, body: string)
    requires framing == CODING || framing == LENGTH
    ensures var h := HeadsRequest(verb).(headers := map["host" := "a", framing.name := framing.value]);
            Measure(Conn(h, body, SERVER)) == Conn(BodyRequest(verb, framing), body, SERVER)
  {
    if framing == CODING {
      LoweredIs("chunked", "chunked");
    } else {
      assert Headers.LengthFrom("1", 1, 1, 1048576) == Headers.Length(1);
      assert Headers.ContentLength("1", 1048576) == Headers.Length(1);
    }
  }

  lemma BlockThenFraming(env: Env, c: Conn, h: map<string, string>, rest: string)
    requires Headers.Collect(c.req.headers, c.buf) == Headers.Ended(h, rest) && env.configs == []
    requires "host" in h && Host.Validated(h["host"]) == Some((h["host"], 0))
    ensures ReadHeaders(env, c) == Measure(c.(req := c.req.(headers := h), buf := rest))
  {
    assert h["host" := h["host"]] == h;
  }

  lemma HeadersAreRead(verb: string, framing: Known, body: string)
    requires framing == CODING || framing == LENGTH
    ensures ReadHeaders(ANY_FILE, Conn(HeadsRequest(verb), Block(framing) + body, SERVER)) == Conn(BodyRequest(verb, framing), body, SERVER)
  {
    if framing == CODING { CodingReads(); } else { LengthReads(); }
    TwoLines(framing, body);
    HostIsValid();
    BlockThenFraming(ANY_FILE, Conn(HeadsRequest(verb), Block(framing) + body, SERVER),
                     map["host" := "a", framing.name := framing.value], body);
    FramingIsKnown(verb, framing, body);
  }

  lemma RequestIsRead(verb: string, framing: Known, body: string)
    requires (verb == "GET" || verb == "POST") && (framing == CODING || framing == LENGTH)
    ensures Fed(ANY_FILE, FRESH, Sent(verb, framing, body)).conn == FromBody(Conn(BodyRequest(verb, framing), body, SERVER))
    ensures Fed(ANY_FILE, FRESH, Sent(verb, framing, body)).file == "" && Fed(ANY_FILE, FRESH, Sent(verb, framing, body)).counted == 0
  {
    assert "" + Sent(verb, framing, body) == Sent(verb, framing, body);
    LineIsRead(verb, framing, body);
    HeadersAreRead(verb, framing, body);
  }

  lemma EmptyChunkedBody()
    ensures Chunked.Decode(FRESH_DECODER, "0\r\n\r\n", 1048576) == Chunked.Complete(Chunked.Decoder(0, false, true, 0, ""), "")
  {
    Chunked.SizeGuardsAreExact("0", "");
    assert "0" + "" == "0" && Chunked.HexNumber("0") == 0;
    var s := "0\r\n\r\n";
    CrlfIs(s, 1);
    assert s[..1] == "0" && s[3..] == "\r\n";
    assert Chunked.Turn(FRESH_DECODER, s, 1048576) == Chunked.Again(FRESH_DECODER.(done := true, trailing := true), "\r\n");
    assert "\r\n"[2..] == "";
  }

  /** Where the two requests leave the parser. */
  function Finished(verb: string, framing: Known, dec: Chunked.Decoder): Spooled
  {
    Spooled(Conn(BodyRequest(verb, framing).(dec := dec, state := ParseState.Complete), "", SERVER), "", 0)
  }

  const NO_BODY := Chunked.Decoder(0, false, true, 0, "")
  const ONE_BYTE := Chunked.Decoder(0, false, false, 1, "x")

  lemma ChunkedIsFinished()
    ensures Fed(ANY_FILE, FRESH, Sent("GET", CODING, "0\r\n\r\n")) == Finished("GET", CODING, NO_BODY)
  {
    var b := Conn(BodyRequest("GET", CODING), "0\r\n\r\n", SERVER);
    RequestIsRead("GET", CODING, "0\r\n\r\n");
    LimitIsServers(b);
    EmptyChunkedBody();
  }

  lemma OneByteIsFinished()
    ensures Fed(ANY_FILE, FRESH, Sent("POST", LENGTH, "x")) == Finished("POST", LENGTH, ONE_BYTE)
  {
    var b := Conn(BodyRequest("POST", LENGTH), "x", SERVER);
    RequestIsRead("POST", LENGTH, "x");
    LimitIsServers(b);
    assert "x"[..1] == "x" && "" + "x" == "x";
  }

  lemma FinishedIsForProgram(verb: string, framing: Known, dec: Chunked.Decoder)
    ensures NeedsSpool(Finished(verb, framing, dec).conn)
  {
    TargetRunsProgram(Finished(verb, framing, dec).conn);
  }

  lemma EmptyBodyLingers(store: Store)
    ensures Turn(ANY_FILE, FRESH, Data(Sent("GET", CODING, "0\r\n\r\n"), store)) == Progress(Finished("GET", CODING, NO_BODY), Open)
  {
    ChunkedIsFinished();
    FinishedIsForProgram("GET", CODING, NO_BODY);
  }

  /** GET /cgi/a.py with an empty chunked body, in one piece: read completely, for a program, and not handed
      on, whatever arrives later. */
  lemma EmptyChunkedCgiIsReached(store: Store, later: seq<Arrival>)
    ensures var text := Sent("GET", CODING, "0\r\n\r\n");
            var p, q := Turn(ANY_FILE, FRESH, Data(text, store)), Run(ANY_FILE, Progress(FRESH, Open), [Data(text, store)] + later);
            && p.s.conn.req.state == ParseState.Complete && EmptyCgi(p.s.conn) && p.end.Open?
            && (q.end.Open? || q.end.Gone?)
  {
    var text := Sent("GET", CODING, "0\r\n\r\n");
    EmptyBodyLingers(store);
    FinishedIsForProgram("GET", CODING, NO_BODY);
    EmptyChunkedCgiNeverStops(ANY_FILE, Finished("GET", CODING, NO_BODY), later);
    assert ([Data(text, store)] + later)[1..] == later;
  }

  lemma OneByteIsUnstored(n: nat)
    ensures CompletesUnstored(ANY_FILE, FRESH, Data(Sent("POST", LENGTH, "x"), Failed(n)))
  {
    OneByteIsFinished();
    FinishedIsForProgram("POST", LENGTH, ONE_BYTE);
  }

  lemma TwoArrivals(env: Env, s: Spooled, a: Arrival, b: Arrival)
    requires Fresh(s) && CompletesUnstored(env, s, a) && b.Data?
    ensures Run(env, Progress(s, Open), [a, b]).end.OnErased?
  {
    assert [a, b][1..] == [b];
    FirstBreak(env, s, [a, b]);
    AppendsToErasedIff(env, s, s.conn, [a, b]);
  }

  /** POST /cgi/a.py with a body of one byte that cannot be stored, and one byte more: the read buffer was
      erased and is appended to. */
  lemma UnstoredBodyIsFatal(n: nat, store: Store)
    ensures Run(ANY_FILE, Progress(FRESH, Open), [Data(Sent("POST", LENGTH, "x"), Failed(n)), Data("y", store)]).end.OnErased?
  {
    OneByteIsUnstored(n);
    TwoArrivals(ANY_FILE, FRESH, Data(Sent("POST", LENGTH, "x"), Failed(n)), Data("y", store));
  }
}
