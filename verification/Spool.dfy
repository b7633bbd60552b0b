/** The read loop and the request-body spool file of src/EventLoop/EventLoop_helper_handlers.cpp:
    where the decoded body is at any moment, and when a request may be handed on. */
module Spool {
  import opened Text
  import opened Routing
  import opened Parser
  import Chunked
  import Headers
  import Host
  import RequestLine

  /** A connection whose in-memory body holds what was not flushed, its spool file, and how many bytes of
      that were counted. */
  datatype Spooled = Spooled(conn: Conn, file: string, counted: nat)

  /** How writing the body went: all of it, or an error behind some of it. */
  datatype Store = Stored | Failed(n: nat)

  predicate EndsWith(s: string, t: string)
  {
    |s| >= |t| && s[|s| - |t|..] == t
  }

  /** `pathRequiresCgiBodySpool`: the same test decides whether the request is a CGI request. */
  predicate NeedsSpool(c: Conn)
  {
    var loc := Match(c.config, c.req.path);
    loc.Some? && exists ext :: ext in loc.value.cgiExtensions && EndsWith(c.req.path, ext)
  }

  predicate ExpectsBody(req: Request)
  {
    req.contentLength > 0 || req.chunked || req.verb == "POST"
  }

  /** `isBodyFullySpooled`. */
  predicate FullySpooled(s: Spooled)
  {
    var req := s.conn.req;
    if !ExpectsBody(req) then true
    else if NeedsSpool(s.conn) then
      && req.dec.body == "" && req.state == ParseState.Complete
      && s.counted > 0 && s.counted == req.dec.written
      && !(req.contentLength > 0 && s.counted < req.contentLength)
    else if req.chunked then req.state == ParseState.Complete
    else if req.contentLength > 0 then req.dec.written >= req.contentLength
    else req.state == ParseState.Complete && req.dec.written > 0
  }

  /** `resumeBodyIfNeeded`. */
  function Resume(s: Spooled): Spooled
  {
    var req := s.conn.req;
    if req.state == ParseState.Complete
       && ((req.contentLength > 0 && s.counted < req.contentLength)
           || (!req.chunked && req.contentLength == 0 && req.verb == "POST" && s.conn.buf != ""))
    then s.(conn := s.conn.(req := req.(state := Body))) else s
  }

  /** `maybeCompletePostWithoutLength`. */
  function CompleteUnframed(s: Spooled): Spooled
  {
    var req := s.conn.req;
    if req.state == Body && !req.chunked && req.contentLength == 0 && req.verb == "POST"
       && req.dec.written > 0 && s.conn.buf == ""
    then s.(conn := s.conn.(req := req.(state := ParseState.Complete))) else s
  }

  predicate OverLimit(s: Spooled)
  {
    s.conn.req.maxBody > 0 && s.counted + |s.conn.req.dec.body| > s.conn.req.maxBody
  }

  function Prefix(s: string, n: nat): string { if n <= |s| then s[..n] else s }

  /** `flushRequestBodyToTmpFile`; what was written before an error stays in the file, uncounted. */
  function Flush(s: Spooled, store: Store): Spooled
  {
    var body := s.conn.req.dec.body;
    if body == "" then s
    else if OverLimit(s) then s.(conn := Fail(s.conn, 413))
    else
      match store
      case Failed(n) => s.(conn := Fail(s.conn, 503), file := s.file + Prefix(body, n))
      case Stored =>
        Spooled(s.conn.(req := s.conn.req.(dec := s.conn.req.dec.(body := ""))), s.file + body, s.counted + |body|)
  }

  /** What `recv` returns: bytes, nothing yet, or the end of the stream. */
  datatype Arrival = Data(piece: string, store: Store) | WouldBlock(store: Store) | PeerClosed(store: Store)

  /** How the read loop has been left: not at all, with an error response, by handing the request on, by
      closing the connection; or it appends to a read buffer that was erased. */
  datatype End = Open | Refused | HandedOn | Gone | OnErased

  datatype Progress = Progress(s: Spooled, end: End)

  function Completed(s: Spooled): Spooled
  {
    s.(conn := s.conn.(req := s.conn.req.(state := ParseState.Complete)))
  }

  /** The connection may be handed on. */
  predicate Ready(s: Spooled)
  {
    s.conn.req.state == ParseState.Complete && FullySpooled(s)
  }

  function FlushAsNeeded(f: Spooled, store: Store): Spooled
  {
    if (f.conn.req.state == Body || f.conn.req.state == ParseState.Complete) && NeedsSpool(f.conn) then Flush(f, store) else f
  }

  function Dispatched(s: Spooled): Progress { Progress(s, if Ready(s) then HandedOn else Open) }

  /** One turn of the loop of `_handleRead`.  An error found by the parser is answered at once; one that
      flushing adds is not looked at before the next bytes were received. */
  function Turn(env: Env, s: Spooled, a: Arrival): Progress
  {
    match a
    case WouldBlock(store) =>
      var t := CompleteUnframed(s);
      Dispatched(if NeedsSpool(t.conn) then Flush(t, store) else t)
    case PeerClosed(store) =>
      var req := s.conn.req;
      if req.state == Body && !req.chunked && req.contentLength == 0 && req.dec.written > 0 && NeedsSpool(s.conn) then
        var t := Completed(Flush(s, store));
        Progress(t, if Ready(t) then HandedOn else Gone)
      else Progress(s, Gone)
    case Data(piece, store) =>
      if Erased(s.conn) then Progress(s, OnErased)
      else
        var f := Fed(env, s, piece);
        if f.conn.req.state == Error then Progress(f, Refused) else Dispatched(CompleteUnframed(FlushAsNeeded(f, store)))
  }

  /** `resumeBodyIfNeeded` and `feed` on what arrived. */
  function Fed(env: Env, s: Spooled, piece: string): Spooled
  {
    var r := Resume(s.(conn := More(s.conn, piece)));
    r.(conn := Feed(env, r.conn))
  }

  function Run(env: Env, p: Progress, arrivals: seq<Arrival>): Progress
    decreases |arrivals|
  {
    if arrivals == [] || !p.end.Open? then p else Run(env, Turn(env, p.s, arrivals[0]), arrivals[1..])
  }

  /** How many arrivals were taken before the connection left the loop. */
  function Taken(env: Env, p: Progress, arrivals: seq<Arrival>): (n: nat)
    ensures n <= |arrivals|
    decreases |arrivals|
  {
    if arrivals == [] || !p.end.Open? then 0 else 1 + Taken(env, Turn(env, p.s, arrivals[0]), arrivals[1..])
  }

  function Pieces(arrivals: seq<Arrival>): seq<string>
  {
    if arrivals == [] then []
    else (if arrivals[0].Data? then [arrivals[0].piece] else []) + Pieces(arrivals[1..])
  }

  /** The connection as if nothing had ever been flushed. */
  function Unspooled(s: Spooled): Conn
  {
    s.conn.(req := s.conn.req.(dec := s.conn.req.dec.(body := s.file + s.conn.req.dec.body)))
  }

  function WithBefore(c: Conn, x: string): Conn
  {
    c.(req := c.req.(dec := c.req.dec.(body := x + c.req.dec.body)))
  }

  // ------------------------------------------- feeding never reads the body

  lemma FromBodyIgnoresBody(c: Conn, x: string)
    ensures FromBody(WithBefore(c, x)) == WithBefore(FromBody(c), x)
  {
    var d := ApplyLimit(c);
    assert ApplyLimit(WithBefore(c, x)) == WithBefore(d, x);
    if d.req.state == Body {
      if d.req.chunked {
        Chunked.DecodeIgnoresBody(d.req.dec, x, d.buf, d.req.maxBody);
      } else if d.buf != "" {
        FixedIgnoresBody(d, x, FixedTake(d));
      }
    }
  }

  lemma FixedIgnoresBody(c: Conn, x: string, n: nat)
    requires n <= |c.buf|
    ensures FixedStep(WithBefore(c, x), n) == WithBefore(FixedStep(c, n), x)
  {
    assert x + (c.req.dec.body + c.buf[..n]) == (x + c.req.dec.body) + c.buf[..n];
  }

  lemma SettleIgnoresBody(env: Env, c: Conn, x: string)
    ensures Settle(env, WithBefore(c, x)) == WithBefore(Settle(env, c), x)
  {
    if "host" !in c.req.headers {
      MeasureIgnoresBody(c, x);
    } else if Host.Validated(c.req.headers["host"]).Some? {
      var v := Host.Validated(c.req.headers["host"]).value.0;
      MeasureIgnoresBody(c.(req := c.req.(headers := c.req.headers["host" := v]), config := ConfigFor(env.configs, v, c.config)), x);
    }
  }

  lemma MeasureIgnoresBody(c: Conn, x: string)
    ensures Measure(WithBefore(c, x)) == WithBefore(Measure(c), x)
  {
  }

  lemma HeadersIgnoreBody(env: Env, c: Conn, x: string)
    ensures ReadHeaders(env, WithBefore(c, x)) == WithBefore(ReadHeaders(env, c), x)
  {
    var b := Headers.Collect(c.req.headers, c.buf);
    if b.Ended? { SettleIgnoresBody(env, c.(req := c.req.(headers := b.headers), buf := b.rest), x); }
  }

  lemma LineIgnoresBody(env: Env, c: Conn, x: string)
    ensures ReadLine(env, WithBefore(c, x)) == WithBefore(ReadLine(env, c), x)
  {
    var v := RequestLine.Examine(c.buf);
    if v.Accepted? {
      LengthInBuffer(c.buf);
      LookupIgnoresBody(env, c, x, v.verb, v.uri, v.length);
    }
  }

  lemma LookupIgnoresBody(env: Env, c: Conn, x: string, verb: string, uri: string, length: nat)
    requires length <= |c.buf|
    ensures Lookup(env, WithBefore(c, x), verb, uri, length) == WithBefore(Lookup(env, c, verb, uri, length), x)
  {
  }

  lemma FromHeadersIgnoresBody(env: Env, c: Conn, x: string)
    ensures FromHeaders(env, WithBefore(c, x)) == WithBefore(FromHeaders(env, c), x)
  {
    HeadersIgnoreBody(env, c, x);
    FromBodyIgnoresBody(if c.req.state == Heads then ReadHeaders(env, c) else c, x);
  }

  lemma FeedIgnoresBody(env: Env, c: Conn, x: string)
    ensures Feed(env, WithBefore(c, x)) == WithBefore(Feed(env, c), x)
  {
    if c.req.state == Idle || c.req.state == Line {
      var l := c.(req := c.req.(state := Line));
      LineIgnoresBody(env, l, x);
      var d := ReadLine(env, l);
      FromHeadersIgnoresBody(env, if d.req.state == Line then d else ApplyLimit(d), x);
    } else {
      FromHeadersIgnoresBody(env, c, x);
    }
  }

  // ----------------------------------------------------- the run invariant

  /** Every decoded byte is in the file or in memory, in order, and is counted once. */
  ghost predicate Conserved(s: Spooled, c: Conn)
  {
    Unspooled(s) == c && s.counted == |s.file| && Inv(c)
  }

  /** A request for a program whose chunked body turned out empty. */
  predicate EmptyCgi(c: Conn)
  {
    NeedsSpool(c) && c.req.chunked && c.req.dec.written == 0
  }

  /** In the loop: more is expected, or the one complete request that is not handed on; and what belongs
      in the file is there. */
  ghost predicate Lingers(s: Spooled)
  {
    && s.conn.req.state != Error && (s.conn.req.state == ParseState.Complete ==> EmptyCgi(s.conn))
    && (NeedsSpool(s.conn) ==> s.conn.req.dec.body == "")
  }

  /** A flush has failed, on a request that the parser had read as `c`. */
  ghost predicate Spoiled(s: Spooled, c: Conn)
  {
    && s.conn.req.state == Error && s.conn.req.code == 503
    && Inv(c) && (c.req.state == Body || c.req.state == ParseState.Complete)
    && s.conn.req.contentLength == c.req.contentLength && s.conn.req.chunked == c.req.chunked
    && s.conn.req.dec.written == c.req.dec.written && s.counted + |s.conn.req.dec.body| == c.req.dec.written
    && s.conn.req.maxBody == c.req.maxBody
  }

  lemma FlushConserves(s: Spooled, c: Conn, store: Store)
    requires Conserved(s, c) && (c.req.state == Body || c.req.state == ParseState.Complete)
    ensures !OverLimit(s)
    ensures var t := Flush(s, store);
            if s.conn.req.dec.body != "" && store.Failed? then Spoiled(t, c)
            else Conserved(t, c) && t.conn.req.dec.body == "" && t.counted == t.conn.req.dec.written
  {
    assert s.file + s.conn.req.dec.body + "" == s.file + s.conn.req.dec.body;
  }

  /** On a request that is still being read the two fix-ups around `feed` do nothing. */
  lemma FixupsAreIdle(s: Spooled, c: Conn)
    requires Conserved(s, c)
    ensures CompleteUnframed(s) == s
    ensures c.req.state != ParseState.Complete ==> Resume(s) == s
  {
  }

  /** A complete request stays in the loop only when its body has to go through the file and is
      empty; `isBodyFullySpooled` waits for a byte that never comes. */
  lemma CompleteIsHandedOnUnlessEmptyCgi(s: Spooled, c: Conn)
    requires Conserved(s, c) && c.req.state == ParseState.Complete
    requires NeedsSpool(c) ==> s.conn.req.dec.body == ""
    ensures Ready(s) <==> !EmptyCgi(c)
  {
  }

  /** How a turn or a run ends, beside the parser's own outcome `d` on the same bytes: refused for the
      parser's reason, or because the file system failed; otherwise with nothing lost, and at a complete
      request handed on unless that is an empty chunked one for a program. */
  ghost predicate Outcome(p: Progress, d: Conn, ok: bool)
  {
    if p.s.conn.req.state == Error then
      (p.end.Refused? && d.req.state == Error && p.s.conn.req.code == d.req.code) || (!ok && !p.end.HandedOn? && p.s.conn.req.code == 503)
    else
      && Conserved(p.s, d) && (p.end.Open? || p.end.HandedOn? || p.end.Gone?)
      && (p.end.Open? ==> Lingers(p.s))
      && (p.end.HandedOn? ==> d.req.state == ParseState.Complete)
      && (d.req.state == ParseState.Complete ==> (p.end.HandedOn? <==> !EmptyCgi(d)))
      && (NeedsSpool(d) ==> p.s.conn.req.dec.body == "")
  }

  function After(env: Env, c: Conn, a: Arrival): Conn
  {
    if a.Data? then Feed(env, More(c, a.piece)) else c
  }

  lemma TurnConserves(env: Env, s: Spooled, c: Conn, a: Arrival)
    requires Conserved(s, c) && Lingers(s)
    ensures Outcome(Turn(env, s, a), After(env, c, a), a.store.Stored?)
    ensures var p := Turn(env, s, a);
            p.end.Open? && p.s.conn.req.state == Error ==> Spoiled(p.s, After(env, c, a)) && a.Data? && a.store.Failed?
  {
    match a
    case WouldBlock(store) => FixupsAreIdle(s, c);
    case PeerClosed(store) =>
    case Data(piece, store) => DataConserves(env, s, c, piece, store);
  }

  /** Feeding after some bytes were flushed is feeding before. */
  lemma FeedCommutes(env: Env, s: Spooled, c: Conn, piece: string)
    requires Conserved(s, c)
    ensures var f := s.(conn := Feed(env, More(s.conn, piece)));
            Conserved(f, Feed(env, More(c, piece)))
  {
    FeedIgnoresBody(env, More(s.conn, piece), s.file);
    assert WithBefore(More(s.conn, piece), s.file) == More(c, piece);
    InvIgnoresBuffer(c, piece);
    FeedKeepsInv(env, More(c, piece));
  }

  lemma ResumeIsIdle(s: Spooled, c: Conn, piece: string)
    requires Conserved(s, c) && Lingers(s)
    ensures var m := s.(conn := More(s.conn, piece)); Resume(m) == m
    ensures !Erased(s.conn)
  {
  }

  lemma FedIsFeed(env: Env, s: Spooled, c: Conn, piece: string)
    requires Conserved(s, c) && Lingers(s)
    ensures !Erased(s.conn) && Conserved(Fed(env, s, piece), Feed(env, More(c, piece)))
  {
    ResumeIsIdle(s, c, piece);
    FeedCommutes(env, s, c, piece);
  }

  lemma DataConserves(env: Env, s: Spooled, c: Conn, piece: string, store: Store)
    requires Conserved(s, c) && Lingers(s)
    ensures var p, d := Turn(env, s, Data(piece, store)), Feed(env, More(c, piece));
            && Outcome(p, d, store.Stored?)
            && (p.end.Open? && p.s.conn.req.state == Error ==> Spoiled(p.s, d) && store.Failed?)
  {
    FedIsFeed(env, s, c, piece);
    var f := Fed(env, s, piece);
    if f.conn.req.state != Error { AfterFeedConserves(f, Feed(env, More(c, piece)), store); }
  }

  lemma AfterFeedConserves(f: Spooled, d: Conn, store: Store)
    requires Conserved(f, d) && d.req.state != Error
    ensures var p := Dispatched(CompleteUnframed(FlushAsNeeded(f, store)));
            && Outcome(p, d, store.Stored?)
            && (p.end.Open? && p.s.conn.req.state == Error ==> Spoiled(p.s, d) && store.Failed?)
  {
    var w := FlushAsNeeded(f, store);
    if w == f {
      FixupsAreIdle(f, d);
      if d.req.state == ParseState.Complete { CompleteIsHandedOnUnlessEmptyCgi(f, d); }
    } else {
      FlushConserves(f, d, store);
      if store.Stored? {
        FixupsAreIdle(w, d);
        if d.req.state == ParseState.Complete { CompleteIsHandedOnUnlessEmptyCgi(w, d); }
      }
    }
  }

  predicate AllStored(arrivals: seq<Arrival>)
  {
    arrivals == [] || (arrivals[0].store.Stored? && AllStored(arrivals[1..]))
  }

  lemma TakenTail(env: Env, p: Progress, arrivals: seq<Arrival>)
    requires arrivals != [] && p.end.Open?
    ensures var m := Taken(env, Turn(env, p.s, arrivals[0]), arrivals[1..]);
            && Taken(env, p, arrivals) == m + 1
            && Pieces(arrivals[..m + 1]) == (if arrivals[0].Data? then [arrivals[0].piece] else []) + Pieces(arrivals[1..][..m])
            && (AllStored(arrivals[..m + 1]) <==> arrivals[0].store.Stored? && AllStored(arrivals[1..][..m]))
  {
    var m := Taken(env, Turn(env, p.s, arrivals[0]), arrivals[1..]);
    assert arrivals[..m + 1][1..] == arrivals[1..][..m];
  }

  lemma FeedAllHead(env: Env, c: Conn, a: Arrival, rest: seq<string>)
    ensures FeedAll(env, c, (if a.Data? then [a.piece] else []) + rest) == FeedAll(env, After(env, c, a), rest)
  {
    if a.Data? { assert ([a.piece] + rest)[1..] == rest; } else { assert [] + rest == rest; }
  }

  // ----------------------------------------------------- after a failed flush

  /** A spoiled request gets one more turn with bytes: the answer, or the append that must not be. */
  lemma SpoiledTurn(env: Env, s: Spooled, c: Conn, a: Arrival)
    requires Spoiled(s, c)
    ensures var p := Turn(env, s, a);
            match a
            case WouldBlock(_) => p.end.Open? && Spoiled(p.s, c)
            case PeerClosed(_) => p == Progress(s, Gone)
            case Data(_, _) =>
              p.s.conn.req.state == Error && p.s.conn.req.code == 503 && p.end == if Erased(s.conn) then OnErased else Refused
  {
  }

  /** After any number of empty reads more bytes arrive. */
  predicate BytesFollow(arrivals: seq<Arrival>)
  {
    arrivals != [] && (arrivals[0].Data? || (arrivals[0].WouldBlock? && BytesFollow(arrivals[1..])))
  }

  lemma {:induction false} SpoiledRun(env: Env, s: Spooled, c: Conn, arrivals: seq<Arrival>)
    requires Spoiled(s, c)
    ensures var p := Run(env, Progress(s, Open), arrivals);
            && p.s.conn.req.state == Error && p.s.conn.req.code == 503 && !p.end.HandedOn?
            && (p.end.OnErased? <==> Erased(s.conn) && BytesFollow(arrivals))
            && (p.end.Refused? <==> !Erased(s.conn) && BytesFollow(arrivals))
    decreases |arrivals|
  {
    if arrivals != [] {
      SpoiledTurn(env, s, c, arrivals[0]);
      if arrivals[0].WouldBlock? {
        var t := Turn(env, s, arrivals[0]).s;
        assert Erased(t.conn) <==> Erased(s.conn);
        SpoiledRun(env, t, c, arrivals[1..]);
      }
    }
  }

  // ------------------------------------------------------------- whole runs

  /** However the bytes arrive and whenever they are flushed, the run ends where the bare parser ends
      on the bytes taken: same request, with the body split over file and memory, or the parser's
      own error; only a failing file system adds a refusal of its own (503, never 413). */
  lemma {:induction false} RunConserves(env: Env, s: Spooled, c: Conn, arrivals: seq<Arrival>)
    requires Conserved(s, c) && Lingers(s)
    ensures var taken := arrivals[..Taken(env, Progress(s, Open), arrivals)];
            Outcome(Run(env, Progress(s, Open), arrivals), FeedAll(env, c, Pieces(taken)), AllStored(taken))
    decreases |arrivals|
  {
    if arrivals != [] {
      var t, d := Turn(env, s, arrivals[0]), After(env, c, arrivals[0]);
      TurnConserves(env, s, c, arrivals[0]);
      if !t.end.Open? {
        TakenOnce(env, s, c, arrivals);
      } else {
        TakenMore(env, s, c, arrivals);
        if t.s.conn.req.state == Error { SpoiledRun(env, t.s, d, arrivals[1..]); } else { RunConserves(env, t.s, d, arrivals[1..]); }
      }
    }
  }

  lemma TakenOnce(env: Env, s: Spooled, c: Conn, arrivals: seq<Arrival>)
    requires arrivals != [] && !Turn(env, s, arrivals[0]).end.Open?
    ensures var taken := arrivals[..Taken(env, Progress(s, Open), arrivals)];
            && Run(env, Progress(s, Open), arrivals) == Turn(env, s, arrivals[0])
            && FeedAll(env, c, Pieces(taken)) == After(env, c, arrivals[0])
            && (AllStored(taken) <==> arrivals[0].store.Stored?)
  {
    TakenTail(env, Progress(s, Open), arrivals);
    FeedAllHead(env, c, arrivals[0], []);
  }

  lemma TakenMore(env: Env, s: Spooled, c: Conn, arrivals: seq<Arrival>)
    requires arrivals != []
    ensures var t, rest := Turn(env, s, arrivals[0]), arrivals[1..];
            var taken, more := arrivals[..Taken(env, Progress(s, Open), arrivals)], rest[..Taken(env, t, rest)];
            && Run(env, Progress(s, Open), arrivals) == Run(env, t, rest)
            && FeedAll(env, c, Pieces(taken)) == FeedAll(env, After(env, c, arrivals[0]), Pieces(more))
            && (AllStored(taken) <==> arrivals[0].store.Stored? && AllStored(more))
  {
    TakenTail(env, Progress(s, Open), arrivals);
    FeedAllHead(env, c, arrivals[0], Pieces(arrivals[1..][..Taken(env, Turn(env, s, arrivals[0]), arrivals[1..])]));
  }

  predicate Fresh(s: Spooled)
  {
    s.file == "" && s.counted == 0 && s.conn.req == FRESH_REQUEST
  }

  /** Body conservation from the first byte of a request on: what was decoded is in the file followed
      by memory, counted once, within the configured limit and the declared length; a request handed to a
      program has its whole decoded body in the file; and a complete request is handed on if and only if
      it is not for a program with an empty chunked body. */
  lemma BodyIsConserved(env: Env, s: Spooled, arrivals: seq<Arrival>)
    requires Fresh(s)
    ensures var taken := arrivals[..Taken(env, Progress(s, Open), arrivals)];
            var p, d := Run(env, Progress(s, Open), arrivals), FeedAll(env, s.conn, Pieces(taken));
            var t := p.s;
            if t.conn.req.state == Error then
              (p.end.Refused? && d.req.state == Error && t.conn.req.code == d.req.code) || (!AllStored(taken) && t.conn.req.code == 503)
            else
              && Unspooled(t) == d
              && d.req.dec.written == |d.req.dec.body| == |t.file| + |t.conn.req.dec.body|
              && d.req.dec.written <= d.req.maxBody
              && (d.req.contentLength > 0 && !d.req.chunked ==> d.req.dec.written <= d.req.contentLength)
              && (p.end.HandedOn? && NeedsSpool(d) ==> t.file == d.req.dec.body && t.conn.req.dec.body == "")
              && (p.end.HandedOn? ==> d.req.state == ParseState.Complete)
              && (d.req.state == ParseState.Complete ==> (p.end.HandedOn? <==> !EmptyCgi(d)))
  {
    RunConserves(env, s, s.conn, arrivals);
  }

  /** The same against one call of the parser on the whole stream. */
  lemma SpoolingDoesNotMatter(env: Env, s: Spooled, arrivals: seq<Arrival>)
    requires Fresh(s)
    ensures var pieces := Pieces(arrivals[..Taken(env, Progress(s, Open), arrivals)]);
            var t := Run(env, Progress(s, Open), arrivals).s;
            pieces != [] && t.conn.req.state != Error ==> Same(Unspooled(t), Feed(env, More(s.conn, Concat(pieces))))
  {
    BodyIsConserved(env, s, arrivals);
    var pieces := Pieces(arrivals[..Taken(env, Progress(s, Open), arrivals)]);
    if pieces != [] { FragmentationDoesNotMatter(env, s.conn, pieces); }
  }

  /** A chunked request for a CGI path whose body turned out empty is never handed on, whatever
      else arrives. */
  lemma {:induction false} EmptyChunkedCgiNeverStops(env: Env, s: Spooled, arrivals: seq<Arrival>)
    requires s.conn.req.state == ParseState.Complete && EmptyCgi(s.conn)
    requires s.conn.req.dec.body == "" && s.counted == 0 && s.conn.req.contentLength == 0
    ensures var p := Run(env, Progress(s, Open), arrivals); p.end.Open? || p.end.Gone?
    decreases |arrivals|
  {
    if arrivals != [] && !arrivals[0].PeerClosed? {
      EmptyChunkedCgiNeverStops(env, Turn(env, s, arrivals[0]).s, arrivals[1..]);
    }
  }

  // ---------------------------------------------- appending to an erased buffer

  /** The piece completes a fixed-length body for a program, and cannot be stored. */
  predicate CompletesUnstored(env: Env, s: Spooled, a: Arrival)
  {
    a.Data? && a.store.Failed? &&
    var f := Fed(env, s, a.piece);
    f.conn.req.state == ParseState.Complete && !f.conn.req.chunked && f.conn.req.contentLength > 0 && NeedsSpool(f.conn)
  }

  /** That happens with arrival `i`, on a request that was still being read, and more bytes follow. */
  predicate BreaksAt(env: Env, s: Spooled, arrivals: seq<Arrival>, i: nat)
  {
    i < |arrivals| &&
    var p := Run(env, Progress(s, Open), arrivals[..i]);
    p.end.Open? && p.s.conn.req.state != Error && CompletesUnstored(env, p.s, arrivals[i]) && BytesFollow(arrivals[i + 1..])
  }

  lemma BreaksLater(env: Env, s: Spooled, arrivals: seq<Arrival>, i: nat)
    requires arrivals != [] && i > 0
    ensures var t, rest := Turn(env, s, arrivals[0]), arrivals[1..];
            BreaksAt(env, s, arrivals, i) <==>
            i - 1 < |rest| && var p := Run(env, t, rest[..i - 1]);
            p.end.Open? && p.s.conn.req.state != Error && CompletesUnstored(env, p.s, rest[i - 1]) && BytesFollow(rest[i - 1 + 1..])
  {
    if i < |arrivals| {
      assert arrivals[..i][1..] == arrivals[1..][..i - 1];
      assert arrivals[i + 1..] == arrivals[1..][i - 1 + 1..];
    }
  }

  lemma FramingStays(env: Env, c: Conn)
    requires Inv(c) && c.req.state == Body
    ensures var d := Feed(env, c); d.req.contentLength == c.req.contentLength && d.req.chunked == c.req.chunked
  {
  }

  /** A piece that completes a fixed-length body brings at least one byte of it. */
  lemma CompletingPieceIsHeld(env: Env, s: Spooled, c: Conn, piece: string)
    requires Conserved(s, c) && Lingers(s)
    requires var f := Fed(env, s, piece); f.conn.req.state == ParseState.Complete && !f.conn.req.chunked && f.conn.req.contentLength > 0
    ensures Fed(env, s, piece).conn.req.dec.body != ""
  {
    var f, d := Fed(env, s, piece), Feed(env, More(c, piece));
    FedIsFeed(env, s, c, piece);
    ResumeIsIdle(s, c, piece);
    assert f.counted == s.counted && f.file == s.file;
    assert d.req.dec.written == |f.file| + |f.conn.req.dec.body| == d.req.contentLength;
    InvIgnoresBuffer(c, piece);
    if c.req.state == Body { FramingStays(env, More(c, piece)); }
  }

  lemma UnstoredIsSpoiled(f: Spooled, d: Conn, store: Store)
    requires Conserved(f, d) && f.conn.req.state == ParseState.Complete && !f.conn.req.chunked && f.conn.req.contentLength > 0
    requires NeedsSpool(f.conn) && f.conn.req.dec.body != "" && store.Failed?
    ensures var p := Dispatched(CompleteUnframed(FlushAsNeeded(f, store)));
            p.end.Open? && p.s.conn.req.state == Error && Erased(p.s.conn)
  {
    FlushConserves(f, d, store);
  }

  /** A turn spoils a request whose buffer is erased exactly when it cannot store a completing piece. */
  lemma SpoilsErasedIff(env: Env, s: Spooled, c: Conn, a: Arrival)
    requires Conserved(s, c) && Lingers(s)
    ensures var p := Turn(env, s, a);
            (p.end.Open? && p.s.conn.req.state == Error && Erased(p.s.conn)) <==> CompletesUnstored(env, s, a)
  {
    TurnConserves(env, s, c, a);
    if a.Data? {
      var f := Fed(env, s, a.piece);
      FedIsFeed(env, s, c, a.piece);
      if CompletesUnstored(env, s, a) {
        CompletingPieceIsHeld(env, s, c, a.piece);
        UnstoredIsSpoiled(f, Feed(env, More(c, a.piece)), a.store);
      }
    }
  }

  /** The read loop appends to an erased buffer if and only if the piece that completed a fixed-length body for
      a program could not be stored and more bytes follow.  Whether it then loops for ever, moves memory it
      does not own or is stopped by the limit is for `Buffers.AppendingIs`. */
  lemma {:induction false} AppendsToErasedIff(env: Env, s: Spooled, c: Conn, arrivals: seq<Arrival>)
    requires Conserved(s, c) && Lingers(s)
    ensures Run(env, Progress(s, Open), arrivals).end.OnErased? <==> exists i :: BreaksAt(env, s, arrivals, i)
    decreases |arrivals|
  {
    if arrivals != [] {
      var t, rest := Turn(env, s, arrivals[0]), arrivals[1..];
      TurnConserves(env, s, c, arrivals[0]);
      SpoilsErasedIff(env, s, c, arrivals[0]);
      FirstBreak(env, s, arrivals);
      if t.end.Open? && t.s.conn.req.state == Error {
        SpoiledRun(env, t.s, After(env, c, arrivals[0]), rest);
        forall i: nat | i > 0 ensures !BreaksAt(env, s, arrivals, i) {
          BreaksLater(env, s, arrivals, i);
          if i - 1 < |rest| { SpoiledRun(env, t.s, After(env, c, arrivals[0]), rest[..i - 1]); }
        }
      } else if t.end.Open? {
        AppendsToErasedIff(env, t.s, After(env, c, arrivals[0]), rest);
        forall i: nat | i > 0 ensures BreaksAt(env, s, arrivals, i) <==> BreaksAt(env, t.s, rest, i - 1) { BreaksLater(env, s, arrivals, i); }
        ShiftedBreaks(env, s, t.s, arrivals);
      } else {
        NotOnErased(env, s, c, arrivals[0]);
        forall i: nat | i > 0 ensures !BreaksAt(env, s, arrivals, i) { BreaksLater(env, s, arrivals, i); }
      }
    }
  }

  lemma NotOnErased(env: Env, s: Spooled, c: Conn, a: Arrival)
    requires Conserved(s, c) && Lingers(s)
    ensures !Turn(env, s, a).end.OnErased?
  {
    if a.Data? { FedIsFeed(env, s, c, a.piece); }
  }

  lemma FirstBreak(env: Env, s: Spooled, arrivals: seq<Arrival>)
    requires arrivals != []
    ensures BreaksAt(env, s, arrivals, 0) <==> s.conn.req.state != Error && CompletesUnstored(env, s, arrivals[0]) && BytesFollow(arrivals[1..])
  {
    assert arrivals[..0] == [];
  }

  lemma ShiftedBreaks(env: Env, s: Spooled, t: Spooled, arrivals: seq<Arrival>)
    requires arrivals != [] && !BreaksAt(env, s, arrivals, 0)
    requires forall i: nat :: i > 0 ==> (BreaksAt(env, s, arrivals, i) <==> BreaksAt(env, t, arrivals[1..], i - 1))
    ensures (exists i :: BreaksAt(env, s, arrivals, i)) <==> (exists i :: BreaksAt(env, t, arrivals[1..], i))
  {
    forall i: nat | BreaksAt(env, t, arrivals[1..], i) ensures exists k :: BreaksAt(env, s, arrivals, k) {
      assert BreaksAt(env, s, arrivals, i + 1) <==> BreaksAt(env, t, arrivals[1..], i + 1 - 1);
    }
  }
}
