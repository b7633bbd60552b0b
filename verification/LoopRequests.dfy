/** Requests in the event loop: what the connections receive joined with what the loop does.  A readable event
    brings some arrivals, and the loop's answer is the one of the read loop of module Spool on all that arrived
    since the request began.  So a program is started only on a request whose whole body is in its file. */
module LoopRequests {
  import opened Text
  import opened EventTable
  import opened LoopState
  import opened LoopInvariant
  import opened LoopRun
  import opened LoopSteps
  import opened LoopStreams
  import Routing
  import Parser
  import Spool
  import CgiPipe
  import Buffers

  // ---------------------------------------------------------------- the machine

  /** A connection since its request began: how it was then, and what has arrived. */
  datatype Talk = Talk(start: Spool.Spooled, arrivals: seq<Spool.Arrival>)

  datatype Joined = Joined(loop: Loop, talks: map<int, Talk>)

  /** A step of the loop, what it receives if it reads, and the configuration of a connection it accepts. */
  datatype Move = Move(happening: Happening, got: seq<Spool.Arrival>, config: Routing.ServerConfig)

  /** Nothing has arrived. */
  function New(config: Routing.ServerConfig): Talk
  {
    Talk(Spool.Spooled(Parser.Conn(Parser.FRESH_REQUEST, "", config), "", 0), [])
  }

  /** Where the read loop is after these arrivals. */
  function Outcome(requests: Parser.Env, t: Talk): Spool.Progress
  {
    Spool.Run(requests, Spool.Progress(t.start, Spool.Open), t.arrivals)
  }

  /** The step is a readable event of connection `c`. */
  ghost predicate Reads(g: Loop, x: Happening, c: int)
  {
    && x.Occurs? && !g.fallen && Live(g.table, x.event) && x.event.fd == c && c in g.clients
    && !x.event.bits.error && !x.event.bits.hangup && x.event.bits.input && g.clients[c].state == Reading
  }

  /** The answer of the read loop: it goes on waiting, meets the limit of its buffer, closes, refuses, or has
      handed the request on, to a program or not; an error page also when the body file cannot be reopened. */
  predicate Matches(p: Spool.Progress, a: Answers)
  {
    && a.limit == p.s.conn.config.maxBody
    && match a.reaction
       case Quiet(_) => p.end.Open?
       case Flooded => p.end.Open?
       case PeerClosed => p.end.Gone?
       case Refused(_, _) => p.end.Refused? || (p.end.HandedOn? && Spool.NeedsSpool(p.s.conn) && p.s.counted > 0)
       case Served(_, _) => p.end.HandedOn? && !Spool.NeedsSpool(p.s.conn)
       case Program(_, head, _) => p.end.HandedOn? && Spool.NeedsSpool(p.s.conn) && (head <==> p.s.conn.req.verb == "HEAD")
  }

  /** There is an answer, unless the read loop appends to an erased buffer. */
  lemma SomeAnswerMatches(p: Spool.Progress)
    requires !p.end.OnErased?
    ensures exists a :: Matches(p, a)
  {
    var reaction :=
      match p.end
      case Open => Quiet(true)
      case Refused => Reaction.Refused("", true)
      case HandedOn =>
        if Spool.NeedsSpool(p.s.conn) then Program(true, p.s.conn.req.verb == "HEAD", NoPipe) else Served([], true)
      case _ => Reaction.PeerClosed;
    assert Matches(p, Answers([], None, p.s.conn.config.maxBody, reaction, 0, CgiPipe.WouldBlock, false, 0));
  }

  /** Connections are accepted, recycled for the next request with the configuration they had, or receive. */
  ghost function TalkAfter(requests: Parser.Env, s: Joined, m: Move, h: Loop, c: int): Talk
    requires c in h.clients
  {
    var g := s.loop;
    if c !in g.clients || c !in s.talks then New(m.config)
    else if g.clients[c].state != Reading && h.clients[c].state == Reading then New(Outcome(requests, s.talks[c]).s.conn.config)
    else if Reads(g, m.happening, c) then s.talks[c].(arrivals := s.talks[c].arrivals + m.got)
    else s.talks[c]
  }

  ghost function Go(env: Env, requests: Parser.Env, s: Joined, m: Move): Joined
  {
    var h := Do(env, s.loop, m.happening);
    Joined(h, map c | c in h.clients :: TalkAfter(requests, s, m, h, c))
  }

  ghost function GoAll(env: Env, requests: Parser.Env, s: Joined, ms: seq<Move>): Joined
    decreases |ms|
  {
    if ms == [] then s else GoAll(env, requests, Go(env, requests, s, ms[0]), ms[1..])
  }

  function Happenings(ms: seq<Move>): seq<Happening>
  {
    if ms == [] then [] else [ms[0].happening] + Happenings(ms[1..])
  }

  /** The loop of the joined machine is the loop; with `LoopSteps.RunIsSteps` its runs are those of the loop. */
  lemma {:induction false} LoopIsTheLoop(env: Env, requests: Parser.Env, s: Joined, ms: seq<Move>)
    ensures GoAll(env, requests, s, ms).loop == DoAll(env, s.loop, Happenings(ms))
    decreases |ms|
  {
    if ms != [] {
      assert Happenings(ms)[1..] == Happenings(ms[1..]);
      LoopIsTheLoop(env, requests, Go(env, requests, s, ms[0]), ms[1..]);
    }
  }

  /** The step is possible, and what it answers is what the read loop answers. */
  ghost predicate Faithful(requests: Parser.Env, s: Joined, m: Move)
  {
    && Possible(s.loop, m.happening)
    && forall c :: c in s.talks && Reads(s.loop, m.happening, c) ==>
         Matches(Outcome(requests, s.talks[c].(arrivals := s.talks[c].arrivals + m.got)), m.happening.answers)
  }

  ghost predicate AllFaithful(env: Env, requests: Parser.Env, s: Joined, ms: seq<Move>)
    decreases |ms|
  {
    ms == [] || (Faithful(requests, s, ms[0]) && AllFaithful(env, requests, Go(env, requests, s, ms[0]), ms[1..]))
  }

  // ------------------------------------------------------------------ invariant

  /** Every connection has a talk that began with nothing; one that reads has a request that is still open. */
  ghost predicate JoinedInv(requests: Parser.Env, s: Joined)
  {
    && Well(s.loop)
    && (!s.loop.fallen ==>
         && s.talks.Keys == s.loop.clients.Keys
         && forall c :: c in s.talks ==> Talking(requests, s, c))
  }

  ghost predicate Talking(requests: Parser.Env, s: Joined, c: int)
    requires c in s.talks
  {
    var t := s.talks[c];
    t.start == New(t.start.conn.config).start
    && (c in s.loop.clients && s.loop.clients[c].state == Reading ==> Outcome(requests, t).end.Open?)
  }

  lemma RespondWrites(env: Env, g: Loop, c: int, parts: seq<string>)
    requires c in g.clients && !Respond(env, g, c, parts).fallen
    ensures var h := Respond(env, g, c, parts); c in h.clients && h.clients[c].state == Writing
  {
  }

  lemma StartCgiLeaves(env: Env, g: Loop, c: int, s: CgiStart, a: Answers)
    requires c in g.clients && !StartCgi(env, g, c, s, a).fallen
    ensures var h := StartCgi(env, g, c, s, a); c in h.clients && h.clients[c].state != Reading
  {
    var v, page := g.clients[c], env.setting.errorPage(500);
    if Usable(g, s) {
      var h := CloseSpool(g, c);
      var k := Put(OpenJob(h, c, s), c, h.clients[c].(state := CgiRunning));
      if !(s.pid.Some? && s.pid.value !in k.wards.kernel) { RespondWrites(env, CloseJob(k, s.readFd, a), c, [env.setting.errorPage(502)]); }
    } else {
      RespondWrites(env, if Buffers.Room(v.out, page, v.limit) then CloseSpool(g, c) else g, c, [page]);
    }
  }

  /** After a readable event a connection reads on only if its request was left open. */
  lemma ReadLeaves(env: Env, g: Loop, c: int, a: Answers)
    requires c in g.clients && g.clients[c].state == Reading && !a.reaction.Quiet?
    requires !HandleRead(env, g, c, a).fallen && !g.fallen
    ensures var h := HandleRead(env, g, c, a); c !in h.clients || h.clients[c].state != Reading
  {
    var h := Configure(OpenSpool(g, c, a.spool), c, a.limit);
    match a.reaction
    case PeerClosed =>
    case Flooded =>
    case Refused(page, keepAlive) => RespondWrites(env, Remember(h, c, keepAlive), c, [page]);
    case Served(parts, keepAlive) => RespondWrites(env, Remember(CloseSpool(h, c), c, keepAlive), c, parts);
    case Program(keepAlive, head, start) =>
      StartCgiLeaves(env, h.(clients := h.clients[c := h.clients[c].(state := Processing, keepAlive := keepAlive, head := head)]), c, start, a);
  }

  lemma ReadingStaysOpen(env: Env, requests: Parser.Env, s: Joined, m: Move, c: int)
    requires JoinedInv(requests, s) && !s.loop.fallen && Faithful(requests, s, m)
    requires c in s.talks && Reads(s.loop, m.happening, c)
    requires var h := Do(env, s.loop, m.happening); !h.fallen && c in h.clients && h.clients[c].state == Reading
    ensures Outcome(requests, s.talks[c].(arrivals := s.talks[c].arrivals + m.got)).end.Open?
  {
    var a := m.happening.answers;
    DispatchIs(env, s.loop, m.happening.event, a);
    if !a.reaction.Quiet? { ReadLeaves(env, s.loop, c, a); }
  }

  /** A talk goes on, or begins with nothing. */
  lemma TalkAfterTalks(requests: Parser.Env, s: Joined, m: Move, h: Loop, c: int)
    requires c in h.clients && (c in s.talks ==> c in s.loop.clients && Talking(requests, s, c))
    requires c in s.talks && Reads(s.loop, m.happening, c) && h.clients[c].state == Reading ==>
               Outcome(requests, s.talks[c].(arrivals := s.talks[c].arrivals + m.got)).end.Open?
    ensures var t := TalkAfter(requests, s, m, h, c);
            t.start == New(t.start.conn.config).start && (h.clients[c].state == Reading ==> Outcome(requests, t).end.Open?)
  {
  }

  lemma GoKeepsTalking(env: Env, requests: Parser.Env, s: Joined, m: Move, c: int)
    requires JoinedInv(requests, s) && !s.loop.fallen && Faithful(requests, s, m)
    requires var t := Go(env, requests, s, m); !t.loop.fallen && c in t.talks
    ensures Talking(requests, Go(env, requests, s, m), c)
  {
    var h := Do(env, s.loop, m.happening);
    if c in s.talks && Reads(s.loop, m.happening, c) && h.clients[c].state == Reading { ReadingStaysOpen(env, requests, s, m, c); }
    TalkAfterTalks(requests, s, m, h, c);
  }

  lemma GoKeepsInv(env: Env, requests: Parser.Env, s: Joined, m: Move)
    requires JoinedInv(requests, s) && Faithful(requests, s, m)
    ensures JoinedInv(requests, Go(env, requests, s, m))
  {
    DoKeepsInv(env, s.loop, m.happening);
    var t := Go(env, requests, s, m);
    if s.loop.fallen { FallenStays(env, s.loop, m.happening); }
    if !t.loop.fallen {
      forall c | c in t.talks ensures Talking(requests, t, c) { GoKeepsTalking(env, requests, s, m, c); }
    }
  }

  lemma {:induction false} GoAllKeepsInv(env: Env, requests: Parser.Env, s: Joined, ms: seq<Move>)
    requires JoinedInv(requests, s) && AllFaithful(env, requests, s, ms)
    ensures JoinedInv(requests, GoAll(env, requests, s, ms))
    decreases |ms|
  {
    if ms != [] {
      GoKeepsInv(env, requests, s, ms[0]);
      GoAllKeepsInv(env, requests, Go(env, requests, s, ms[0]), ms[1..]);
    }
  }

  // ------------------------------------------------------------------- programs

  lemma LaunchOpensForItself(env: Env, g: Loop, c: int, s: CgiStart, a: Answers, j: int)
    requires c in g.clients && j !in g.jobs && j in StartCgi(env, g, c, s, a).jobs
    ensures StartCgi(env, g, c, s, a).jobs[j].client == c
  {
    if Usable(g, s) {
      var h := CloseSpool(g, c);
      var k := Put(OpenJob(h, c, s), c, h.clients[c].(state := CgiRunning));
      if !(s.pid.Some? && s.pid.value !in k.wards.kernel) { RespondKeepsJobs(env, CloseJob(k, s.readFd, a), c, [env.setting.errorPage(502)]); }
    }
  }

  lemma ReadOpensByProgram(env: Env, g: Loop, c: int, a: Answers, j: int)
    requires c in g.clients && j !in g.jobs && j in HandleRead(env, g, c, a).jobs
    ensures a.reaction.Program? && HandleRead(env, g, c, a).jobs[j].client == c
  {
    var h := Configure(OpenSpool(g, c, a.spool), c, a.limit);
    match a.reaction
    case PeerClosed =>
    case Program(keepAlive, head, start) =>
      LaunchOpensForItself(env, h.(clients := h.clients[c := h.clients[c].(state := Processing, keepAlive := keepAlive, head := head)]), c, start, a, j);
    case _ => AnswerKeepsJobs(env, h, c, a);
  }

  lemma ClientOpensByProgram(env: Env, g: Loop, c: int, bits: Bits, a: Answers, j: int)
    requires Fitting(g, c, bits) && j !in g.jobs && j in HandleClient(env, g, c, bits, a).jobs
    ensures c in g.clients && !bits.error && !bits.hangup && bits.input && a.reaction.Program?
    ensures g.clients[c].state == Reading && HandleClient(env, g, c, bits, a).jobs[j].client == c
  {
    if c in g.clients && !bits.error && !bits.hangup {
      if bits.input {
        ReadOpensByProgram(env, g, c, a, j);
      } else if bits.output {
        WriteKeepsClients(env, g, c, a, j);
      }
    }
  }

  lemma DispatchOpensByProgram(env: Env, g: Loop, e: Event, a: Answers, j: int)
    requires Inv(g) && !g.fallen && Awaits(g, e) && j !in g.jobs && j in Dispatch(env, g, e, a).jobs
    ensures Reads(g, Occurs(e, a), e.fd) && a.reaction.Program? && Dispatch(env, g, e, a).jobs[j].client == e.fd
  {
    DispatchIs(env, g, e, a);
    match Expected(g, e.fd)
    case Server => AcceptKeepsJobs(env, g, a.accepts);
    case Client => ClientOpensByProgram(env, g, e.fd, e.bits, a, j);
    case Cgi => PipeKeepsClients(env, g, e.fd, a, j);
    case Invalid =>
  }

  lemma TimeOutOpensNone(env: Env, g: Loop, x: Late, j: int)
    requires j in TimeOut(env, g, x).jobs
    ensures j in g.jobs
  {
    var c := x.fd;
    if !g.fallen && c in g.clients && g.clients[c].state != CgiRunning
       && Buffers.Room(g.clients[c].out, env.setting.errorPage(408), g.clients[c].limit) {
      if j in HandleWrite(env, Told(env, g, c), c, x.first).jobs { WriteKeepsClients(env, Told(env, g, c), c, x.first, j); }
    }
  }

  /** A job is opened only by a readable event of its client that is answered with a program. */
  lemma OpensByProgram(env: Env, g: Loop, x: Happening, j: int)
    requires Inv(g) && !g.fallen && Possible(g, x) && j !in g.jobs && j in Do(env, g, x).jobs
    ensures Reads(g, x, Do(env, g, x).jobs[j].client) && x.answers.reaction.Program?
  {
    match x
    case Occurs(e, a) => DispatchOpensByProgram(env, g, e, a, j);
    case Frees =>
    case IsLate(late) => TimeOutOpensNone(env, g, late, j);
    case Expires(expired) =>
    case Reaps(exits, now) =>
  }

  // --------------------------------------------------------------- their bodies

  lemma {:induction false} HandedOnIsReady(requests: Parser.Env, p: Spool.Progress, arrivals: seq<Spool.Arrival>)
    requires p.end.Open? && Spool.Run(requests, p, arrivals).end.HandedOn?
    ensures Spool.Ready(Spool.Run(requests, p, arrivals).s)
    decreases |arrivals|
  {
    if arrivals != [] {
      var q := Spool.Turn(requests, p.s, arrivals[0]);
      if q.end.Open? { HandedOnIsReady(requests, q, arrivals[1..]); }
    }
  }

  /** A request in its file: nothing of its body is in memory, and the file is what one call of the parser
      decodes from all the bytes that were taken. */
  ghost predicate InItsFile(requests: Parser.Env, t: Talk)
  {
    var p, start := Outcome(requests, t), t.start;
    var pieces := Spool.Pieces(t.arrivals[..Spool.Taken(requests, Spool.Progress(start, Spool.Open), t.arrivals)]);
    var whole := Parser.Feed(requests, Parser.More(start.conn, Parser.Concat(pieces)));
    && p.end.HandedOn? && whole.req.state == Parser.Complete && Spool.NeedsSpool(whole)
    && p.s.conn.req.dec.body == "" && p.s.file == whole.req.dec.body && |p.s.file| == whole.req.dec.written
    && (whole.req.contentLength > 0 && !whole.req.chunked ==> |p.s.file| == whole.req.contentLength)
  }

  lemma HandedOnIsInItsFile(requests: Parser.Env, t: Talk)
    requires t.start == New(t.start.conn.config).start
    requires Outcome(requests, t).end.HandedOn? && Spool.NeedsSpool(Outcome(requests, t).s.conn)
    ensures InItsFile(requests, t)
  {
    HandedOnIsReady(requests, Spool.Progress(t.start, Spool.Open), t.arrivals);
    Spool.BodyIsConserved(requests, t.start, t.arrivals);
    Spool.SpoolingDoesNotMatter(requests, t.start, t.arrivals);
  }

  /** A step that starts a program finds the request of its client complete and its whole body in the file. */
  lemma ProgramHasItsBody(env: Env, requests: Parser.Env, s: Joined, m: Move, j: int)
    requires JoinedInv(requests, s) && !s.loop.fallen && Faithful(requests, s, m)
    requires j !in s.loop.jobs && j in Do(env, s.loop, m.happening).jobs
    ensures var c := Do(env, s.loop, m.happening).jobs[j].client;
            c in s.talks && InItsFile(requests, s.talks[c].(arrivals := s.talks[c].arrivals + m.got))
  {
    OpensByProgram(env, s.loop, m.happening, j);
    var c := Do(env, s.loop, m.happening).jobs[j].client;
    assert Talking(requests, s, c);
    HandedOnIsInItsFile(requests, s.talks[c].(arrivals := s.talks[c].arrivals + m.got));
  }

  /** So in every run of the joined machine from a loop without connections. */
  lemma ProgramsHaveTheirBodies(env: Env, requests: Parser.Env, g: Loop, ms: seq<Move>, m: Move, j: int)
    requires Inv(g) && g.clients == map[] && AllFaithful(env, requests, Joined(g, map[]), ms)
    requires var s := GoAll(env, requests, Joined(g, map[]), ms);
             && Faithful(requests, s, m) && !s.loop.fallen
             && j !in s.loop.jobs && j in Do(env, s.loop, m.happening).jobs
    ensures var s := GoAll(env, requests, Joined(g, map[]), ms);
            var c := Do(env, s.loop, m.happening).jobs[j].client;
            c in s.talks && InItsFile(requests, s.talks[c].(arrivals := s.talks[c].arrivals + m.got))
  {
    GoAllKeepsInv(env, requests, Joined(g, map[]), ms);
    ProgramHasItsBody(env, requests, GoAll(env, requests, Joined(g, map[]), ms), m, j);
  }
}
