/** A run of the event loop, from its start, that ends the server: one listener, one client, one program whose
    output meets the limit of the client's write buffer. */
module LoopCases {
  import opened Text
  import opened EventTable
  import opened LoopState
  import opened LoopRun
  import opened LoopFalls
  import CgiStream
  import CgiPipe
  import Children

  // ------------------------------------------------------- turns of one event

  const INPUT := Bits(false, false, true, false)

  /** Nothing but one descriptor is ready, and nobody is late. */
  function Single(fd: int, a: Answers): Turn
  {
    Turn([Ready(fd, INPUT)], _ => a, [], [], _ => false, 0)
  }

  function EventOf(g: Loop, fd: int): Event
    requires Reportable(g.table, fd, INPUT)
  {
    var p := g.table.interest[fd].ptr;
    Event(p, fd, g.table.heap[p].serial, INPUT)
  }

  /** Nothing is left to be done at the end of a batch. */
  predicate Settled(g: Loop) { g.table.stale == [] && g.wards.pending == [] }

  lemma SettledStays(env: Env, h: Loop)
    requires h.fallen || Settled(h)
    ensures Reap(ExpireAll(env, TimeOutAll(env, Freed(h), []), []), _ => false, 0) == h
  {
    if !h.fallen {
      assert h.table.heap - (set p | p in h.table.stale) == h.table.heap;
      assert FreeStale(h.table) == h.table;
    }
  }

  lemma OneIsReported(t: Table, fd: int)
    requires Reportable(t, fd, INPUT)
    ensures var p := t.interest[fd].ptr; Wait(t, [Ready(fd, INPUT)]) == [Event(p, fd, t.heap[p].serial, INPUT)]
  {
    var ready := [Ready(fd, INPUT)];
    assert ready[..0] == [] && Wait(t, ready[..0]) == [];
  }

  /** Such a turn is the dispatch of its event. */
  lemma OneEvent(env: Env, g: Loop, fd: int, a: Answers)
    requires Reportable(g.table, fd, INPUT)
    requires var h := Dispatch(env, g, EventOf(g, fd), a); h.fallen || Settled(h)
    ensures RunTurn(env, g, Single(fd, a)) == Dispatch(env, g, EventOf(g, fd), a)
  {
    OneIsReported(g.table, fd);
    var batch := [EventOf(g, fd)];
    var answers: nat -> Answers := _ => a;
    NextIsDispatch(env, g, batch, answers, 0);
    SettledStays(env, Dispatch(env, g, EventOf(g, fd), a));
  }

  // ---------------------------------------------------------------- the run

  const QUIET := Answers([], None, 0, Quiet(true), 0, CgiPipe.WouldBlock, false, 0)

  const PROGRAM := Started(6, 7, 102, Some(42))

  /** The listener is 3, the client 5, the pipe of its program 6. */
  function Listening(): Loop { AddListener(INITIAL, 3, 100) }

  function Arrives(limit: nat): Answers { QUIET.(accepts := [Accepted(5, 101, limit)]) }

  function Asks(limit: nat): Answers
  {
    QUIET.(limit := limit, reaction := Program(true, false, PROGRAM))
  }

  function Prints(r: CgiPipe.ReadResult): Answers { QUIET.(pipe := r) }

  /** The limit that leaves four bytes behind the header block. */
  function Limit(env: Env): nat { CgiPipe.FourBytesMore(Answering(env)) }

  function Answering(env: Env): CgiStream.Setting { env.setting.(keepAlive := true, head := false) }

  function Story(env: Env, r: CgiPipe.ReadResult): seq<Turn>
  {
    [Single(3, Arrives(Limit(env))), Single(5, Asks(Limit(env))), Single(6, Prints(CgiPipe.Bytes("\n\n"))), Single(6, Prints(r))]
  }

  /** The client is there. */
  predicate Connected(g: Loop, limit: nat)
  {
    && Settled(g) && !g.fallen && g.clients == map[5 := Idle(limit)] && g.jobs == map[] && g.spools == map[]
    && g.open == {3, 5} && g.wards == Children.NONE && g.table.heap.Keys == {100, 101}
    && Watched(g, 5, 101, Client, Build(Reading))
  }

  predicate Watched(g: Loop, fd: int, ptr: int, kind: Kind, mask: Mask)
  {
    && fd in g.table.refs && g.table.refs[fd] == ptr && ptr in g.table.heap
    && g.table.heap[ptr].kind == kind && g.table.heap[ptr].fd == fd
    && fd in g.table.interest && g.table.interest[fd] == Watch(ptr, mask)
  }

  lemma ClientArrives(env: Env, limit: nat)
    requires env.maxConnections > 0
    ensures Connected(RunTurn(env, Listening(), Single(3, Arrives(limit))), limit)
  {
    var g, x := Listening(), Accepted(5, 101, limit);
    assert Accept(env, g, [x]) == Accept(env, AcceptOne(g, x), []);
    OneEvent(env, g, 3, Arrives(limit));
  }

  /** Its program runs, with this much done. */
  predicate Running(g: Loop, v: Connection, core: CgiStream.Job)
  {
    && Settled(g) && !g.fallen && g.clients == map[5 := v] && g.jobs == map[6 := Pipe(5, core)]
    && Watched(g, 6, 102, Cgi, READABLE)
  }

  lemma NoSpoolIsClosed(g: Loop)
    requires g.spools == map[]
    ensures CloseSpool(g, 5) == g
  {
    assert SpoolsOf(g, 5) == {};
  }

  lemma LaunchIs(env: Env, g: Loop, limit: nat)
    requires Connected(g, limit)
    ensures Launch(env, g, 5, true, false, PROGRAM, Asks(limit)) ==
            WithPipe(env, g.(clients := map[5 := Connection(Processing, "", limit, false, true, false)]), 5, PROGRAM, Asks(limit))
  {
    var v := Connection(Processing, "", limit, false, true, false);
    assert g.clients[5 := v] == map[5 := v];
    NoSpoolIsClosed(g.(clients := map[5 := v]));
  }

  /** The request is read, and the pipe is there. */
  lemma RequestIsRead(env: Env, g: Loop, limit: nat)
    requires Connected(g, limit)
    ensures Reportable(g.table, 5, INPUT)
    ensures var h := g.(clients := map[5 := Connection(Processing, "", limit, false, true, false)]);
            Dispatch(env, g, EventOf(g, 5), Asks(limit)) == WithPipe(env, h, 5, PROGRAM, Asks(limit))
  {
    var v := Connection(Processing, "", limit, false, true, false);
    assert g.clients[5 := Idle(limit)] == g.clients && g.clients[5 := v] == map[5 := v];
    assert Configure(g, 5, limit) == g;
    LaunchIs(env, g, limit);
  }

  lemma ProgramRuns(env: Env, h: Loop, limit: nat)
    requires Settled(h) && !h.fallen && h.clients == map[5 := Connection(Processing, "", limit, false, true, false)]
    requires h.jobs == map[] && h.wards == Children.NONE && h.table.heap.Keys == {100, 101}
    ensures Running(WithPipe(env, h, 5, PROGRAM, Asks(limit)), Connection(CgiRunning, "", limit, false, true, false), FRESH_CORE)
  {
  }

  lemma ProgramStarts(env: Env, g: Loop, limit: nat)
    requires Connected(g, limit)
    ensures Running(RunTurn(env, g, Single(5, Asks(limit))), Connection(CgiRunning, "", limit, false, true, false), FRESH_CORE)
  {
    RequestIsRead(env, g, limit);
    ProgramRuns(env, g.(clients := map[5 := Connection(Processing, "", limit, false, true, false)]), limit);
    OneEvent(env, g, 5, Asks(limit));
  }

  lemma PipeIsRead(env: Env, g: Loop, v: Connection, core: CgiStream.Job, r: CgiPipe.ReadResult)
    requires Running(g, v, core)
    ensures Reportable(g.table, 6, INPUT)
    ensures Dispatch(env, g, EventOf(g, 6), Prints(r)) ==
            ApplyPipe(g, 6, CgiPipe.OnPipeWithin(SettingOf(env, v), core.(out := v.out), Clipped(r), v.limit), Prints(r))
  {
  }

  lemma StreamingStarts(g: Loop, v: Connection, t: CgiStream.Job, a: Answers)
    requires Running(g, v, FRESH_CORE) && v.out == "" && t.phase.Streaming?
    ensures Running(ApplyPipe(g, 6, CgiPipe.Kept(t), a), v.(state := Writing, out := t.out), t.(out := ""))
  {
  }

  lemma HeaderGoesOut(env: Env, g: Loop)
    requires Running(g, Connection(CgiRunning, "", Limit(env), false, true, false), FRESH_CORE)
    ensures var t := CgiPipe.HeaderSent(Answering(env));
            Running(RunTurn(env, g, Single(6, Prints(CgiPipe.Bytes("\n\n")))),
                    Connection(Writing, t.out, Limit(env), false, true, false), t.(out := ""))
  {
    var v, a := Connection(CgiRunning, "", Limit(env), false, true, false), Prints(CgiPipe.Bytes("\n\n"));
    PipeIsRead(env, g, v, FRESH_CORE, CgiPipe.Bytes("\n\n"));
    CgiPipe.EmptyHeaderIsSent(Answering(env));
    StreamingStarts(g, v, CgiPipe.HeaderSent(Answering(env)), a);
    OneEvent(env, g, 6, a);
  }

  predicate Fatal(r: CgiPipe.ReadResult) { r == CgiPipe.EndOfFile || r == CgiPipe.Bytes("x") }

  lemma ServerGoesDown(env: Env, g: Loop, r: CgiPipe.ReadResult)
    requires Fatal(r) && Limit(env) < CgiStream.CGI_STREAM_HWM
    requires var t := CgiPipe.HeaderSent(Answering(env));
             Running(g, Connection(Writing, t.out, Limit(env), false, true, false), t.(out := ""))
    ensures Reportable(g.table, 6, INPUT) && EventFalls(env, g, EventOf(g, 6), Prints(r))
    ensures RunTurn(env, g, Single(6, Prints(r))).fallen
  {
    var t := CgiPipe.HeaderSent(Answering(env));
    PipeIsRead(env, g, Connection(Writing, t.out, Limit(env), false, true, false), t.(out := ""), r);
    CgiPipe.TwoWaysDown(Answering(env));
    assert JobAt(g, 6) == t && Clipped(r) == r;
    CgiPipe.EscapesIff(Answering(env), t, r, Limit(env));
    OneEvent(env, g, 6, Prints(r));
  }

  /** One turn after the other. */
  ghost predicate Leads(env: Env, states: seq<Loop>, turns: seq<Turn>)
  {
    && |states| == |turns| + 1
    && forall i :: 0 <= i < |turns| ==> !states[i].fallen && states[i + 1] == RunTurn(env, states[i], turns[i])
  }

  lemma {:induction false} RunLeads(env: Env, states: seq<Loop>, turns: seq<Turn>)
    requires Leads(env, states, turns)
    ensures Run(env, states[0], turns) == states[|turns|]
    decreases |turns|
  {
    if turns != [] {
      assert states[1] == RunTurn(env, states[0], turns[0]);
      RunLeads(env, states[1..], turns[1..]);
    }
  }

  lemma FourTurns(env: Env, g: Loop, h: Loop, k: Loop, l: Loop, m: Loop, turns: seq<Turn>)
    requires |turns| == 4 && !g.fallen && !h.fallen && !k.fallen && !l.fallen
    requires RunTurn(env, g, turns[0]) == h && RunTurn(env, h, turns[1]) == k
    requires RunTurn(env, k, turns[2]) == l && RunTurn(env, l, turns[3]) == m
    ensures Run(env, g, turns) == m
  {
    RunLeads(env, [g, h, k, l, m], turns);
  }

  /** From the empty loop four events are enough: the listener accepts a client, the client asks for a
      program, the program prints the end of its header, and then ends or prints one byte. */
  lemma FourEventsEndTheServer(env: Env, r: CgiPipe.ReadResult)
    requires env.maxConnections > 0 && Limit(env) < CgiStream.CGI_STREAM_HWM && Fatal(r)
    ensures Run(env, Listening(), Story(env, r)).fallen
  {
    var s, g := Story(env, r), Listening();
    ClientArrives(env, Limit(env));
    var g1 := RunTurn(env, g, s[0]);
    ProgramStarts(env, g1, Limit(env));
    var g2 := RunTurn(env, g1, s[1]);
    HeaderGoesOut(env, g2);
    var g3 := RunTurn(env, g2, s[2]);
    ServerGoesDown(env, g3, r);
    FourTurns(env, g, g1, g2, g3, RunTurn(env, g3, s[3]), s);
  }
}
