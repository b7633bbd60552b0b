/** Whole runs of the event loop: batches of events, the end of each batch, the timeouts.  Every event
    reaches the registration that produced it or nobody, and the invariant holds for ever. */
module LoopRun {
  import opened Text
  import opened EventTable
  import opened LoopState
  import opened LoopInvariant
  import CgiStream
  import CgiPipe
  import Children
  import Buffers

  // ------------------------------------------------- what handlers do to others

  /** Between events of a batch nothing is deleted and nothing that was invalidated comes back. */
  ghost predicate Evolves(t: Table, u: Table)
  {
    && t.heap.Keys <= u.heap.Keys
    && (Tidy(t) ==> Tidy(u) && forall e: Event :: Named(t, e) ==> StaysNamed(t, u, e))
  }

  lemma EvolvesTransitively(t: Table, u: Table, v: Table)
    requires Evolves(t, u) && Evolves(u, v)
    ensures Evolves(t, v)
  {
  }

  lemma RearmEvolves(t: Table, fd: int, mask: Mask)
    ensures Evolves(t, Rearm(t, fd, mask))
  {
  }

  lemma UnregisterEvolves(t: Table, fd: int)
    ensures Evolves(t, Unregister(t, fd))
  {
    if Tidy(t) {
      forall e: Event | Named(t, e) ensures StaysNamed(t, Unregister(t, fd), e) { UnregisterKeepsNamed(t, fd, e); }
    }
  }

  lemma RegisterEvolves(t: Table, fd: int, kind: Kind, mask: Mask, ptr: int)
    requires ptr !in t.heap
    ensures Evolves(t, Register(t, fd, kind, mask, ptr))
  {
    if Tidy(t) {
      forall e: Event | Named(t, e) ensures StaysNamed(t, Register(t, fd, kind, mask, ptr), e) {
        RegisterKeepsNamed(t, fd, kind, mask, ptr, e);
      }
    }
  }

  /** A handler working for connection `c` touches no other connection and adds none. */
  ghost predicate Moves(g: Loop, h: Loop, c: int)
  {
    && Evolves(g.table, h.table)
    && (forall d :: d in h.clients && d != c ==> d in g.clients && h.clients[d] == g.clients[d])
  }

  lemma MovesTransitively(g: Loop, h: Loop, k: Loop, c: int)
    requires Moves(g, h, c) && Moves(h, k, c)
    ensures Moves(g, k, c)
  {
    EvolvesTransitively(g.table, h.table, k.table);
  }

  lemma PutMoves(g: Loop, c: int, v: Connection)
    ensures Moves(g, Put(g, c, v), c)
  {
    RearmEvolves(g.table, c, Build(v.state));
  }

  lemma CloseJobMoves(g: Loop, j: int, a: Answers, c: int)
    ensures Moves(g, CloseJob(g, j, a), c)
  {
    UnregisterEvolves(g.table, j);
  }

  lemma CloseClientMoves(g: Loop, c: int, a: Answers)
    ensures Moves(g, CloseClient(g, c, a), c)
  {
    var job := JobOf(g.jobs, c);
    if job.Some? { CloseJobMoves(g, job.value, a, c); }
    var h := CloseJobs(g, c, a);
    UnregisterEvolves(h.table, c);
    EvolvesTransitively(g.table, h.table, Unregister(h.table, c));
  }

  lemma CatchMoves(env: Env, g: Loop, c: int)
    requires c in g.clients
    ensures Moves(g, Catch(env, g, c), c)
  {
    var v, page := g.clients[c], env.setting.errorPage(413);
    PutMoves(g, c, v.(state := Writing, out := v.out + page, keepAlive := false));
  }

  lemma RespondMoves(env: Env, g: Loop, c: int, parts: seq<string>)
    requires c in g.clients
    ensures Moves(g, Respond(env, g, c, parts), c)
  {
    var v := g.clients[c];
    var w := Buffers.AppendAll(v.out, parts, v.limit);
    if w.thrown {
      var h := g.(clients := g.clients[c := v.(out := w.out)]);
      CatchMoves(env, h, c);
      MovesTransitively(g, h, Catch(env, h, c), c);
    } else {
      PutMoves(g, c, v.(state := Writing, out := w.out));
    }
  }

  lemma WithPipeMoves(env: Env, g: Loop, c: int, s: CgiStart, a: Answers)
    requires c in g.clients && s.Started? && s.ptr !in g.table.heap
    ensures Moves(g, WithPipe(env, g, c, s, a), c)
  {
    var v := g.clients[c];
    var h := OpenJob(g, c, s);
    RegisterEvolves(g.table, s.readFd, Cgi, READABLE, s.ptr);
    var k := Put(h, c, v.(state := CgiRunning));
    PutMoves(h, c, v.(state := CgiRunning));
    MovesTransitively(g, h, k, c);
    if !(s.pid.Some? && s.pid.value !in k.wards.kernel) {
      var l := CloseJob(k, s.readFd, a);
      CloseJobMoves(k, s.readFd, a, c);
      RespondMoves(env, l, c, [env.setting.errorPage(502)]);
      MovesTransitively(g, k, l, c);
      MovesTransitively(g, l, Respond(env, l, c, [env.setting.errorPage(502)]), c);
    }
  }

  lemma StartCgiMoves(env: Env, g: Loop, c: int, s: CgiStart, a: Answers)
    requires c in g.clients
    ensures Moves(g, StartCgi(env, g, c, s, a), c)
  {
    var page := env.setting.errorPage(500);
    if Usable(g, s) {
      WithPipeMoves(env, CloseSpool(g, c), c, s, a);
      MovesTransitively(g, CloseSpool(g, c), WithPipe(env, CloseSpool(g, c), c, s, a), c);
    } else {
      var h := if Buffers.Room(g.clients[c].out, page, g.clients[c].limit) then CloseSpool(g, c) else g;
      RespondMoves(env, h, c, [page]);
      MovesTransitively(g, h, Respond(env, h, c, [page]), c);
    }
  }

  lemma ReactMoves(env: Env, g: Loop, c: int, a: Answers)
    requires c in g.clients
    ensures Moves(g, React(env, g, c, a), c)
  {
    match a.reaction
    case Quiet(_) =>
    case PeerClosed => CloseClientMoves(g, c, a);
    case Flooded => CatchMoves(env, g, c);
    case Refused(page, keepAlive) =>
      var h := Remember(g, c, keepAlive);
      RespondMoves(env, h, c, [page]);
      MovesTransitively(g, h, Respond(env, h, c, [page]), c);
    case Served(parts, keepAlive) =>
      var h := Remember(CloseSpool(g, c), c, keepAlive);
      RespondMoves(env, h, c, parts);
      MovesTransitively(g, h, Respond(env, h, c, parts), c);
    case Program(keepAlive, head, start) =>
      var h := g.(clients := g.clients[c := g.clients[c].(state := Processing, keepAlive := keepAlive, head := head)]);
      StartCgiMoves(env, h, c, start, a);
      MovesTransitively(g, h, StartCgi(env, h, c, start, a), c);
  }

  lemma HandleReadMoves(env: Env, g: Loop, c: int, a: Answers)
    requires c in g.clients
    ensures Moves(g, HandleRead(env, g, c, a), c)
  {
    if g.clients[c].state != CgiRunning {
      var h := Configure(OpenSpool(g, c, a.spool), c, a.limit);
      ReactMoves(env, h, c, a);
      MovesTransitively(g, h, React(env, h, c, a), c);
    }
  }

  lemma ApplyPipeMoves(g: Loop, j: int, o: CgiPipe.Outcome, a: Answers)
    requires j in g.jobs && g.jobs[j].client in g.clients
    ensures Moves(g, ApplyPipe(g, j, o, a), g.jobs[j].client)
  {
    if o.Kept? { KeptMoves(g, j, o.job, a); }
  }

  lemma KeptMoves(g: Loop, j: int, t: CgiStream.Job, a: Answers)
    requires j in g.jobs && g.jobs[j].client in g.clients
    ensures Moves(g, ApplyPipe(g, j, CgiPipe.Kept(t), a), g.jobs[j].client)
  {
    var c := g.jobs[j].client;
    var v := g.clients[c];
    match t.phase
    case Heading =>
    case Streaming =>
      var h := g.(jobs := g.jobs[j := Pipe(c, t.(out := ""))]);
      PutMoves(h, c, v.(state := Writing, out := t.out));
      MovesTransitively(g, h, Put(h, c, v.(state := Writing, out := t.out)), c);
    case Over(hadHeaders, _, failed, _) =>
      var w := v.(state := Writing, out := t.out, keepAlive := v.keepAlive && !(hadHeaders && failed));
      PutMoves(g, c, w);
      CloseJobMoves(Put(g, c, w), j, a, c);
      MovesTransitively(g, Put(g, c, w), CloseJob(Put(g, c, w), j, a), c);
  }

  lemma HandleCgiMoves(env: Env, g: Loop, j: int, a: Answers, c: int)
    requires j in g.jobs ==> g.jobs[j].client == c && c in g.clients
    ensures Moves(g, HandleCgi(env, g, j, a), c)
  {
    if j in g.jobs {
      var v := g.clients[c];
      ApplyPipeMoves(g, j, CgiPipe.OnPipeWithin(SettingOf(env, v), JobAt(g, j), Clipped(a.pipe), v.limit), a);
    }
  }

  lemma WriteOnMoves(env: Env, g: Loop, c: int, j: int, a: Answers)
    requires c in g.clients && j in g.jobs && g.jobs[j].client == c
    ensures Moves(g, WriteOn(env, g, c, j, a), c)
  {
    var h := g.(table := Rearm(g.table, j, READABLE));
    RearmEvolves(g.table, j, READABLE);
    var k := if |g.clients[c].out| < CGI_STREAM_LWM then HandleCgi(env, h, j, a) else g;
    HandleCgiMoves(env, h, j, a, c);
    MovesTransitively(g, h, HandleCgi(env, h, j, a), c);
    if c in k.clients && !k.fallen {
      PutMoves(k, c, k.clients[c].(state := Writing));
      MovesTransitively(g, k, Put(k, c, k.clients[c].(state := Writing)), c);
    }
  }

  lemma WriteAloneMoves(g: Loop, c: int, a: Answers)
    requires c in g.clients
    ensures Moves(g, WriteAlone(g, c, a), c)
  {
    var v := g.clients[c];
    if v.out != "" {
      PutMoves(g, c, v.(state := Writing));
    } else if !v.halfClosed && v.keepAlive {
      PutMoves(CloseSpool(g, c), c, Idle(v.limit));
      MovesTransitively(g, CloseSpool(g, c), Put(CloseSpool(g, c), c, Idle(v.limit)), c);
    } else {
      CloseClientMoves(g, c, a);
    }
  }

  lemma HandleWriteMoves(env: Env, g: Loop, c: int, a: Answers)
    requires c in g.clients
    ensures Moves(g, HandleWrite(env, g, c, a), c)
  {
    var h := Send(g, c, a.takes);
    match JobOf(h.jobs, c)
    case Some(j) =>
      WriteOnMoves(env, h, c, j, a);
      MovesTransitively(g, h, WriteOn(env, h, c, j, a), c);
    case None =>
      WriteAloneMoves(h, c, a);
      MovesTransitively(g, h, WriteAlone(h, c, a), c);
  }

  lemma HandleClientMoves(env: Env, g: Loop, c: int, bits: Bits, a: Answers)
    ensures Moves(g, HandleClient(env, g, c, bits, a), c)
  {
    if c in g.clients {
      if bits.error {
        CloseClientMoves(g, c, a);
      } else if bits.hangup {
        CloseClientMoves(g, c, a);
      } else if bits.input {
        HandleReadMoves(env, g, c, a);
      } else if bits.output {
        HandleWriteMoves(env, g, c, a);
      }
    }
  }

  /** Accepting only adds connections, on descriptors nobody had. */
  lemma {:induction false} AcceptMoves(env: Env, g: Loop, waiting: seq<Accepted>, d: int)
    requires d in g.open
    ensures var h := Accept(env, g, waiting);
            Evolves(g.table, h.table) && (d in h.clients <==> d in g.clients) && (d in g.clients ==> h.clients[d] == g.clients[d])
    decreases |waiting|
  {
    if waiting != [] && Acceptable(env, g, waiting[0]) {
      var x := waiting[0];
      RegisterEvolves(g.table, x.fd, Client, Build(Reading), x.ptr);
      AcceptMoves(env, AcceptOne(g, x), waiting[1..], d);
      EvolvesTransitively(g.table, AcceptOne(g, x).table, Accept(env, g, waiting).table);
    }
  }

  // ---------------------------------------------------------------- a batch

  /** What can be said of an event that is still to be dispatched: its reference is the one that was
      reported, not deleted; and if it is still in force for a connection, its bits fit the state. */
  ghost predicate Awaits(g: Loop, e: Event)
  {
    Named(g.table, e) &&
    (Live(g.table, e) && g.table.heap[e.ptr].kind.Client? ==> e.fd in g.clients && Fitting(g, e.fd, e.bits))
  }

  lemma AwaitedKeepsInv(env: Env, g: Loop, e: Event, a: Answers)
    requires Inv(g) && Awaits(g, e)
    ensures Well(Dispatch(env, g, e, a))
  {
    ActedOnIffLive(g.table, e);
    DispatchKeepsInv(env, g, e, a);
  }

  lemma InvIsTidy(g: Loop)
    requires Inv(g)
    ensures Tidy(g.table)
  {
    forall fd | fd in g.table.refs ensures g.table.refs[fd] in g.table.heap && g.table.heap[g.table.refs[fd]].fd == fd {
      assert Current(g.table, fd);
    }
  }

  /** An event that is still to be dispatched stays so, unless nothing will be dispatched any more. */
  ghost predicate StillAwaits(h: Loop, e: Event)
  {
    h.fallen || Awaits(h, e)
  }

  /** If the registration is still in force it is still a connection's, and was before. */
  lemma LiveBeforeAndAfter(g: Loop, h: Loop, e: Event)
    requires Inv(g) && Inv(h) && Awaits(g, e) && Evolves(g.table, h.table)
    ensures Named(h.table, e)
    ensures Live(h.table, e) && h.table.heap[e.ptr].kind.Client? ==>
              Live(g.table, e) && e.fd in g.clients && e.fd in h.clients && Fitting(g, e.fd, e.bits)
  {
    InvIsTidy(g);
    ActedOnIffLive(h.table, e);
  }

  lemma AcceptAwaits(env: Env, g: Loop, a: Answers, e: Event)
    requires Inv(g) && Awaits(g, e)
    ensures StillAwaits(Accept(env, g, a.accepts), e)
  {
    var h := Accept(env, g, a.accepts);
    AcceptKeepsInv(env, g, a.accepts);
    AcceptEvolves(env, g, a.accepts);
    LiveBeforeAndAfter(g, h, e);
    if e.fd in g.clients { AcceptMoves(env, g, a.accepts, e.fd); }
  }

  lemma {:induction false} AcceptEvolves(env: Env, g: Loop, waiting: seq<Accepted>)
    ensures Evolves(g.table, Accept(env, g, waiting).table)
    decreases |waiting|
  {
    if waiting != [] && Acceptable(env, g, waiting[0]) {
      var x := waiting[0];
      RegisterEvolves(g.table, x.fd, Client, Build(Reading), x.ptr);
      AcceptEvolves(env, AcceptOne(g, x), waiting[1..]);
      EvolvesTransitively(g.table, AcceptOne(g, x).table, Accept(env, g, waiting).table);
    }
  }

  lemma CgiAwaits(env: Env, g: Loop, j: int, a: Answers, e: Event)
    requires Inv(g) && Awaits(g, e) && j in g.jobs
    ensures StillAwaits(HandleCgi(env, g, j, a), e)
  {
    var c, h := g.jobs[j].client, HandleCgi(env, g, j, a);
    HandleCgiKeepsInv(env, g, j, a);
    HandleCgiMoves(env, g, j, a, c);
    if h.fallen { return; }
    LiveBeforeAndAfter(g, h, e);
    if e.fd == c && Live(h.table, e) && h.table.heap[e.ptr].kind.Client? {
      assert Agree(g, c);
      JobIs(g.jobs, j);
      if e.bits.output { StreamingStaysWriting(env, g, j, a); }
    }
  }

  lemma ClientAwaits(env: Env, g: Loop, e: Event, a: Answers, f: Event)
    requires Inv(g) && Awaits(g, e) && Awaits(g, f) && e.fd != f.fd && Fitting(g, e.fd, e.bits)
    ensures StillAwaits(HandleClient(env, g, e.fd, e.bits, a), f)
  {
    var h := HandleClient(env, g, e.fd, e.bits, a);
    HandleClientKeepsInv(env, g, e.fd, e.bits, a);
    HandleClientMoves(env, g, e.fd, e.bits, a);
    if !h.fallen { LiveBeforeAndAfter(g, h, f); }
  }

  /** Dispatching one event leaves the others of the batch in order. */
  lemma DispatchAwaits(env: Env, g: Loop, e: Event, a: Answers, f: Event)
    requires Inv(g) && Awaits(g, e) && Awaits(g, f) && e.fd != f.fd
    ensures StillAwaits(Dispatch(env, g, e, a), f)
  {
    ActedOnIffLive(g.table, e);
    match g.table.heap[e.ptr].kind
    case Invalid =>
    case Server => AcceptAwaits(env, g, a, f);
    case Cgi => CgiAwaits(env, g, e.fd, a, f);
    case Client => ClientAwaits(env, g, e, a, f);
  }

  lemma DispatchEvolves(env: Env, g: Loop, e: Event, a: Answers)
    requires Inv(g) && Awaits(g, e)
    ensures Evolves(g.table, Dispatch(env, g, e, a).table)
  {
    ActedOnIffLive(g.table, e);
    match g.table.heap[e.ptr].kind
    case Invalid =>
    case Server => AcceptEvolves(env, g, a.accepts);
    case Cgi => HandleCgiMoves(env, g, e.fd, a, g.jobs[e.fd].client);
    case Client => HandleClientMoves(env, g, e.fd, e.bits, a);
  }

  ghost function Iterate(step: (Loop, nat) -> Loop, g: Loop, i: nat): Loop
  {
    if i == 0 then g else step(Iterate(step, g, i - 1), i - 1)
  }

  ghost function Steps(env: Env, batch: seq<Event>, answers: nat -> Answers): (Loop, nat) -> Loop
  {
    (h: Loop, k: nat) => if k < |batch| then Dispatch(env, h, batch[k], answers(k)) else h
  }

  /** The state before the `i`-th event of a batch. */
  ghost function After(env: Env, g: Loop, batch: seq<Event>, answers: nat -> Answers, i: nat): Loop
  {
    Iterate(Steps(env, batch, answers), g, i)
  }

  ghost predicate Orderly(g: Loop, batch: seq<Event>, i: nat)
    requires i <= |batch|
  {
    && (forall k :: i <= k < |batch| ==> Awaits(g, batch[k]))
    && (forall k, l :: 0 <= k < l < |batch| ==> batch[k].fd != batch[l].fd)
  }

  /** A registration that stays in force keeps its kind. */
  ghost predicate KindKept(g: Loop, h: Loop, e: Event)
  {
    e.ptr in h.table.heap && e.ptr in g.table.heap
    && (Live(h.table, e) ==> h.table.heap[e.ptr].kind == g.table.heap[e.ptr].kind)
  }

  ghost predicate KindsKept(g: Loop, h: Loop, batch: seq<Event>, i: nat)
  {
    forall k :: i <= k < |batch| ==> KindKept(g, h, batch[k])
  }

  lemma DispatchKeepsOrder(env: Env, h: Loop, batch: seq<Event>, i: nat, a: Answers)
    requires i < |batch| && Inv(h) && Orderly(h, batch, i)
    ensures var k := Dispatch(env, h, batch[i], a); Well(k) && (!k.fallen ==> Orderly(k, batch, i + 1))
  {
    AwaitedKeepsInv(env, h, batch[i], a);
    var k := Dispatch(env, h, batch[i], a);
    if !k.fallen {
      forall l | i + 1 <= l < |batch| ensures Awaits(k, batch[l]) { DispatchAwaits(env, h, batch[i], a, batch[l]); }
    }
  }

  lemma DispatchKeepsKinds(env: Env, g: Loop, h: Loop, batch: seq<Event>, i: nat, a: Answers)
    requires i < |batch| && Inv(h) && Orderly(h, batch, i) && KindsKept(g, h, batch, i)
    ensures KindsKept(g, Dispatch(env, h, batch[i], a), batch, i + 1)
    ensures h.table.heap.Keys <= Dispatch(env, h, batch[i], a).table.heap.Keys
  {
    InvIsTidy(h);
    DispatchEvolves(env, h, batch[i], a);
    var u := Dispatch(env, h, batch[i], a).table;
    forall k | i + 1 <= k < |batch| ensures KindKept(g, Dispatch(env, h, batch[i], a), batch[k]) {
      assert KindKept(g, h, batch[k]) && Awaits(h, batch[k]) && Named(u, batch[k]);
    }
  }

  /** In the middle of a batch that was collected in `g`; a loop that has fallen dispatches no more. */
  ghost predicate InBatch(g: Loop, h: Loop, batch: seq<Event>, i: nat)
  {
    && Well(h)
    && (!h.fallen ==>
         i <= |batch| && Orderly(h, batch, i) && KindsKept(g, h, batch, i) && g.table.heap.Keys <= h.table.heap.Keys)
  }

  lemma BatchStarts(g: Loop, batch: seq<Event>)
    requires Inv(g) && Orderly(g, batch, 0)
    ensures InBatch(g, g, batch, 0)
  {
    assert forall k :: 0 <= k < |batch| ==> Awaits(g, batch[k]);
  }

  lemma BatchGoesOn(env: Env, g: Loop, h: Loop, batch: seq<Event>, i: nat, a: Answers)
    requires i < |batch| && InBatch(g, h, batch, i)
    ensures InBatch(g, Dispatch(env, h, batch[i], a), batch, i + 1)
  {
    if !h.fallen {
      DispatchKeepsOrder(env, h, batch, i, a);
      DispatchKeepsKinds(env, g, h, batch, i, a);
    }
  }

  /** What every step keeps, all steps keep. */
  lemma {:induction false} IterateKeeps(keeps: (Loop, nat) -> bool, step: (Loop, nat) -> Loop, g: Loop, bound: nat, i: nat)
    requires i <= bound && keeps(g, 0)
    requires forall h, k: nat :: k < bound && keeps(h, k) ==> keeps(step(h, k), k + 1)
    ensures keeps(Iterate(step, g, i), i)
  {
    if i > 0 {
      IterateKeeps(keeps, step, g, bound, i - 1);
      assert keeps(step(Iterate(step, g, i - 1), i - 1), (i - 1) + 1);
    }
  }

  ghost function Keeping(g: Loop, batch: seq<Event>): (Loop, nat) -> bool
  {
    (h: Loop, k: nat) => InBatch(g, h, batch, k)
  }

  lemma StepKeeps(env: Env, g: Loop, batch: seq<Event>, answers: nat -> Answers, h: Loop, k: nat)
    requires k < |batch| && Keeping(g, batch)(h, k)
    ensures Keeping(g, batch)(Steps(env, batch, answers)(h, k), k + 1)
  {
    BatchGoesOn(env, g, h, batch, k, answers(k));
  }

  lemma StepsKeep(env: Env, g: Loop, batch: seq<Event>, answers: nat -> Answers, keeps: (Loop, nat) -> bool, step: (Loop, nat) -> Loop)
    requires keeps == Keeping(g, batch) && step == Steps(env, batch, answers)
    ensures forall h, k: nat :: k < |batch| && keeps(h, k) ==> keeps(step(h, k), k + 1)
  {
    forall h, k: nat | k < |batch| && keeps(h, k) ensures keeps(step(h, k), k + 1) {
      StepKeeps(env, g, batch, answers, h, k);
    }
  }

  /** Every event of a batch keeps the invariant and leaves the rest of the batch in order. */
  lemma BatchKeepsInv(env: Env, g: Loop, batch: seq<Event>, answers: nat -> Answers, i: nat)
    requires i <= |batch| && Inv(g) && Orderly(g, batch, 0)
    ensures InBatch(g, After(env, g, batch, answers, i), batch, i)
  {
    BatchStarts(g, batch);
    StepsKeep(env, g, batch, answers, Keeping(g, batch), Steps(env, batch, answers));
    IterateKeeps(Keeping(g, batch), Steps(env, batch, answers), g, |batch|, i);
  }

  /** What `epoll_wait` returns fits: connections that read are polled for input, those that write for
      output. */
  lemma WaitIsOrderly(g: Loop, ready: seq<Ready>)
    requires Inv(g)
    ensures Orderly(g, Wait(g.table, ready), 0)
  {
    var batch := Wait(g.table, ready);
    WaitNames(g.table, ready);
    forall k | 0 <= k < |batch| ensures Awaits(g, batch[k]) {
      var e := batch[k];
      ActedOnIffLive(g.table, e);
      if e.fd in g.clients { assert Agree(g, e.fd); }
    }
  }

  lemma NextIsDispatch(env: Env, g: Loop, batch: seq<Event>, answers: nat -> Answers, i: nat)
    requires i < |batch|
    ensures After(env, g, batch, answers, i + 1) == Dispatch(env, After(env, g, batch, answers, i), batch[i], answers(i))
  {
  }

  lemma IgnoredUnlessLive(env: Env, h: Loop, e: Event, a: Answers)
    requires h.fallen || (Inv(h) && Named(h.table, e) && !Live(h.table, e))
    ensures Dispatch(env, h, e, a) == h
  {
    if !h.fallen { ActedOnIffLive(h.table, e); }
  }

  /** What holds of event `e`, reported in `g`, when its turn comes in `h`. */
  ghost predicate Safe(g: Loop, h: Loop, e: Event)
  {
    && g.table.heap.Keys <= h.table.heap.Keys && Named(h.table, e) && e.ptr in g.table.heap
    && (Live(h.table, e) ==>
         KindOf(h.table, e.fd) == h.table.heap[e.ptr].kind == g.table.heap[e.ptr].kind
         && (KindOf(h.table, e.fd) == Client ==> e.fd in h.clients && Fitting(h, e.fd, e.bits)))
  }

  lemma AwaitingIsSafe(g: Loop, h: Loop, batch: seq<Event>, i: nat)
    requires i < |batch| && InBatch(g, h, batch, i) && !h.fallen
    ensures Safe(g, h, batch[i])
  {
    assert Awaits(h, batch[i]) && KindKept(g, h, batch[i]);
    ActedOnIffLive(h.table, batch[i]);
  }

  /** Dispatch safety.  When its turn comes, the reference of an event has not been deleted and is the
      one that was reported, even if its descriptor was closed and used again meanwhile; either it is
      still the registration of that descriptor, of the same kind, or the event is ignored.  Once an
      exception has left the loop nothing is dispatched. */
  lemma DispatchIsSafe(env: Env, g: Loop, ready: seq<Ready>, answers: nat -> Answers, i: nat)
    requires Inv(g) && i < |Wait(g.table, ready)|
    ensures var batch := Wait(g.table, ready);
            var h := After(env, g, batch, answers, i);
            && (h.fallen || Safe(g, h, batch[i]))
            && (h.fallen || !Live(h.table, batch[i]) ==> After(env, g, batch, answers, i + 1) == h)
  {
    var batch := Wait(g.table, ready);
    var h := After(env, g, batch, answers, i);
    WaitIsOrderly(g, ready);
    BatchKeepsInv(env, g, batch, answers, i);
    NextIsDispatch(env, g, batch, answers, i);
    if !h.fallen { AwaitingIsSafe(g, h, batch, i); }
    if h.fallen || !Live(h.table, batch[i]) { IgnoredUnlessLive(env, h, batch[i], answers(i)); }
  }

  // ----------------------------------------------------- after a batch, and on

  lemma FreedKeepsInv(g: Loop)
    requires Inv(g)
    ensures Inv(g.(table := FreeStale(g.table)))
  {
    var h := g.(table := FreeStale(g.table));
    FreeStaleKeepsSound(g.table);
    forall fd ensures KindOf(h.table, fd) == Expected(h, fd) { FreeStaleShows(g.table, fd); }
    forall fd | fd in h.listeners || fd in h.jobs ensures MaskOf(h.table, fd) == Some(READABLE) { FreeStaleShows(g.table, fd); }
    forall c | c in h.clients ensures Agree(h, c) {
      assert Agree(g, c);
      FreeStaleShows(g.table, c);
    }
  }

  /** A connection found late: its descriptor, and the answers for the write and for the close. */
  datatype Late = Late(fd: int, first: Answers, second: Answers)

  /** A late connection with its response behind whatever it had still to send. */
  function Told(env: Env, g: Loop, c: int): Loop
    requires c in g.clients
  {
    var v := g.clients[c];
    g.(clients := g.clients[c := v.(out := v.out + env.setting.errorPage(408))])
  }

  /** The body of the loop of `_closeTimedOutClients`; connections waiting for a program are passed over. */
  ghost function TimeOut(env: Env, g: Loop, x: Late): Loop
  {
    if g.fallen || x.fd !in g.clients || g.clients[x.fd].state == CgiRunning then g
    else if !Buffers.Room(g.clients[x.fd].out, env.setting.errorPage(408), g.clients[x.fd].limit) then Fall(g)
    else
      var h := HandleWrite(env, Told(env, g, x.fd), x.fd, x.first);
      if h.fallen then h else CloseClient(h, x.fd, x.second)
  }

  /** Closing a connection that is closed already changes nothing. */
  lemma ClosedIsClosed(g: Loop, c: int, a: Answers)
    requires Inv(g) && c !in g.clients && c !in g.listeners && c !in g.jobs
    ensures CloseClient(g, c, a) == g
  {
    RegisteredIffKind(g.table, c);
    assert g.table.interest - {c} == g.table.interest;
    assert CloseJobs(g, c, a) == g;
    assert Unregister(g.table, c) == g.table;
  }

  /** Nothing the write handler does opens a pipe. */
  lemma WriteOpensNothing(env: Env, g: Loop, c: int, a: Answers)
    requires c in g.clients
    ensures var h := HandleWrite(env, g, c, a); h.jobs.Keys <= g.jobs.Keys && h.listeners == g.listeners
  {
    var h := Send(g, c, a.takes);
    match JobOf(h.jobs, c)
    case Some(j) => PipeOpensNothing(env, h.(table := Rearm(h.table, j, READABLE)), j, a);
    case None =>
  }

  lemma PipeOpensNothing(env: Env, g: Loop, j: int, a: Answers)
    ensures var h := HandleCgi(env, g, j, a); h.jobs.Keys <= g.jobs.Keys && h.listeners == g.listeners
  {
    if j in g.jobs && g.jobs[j].client in g.clients {
      var v := g.clients[g.jobs[j].client];
      AppliedOpensNothing(g, j, CgiPipe.OnPipeWithin(SettingOf(env, v), JobAt(g, j), Clipped(a.pipe), v.limit), a);
    }
  }

  lemma AppliedOpensNothing(g: Loop, j: int, o: CgiPipe.Outcome, a: Answers)
    requires j in g.jobs && g.jobs[j].client in g.clients
    ensures var h := ApplyPipe(g, j, o, a); h.jobs.Keys <= g.jobs.Keys && h.listeners == g.listeners
  {
  }

  /** On the way no connection ever has two jobs. */
  lemma TimeOutWrites(env: Env, g: Loop, x: Late)
    requires Inv(g) && x.fd in g.clients && g.clients[x.fd].state != CgiRunning
    requires Buffers.Room(g.clients[x.fd].out, env.setting.errorPage(408), g.clients[x.fd].limit)
    ensures Well(HandleWrite(env, Told(env, g, x.fd), x.fd, x.first))
  {
    var v := g.clients[x.fd].(out := g.clients[x.fd].out + env.setting.errorPage(408));
    assert Agree(g, x.fd);
    ClientKeepsRest(g, x.fd, v);
    HandleWriteKeepsInv(env, Told(env, g, x.fd), x.fd, x.first);
  }

  lemma TimeOutKeepsInv(env: Env, g: Loop, x: Late)
    requires Inv(g)
    ensures Well(TimeOut(env, g, x))
  {
    var c := x.fd;
    if c in g.clients && g.clients[c].state != CgiRunning
       && Buffers.Room(g.clients[c].out, env.setting.errorPage(408), g.clients[c].limit) {
      TimeOutWrites(env, g, x);
      WriteOpensNothing(env, Told(env, g, c), c, x.first);
      var h := HandleWrite(env, Told(env, g, c), c, x.first);
      if !h.fallen {
        if c in h.clients { CloseClientKeepsInv(h, c, x.second); } else { ClosedIsClosed(h, c, x.second); }
      }
    }
  }

  ghost function TimeOutAll(env: Env, g: Loop, late: seq<Late>): Loop
    decreases |late|
  {
    if late == [] then g else TimeOutAll(env, TimeOut(env, g, late[0]), late[1..])
  }

  datatype Expired = Expired(job: int, answers: Answers)

  /** `_closeTimedOutCgiJobs`. */
  function ExpireAll(env: Env, g: Loop, expired: seq<Expired>): Loop
    decreases |expired|
  {
    if expired == [] then g else ExpireAll(env, ExpireJob(env, g, expired[0].job, expired[0].answers), expired[1..])
  }

  lemma {:induction false} TimeOutAllKeepsInv(env: Env, g: Loop, late: seq<Late>)
    requires Well(g)
    ensures Well(TimeOutAll(env, g, late))
    decreases |late|
  {
    if late != [] {
      if !g.fallen { TimeOutKeepsInv(env, g, late[0]); }
      TimeOutAllKeepsInv(env, TimeOut(env, g, late[0]), late[1..]);
    }
  }

  lemma {:induction false} ExpireAllKeepsInv(env: Env, g: Loop, expired: seq<Expired>)
    requires Well(g)
    ensures Well(ExpireAll(env, g, expired))
    decreases |expired|
  {
    if expired != [] {
      if !g.fallen { ExpireJobKeepsInv(env, g, expired[0].job, expired[0].answers); }
      ExpireAllKeepsInv(env, ExpireJob(env, g, expired[0].job, expired[0].answers), expired[1..]);
    }
  }

  function Reap(g: Loop, exits: int -> bool, now: int): Loop
  {
    if g.fallen then g else g.(wards := Children.ReapPending(g.wards, exits, now))
  }

  lemma ReapKeepsInv(g: Loop, exits: int -> bool, now: int)
    requires Well(g)
    ensures Well(Reap(g, exits, now))
  {
    var h := Reap(g, exits, now);
    if !g.fallen {
      Children.ReapPendingKeepsInv(g.wards, exits, now);
      assert forall fd :: Expected(h, fd) == Expected(g, fd);
      forall c | c in h.clients ensures Agree(h, c) { assert Agree(g, c); }
    }
  }

  /** One turn of the loop of `run`: what is ready, all answers, who is late, whose child has exited. */
  datatype Turn = Turn(
    ready: seq<Ready>, answers: nat -> Answers, late: seq<Late>, expired: seq<Expired>, exits: int -> bool, now: int)

  ghost function Batch(env: Env, g: Loop, t: Turn): Loop
  {
    var batch := Wait(g.table, t.ready);
    After(env, g, batch, t.answers, |batch|)
  }

  function Freed(g: Loop): Loop
  {
    if g.fallen then g else g.(table := FreeStale(g.table))
  }

  ghost function RunTurn(env: Env, g: Loop, t: Turn): Loop
  {
    Reap(ExpireAll(env, TimeOutAll(env, Freed(Batch(env, g, t)), t.late), t.expired), t.exits, t.now)
  }

  ghost function Run(env: Env, g: Loop, turns: seq<Turn>): Loop
    decreases |turns|
  {
    if turns == [] || g.fallen then g else Run(env, RunTurn(env, g, turns[0]), turns[1..])
  }

  lemma TurnKeepsInv(env: Env, g: Loop, t: Turn)
    requires Inv(g)
    ensures Well(RunTurn(env, g, t))
  {
    var batch := Wait(g.table, t.ready);
    WaitIsOrderly(g, t.ready);
    BatchKeepsInv(env, g, batch, t.answers, |batch|);
    var h := Batch(env, g, t);
    if !h.fallen { FreedKeepsInv(h); }
    TimeOutAllKeepsInv(env, Freed(h), t.late);
    var k := TimeOutAll(env, Freed(h), t.late);
    ExpireAllKeepsInv(env, k, t.expired);
    ReapKeepsInv(ExpireAll(env, k, t.expired), t.exits, t.now);
  }

  /** The global invariant, over every run, until an exception leaves the loop. */
  lemma {:induction false} RunKeepsInv(env: Env, g: Loop, turns: seq<Turn>)
    requires Well(g)
    ensures Well(Run(env, g, turns))
    decreases |turns|
  {
    if turns != [] && !g.fallen {
      TurnKeepsInv(env, g, turns[0]);
      RunKeepsInv(env, RunTurn(env, g, turns[0]), turns[1..]);
    }
  }

  // ------------------------------------------------------------- beginnings

  const INITIAL := Loop(EMPTY, {}, map[], map[], map[], Children.NONE, {}, false, false)

  lemma InitialIsInv()
    ensures Inv(INITIAL)
  {
    Children.NoneIsInv();
  }

  /** `addServerSocket`, on a socket opened before. */
  function AddListener(g: Loop, fd: int, ptr: int): Loop
  {
    g.(listeners := g.listeners + {fd}, open := g.open + {fd}, table := Register(g.table, fd, Server, READABLE, ptr))
  }

  lemma AddListenerKeepsInv(g: Loop, fd: int, ptr: int)
    requires Inv(g) && fd !in g.open && ptr !in g.table.heap
    ensures Inv(AddListener(g, fd, ptr))
  {
    var h := AddListener(g, fd, ptr);
    RegisteredIffKind(g.table, fd);
    RegisterKeepsSound(g.table, fd, Server, READABLE, ptr);
    forall f ensures KindOf(h.table, f) == Expected(h, f) { RegisterShows(g.table, fd, Server, READABLE, ptr, f); }
    forall f | f in h.listeners || f in h.jobs ensures MaskOf(h.table, f) == Some(READABLE) {
      RegisterShows(g.table, fd, Server, READABLE, ptr, f);
    }
    forall c | c in h.clients ensures Agree(h, c) {
      assert Agree(g, c);
      RegisterShows(g.table, fd, Server, READABLE, ptr, c);
    }
  }

  ghost predicate HasOneOwner(w: Children.Wards, c: Children.Child)
  {
    Children.Owned(w, c) && Children.OneOf(Children.IsRunning(w, c), Children.IsPending(w, c), Children.IsGivenUp(w, c))
  }

  /** Child processes over every run: each one ever forked belongs to exactly one of a live job, the
      pending list and the abandoned, or was reaped; and live jobs and their children are one to one. */
  lemma ChildrenAreConserved(env: Env, g: Loop, turns: seq<Turn>, s: nat)
    requires Inv(g) && s < Run(env, g, turns).wards.next
    ensures var h := Run(env, g, turns);
            && h.wards.running.Keys == h.jobs.Keys
            && (s in h.wards.reaped <==> !Children.Unreaped(h.wards, s))
            && (Children.Unreaped(h.wards, s) ==> exists c: Children.Child :: c.serial == s && HasOneOwner(h.wards, c))
  {
    RunKeepsInv(env, g, turns);
    var w := Run(env, g, turns).wards;
    Children.EveryChildIsAccountedFor(w, s);
    if Children.Unreaped(w, s) {
      var c: Children.Child :| c.serial == s && Children.Owned(w, c)
        && Children.OneOf(Children.IsRunning(w, c), Children.IsPending(w, c), Children.IsGivenUp(w, c));
      assert HasOneOwner(w, c);
    }
  }
}
