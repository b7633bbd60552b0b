/** The event loop one step at a time: a run of it is a sequence of single steps, and each leaves alone the jobs
    it does not concern. */
module LoopSteps {
  import opened Text
  import opened EventTable
  import opened LoopState
  import opened LoopInvariant
  import opened LoopRun
  import Buffers

  // ------------------------------------------------------------------- steps

  /** What the loop does, one thing at a time. */
  datatype Happening =
    | Occurs(event: Event, answers: Answers)
    | Frees
    | IsLate(late: Late)
    | Expires(expired: Expired)
    | Reaps(exits: int -> bool, now: int)

  ghost function Do(env: Env, g: Loop, x: Happening): Loop
  {
    match x
    case Occurs(e, a) => Dispatch(env, g, e, a)
    case Frees => Freed(g)
    case IsLate(late) => TimeOut(env, g, late)
    case Expires(expired) => ExpireJob(env, g, expired.job, expired.answers)
    case Reaps(exits, now) => Reap(g, exits, now)
  }

  ghost function DoAll(env: Env, g: Loop, xs: seq<Happening>): Loop
    decreases |xs|
  {
    if xs == [] then g else DoAll(env, Do(env, g, xs[0]), xs[1..])
  }

  /** Events are dispatched only when they can be. */
  ghost predicate Possible(g: Loop, x: Happening) { x.Occurs? && !g.fallen ==> Awaits(g, x.event) }

  ghost predicate Proper(env: Env, g: Loop, xs: seq<Happening>)
    decreases |xs|
  {
    xs == [] || (Possible(g, xs[0]) && Proper(env, Do(env, g, xs[0]), xs[1..]))
  }

  lemma DoKeepsInv(env: Env, g: Loop, x: Happening)
    requires Well(g) && Possible(g, x)
    ensures Well(Do(env, g, x))
  {
    if !g.fallen {
      match x
      case Occurs(e, a) => AwaitedKeepsInv(env, g, e, a);
      case Frees => FreedKeepsInv(g);
      case IsLate(late) => TimeOutKeepsInv(env, g, late);
      case Expires(expired) => ExpireJobKeepsInv(env, g, expired.job, expired.answers);
      case Reaps(exits, now) => ReapKeepsInv(g, exits, now);
    }
  }

  lemma FallenStays(env: Env, g: Loop, x: Happening)
    requires g.fallen
    ensures Do(env, g, x) == g
  {
  }

  // ------------------------------------------------------ runs are such steps

  lemma {:induction false} DoBoth(env: Env, g: Loop, xs: seq<Happening>, ys: seq<Happening>)
    ensures DoAll(env, g, xs + ys) == DoAll(env, DoAll(env, g, xs), ys)
    ensures Proper(env, g, xs + ys) <==> Proper(env, g, xs) && Proper(env, DoAll(env, g, xs), ys)
    decreases |xs|
  {
    if xs == [] {
      assert xs + ys == ys;
    } else {
      assert (xs + ys)[1..] == xs[1..] + ys;
      DoBoth(env, Do(env, g, xs[0]), xs[1..], ys);
    }
  }

  lemma DoOne(env: Env, g: Loop, x: Happening)
    ensures DoAll(env, g, [x]) == Do(env, g, x) && (Proper(env, g, [x]) <==> Possible(g, x))
  {
    assert [x][1..] == [];
  }

  lemma OneMore(env: Env, g: Loop, xs: seq<Happening>, x: Happening)
    requires Proper(env, g, xs) && Possible(DoAll(env, g, xs), x)
    ensures Proper(env, g, xs + [x]) && DoAll(env, g, xs + [x]) == Do(env, DoAll(env, g, xs), x)
  {
    DoBoth(env, g, xs, [x]);
    DoOne(env, DoAll(env, g, xs), x);
  }

  lemma NextInBatch(env: Env, g: Loop, batch: seq<Event>, answers: nat -> Answers, i: nat)
    requires Inv(g) && Orderly(g, batch, 0) && i < |batch|
    ensures var h, x := After(env, g, batch, answers, i), Occurs(batch[i], answers(i));
            Possible(h, x) && After(env, g, batch, answers, i + 1) == Do(env, h, x)
  {
    BatchKeepsInv(env, g, batch, answers, i);
    NextIsDispatch(env, g, batch, answers, i);
  }

  /** The first `i` events of a batch. */
  function Occurrences(batch: seq<Event>, answers: nat -> Answers, i: nat): seq<Happening>
    requires i <= |batch|
  {
    if i == 0 then [] else Occurrences(batch, answers, i - 1) + [Occurs(batch[i - 1], answers(i - 1))]
  }

  lemma {:induction false} BatchIsSteps(env: Env, g: Loop, batch: seq<Event>, answers: nat -> Answers, i: nat)
    requires Inv(g) && Orderly(g, batch, 0) && i <= |batch|
    ensures var xs := Occurrences(batch, answers, i); Proper(env, g, xs) && DoAll(env, g, xs) == After(env, g, batch, answers, i)
    decreases i
  {
    if i > 0 {
      BatchIsSteps(env, g, batch, answers, i - 1);
      NextInBatch(env, g, batch, answers, i - 1);
      OneMore(env, g, Occurrences(batch, answers, i - 1), Occurs(batch[i - 1], answers(i - 1)));
    }
  }

  function Lates(late: seq<Late>): seq<Happening> { if late == [] then [] else [IsLate(late[0])] + Lates(late[1..]) }

  function Expirings(expired: seq<Expired>): seq<Happening>
  {
    if expired == [] then [] else [Expires(expired[0])] + Expirings(expired[1..])
  }

  lemma {:induction false} LatesAreSteps(env: Env, g: Loop, late: seq<Late>)
    ensures Proper(env, g, Lates(late)) && DoAll(env, g, Lates(late)) == TimeOutAll(env, g, late)
    decreases |late|
  {
    if late != [] {
      assert Lates(late)[1..] == Lates(late[1..]);
      LatesAreSteps(env, TimeOut(env, g, late[0]), late[1..]);
    }
  }

  lemma {:induction false} ExpiringsAreSteps(env: Env, g: Loop, expired: seq<Expired>)
    ensures Proper(env, g, Expirings(expired)) && DoAll(env, g, Expirings(expired)) == ExpireAll(env, g, expired)
    decreases |expired|
  {
    if expired != [] {
      assert Expirings(expired)[1..] == Expirings(expired[1..]);
      ExpiringsAreSteps(env, ExpireJob(env, g, expired[0].job, expired[0].answers), expired[1..]);
    }
  }

  /** The steps of a turn: the events that are reported, then freeing, who is late, what is late, reaping. */
  function TurnSteps(g: Loop, t: Turn): seq<Happening>
  {
    var batch := Wait(g.table, t.ready);
    Occurrences(batch, t.answers, |batch|) + ([Frees] + (Lates(t.late) + (Expirings(t.expired) + [Reaps(t.exits, t.now)])))
  }

  /** One turn of the loop is these steps, one after the other. */
  lemma TurnIsSteps(env: Env, g: Loop, t: Turn)
    requires Inv(g)
    ensures Proper(env, g, TurnSteps(g, t)) && DoAll(env, g, TurnSteps(g, t)) == RunTurn(env, g, t)
  {
    var batch := Wait(g.table, t.ready);
    WaitIsOrderly(g, t.ready);
    BatchIsSteps(env, g, batch, t.answers, |batch|);
    var h := Freed(Batch(env, g, t));
    var k := TimeOutAll(env, h, t.late);
    LatesAreSteps(env, h, t.late);
    ExpiringsAreSteps(env, k, t.expired);
    var last := Expirings(t.expired) + [Reaps(t.exits, t.now)];
    DoBoth(env, k, Expirings(t.expired), [Reaps(t.exits, t.now)]);
    DoOne(env, ExpireAll(env, k, t.expired), Reaps(t.exits, t.now));
    DoBoth(env, h, Lates(t.late), last);
    DoOne(env, Batch(env, g, t), Frees);
    DoBoth(env, Batch(env, g, t), [Frees], Lates(t.late) + last);
    DoBoth(env, g, Occurrences(batch, t.answers, |batch|), [Frees] + (Lates(t.late) + last));
  }

  /** The steps of a run: turn by turn, until an exception has left the loop. */
  ghost function RunSteps(env: Env, g: Loop, turns: seq<Turn>): seq<Happening>
    decreases |turns|
  {
    if turns == [] || g.fallen then [] else TurnSteps(g, turns[0]) + RunSteps(env, RunTurn(env, g, turns[0]), turns[1..])
  }

  /** A run of the loop is these steps. */
  lemma {:induction false} RunIsSteps(env: Env, g: Loop, turns: seq<Turn>)
    requires Well(g)
    ensures Proper(env, g, RunSteps(env, g, turns)) && DoAll(env, g, RunSteps(env, g, turns)) == Run(env, g, turns)
    decreases |turns|
  {
    if turns != [] && !g.fallen {
      TurnIsSteps(env, g, turns[0]);
      TurnKeepsInv(env, g, turns[0]);
      RunIsSteps(env, RunTurn(env, g, turns[0]), turns[1..]);
      DoBoth(env, g, TurnSteps(g, turns[0]), RunSteps(env, RunTurn(env, g, turns[0]), turns[1..]));
    }
  }

  // ------------------------------------------------- handlers spare other jobs

  /** The jobs of every connection but `c` stay as they are. */
  ghost predicate Spares(g: Loop, h: Loop, c: int)
  {
    forall j :: j in g.jobs && g.jobs[j].client != c ==> j in h.jobs && h.jobs[j] == g.jobs[j]
  }

  lemma CloseClientSpares(g: Loop, c: int, a: Answers)
    ensures Spares(g, CloseClient(g, c, a), c)
  {
  }

  lemma RespondKeepsJobs(env: Env, g: Loop, c: int, parts: seq<string>)
    requires c in g.clients
    ensures Respond(env, g, c, parts).jobs == g.jobs
  {
  }

  lemma StartCgiSpares(env: Env, g: Loop, c: int, s: CgiStart, a: Answers)
    requires c in g.clients && g.jobs.Keys <= g.open
    ensures Spares(g, StartCgi(env, g, c, s, a), c)
  {
    if Usable(g, s) {
      var h := CloseSpool(g, c);
      var k := Put(OpenJob(h, c, s), c, h.clients[c].(state := CgiRunning));
      if !(s.pid.Some? && s.pid.value !in k.wards.kernel) { RespondKeepsJobs(env, CloseJob(k, s.readFd, a), c, [env.setting.errorPage(502)]); }
    }
  }

  lemma LaunchSpares(env: Env, g: Loop, c: int, keepAlive: bool, head: bool, s: CgiStart, a: Answers)
    requires c in g.clients && g.jobs.Keys <= g.open
    ensures Spares(g, Launch(env, g, c, keepAlive, head, s, a), c)
  {
    StartCgiSpares(env, g.(clients := g.clients[c := g.clients[c].(state := Processing, keepAlive := keepAlive, head := head)]), c, s, a);
  }

  lemma CatchKeepsJobs(env: Env, g: Loop, c: int)
    requires c in g.clients
    ensures Catch(env, g, c).jobs == g.jobs
  {
  }

  /** But for a program and a closed connection, reading leaves all jobs as they are. */
  lemma AnswerKeepsJobs(env: Env, g: Loop, c: int, a: Answers)
    requires c in g.clients && !a.reaction.PeerClosed? && !a.reaction.Program?
    ensures React(env, g, c, a).jobs == g.jobs
  {
    match a.reaction
    case Quiet(_) =>
    case Flooded => CatchKeepsJobs(env, g, c);
    case Refused(page, keepAlive) => RespondKeepsJobs(env, Remember(g, c, keepAlive), c, [page]);
    case Served(parts, keepAlive) => RespondKeepsJobs(env, Remember(CloseSpool(g, c), c, keepAlive), c, parts);
  }

  lemma HandleReadSpares(env: Env, g: Loop, c: int, a: Answers)
    requires c in g.clients && g.jobs.Keys <= g.open
    ensures Spares(g, HandleRead(env, g, c, a), c)
  {
    var h := Configure(OpenSpool(g, c, a.spool), c, a.limit);
    match a.reaction
    case PeerClosed => CloseClientSpares(h, c, a);
    case Program(keepAlive, head, start) => LaunchSpares(env, h, c, keepAlive, head, start, a);
    case _ => AnswerKeepsJobs(env, h, c, a);
  }

  lemma HandleCgiSpares(env: Env, g: Loop, j: int, a: Answers, c: int)
    requires j in g.jobs ==> g.jobs[j].client == c
    ensures Spares(g, HandleCgi(env, g, j, a), c)
  {
  }

  lemma HandleWriteSpares(env: Env, g: Loop, c: int, a: Answers)
    requires c in g.clients
    ensures Spares(g, HandleWrite(env, g, c, a), c)
  {
    var h := Send(g, c, a.takes);
    match JobOf(h.jobs, c)
    case Some(j) => HandleCgiSpares(env, h.(table := Rearm(h.table, j, READABLE)), j, a, c);
    case None => CloseClientSpares(h, c, a);
  }

  lemma HandleClientSpares(env: Env, g: Loop, c: int, bits: Bits, a: Answers)
    requires g.jobs.Keys <= g.open
    ensures Spares(g, HandleClient(env, g, c, bits, a), c)
  {
    if c in g.clients {
      CloseClientSpares(g, c, a);
      HandleReadSpares(env, g, c, a);
      HandleWriteSpares(env, g, c, a);
    }
  }

  lemma {:induction false} AcceptKeepsJobs(env: Env, g: Loop, waiting: seq<Accepted>)
    ensures Accept(env, g, waiting).jobs == g.jobs
    decreases |waiting|
  {
    if waiting != [] && Acceptable(env, g, waiting[0]) { AcceptKeepsJobs(env, AcceptOne(g, waiting[0]), waiting[1..]); }
  }

  lemma ExpireSpares(env: Env, g: Loop, j: int, a: Answers, c: int)
    requires j in g.jobs ==> g.jobs[j].client == c
    ensures Spares(g, ExpireJob(env, g, j, a), c) && (forall d :: d in g.clients && d != c ==> d in ExpireJob(env, g, j, a).clients && ExpireJob(env, g, j, a).clients[d] == g.clients[d])
  {
  }

  lemma TimeOutSpares(env: Env, g: Loop, x: Late)
    ensures Spares(g, TimeOut(env, g, x), x.fd)
  {
    var c := x.fd;
    if !g.fallen && c in g.clients && g.clients[c].state != CgiRunning
       && Buffers.Room(g.clients[c].out, env.setting.errorPage(408), g.clients[c].limit) {
      var h := HandleWrite(env, Told(env, g, c), c, x.first);
      HandleWriteSpares(env, Told(env, g, c), c, x.first);
      CloseClientSpares(h, c, x.second);
    }
  }

  lemma TimeOutMoves(env: Env, g: Loop, x: Late)
    ensures Moves(g, TimeOut(env, g, x), x.fd)
  {
    var c := x.fd;
    if !g.fallen && c in g.clients && g.clients[c].state != CgiRunning
       && Buffers.Room(g.clients[c].out, env.setting.errorPage(408), g.clients[c].limit) {
      var h := HandleWrite(env, Told(env, g, c), c, x.first);
      HandleWriteMoves(env, Told(env, g, c), c, x.first);
      CloseClientMoves(h, c, x.second);
      MovesTransitively(g, Told(env, g, c), h, c);
      MovesTransitively(g, h, CloseClient(h, c, x.second), c);
    }
  }
}
