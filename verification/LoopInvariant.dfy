/** What holds of the event loop between any two steps, and why every handler keeps it. */
module LoopInvariant {
  import opened Text
  import opened EventTable
  import opened LoopState
  import CgiStream
  import CgiPipe
  import Children
  import Buffers

  // -------------------------------------------------------------- statement

  /** Who a descriptor is registered for. */
  function Expected(g: Loop, fd: int): Kind
  {
    if fd in g.listeners then Server else if fd in g.clients then Client else if fd in g.jobs then Cgi else Invalid
  }

  /** The keys of `_event_refs` are the listeners, the connections and the CGI pipes, each of its kind;
      pipes and listeners are watched for reading. */
  ghost predicate Registered(g: Loop)
  {
    && Sound(g.table)
    && (forall fd :: KindOf(g.table, fd) == Expected(g, fd))
    && (forall fd :: fd in g.listeners || fd in g.jobs ==> MaskOf(g.table, fd) == Some(READABLE))
  }

  /** No descriptor is shared, none is lost. */
  ghost predicate Descriptors(g: Loop)
  {
    && (forall fd :: fd in g.open <==> fd in g.listeners || fd in g.clients || fd in g.jobs || fd in g.spools)
    && (forall fd :: fd in g.listeners ==> fd !in g.clients && fd !in g.jobs && fd !in g.spools)
    && (forall fd :: fd in g.clients ==> fd !in g.jobs && fd !in g.spools)
    && (forall fd :: fd in g.jobs ==> fd !in g.spools)
    && (forall s :: s in g.spools ==> g.spools[s] in g.clients)
    && (forall s, r :: s in g.spools && r in g.spools && s != r ==> g.spools[s] != g.spools[r])
  }

  /** A job that is not over has read at most 8001 times and waits for at most 8192 bytes of header. */
  predicate Bounded(core: CgiStream.Job)
  {
    && !core.phase.Over? && core.readCount <= CgiStream.LIMIT_INTERNAL_RECURSION + 1
    && (core.phase.Heading? ==> |core.pending| <= CgiStream.FHLS)
  }

  /** Every job's client is live, no client has two jobs, and a job in the table is not over. */
  ghost predicate Served(g: Loop)
  {
    && (forall j :: j in g.jobs ==> g.jobs[j].client in g.clients && Bounded(g.jobs[j].core) && g.jobs[j].core.out == "")
    && Single(g.jobs)
  }

  ghost predicate Single(jobs: map<int, Pipe>)
  {
    forall j, k :: j in jobs && k in jobs && j != k ==> jobs[j].client != jobs[k].client
  }

  ghost predicate Base(g: Loop)
  {
    Registered(g) && Descriptors(g) && Served(g) && Children.Inv(g.wards) && !g.wild
  }

  /** The children of live jobs are exactly one each. */
  ghost predicate Staffed(g: Loop)
  {
    g.wards.running.Keys == g.jobs.Keys
  }

  /** A connection's state, its job, its write buffer and its epoll mask agree. */
  ghost predicate Agree(g: Loop, c: int)
    requires c in g.clients
  {
    var v, job := g.clients[c], JobOf(g.jobs, c);
    && MaskOf(g.table, c) == Some(Build(v.state)) && |v.out| <= v.limit
    && match v.state
       case Reading => v.out == "" && job.None?
       case Writing => job.Some? ==> g.jobs[job.value].core.phase.Streaming?
       case CgiRunning => v.out == "" && job.Some? && g.jobs[job.value].core.phase.Heading?
       case Processing => false
       case Closing => false
  }

  ghost predicate Inv(g: Loop)
  {
    Base(g) && Staffed(g) && forall c :: c in g.clients ==> Agree(g, c)
  }

  /** The invariant; once an exception has left the loop, what it leaves to clean up: no child is lost. */
  ghost predicate Well(g: Loop)
  {
    if g.fallen then Children.Inv(g.wards) && Staffed(g) else Inv(g)
  }

  // ------------------------------------------------------- jobs by client

  lemma JobIs(jobs: map<int, Pipe>, j: int)
    requires j in jobs && Single(jobs)
    ensures JobOf(jobs, jobs[j].client) == Some(j)
  {
  }

  lemma JobRemoved(jobs: map<int, Pipe>, j: int, c: int)
    requires j in jobs && Single(jobs)
    ensures JobOf(jobs - {j}, c) == if c == jobs[j].client then None else JobOf(jobs, c)
  {
    var r := JobOf(jobs, c);
    if r.Some? && r.value != j { assert (jobs - {j})[r.value].client == c; }
  }

  lemma JobAdded(jobs: map<int, Pipe>, j: int, p: Pipe, c: int)
    requires j !in jobs && Single(jobs) && JobOf(jobs, p.client).None?
    ensures Single(jobs[j := p]) && JobOf(jobs[j := p], c) == if c == p.client then Some(j) else JobOf(jobs, c)
  {
    var r := JobOf(jobs, c);
    assert jobs[j := p][j] == p;
    if r.Some? { assert jobs[j := p][r.value].client == c; }
  }

  lemma JobAdvanced(jobs: map<int, Pipe>, j: int, p: Pipe, c: int)
    requires j in jobs && Single(jobs) && p.client == jobs[j].client
    ensures Single(jobs[j := p]) && JobOf(jobs[j := p], c) == JobOf(jobs, c)
  {
    var r := JobOf(jobs, c);
    var now := jobs[j := p];
    if r.Some? { assert now[r.value].client == c; }
  }

  // ------------------------------------------------------- primitive changes

  /** All is well except, perhaps, with connection `c`, whose handler is running. */
  ghost predicate Rest(g: Loop, c: int)
  {
    Base(g) && forall d :: d in g.clients && d != c ==> Agree(g, d)
  }

  lemma Settled(g: Loop, c: int)
    requires Rest(g, c) && Staffed(g) && (c in g.clients ==> Agree(g, c))
    ensures Inv(g)
  {
  }

  lemma PutIsRegistered(g: Loop, c: int, v: Connection)
    requires Registered(g) && c in g.clients && c !in g.listeners && c !in g.jobs
    ensures Registered(Put(g, c, v)) && MaskOf(Put(g, c, v).table, c) == Some(Build(v.state))
  {
    var h := Put(g, c, v);
    RearmKeepsSound(g.table, c, Build(v.state));
    forall fd ensures KindOf(h.table, fd) == Expected(h, fd) { RearmShows(g.table, c, Build(v.state), fd); }
    forall fd | fd in h.listeners || fd in h.jobs ensures MaskOf(h.table, fd) == Some(READABLE) {
      RearmShows(g.table, c, Build(v.state), fd);
    }
    RearmShows(g.table, c, Build(v.state), c);
  }

  lemma PutKeepsRest(g: Loop, c: int, v: Connection)
    requires Rest(g, c) && c in g.clients
    ensures Rest(Put(g, c, v), c) && MaskOf(Put(g, c, v).table, c) == Some(Build(v.state))
  {
    PutIsRegistered(g, c, v);
    forall d | d in g.clients && d != c ensures Agree(Put(g, c, v), d) { RearmShows(g.table, c, Build(v.state), d); }
  }

  lemma ClosedJobIsRegistered(g: Loop, j: int, a: Answers)
    requires Registered(g) && j in g.jobs && j !in g.listeners && j !in g.clients
    ensures Registered(CloseJob(g, j, a))
  {
    var h := CloseJob(g, j, a);
    UnregisterKeepsSound(g.table, j);
    forall fd ensures KindOf(h.table, fd) == Expected(h, fd) { UnregisterShows(g.table, j, fd); }
    forall fd | fd in h.listeners || fd in h.jobs ensures MaskOf(h.table, fd) == Some(READABLE) {
      UnregisterShows(g.table, j, fd);
    }
  }

  lemma CloseJobKeepsBase(g: Loop, j: int, a: Answers)
    requires Base(g) && j in g.jobs
    ensures Base(CloseJob(g, j, a)) && CloseJob(g, j, a).wards.running == g.wards.running - {j}
  {
    ClosedJobIsRegistered(g, j, a);
    Children.ReleaseKeepsInv(g.wards, j, a.exited, a.now);
  }

  lemma KeysRemoved<T>(m: map<int, T>, j: int)
    ensures (m - {j}).Keys == m.Keys - {j}
  {
  }

  lemma CloseJobKeepsRest(g: Loop, j: int, a: Answers)
    requires Base(g) && j in g.jobs && Rest(g, g.jobs[j].client)
    ensures var c, h := g.jobs[j].client, CloseJob(g, j, a);
            Rest(h, c) && JobOf(h.jobs, c).None? && h.wards.running == g.wards.running - {j}
            && MaskOf(h.table, c) == MaskOf(g.table, c)
            && h.clients == g.clients && (g.wards.running.Keys - {j} == g.jobs.Keys - {j} ==> Staffed(h))
  {
    var c, h := g.jobs[j].client, CloseJob(g, j, a);
    CloseJobKeepsBase(g, j, a);
    KeysRemoved(g.wards.running, j);
    KeysRemoved(g.jobs, j);
    JobRemoved(g.jobs, j, c);
    UnregisterShows(g.table, j, c);
    forall d | d in h.clients && d != c ensures Agree(h, d) {
      JobRemoved(g.jobs, j, d);
      UnregisterShows(g.table, j, d);
    }
  }

  lemma ClientKeepsRest(g: Loop, c: int, v: Connection)
    requires Rest(g, c) && c in g.clients
    ensures Rest(g.(clients := g.clients[c := v]), c)
  {
    var h := g.(clients := g.clients[c := v]);
    assert forall fd :: Expected(h, fd) == Expected(g, fd);
    forall d | d in h.clients && d != c ensures Agree(h, d) { assert Agree(g, d); }
  }

  lemma CloseSpoolKeepsRest(g: Loop, c: int)
    requires Rest(g, c)
    ensures Rest(CloseSpool(g, c), c) && SpoolsOf(CloseSpool(g, c), c) == {}
  {
    var h := CloseSpool(g, c);
    assert forall fd :: Expected(h, fd) == Expected(g, fd);
    forall d | d in h.clients && d != c ensures Agree(h, d) { assert Agree(g, d); }
  }

  lemma OpenSpoolKeepsRest(g: Loop, c: int, spool: Option<int>)
    requires Rest(g, c) && c in g.clients
    ensures Rest(OpenSpool(g, c, spool), c)
  {
    var h := OpenSpool(g, c, spool);
    assert forall fd :: Expected(h, fd) == Expected(g, fd);
    forall d | d in h.clients && d != c ensures Agree(h, d) { assert Agree(g, d); }
    assert forall s :: s in g.spools && g.spools[s] == c ==> s in SpoolsOf(g, c);
  }

  // ----------------------------------------------------------- _closeClient

  lemma GoneIsRegistered(g: Loop, c: int)
    requires Registered(g) && c in g.clients && c !in g.listeners && c !in g.jobs
    ensures Registered(Destroy(g.(table := Unregister(g.table, c)), c))
  {
    var h := Destroy(g.(table := Unregister(g.table, c)), c);
    UnregisterKeepsSound(g.table, c);
    forall fd ensures KindOf(h.table, fd) == Expected(h, fd) { UnregisterShows(g.table, c, fd); }
    forall fd | fd in h.listeners || fd in h.jobs ensures MaskOf(h.table, fd) == Some(READABLE) {
      UnregisterShows(g.table, c, fd);
    }
  }

  lemma GoneHasDescriptors(g: Loop, c: int)
    requires Descriptors(g) && c in g.clients
    ensures Descriptors(Destroy(g, c))
  {
  }

  lemma DestroyKeepsInv(g: Loop, c: int)
    requires Rest(g, c) && c in g.clients && JobOf(g.jobs, c).None?
    ensures var h := Destroy(g.(table := Unregister(g.table, c)), c);
            Rest(h, c) && c !in h.clients
  {
    var u := g.(table := Unregister(g.table, c));
    var h := Destroy(u, c);
    GoneIsRegistered(g, c);
    GoneHasDescriptors(u, c);
    forall d | d in h.clients && d != c ensures Agree(h, d) {
      assert Agree(g, d);
      UnregisterShows(g.table, c, d);
    }
  }

  lemma CloseJobsKeepsRest(g: Loop, c: int, a: Answers)
    requires Rest(g, c) && Staffed(g) && c in g.clients
    ensures var h := CloseJobs(g, c, a); Rest(h, c) && Staffed(h) && JobOf(h.jobs, c).None? && h.clients == g.clients
  {
    match JobOf(g.jobs, c)
    case None =>
    case Some(j) =>
      CloseJobKeepsRest(g, j, a);
      assert CloseJobs(g, c, a) == CloseJob(g, j, a);
  }

  /** Whatever state its client is in, `_closeClient` leaves everything well. */
  lemma CloseClientKeepsInv(g: Loop, c: int, a: Answers)
    requires Rest(g, c) && Staffed(g) && c in g.clients
    ensures Inv(CloseClient(g, c, a)) && c !in CloseClient(g, c, a).clients
  {
    CloseJobsKeepsRest(g, c, a);
    var h := CloseJobs(g, c, a);
    DestroyKeepsInv(h, c);
    Settled(Destroy(h.(table := Unregister(h.table, c)), c), c);
  }

  // ---------------------------------------------------------- _handleAccept

  lemma AcceptedIsRegistered(g: Loop, x: Accepted)
    requires Registered(g) && x.ptr !in g.table.heap && x.fd !in g.listeners && x.fd !in g.clients && x.fd !in g.jobs
    ensures Registered(AcceptOne(g, x)) && MaskOf(AcceptOne(g, x).table, x.fd) == Some(Build(Reading))
  {
    var h := AcceptOne(g, x);
    RegisteredIffKind(g.table, x.fd);
    RegisterKeepsSound(g.table, x.fd, Client, Build(Reading), x.ptr);
    forall fd ensures KindOf(h.table, fd) == Expected(h, fd) {
      RegisterShows(g.table, x.fd, Client, Build(Reading), x.ptr, fd);
    }
    forall fd | fd in h.listeners || fd in h.jobs ensures MaskOf(h.table, fd) == Some(READABLE) {
      RegisterShows(g.table, x.fd, Client, Build(Reading), x.ptr, fd);
    }
  }

  lemma AcceptOneKeepsInv(env: Env, g: Loop, x: Accepted)
    requires Inv(g) && Acceptable(env, g, x)
    ensures Inv(AcceptOne(g, x))
  {
    var h := AcceptOne(g, x);
    RegisteredIffKind(g.table, x.fd);
    AcceptedIsRegistered(g, x);
    forall c | c in h.clients ensures Agree(h, c) {
      if c != x.fd {
        assert Agree(g, c);
        RegisterShows(g.table, x.fd, Client, Build(Reading), x.ptr, c);
      }
    }
  }

  lemma {:induction false} AcceptKeepsInv(env: Env, g: Loop, waiting: seq<Accepted>)
    requires Inv(g)
    ensures Inv(Accept(env, g, waiting))
    decreases |waiting|
  {
    if waiting != [] && Acceptable(env, g, waiting[0]) {
      AcceptOneKeepsInv(env, g, waiting[0]);
      AcceptKeepsInv(env, AcceptOne(g, waiting[0]), waiting[1..]);
    }
  }

  // ------------------------------------------------------------- CGI events

  /** How a job may move: a header that stays incomplete writes nothing, streaming does not go back, and
      the write buffer stays within its limit. */
  predicate Follows(b: CgiStream.Job, o: CgiPipe.Outcome, limit: nat)
  {
    o.Kept? ==>
      && (b.phase.Heading? && o.job.phase.Heading? ==> o.job.out == b.out)
      && (b.phase.Streaming? ==> !o.job.phase.Heading?)
      && (o.job.phase.Over? || Bounded(o.job)) && |o.job.out| <= limit
  }

  lemma OnPipeFollows(setting: CgiStream.Setting, b: CgiStream.Job, r: CgiPipe.ReadResult, limit: nat)
    requires Bounded(b) && |b.out| <= limit
    ensures Follows(b, CgiPipe.OnPipeWithin(setting, b, r, limit), limit)
  {
    var o := CgiPipe.OnPipeWithin(setting, b, r, limit);
    CgiPipe.WithinLimit(setting, b, r, limit);
    NeverBackToHeading(setting, b, r, limit);
    assert o.Kept? ==> o.job.phase.Over? || Bounded(o.job) by { StaysBounded(setting, b, r, limit); }
  }

  /** Streaming does not go back, and what is sent while the header is awaited is nothing. */
  lemma NeverBackToHeading(setting: CgiStream.Setting, b: CgiStream.Job, r: CgiPipe.ReadResult, limit: nat)
    ensures var o := CgiPipe.OnPipeWithin(setting, b, r, limit);
            o.Kept? && o.job.phase.Heading? ==> b.phase.Heading? && o.job.out == b.out
  {
  }

  lemma StaysBounded(setting: CgiStream.Setting, b: CgiStream.Job, r: CgiPipe.ReadResult, limit: nat)
    requires Bounded(b)
    ensures var o := CgiPipe.OnPipeWithin(setting, b, r, limit); o.Kept? ==> o.job.phase.Over? || Bounded(o.job)
  {
  }

  lemma FailedFollows(setting: CgiStream.Setting, b: CgiStream.Job, code: nat, limit: nat)
    requires Bounded(b) && |b.out| <= limit
    ensures Follows(b, CgiPipe.Failed(setting, b, code, limit), limit)
  {
  }

  lemma AdvanceKeepsRest(g: Loop, j: int, core: CgiStream.Job)
    requires j in g.jobs && Rest(g, g.jobs[j].client) && Bounded(core) && core.out == ""
    ensures var c := g.jobs[j].client;
            var h := g.(jobs := g.jobs[j := Pipe(c, core)]);
            Rest(h, c) && JobOf(h.jobs, c) == Some(j) && (Staffed(g) ==> Staffed(h))
  {
    var c := g.jobs[j].client;
    var h := g.(jobs := g.jobs[j := Pipe(c, core)]);
    assert forall fd :: Expected(h, fd) == Expected(g, fd);
    JobAdvanced(g.jobs, j, Pipe(c, core), c);
    JobIs(g.jobs, j);
    forall d | d in h.clients && d != c ensures Agree(h, d) {
      assert Agree(g, d);
      JobAdvanced(g.jobs, j, Pipe(c, core), d);
    }
  }

  lemma EndKeepsInv(g: Loop, j: int, v: Connection, a: Answers)
    requires j in g.jobs && Rest(g, g.jobs[j].client) && Staffed(g) && g.jobs[j].client in g.clients
    requires v.state == Writing && |v.out| <= v.limit
    ensures Inv(CloseJob(Put(g, g.jobs[j].client, v), j, a))
  {
    var c := g.jobs[j].client;
    PutKeepsRest(g, c, v);
    CloseJobKeepsRest(Put(g, c, v), j, a);
    Settled(CloseJob(Put(g, c, v), j, a), c);
  }

  lemma StreamKeepsInv(g: Loop, j: int, core: CgiStream.Job, v: Connection)
    requires j in g.jobs && Rest(g, g.jobs[j].client) && Staffed(g) && g.jobs[j].client in g.clients
    requires core.phase.Streaming? && Bounded(core) && core.out == "" && v.state == Writing && |v.out| <= v.limit
    ensures Inv(Put(g.(jobs := g.jobs[j := Pipe(g.jobs[j].client, core)]), g.jobs[j].client, v))
  {
    var c := g.jobs[j].client;
    AdvanceKeepsRest(g, j, core);
    var h := g.(jobs := g.jobs[j := Pipe(c, core)]);
    PutKeepsRest(h, c, v);
    Settled(Put(h, c, v), c);
  }

  lemma HeadKeepsInv(g: Loop, j: int, core: CgiStream.Job)
    requires j in g.jobs && Inv(g) && g.jobs[j].core.phase.Heading? && core.phase.Heading? && Bounded(core) && core.out == ""
    ensures Inv(g.(jobs := g.jobs[j := Pipe(g.jobs[j].client, core)]))
  {
    var c := g.jobs[j].client;
    AdvanceKeepsRest(g, j, core);
    JobIs(g.jobs, j);
    assert Agree(g, c);
    Settled(g.(jobs := g.jobs[j := Pipe(c, core)]), c);
  }

  lemma KeptKeepsInv(g: Loop, j: int, t: CgiStream.Job, a: Answers)
    requires Inv(g) && j in g.jobs && Follows(JobAt(g, j), CgiPipe.Kept(t), g.clients[g.jobs[j].client].limit)
    ensures Inv(ApplyPipe(g, j, CgiPipe.Kept(t), a))
  {
    var c := g.jobs[j].client;
    var v := g.clients[c];
    assert Rest(g, c);
    if t != JobAt(g, j) {
      match t.phase
      case Heading => HeadKeepsInv(g, j, t.(out := ""));
      case Streaming => StreamKeepsInv(g, j, t.(out := ""), v.(state := Writing, out := t.out));
      case Over(hadHeaders, _, failed, _) =>
        EndKeepsInv(g, j, v.(state := Writing, out := t.out, keepAlive := v.keepAlive && !(hadHeaders && failed)), a);
    }
  }

  lemma ApplyPipeKeepsInv(g: Loop, j: int, o: CgiPipe.Outcome, a: Answers)
    requires Inv(g) && j in g.jobs && Follows(JobAt(g, j), o, g.clients[g.jobs[j].client].limit)
    ensures Well(ApplyPipe(g, j, o, a))
    ensures ApplyPipe(g, j, o, a).fallen <==> g.fallen || o.Escaped?
  {
    if o.Kept? { KeptKeepsInv(g, j, o.job, a); }
  }

  lemma HandleCgiKeepsInv(env: Env, g: Loop, j: int, a: Answers)
    requires Inv(g)
    ensures Well(HandleCgi(env, g, j, a))
  {
    if j in g.jobs {
      var v := g.clients[g.jobs[j].client];
      assert Agree(g, g.jobs[j].client);
      OnPipeFollows(SettingOf(env, v), JobAt(g, j), Clipped(a.pipe), v.limit);
      ApplyPipeKeepsInv(g, j, CgiPipe.OnPipeWithin(SettingOf(env, v), JobAt(g, j), Clipped(a.pipe), v.limit), a);
    }
  }

  lemma ExpireJobKeepsInv(env: Env, g: Loop, j: int, a: Answers)
    requires Inv(g)
    ensures Well(ExpireJob(env, g, j, a))
  {
    if j in g.jobs && !g.fallen {
      var v := g.clients[g.jobs[j].client];
      assert Agree(g, g.jobs[j].client);
      FailedFollows(SettingOf(env, v), JobAt(g, j), 504, v.limit);
      ApplyPipeKeepsInv(g, j, CgiPipe.Failed(SettingOf(env, v), JobAt(g, j), 504, v.limit), a);
    }
  }

  // -------------------------------------------------------------- responses

  lemma CatchKeepsInv(env: Env, g: Loop, c: int)
    requires Rest(g, c) && Staffed(g) && c in g.clients && JobOf(g.jobs, c).None? && |g.clients[c].out| <= g.clients[c].limit
    ensures Well(Catch(env, g, c))
  {
    var v, page := g.clients[c], env.setting.errorPage(413);
    if Buffers.Room(v.out, page, v.limit) {
      var w := v.(state := Writing, out := v.out + page, keepAlive := false);
      PutKeepsRest(g, c, w);
      Settled(Put(g, c, w), c);
    }
  }

  /** Whatever the parts, and whatever of them fits. */
  lemma RespondKeepsInv(env: Env, g: Loop, c: int, parts: seq<string>)
    requires Rest(g, c) && Staffed(g) && c in g.clients && JobOf(g.jobs, c).None? && |g.clients[c].out| <= g.clients[c].limit
    ensures Well(Respond(env, g, c, parts))
  {
    var v := g.clients[c];
    var w := Buffers.AppendAll(v.out, parts, v.limit);
    if w.thrown {
      ClientKeepsRest(g, c, v.(out := w.out));
      CatchKeepsInv(env, g.(clients := g.clients[c := v.(out := w.out)]), c);
    } else {
      PutKeepsRest(g, c, v.(state := Writing, out := w.out));
      Settled(Put(g, c, v.(state := Writing, out := w.out)), c);
    }
  }

  // ------------------------------------------------------------ _ApiStartCgi

  lemma OpenedJobIsRegistered(g: Loop, c: int, s: CgiStart)
    requires Registered(g) && s.Started? && s.ptr !in g.table.heap
    requires s.readFd !in g.listeners && s.readFd !in g.clients && s.readFd !in g.jobs
    ensures Registered(OpenJob(g, c, s)) && MaskOf(OpenJob(g, c, s).table, s.readFd) == Some(READABLE)
  {
    var h := OpenJob(g, c, s);
    RegisteredIffKind(g.table, s.readFd);
    RegisterKeepsSound(g.table, s.readFd, Cgi, READABLE, s.ptr);
    forall fd ensures KindOf(h.table, fd) == Expected(h, fd) {
      RegisterShows(g.table, s.readFd, Cgi, READABLE, s.ptr, fd);
    }
    forall fd | fd in h.listeners || fd in h.jobs ensures MaskOf(h.table, fd) == Some(READABLE) {
      RegisterShows(g.table, s.readFd, Cgi, READABLE, s.ptr, fd);
    }
  }

  lemma OpenedJobIsServed(g: Loop, c: int, s: CgiStart)
    requires Served(g) && s.Started? && c in g.clients && JobOf(g.jobs, c).None? && s.readFd !in g.jobs
    ensures Served(OpenJob(g, c, s)) && JobOf(OpenJob(g, c, s).jobs, c) == Some(s.readFd)
  {
    JobAdded(g.jobs, s.readFd, Pipe(c, FRESH_CORE), c);
  }

  lemma OpenJobKeepsRest(g: Loop, c: int, s: CgiStart)
    requires Rest(g, c) && c in g.clients && JobOf(g.jobs, c).None? && Usable(g, s)
    ensures Rest(OpenJob(g, c, s), c)
  {
    var h := OpenJob(g, c, s);
    OpenedJobIsRegistered(g, c, s);
    OpenedJobIsServed(g, c, s);
    RegisteredIffKind(g.table, s.readFd);
    forall d | d in h.clients && d != c ensures Agree(h, d) {
      assert Agree(g, d);
      JobAdded(g.jobs, s.readFd, Pipe(c, FRESH_CORE), d);
      RegisterShows(g.table, s.readFd, Cgi, READABLE, s.ptr, d);
    }
  }

  lemma OnlyChildMissing(g: Loop, c: int, s: CgiStart, v: Connection)
    requires Staffed(g) && s.Started? && s.readFd !in g.jobs
    ensures var k := Put(OpenJob(g, c, s), c, v);
            s.readFd !in k.wards.running && k.jobs.Keys == k.wards.running.Keys + {s.readFd}
  {
  }

  /** The job is there and its client waits for it; only the child is missing. */
  lemma RunningJob(g: Loop, c: int, s: CgiStart)
    requires Rest(g, c) && c in g.clients && JobOf(g.jobs, c).None? && Usable(g, s) && g.clients[c].out == ""
    ensures var k := Put(OpenJob(g, c, s), c, g.clients[c].(state := CgiRunning));
            Rest(k, c) && Agree(k, c) && JobOf(k.jobs, c) == Some(s.readFd)
  {
    OpenJobKeepsRest(g, c, s);
    OpenedJobIsServed(g, c, s);
    PutKeepsRest(OpenJob(g, c, s), c, g.clients[c].(state := CgiRunning));
  }

  lemma ForkStaffs(k: Loop, c: int, j: int, pid: int)
    requires Rest(k, c) && c in k.clients && Agree(k, c) && j !in k.wards.running && pid !in k.wards.kernel
    requires k.jobs.Keys == k.wards.running.Keys + {j}
    ensures Inv(k.(wards := Children.Fork(k.wards, j, pid)))
  {
    var h := k.(wards := Children.Fork(k.wards, j, pid));
    Children.ForkKeepsInv(k.wards, j, pid);
    assert forall fd :: Expected(h, fd) == Expected(k, fd);
    forall d | d in h.clients ensures Agree(h, d) { assert Agree(k, d); }
  }

  lemma NotStarted(env: Env, k: Loop, c: int, j: int, a: Answers)
    requires Rest(k, c) && c in k.clients && j in k.jobs && k.jobs[j].client == c && j !in k.wards.running
    requires k.jobs.Keys == k.wards.running.Keys + {j} && |k.clients[c].out| <= k.clients[c].limit
    ensures Well(Respond(env, CloseJob(k, j, a), c, [env.setting.errorPage(502)]))
  {
    CloseJobKeepsRest(k, j, a);
    RespondKeepsInv(env, CloseJob(k, j, a), c, [env.setting.errorPage(502)]);
  }

  lemma UsableKeepsInv(env: Env, h: Loop, c: int, s: CgiStart, a: Answers)
    requires Rest(h, c) && Staffed(h) && c in h.clients && JobOf(h.jobs, c).None? && h.clients[c].out == "" && Usable(h, s)
    ensures Well(WithPipe(env, h, c, s, a))
  {
    var v := h.clients[c];
    var k := Put(OpenJob(h, c, s), c, v.(state := CgiRunning));
    RunningJob(h, c, s);
    OnlyChildMissing(h, c, s, v.(state := CgiRunning));
    if s.pid.Some? && s.pid.value !in k.wards.kernel {
      ForkStaffs(k, c, s.readFd, s.pid.value);
    } else {
      NotStarted(env, k, c, s.readFd, a);
    }
  }

  lemma StartCgiKeepsInv(env: Env, g: Loop, c: int, s: CgiStart, a: Answers)
    requires Rest(g, c) && Staffed(g) && c in g.clients && JobOf(g.jobs, c).None? && g.clients[c].out == ""
    ensures Well(StartCgi(env, g, c, s, a))
  {
    CloseSpoolKeepsRest(g, c);
    if Usable(g, s) {
      UsableKeepsInv(env, CloseSpool(g, c), c, s, a);
    } else {
      var page := env.setting.errorPage(500);
      RespondKeepsInv(env, if Buffers.Room(g.clients[c].out, page, g.clients[c].limit) then CloseSpool(g, c) else g, c, [page]);
    }
  }

  // ---------------------------------------------------------- client events

  lemma WritingKeepsInv(g: Loop, c: int, v: Connection)
    requires Rest(g, c) && Staffed(g) && c in g.clients && v.state == Writing && |v.out| <= v.limit
    requires var job := JobOf(g.jobs, c); job.Some? ==> g.jobs[job.value].core.phase.Streaming?
    ensures Inv(Put(g, c, v))
  {
    PutKeepsRest(g, c, v);
    Settled(Put(g, c, v), c);
  }

  lemma RememberKeepsInv(g: Loop, c: int, keepAlive: bool)
    requires Inv(g) && c in g.clients
    ensures Inv(Remember(g, c, keepAlive))
  {
    ClientKeepsRest(g, c, g.clients[c].(keepAlive := keepAlive));
    assert Agree(g, c);
    Settled(Remember(g, c, keepAlive), c);
  }

  lemma OpenSpoolKeepsInv(g: Loop, c: int, spool: Option<int>)
    requires Inv(g) && c in g.clients
    ensures Inv(OpenSpool(g, c, spool)) && OpenSpool(g, c, spool).clients == g.clients
  {
    OpenSpoolKeepsRest(g, c, spool);
    assert Agree(g, c);
    Settled(OpenSpool(g, c, spool), c);
  }

  lemma LaunchKeepsInv(env: Env, g: Loop, c: int, keepAlive: bool, head: bool, start: CgiStart, a: Answers)
    requires Rest(g, c) && Staffed(g) && c in g.clients && JobOf(g.jobs, c).None? && g.clients[c].out == ""
    ensures Well(Launch(env, g, c, keepAlive, head, start, a))
  {
    var processing := g.clients[c].(state := Processing, keepAlive := keepAlive, head := head);
    ClientKeepsRest(g, c, processing);
    StartCgiKeepsInv(env, g.(clients := g.clients[c := processing]), c, start, a);
  }

  lemma RefusedKeepsInv(env: Env, g: Loop, c: int, page: string, keepAlive: bool)
    requires Rest(g, c) && Staffed(g) && c in g.clients && JobOf(g.jobs, c).None? && g.clients[c].out == ""
    ensures Well(Respond(env, Remember(g, c, keepAlive), c, [page]))
  {
    ClientKeepsRest(g, c, g.clients[c].(keepAlive := keepAlive));
    RespondKeepsInv(env, Remember(g, c, keepAlive), c, [page]);
  }

  lemma ServedKeepsInv(env: Env, g: Loop, c: int, parts: seq<string>, keepAlive: bool)
    requires Rest(g, c) && Staffed(g) && c in g.clients && JobOf(g.jobs, c).None? && g.clients[c].out == ""
    ensures Well(Respond(env, Remember(CloseSpool(g, c), c, keepAlive), c, parts))
  {
    CloseSpoolKeepsRest(g, c);
    var h := CloseSpool(g, c);
    ClientKeepsRest(h, c, h.clients[c].(keepAlive := keepAlive));
    RespondKeepsInv(env, Remember(h, c, keepAlive), c, parts);
  }

  lemma AnswerKeepsInv(env: Env, g: Loop, c: int, a: Answers)
    requires Inv(g) && c in g.clients && g.clients[c].state == Reading
    requires a.reaction.Flooded? || a.reaction.Refused? || a.reaction.Served?
    ensures Well(React(env, g, c, a))
  {
    match a.reaction
    case Flooded => CatchKeepsInv(env, g, c);
    case Refused(page, keepAlive) => RefusedKeepsInv(env, g, c, page, keepAlive);
    case Served(parts, keepAlive) => ServedKeepsInv(env, g, c, parts, keepAlive);
  }

  lemma ReactKeepsInv(env: Env, g: Loop, c: int, a: Answers)
    requires Inv(g) && c in g.clients && g.clients[c].state == Reading
    ensures Well(React(env, g, c, a))
  {
    match a.reaction
    case Quiet(keepAlive) => RememberKeepsInv(g, c, keepAlive);
    case PeerClosed => CloseClientKeepsInv(g, c, a);
    case Program(keepAlive, head, start) => LaunchKeepsInv(env, g, c, keepAlive, head, start, a);
    case _ => AnswerKeepsInv(env, g, c, a);
  }

  lemma ConfigureKeepsInv(g: Loop, c: int, limit: nat)
    requires Inv(g) && c in g.clients && g.clients[c].state == Reading
    ensures Inv(Configure(g, c, limit))
  {
    assert Agree(g, c);
    ClientKeepsRest(g, c, g.clients[c].(limit := limit));
    Settled(Configure(g, c, limit), c);
  }

  lemma HandleReadKeepsInv(env: Env, g: Loop, c: int, a: Answers)
    requires Inv(g) && c in g.clients && g.clients[c].state == Reading
    ensures Well(HandleRead(env, g, c, a))
  {
    OpenSpoolKeepsInv(g, c, a.spool);
    ConfigureKeepsInv(OpenSpool(g, c, a.spool), c, a.limit);
    ReactKeepsInv(env, Configure(OpenSpool(g, c, a.spool), c, a.limit), c, a);
  }

  lemma RearmIsIdle(t: Table, fd: int, mask: Mask)
    requires Sound(t) && MaskOf(t, fd) == Some(mask)
    ensures Rearm(t, fd, mask) == t
  {
    assert Current(t, fd);
    assert t.interest[fd := Watch(t.refs[fd], mask)] == t.interest;
  }

  /** A streaming job leaves its client writing. */
  lemma StreamingStaysWriting(env: Env, g: Loop, j: int, a: Answers)
    requires j in g.jobs && g.jobs[j].client in g.clients && g.jobs[j].core.phase.Streaming?
    requires g.clients[g.jobs[j].client].state == Writing
    ensures var h := HandleCgi(env, g, j, a); g.jobs[j].client in h.clients && h.clients[g.jobs[j].client].state == Writing
  {
    var v := g.clients[g.jobs[j].client];
    NeverBackToHeading(SettingOf(env, v), JobAt(g, j), Clipped(a.pipe), v.limit);
  }

  lemma PipeThenWritingKeepsInv(env: Env, h: Loop, c: int, j: int, a: Answers)
    requires Inv(h) && c in h.clients && h.clients[c].state == Writing && JobOf(h.jobs, c) == Some(j)
    ensures var k := HandleCgi(env, h, j, a);
            c in k.clients && if k.fallen then Well(k) else Well(Put(k, c, k.clients[c].(state := Writing)))
  {
    var k := HandleCgi(env, h, j, a);
    assert Agree(h, c);
    HandleCgiKeepsInv(env, h, j, a);
    StreamingStaysWriting(env, h, j, a);
    if !k.fallen { StillWriting(k, c); }
  }

  lemma StillWriting(k: Loop, c: int)
    requires Inv(k) && c in k.clients && k.clients[c].state == Writing
    ensures Inv(Put(k, c, k.clients[c].(state := Writing)))
  {
    assert Agree(k, c);
    WritingKeepsInv(k, c, k.clients[c]);
  }

  lemma WriteLowKeepsInv(env: Env, h: Loop, c: int, j: int, a: Answers)
    requires Inv(h) && c in h.clients && h.clients[c].state == Writing && JobOf(h.jobs, c) == Some(j)
    requires |h.clients[c].out| < CGI_STREAM_LWM
    ensures Well(WriteOn(env, h, c, j, a))
  {
    RearmIsIdle(h.table, j, READABLE);
    PipeThenWritingKeepsInv(env, h, c, j, a);
  }

  lemma WriteOnKeepsInv(env: Env, h: Loop, c: int, j: int, a: Answers)
    requires Inv(h) && c in h.clients && h.clients[c].state == Writing && JobOf(h.jobs, c) == Some(j)
    ensures Well(WriteOn(env, h, c, j, a))
  {
    if |h.clients[c].out| < CGI_STREAM_LWM { WriteLowKeepsInv(env, h, c, j, a); } else { StillWriting(h, c); }
  }

  lemma SendKeepsInv(g: Loop, c: int, n: nat)
    requires Inv(g) && c in g.clients && g.clients[c].state == Writing
    ensures Inv(Send(g, c, n))
  {
    var v := g.clients[c];
    var w := v.(out := v.out[CgiStream.AtMost(n, |v.out|)..]);
    ClientKeepsRest(g, c, w);
    assert Agree(g, c);
    Settled(Send(g, c, n), c);
  }

  /** Without a job the state the client was in does not matter. */
  lemma WriteAloneKeepsInv(h: Loop, c: int, a: Answers)
    requires Rest(h, c) && Staffed(h) && c in h.clients && JobOf(h.jobs, c).None? && |h.clients[c].out| <= h.clients[c].limit
    ensures Inv(WriteAlone(h, c, a))
  {
    var v := h.clients[c];
    if v.out != "" {
      WritingKeepsInv(h, c, v.(state := Writing));
    } else if !v.halfClosed && v.keepAlive {
      CloseSpoolKeepsRest(h, c);
      PutKeepsRest(CloseSpool(h, c), c, Idle(v.limit));
      Settled(Put(CloseSpool(h, c), c, Idle(v.limit)), c);
    } else {
      CloseClientKeepsInv(h, c, a);
    }
  }

  lemma SendKeepsRest(g: Loop, c: int, n: nat)
    requires Rest(g, c) && c in g.clients
    ensures Rest(Send(g, c, n), c)
  {
    var v := g.clients[c];
    ClientKeepsRest(g, c, v.(out := v.out[CgiStream.AtMost(n, |v.out|)..]));
  }

  /** For a connection that writes, or any that has no job (the timeout response goes to those too). */
  lemma HandleWriteKeepsInv(env: Env, g: Loop, c: int, a: Answers)
    requires Rest(g, c) && Staffed(g) && c in g.clients && |g.clients[c].out| <= g.clients[c].limit
    requires JobOf(g.jobs, c).Some? ==> Agree(g, c) && g.clients[c].state == Writing
    ensures Well(HandleWrite(env, g, c, a))
  {
    match JobOf(g.jobs, c)
    case Some(j) =>
      Settled(g, c);
      SendKeepsInv(g, c, a.takes);
      WriteOnKeepsInv(env, Send(g, c, a.takes), c, j, a);
    case None =>
      SendKeepsRest(g, c, a.takes);
      WriteAloneKeepsInv(Send(g, c, a.takes), c, a);
  }

  lemma HalfClosedKeepsInv(g: Loop, c: int)
    requires Inv(g) && c in g.clients
    ensures Inv(g.(clients := g.clients[c := g.clients[c].(halfClosed := true)]))
  {
    ClientKeepsRest(g, c, g.clients[c].(halfClosed := true));
    assert Agree(g, c);
    Settled(g.(clients := g.clients[c := g.clients[c].(halfClosed := true)]), c);
  }

  /** An event asks for reading only a connection that reads, for writing only one that writes. */
  ghost predicate Fitting(g: Loop, c: int, bits: Bits)
  {
    c in g.clients ==>
      (bits.input ==> g.clients[c].state == Reading) && (bits.output ==> g.clients[c].state == Writing)
  }

  lemma HandleClientKeepsInv(env: Env, g: Loop, c: int, bits: Bits, a: Answers)
    requires Inv(g) && Fitting(g, c, bits)
    ensures Well(HandleClient(env, g, c, bits, a))
  {
    if c in g.clients {
      assert Agree(g, c);
      if bits.error {
        CloseClientKeepsInv(g, c, a);
      } else if bits.hangup {
        if g.clients[c].out == "" || JobOf(g.jobs, c).Some? { CloseClientKeepsInv(g, c, a); } else { HalfClosedKeepsInv(g, c); }
      } else if bits.input {
        HandleReadKeepsInv(env, g, c, a);
      } else if bits.output {
        HandleWriteKeepsInv(env, g, c, a);
      }
    }
  }

  lemma DispatchKeepsInv(env: Env, g: Loop, e: Event, a: Answers)
    requires Inv(g) && Named(g.table, e) && (Live(g.table, e) ==> Fitting(g, e.fd, e.bits))
    ensures Well(Dispatch(env, g, e, a))
  {
    ActedOnIffLive(g.table, e);
    match g.table.heap[e.ptr].kind
    case Invalid =>
    case Server => AcceptKeepsInv(env, g, a.accepts);
    case Cgi => HandleCgiKeepsInv(env, g, e.fd, a);
    case Client => HandleClientKeepsInv(env, g, e.fd, e.bits, a);
  }
}
