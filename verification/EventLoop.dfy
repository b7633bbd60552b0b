/** The event loop in place: the handlers as methods on one object, each proved to do what the functions
    of module LoopState say. */
module EventLoops {
  import opened Text
  import opened EventTable
  import opened LoopState
  import opened LoopInvariant
  import opened LoopRun
  import CgiStream
  import CgiPipe
  import Children
  import Buffers

  class EventLoop {
    // of the process
    var eventRefs: map<int, int>
    var staleRefs: seq<int>
    var heap: map<int, Ref>
    var serverFds: set<int>
    var connections: map<int, Connection>
    var cgiJobs: map<int, Pipe>
    var childPids: map<int, Children.Child>
    var bodyFiles: map<int, int>
    var pendingReap: seq<Children.Pending>
    // of the kernel
    var interest: map<int, Watch>
    var openFds: set<int>
    var processes: map<int, nat>
    // history
    var registered: nat
    var forked: nat
    var killed: set<nat>
    var reaped: seq<nat>
    var givenUp: seq<Children.Abandoned>
    var wild: bool
    var fallen: bool

    constructor ()
      ensures View() == INITIAL && Inv(View())
    {
      eventRefs, staleRefs, heap, serverFds := map[], [], map[], {};
      connections, cgiJobs, childPids, bodyFiles, pendingReap := map[], map[], map[], map[], [];
      interest, openFds, processes := map[], {}, map[];
      registered, forked, killed, reaped, givenUp, wild, fallen := 0, 0, {}, [], [], false, false;
      InitialIsInv();
    }

    function TableView(): Table
      reads `eventRefs, `heap, `staleRefs, `interest, `registered
    {
      Table(eventRefs, heap, staleRefs, interest, registered)
    }

    function WardsView(): Children.Wards
      reads `childPids, `pendingReap, `processes, `forked, `killed, `reaped, `givenUp
    {
      Children.Wards(childPids, pendingReap, processes, forked, killed, reaped, givenUp)
    }

    function View(): Loop
      reads this
    {
      Loop(TableView(), serverFds, connections, cgiJobs, bodyFiles, WardsView(), openFds, wild, fallen)
    }

    // -------------------------------------------------------- registrations

    method RegisterEventFd(fd: int, kind: Kind, mask: Mask, ptr: int)
      modifies `eventRefs, `heap, `interest, `registered
      ensures TableView() == Register(old(TableView()), fd, kind, mask, ptr)
    {
      heap := heap[ptr := Ref(kind, fd, registered)];
      registered := registered + 1;
      eventRefs := eventRefs[fd := ptr];
      interest := interest[fd := Watch(ptr, mask)];
    }

    method UnregisterEventFd(fd: int)
      modifies `eventRefs, `heap, `interest, `staleRefs
      ensures TableView() == Unregister(old(TableView()), fd)
    {
      interest := interest - {fd};
      if fd in eventRefs && eventRefs[fd] in heap {
        var p := eventRefs[fd];
        heap := heap[p := heap[p].(kind := Invalid)];
        staleRefs := staleRefs + [p];
        eventRefs := eventRefs - {fd};
      }
    }

    method ModifyEventFd(fd: int, mask: Mask)
      modifies `interest
      ensures TableView() == Rearm(old(TableView()), fd, mask)
    {
      if fd !in eventRefs || eventRefs[fd] !in heap { return; }
      if heap[eventRefs[fd]].kind == Invalid { return; }
      if fd in interest { interest := interest[fd := Watch(eventRefs[fd], mask)]; }
    }

    /** A changed connection, and `_rearmClient`. */
    method Update(c: int, v: Connection)
      modifies `connections, `interest
      ensures View() == Put(old(View()), c, v)
    {
      connections := connections[c := v];
      ModifyEventFd(c, Build(v.state));
    }

    // ------------------------------------------------------------- children

    method WaitPid(pid: int, exited: bool) returns (r: Children.Waited)
      modifies `processes, `reaped
      ensures (WardsView(), r) == Children.WaitPid(old(WardsView()), pid, exited)
    {
      if pid !in processes { return Children.NotAChild; }
      if !exited { return Children.StillRunning; }
      reaped := reaped + [processes[pid]];
      processes := processes - {pid};
      r := Children.Collected;
    }

    method Kill(pid: int)
      modifies `killed
      ensures WardsView() == Children.Kill(old(WardsView()), pid)
    {
      if pid in processes { killed := killed + {processes[pid]}; }
    }

    /** The child of a job that is being closed. */
    method ReleaseChild(j: int, a: Answers)
      modifies `childPids, `processes, `reaped, `killed, `pendingReap
      ensures WardsView() == Children.Release(old(WardsView()), j, a.exited, a.now)
    {
      if j !in childPids { return; }
      var child := childPids[j];
      childPids := childPids - {j};
      var r := WaitPid(child.pid, a.exited);
      if r == Children.StillRunning {
        Kill(child.pid);
        pendingReap := pendingReap + [Children.Pending(child, a.now)];
      }
    }

    /** One entry of the list, from the front; what stays goes to the back. */
    method ReapFront(exited: bool, now: int)
      requires pendingReap != []
      modifies `pendingReap, `processes, `reaped, `givenUp
      ensures WardsView() == Children.ReapOne(old(WardsView()), exited, now)
    {
      var p := pendingReap[0];
      pendingReap := pendingReap[1..];
      if now - p.since > Children.REAP_STALE_SECONDS {
        givenUp := givenUp + [Children.Abandoned(p.child, p.since, now)];
        return;
      }
      var r := WaitPid(p.child.pid, exited);
      if r == Children.StillRunning { pendingReap := pendingReap + [p]; }
    }

    method ReapPending(exits: int -> bool, now: int)
      modifies `pendingReap, `processes, `reaped, `givenUp
      ensures View() == Reap(old(View()), exits, now)
    {
      if !fallen { ReapWards(exits, now); }
    }

    method ReapWards(exits: int -> bool, now: int)
      modifies `pendingReap, `processes, `reaped, `givenUp
      ensures WardsView() == Children.ReapPending(old(WardsView()), exits, now)
    {
      var n := |pendingReap|;
      while n > 0
        invariant 0 <= n <= |pendingReap|
        invariant Children.ReapFirst(WardsView(), n, exits, now) == Children.ReapPending(old(WardsView()), exits, now)
      {
        ReapFront(exits(pendingReap[0].child.pid), now);
        n := n - 1;
      }
    }

    // -------------------------------------------------------------- closing

    /** The job of a connection; there is at most one. */
    method FindJob(c: int) returns (r: Option<int>)
      requires Single(cgiJobs)
      ensures r == JobOf(cgiJobs, c)
    {
      var rest := cgiJobs.Keys;
      while exists j :: j in rest
        invariant rest <= cgiJobs.Keys
        invariant forall j :: j in cgiJobs && j !in rest ==> cgiJobs[j].client != c
        decreases rest
      {
        var j :| j in rest;
        if cgiJobs[j].client == c {
          JobIs(cgiJobs, j);
          return Some(j);
        }
        rest := rest - {j};
      }
      r := None;
    }

    method CloseCgiJob(j: int, a: Answers)
      modifies `cgiJobs, `openFds, `childPids, `processes, `reaped, `killed, `pendingReap, `eventRefs, `heap, `interest, `staleRefs
      ensures View() == CloseJob(old(View()), j, a)
    {
      if j in cgiJobs { DropJob(j, a); }
    }

    method DropJob(j: int, a: Answers)
      modifies `cgiJobs, `openFds, `childPids, `processes, `reaped, `killed, `pendingReap, `eventRefs, `heap, `interest, `staleRefs
      ensures TableView() == Unregister(old(TableView()), j)
      ensures WardsView() == Children.Release(old(WardsView()), j, a.exited, a.now)
      ensures openFds == old(openFds) - {j} && cgiJobs == old(cgiJobs) - {j}
    {
      ReleaseChild(j, a);
      UnregisterEventFd(j);
      openFds := openFds - {j};
      cgiJobs := cgiJobs - {j};
    }

    method CloseBodyFile(c: int)
      modifies `openFds, `bodyFiles
      ensures View() == CloseSpool(old(View()), c)
    {
      var files := set s | s in bodyFiles && bodyFiles[s] == c;
      openFds := openFds - files;
      bodyFiles := bodyFiles - files;
    }

    method CloseConnection(c: int)
      modifies `openFds, `bodyFiles, `connections
      ensures View() == Destroy(old(View()), c)
    {
      if c !in connections { return; }
      CloseBodyFile(c);
      connections := connections - {c};
      openFds := openFds - {c};
    }

    method CloseJobsOf(c: int, a: Answers)
      requires Single(cgiJobs)
      modifies this
      ensures View() == CloseJobs(old(View()), c, a)
    {
      var job := FindJob(c);
      if job.Some? { CloseCgiJob(job.value, a); }
    }

    method Forget(c: int)
      modifies `openFds, `bodyFiles, `connections, `eventRefs, `heap, `interest, `staleRefs
      ensures View() == Destroy(old(View()).(table := Unregister(old(TableView()), c)), c)
    {
      UnregisterEventFd(c);
      CloseConnection(c);
    }

    method CloseClientFd(c: int, a: Answers)
      requires Single(cgiJobs)
      modifies this
      ensures View() == CloseClient(old(View()), c, a)
    {
      CloseJobsOf(c, a);
      Forget(c);
    }

    // -------------------------------------------------------------- opening

    method AcceptClient(x: Accepted)
      modifies `connections, `openFds, `eventRefs, `heap, `interest, `registered
      ensures TableView() == Register(old(TableView()), x.fd, Client, Build(Reading), x.ptr)
      ensures openFds == old(openFds) + {x.fd} && connections == old(connections)[x.fd := Idle(x.limit)]
    {
      RegisterEventFd(x.fd, Client, Build(Reading), x.ptr);
      connections := connections[x.fd := Idle(x.limit)];
      openFds := openFds + {x.fd};
    }

    method HandleAccept(env: Env, waiting: seq<Accepted>)
      modifies this
      ensures View() == Accept(env, old(View()), waiting)
    {
      var i := 0;
      assert waiting[0..] == waiting;
      while i < |waiting| && Acceptable(env, View(), waiting[i])
        invariant 0 <= i <= |waiting|
        invariant Accept(env, View(), waiting[i..]) == Accept(env, old(View()), waiting)
      {
        assert waiting[i..][1..] == waiting[i + 1..];
        AcceptClient(waiting[i]);
        i := i + 1;
      }
    }

    method OpenBodyFile(c: int, spool: Option<int>)
      modifies `openFds, `bodyFiles
      ensures View() == OpenSpool(old(View()), c, spool)
    {
      var files := set s | s in bodyFiles && bodyFiles[s] == c;
      if spool.Some? && spool.value !in openFds && files == {} {
        openFds := openFds + {spool.value};
        bodyFiles := bodyFiles[spool.value := c];
      }
    }

    method AddJob(c: int, s: CgiStart)
      requires s.Started?
      modifies `cgiJobs, `openFds, `eventRefs, `heap, `interest, `registered
      ensures TableView() == Register(old(TableView()), s.readFd, Cgi, READABLE, s.ptr)
      ensures openFds == old(openFds) + {s.readFd} && cgiJobs == old(cgiJobs)[s.readFd := Pipe(c, FRESH_CORE)]
    {
      RegisterEventFd(s.readFd, Cgi, READABLE, s.ptr);
      openFds := openFds + {s.readFd};
      cgiJobs := cgiJobs[s.readFd := Pipe(c, FRESH_CORE)];
    }

    method ForkChild(j: int, pid: int)
      requires pid !in processes
      modifies `childPids, `processes, `forked
      ensures WardsView() == Children.Fork(old(WardsView()), j, pid)
    {
      processes := processes[pid := forked];
      childPids := childPids[j := Children.Child(pid, forked)];
      forked := forked + 1;
    }

    // ------------------------------------------------------------ responses

    /** One append to a write buffer. */
    method AppendTo(c: int, s: string) returns (thrown: bool)
      requires c in connections
      modifies `connections
      ensures var v := old(connections)[c];
              && thrown == !Buffers.Room(v.out, s, v.limit)
              && connections == if thrown then old(connections) else old(connections)[c := v.(out := v.out + s)]
    {
      var v := connections[c];
      thrown := s != "" && |v.out| + |s| > v.limit;
      if !thrown { connections := connections[c := v.(out := v.out + s)]; }
    }

    /** The parts of a response, until an append throws. */
    method AppendParts(c: int, parts: seq<string>) returns (thrown: bool)
      requires c in connections
      modifies `connections
      ensures var v := old(connections)[c];
              var w := Buffers.AppendAll(v.out, parts, v.limit);
              thrown == w.thrown && connections == old(connections)[c := v.(out := w.out)]
    {
      ghost var v := connections[c];
      thrown := false;
      assert parts[0..] == parts;
      for i := 0 to |parts|
        invariant !thrown && c in connections && connections == old(connections)[c := v.(out := connections[c].out)]
        invariant Buffers.AppendAll(connections[c].out, parts[i..], v.limit) == Buffers.AppendAll(v.out, parts, v.limit)
      {
        assert parts[i..][1..] == parts[i + 1..];
        thrown := AppendTo(c, parts[i]);
        if thrown { return; }
      }
    }

    method CatchLimit(env: Env, c: int)
      requires c in connections
      modifies `connections, `interest, `fallen
      ensures View() == Catch(env, old(View()), c)
    {
      var v := connections[c];
      var thrown := AppendTo(c, env.setting.errorPage(413));
      if thrown {
        fallen := true;
      } else {
        Update(c, connections[c].(state := Writing, keepAlive := false));
      }
    }

    method SendParts(env: Env, c: int, parts: seq<string>)
      requires c in connections
      modifies `connections, `interest, `fallen
      ensures View() == Respond(env, old(View()), c, parts)
    {
      var thrown := AppendParts(c, parts);
      if thrown { CatchLimit(env, c); } else { Update(c, connections[c].(state := Writing)); }
    }

    // ------------------------------------------------------------- programs

    method BeginJob(c: int, s: CgiStart)
      requires c in connections && s.Started?
      modifies this
      ensures View() == Put(OpenJob(old(View()), c, s), c, old(connections)[c].(state := CgiRunning))
    {
      AddJob(c, s);
      Update(c, connections[c].(state := CgiRunning));
    }

    method RunProgram(env: Env, c: int, s: CgiStart, a: Answers)
      requires c in connections && s.Started?
      modifies this
      ensures View() == WithPipe(env, old(View()), c, s, a)
    {
      var v := connections[c];
      BeginJob(c, s);
      if s.pid.Some? && s.pid.value !in processes {
        ForkChild(s.readFd, s.pid.value);
      } else {
        CloseCgiJob(s.readFd, a);
        SendParts(env, c, [env.setting.errorPage(502)]);
      }
    }

    method ApiStartCgi(env: Env, c: int, s: CgiStart, a: Answers)
      requires c in connections
      modifies this
      ensures View() == StartCgi(env, old(View()), c, s, a)
    {
      var v, page := connections[c], env.setting.errorPage(500);
      if s.Started? && s.readFd !in openFds && s.writeFd !in openFds && s.readFd != s.writeFd && s.ptr !in heap {
        CloseBodyFile(c);
        RunProgram(env, c, s, a);
      } else {
        if Buffers.Room(v.out, page, v.limit) { CloseBodyFile(c); }
        SendParts(env, c, [page]);
      }
    }

    // ------------------------------------------------------------- handlers

    method HandleReadable(env: Env, c: int, a: Answers)
      requires c in connections && Single(cgiJobs)
      modifies this
      ensures View() == HandleRead(env, old(View()), c, a)
    {
      if connections[c].state == CgiRunning { return; }
      OpenBodyFile(c, a.spool);
      connections := connections[c := connections[c].(limit := a.limit)];
      RespondToRequest(env, c, a);
    }

    method RespondToRequest(env: Env, c: int, a: Answers)
      requires c in connections && Single(cgiJobs)
      modifies this
      ensures View() == React(env, old(View()), c, a)
    {
      var v := connections[c];
      match a.reaction
      case Quiet(keepAlive) => connections := connections[c := v.(keepAlive := keepAlive)];
      case PeerClosed => CloseClientFd(c, a);
      case Flooded => CatchLimit(env, c);
      case Refused(page, keepAlive) =>
        connections := connections[c := v.(keepAlive := keepAlive)];
        SendParts(env, c, [page]);
      case Served(parts, keepAlive) =>
        CloseBodyFile(c);
        connections := connections[c := v.(keepAlive := keepAlive)];
        SendParts(env, c, parts);
      case Program(keepAlive, head, start) =>
        connections := connections[c := v.(state := Processing, keepAlive := keepAlive, head := head)];
        ApiStartCgi(env, c, start, a);
    }

    /** What the pipe handler decided, put into effect. */
    method Apply(j: int, o: CgiPipe.Outcome, a: Answers)
      requires j in cgiJobs && cgiJobs[j].client in connections
      modifies this
      ensures View() == ApplyPipe(old(View()), j, o, a)
    {
      if o.Escaped? { fallen := true; } else { Keep(j, o.job, a); }
    }

    method Keep(j: int, t: CgiStream.Job, a: Answers)
      requires j in cgiJobs && cgiJobs[j].client in connections
      modifies this
      ensures View() == ApplyPipe(old(View()), j, CgiPipe.Kept(t), a)
    {
      var c, core := cgiJobs[j].client, cgiJobs[j].core;
      var v := connections[c];
      if t == core.(out := v.out) { return; }
      match t.phase
      case Heading => cgiJobs := cgiJobs[j := Pipe(c, t.(out := ""))];
      case Streaming =>
        cgiJobs := cgiJobs[j := Pipe(c, t.(out := ""))];
        Update(c, v.(state := Writing, out := t.out));
      case Over(hadHeaders, _, failed, _) =>
        Update(c, v.(state := Writing, out := t.out, keepAlive := v.keepAlive && !(hadHeaders && failed)));
        CloseCgiJob(j, a);
    }

    method HandleCgiEvent(env: Env, j: int, a: Answers)
      modifies this
      ensures View() == HandleCgi(env, old(View()), j, a)
    {
      if j !in cgiJobs { return; }
      if cgiJobs[j].client !in connections {
        CloseCgiJob(j, a);
        return;
      }
      var v := connections[cgiJobs[j].client];
      var o := CgiPipe.OnPipeWithin(SettingOf(env, v), cgiJobs[j].core.(out := v.out), Clipped(a.pipe), v.limit);
      Apply(j, o, a);
    }

    method FailLateJob(env: Env, j: int, a: Answers)
      modifies this
      ensures View() == ExpireJob(env, old(View()), j, a)
    {
      if j !in cgiJobs || fallen { return; }
      if cgiJobs[j].client !in connections {
        CloseCgiJob(j, a);
        return;
      }
      var v := connections[cgiJobs[j].client];
      var o := CgiPipe.Failed(SettingOf(env, v), cgiJobs[j].core.(out := v.out), 504, v.limit);
      Apply(j, o, a);
    }

    method WriteWithJob(env: Env, c: int, j: int, a: Answers)
      requires c in connections
      modifies this
      ensures View() == WriteOn(env, old(View()), c, j, a)
    {
      if |connections[c].out| < CGI_STREAM_LWM {
        ModifyEventFd(j, READABLE);
        HandleCgiEvent(env, j, a);
      }
      if fallen || c !in connections { return; }
      Update(c, connections[c].(state := Writing));
    }

    method WriteWithoutJob(c: int, a: Answers)
      requires c in connections && Single(cgiJobs)
      modifies this
      ensures View() == WriteAlone(old(View()), c, a)
    {
      var v := connections[c];
      if v.out == "" {
        if !v.halfClosed && v.keepAlive {
          CloseBodyFile(c);
          Update(c, Idle(v.limit));
        } else {
          CloseClientFd(c, a);
        }
      } else {
        Update(c, v.(state := Writing));
      }
    }

    method HandleWritable(env: Env, c: int, a: Answers)
      requires c in connections && Single(cgiJobs)
      modifies this
      ensures View() == HandleWrite(env, old(View()), c, a)
    {
      var v := connections[c];
      connections := connections[c := v.(out := v.out[CgiStream.AtMost(a.takes, |v.out|)..])];
      var job := FindJob(c);
      if job.Some? { WriteWithJob(env, c, job.value, a); } else { WriteWithoutJob(c, a); }
    }

    method HandleClientEvent(env: Env, c: int, bits: Bits, a: Answers)
      requires Single(cgiJobs)
      modifies this
      ensures View() == HandleClient(env, old(View()), c, bits, a)
    {
      if c !in connections { return; }
      if bits.error {
        CloseClientFd(c, a);
        return;
      }
      if bits.hangup {
        var job := FindJob(c);
        if connections[c].out == "" || job.Some? {
          CloseClientFd(c, a);
        } else {
          connections := connections[c := connections[c].(halfClosed := true)];
        }
        return;
      }
      if bits.input {
        HandleReadable(env, c, a);
      } else if bits.output {
        HandleWritable(env, c, a);
      }
    }

    method DispatchEvent(env: Env, e: Event, a: Answers)
      requires Single(cgiJobs)
      modifies this
      ensures View() == Dispatch(env, old(View()), e, a)
    {
      if fallen { return; }
      if e.ptr !in heap {
        wild := true;
        return;
      }
      var ref := heap[e.ptr];
      match ref.kind
      case Invalid =>
      case Server => HandleAccept(env, a.accepts);
      case Cgi => HandleCgiEvent(env, ref.fd, a);
      case Client => HandleClientEvent(env, ref.fd, e.bits, a);
    }

    // ------------------------------------------------------------------ run

    method AddServerSocket(fd: int, ptr: int)
      modifies `serverFds, `openFds, `eventRefs, `heap, `interest, `registered
      ensures View() == AddListener(old(View()), fd, ptr)
    {
      RegisterEventFd(fd, Server, READABLE, ptr);
      serverFds := serverFds + {fd};
      openFds := openFds + {fd};
    }

    method DispatchBatch(env: Env, batch: seq<Event>, answers: nat -> Answers)
      requires Inv(View()) && Orderly(View(), batch, 0)
      modifies this
      ensures View() == After(env, old(View()), batch, answers, |batch|)
    {
      for i := 0 to |batch|
        invariant View() == After(env, old(View()), batch, answers, i)
      {
        BatchKeepsInv(env, old(View()), batch, answers, i);
        NextIsDispatch(env, old(View()), batch, answers, i);
        if fallen { IgnoredUnlessLive(env, View(), batch[i], answers(i)); } else { DispatchEvent(env, batch[i], answers(i)); }
      }
    }

    method FreeStaleRefs()
      modifies `heap, `staleRefs
      ensures View() == Freed(old(View()))
    {
      if fallen { return; }
      heap := heap - (set p | p in staleRefs);
      staleRefs := [];
    }

    /** The 408 response, as far as the socket takes it; nobody catches what it throws. */
    method TellLate(env: Env, c: int, a: Answers)
      requires c in connections && Single(cgiJobs)
      modifies this
      ensures var g := old(View());
              View() == if Buffers.Room(g.clients[c].out, env.setting.errorPage(408), g.clients[c].limit)
                        then HandleWrite(env, Told(env, g, c), c, a) else Fall(g)
    {
      var thrown := AppendTo(c, env.setting.errorPage(408));
      if thrown {
        fallen := true;
        return;
      }
      HandleWritable(env, c, a);
    }

    /** With the response sent no connection has two jobs. */
    lemma StillSingle(env: Env, x: Late)
      requires Inv(View()) && x.fd in connections && connections[x.fd].state != CgiRunning
      requires Buffers.Room(connections[x.fd].out, env.setting.errorPage(408), connections[x.fd].limit)
      ensures var h := HandleWrite(env, Told(env, View(), x.fd), x.fd, x.first); h.fallen || Single(h.jobs)
    {
      TimeOutWrites(env, View(), x);
    }

    method TimeOutClient(env: Env, x: Late)
      requires Well(View())
      modifies this
      ensures View() == TimeOut(env, old(View()), x)
    {
      if fallen || x.fd !in connections || connections[x.fd].state == CgiRunning { return; }
      if Buffers.Room(connections[x.fd].out, env.setting.errorPage(408), connections[x.fd].limit) { StillSingle(env, x); }
      TellLate(env, x.fd, x.first);
      if !fallen { CloseClientFd(x.fd, x.second); }
    }

    method CloseTimedOutClients(env: Env, late: seq<Late>)
      requires Well(View())
      modifies this
      ensures View() == TimeOutAll(env, old(View()), late) && Well(View())
    {
      var i := 0;
      assert late[0..] == late;
      while i < |late|
        invariant 0 <= i <= |late| && Well(View())
        invariant TimeOutAll(env, View(), late[i..]) == TimeOutAll(env, old(View()), late)
      {
        assert late[i..][1..] == late[i + 1..];
        if !fallen { TimeOutKeepsInv(env, View(), late[i]); }
        TimeOutClient(env, late[i]);
        i := i + 1;
      }
    }

    method CloseTimedOutCgiJobs(env: Env, expired: seq<Expired>)
      modifies this
      ensures View() == ExpireAll(env, old(View()), expired)
    {
      var i := 0;
      assert expired[0..] == expired;
      while i < |expired|
        invariant 0 <= i <= |expired|
        invariant ExpireAll(env, View(), expired[i..]) == ExpireAll(env, old(View()), expired)
      {
        assert expired[i..][1..] == expired[i + 1..];
        FailLateJob(env, expired[i].job, expired[i].answers);
        i := i + 1;
      }
    }

    /** One turn of the loop of `run`. */
    method RunOnce(env: Env, t: Turn)
      requires Inv(View())
      modifies this
      ensures View() == RunTurn(env, old(View()), t) && Well(View())
    {
      var batch := Wait(TableView(), t.ready);
      WaitIsOrderly(View(), t.ready);
      BatchKeepsInv(env, View(), batch, t.answers, |batch|);
      TurnKeepsInv(env, View(), t);
      DispatchBatch(env, batch, t.answers);
      if !fallen { FreedKeepsInv(View()); }
      FreeStaleRefs();
      CloseTimedOutClients(env, t.late);
      CloseTimedOutCgiJobs(env, t.expired);
      ReapPending(t.exits, t.now);
    }

    /** Until the turns are over or an exception ends the loop. */
    method RunAll(env: Env, turns: seq<Turn>)
      requires Well(View())
      modifies this
      ensures View() == Run(env, old(View()), turns) && Well(View())
    {
      var i := 0;
      assert turns[0..] == turns;
      while i < |turns| && !fallen
        invariant 0 <= i <= |turns| && Well(View())
        invariant Run(env, View(), turns[i..]) == Run(env, old(View()), turns)
      {
        assert turns[i..][1..] == turns[i + 1..];
        RunOnce(env, turns[i]);
        i := i + 1;
      }
    }
  }
}
