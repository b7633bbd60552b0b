/** The event loop as a state machine: the handlers of src/EventLoop/EventLoop.cpp,
    EventLoop_helper_handlers.cpp, EventLoop_helper_cgi.cpp and cgi/CgiCleanning.cpp on values, beside a
    small kernel.  What the kernel, the parser and the clock answer is an argument of each step, and
    every answer is allowed. */
module LoopState {
  import opened Text
  import opened EventTable
  import CgiStream
  import CgiPipe
  import Children
  import Buffers

  datatype ConnectionState = Reading | Processing | Writing | CgiRunning | Closing

  /** A `Connection`, with what its request contributes here; `limit` is that of the write buffer. */
  datatype Connection = Connection(state: ConnectionState, out: string, limit: nat, halfClosed: bool, keepAlive: bool, head: bool)

  function Idle(limit: nat): Connection { Connection(Reading, "", limit, false, false, false) }

  /** A `CgiJob`: its client and its progress, whose write buffer is the client's. */
  datatype Pipe = Pipe(client: int, core: CgiStream.Job)

  const FRESH_CORE := CgiStream.Job(CgiStream.Heading, "", 0, 0, "")

  /** `spools` maps the descriptor of each request-body file to the connection it belongs to; `open` is
      the kernel's; `wild` records a deleted reference being read, `fallen` a BodyLimitException that left
      the loop: `main` catches it and exits. */
  datatype Loop = Loop(
    table: Table, listeners: set<int>, clients: map<int, Connection>, jobs: map<int, Pipe>,
    spools: map<int, int>, wards: Children.Wards, open: set<int>, wild: bool, fallen: bool)

  datatype Env = Env(maxConnections: nat, setting: CgiStream.Setting)

  const CGI_STREAM_LWM: nat := 64 * 1024

  // ---------------------------------------------------------------- answers

  datatype Accepted = Accepted(fd: int, ptr: int, limit: nat)

  /** How `pipe` and `startCgi` went; no pid when the program could not be started. */
  datatype CgiStart = NoPipe | Started(readFd: int, writeFd: int, ptr: int, pid: Option<int>)

  /** How the read loop of one event ended.  `Flooded`: the read buffer met its limit.  A response is
      appended in parts. */
  datatype Reaction =
    | Quiet(keepAlive: bool)
    | PeerClosed
    | Flooded
    | Refused(page: string, keepAlive: bool)
    | Served(parts: seq<string>, keepAlive: bool)
    | Program(keepAlive: bool, head: bool, start: CgiStart)

  /** All answers one handler may need: connections waiting, a body file opened, the limit of the
      configuration the request has chosen, the request, bytes the socket takes, the pipe, whether the
      child has exited, the time. */
  datatype Answers = Answers(
    accepts: seq<Accepted>, spool: Option<int>, limit: nat, reaction: Reaction, takes: nat,
    pipe: CgiPipe.ReadResult, exited: bool, now: int)

  // ---------------------------------------------------------------- helpers

  /** `buildEpollEvent`. */
  function Build(state: ConnectionState): Mask
  {
    match state
    case Reading => Mask(true, false)
    case Writing => Mask(false, true)
    case Processing => Mask(false, false)
    case CgiRunning => Mask(false, false)
    case Closing => Mask(false, false)
  }

  /** A state change followed by `_rearmClient`. */
  function Put(g: Loop, c: int, v: Connection): Loop
  {
    g.(clients := g.clients[c := v], table := Rearm(g.table, c, Build(v.state)))
  }

  ghost function JobOf(jobs: map<int, Pipe>, c: int): (r: Option<int>)
    ensures r.Some? ==> r.value in jobs && jobs[r.value].client == c
    ensures r.None? ==> forall j :: j in jobs ==> jobs[j].client != c
  {
    if exists j :: j in jobs && jobs[j].client == c then
      var j :| j in jobs && jobs[j].client == c;
      Some(j)
    else None
  }

  function SpoolsOf(g: Loop, c: int): set<int>
  {
    set s | s in g.spools && g.spools[s] == c
  }

  function CloseSpool(g: Loop, c: int): Loop
  {
    g.(open := g.open - SpoolsOf(g, c), spools := g.spools - SpoolsOf(g, c))
  }

  // --------------------------------------------------------------- handlers

  /** `_closeCgiJob`. */
  function CloseJob(g: Loop, j: int, a: Answers): Loop
  {
    if j !in g.jobs then g
    else g.(wards := Children.Release(g.wards, j, a.exited, a.now), table := Unregister(g.table, j),
            open := g.open - {j}, jobs := g.jobs - {j})
  }

  /** `_closeCgiJobsForClient`: there is at most one. */
  ghost function CloseJobs(g: Loop, c: int, a: Answers): Loop
  {
    match JobOf(g.jobs, c)
    case None => g
    case Some(j) => CloseJob(g, j, a)
  }

  /** `ConnectionManager::closeConnection`. */
  function Destroy(g: Loop, c: int): Loop
  {
    if c !in g.clients then g
    else
      var h := CloseSpool(g, c);
      h.(clients := h.clients - {c}, open := h.open - {c})
  }

  /** `_closeClient`. */
  ghost function CloseClient(g: Loop, c: int, a: Answers): Loop
  {
    var h := CloseJobs(g, c, a);
    Destroy(h.(table := Unregister(h.table, c)), c)
  }

  predicate Acceptable(env: Env, g: Loop, x: Accepted)
  {
    |g.clients| < env.maxConnections && x.fd !in g.open && x.ptr !in g.table.heap
  }

  function AcceptOne(g: Loop, x: Accepted): Loop
  {
    g.(clients := g.clients[x.fd := Idle(x.limit)], open := g.open + {x.fd},
       table := Register(g.table, x.fd, Client, Build(Reading), x.ptr))
  }

  /** `_handleAccept`: until `accept` fails. */
  function Accept(env: Env, g: Loop, waiting: seq<Accepted>): Loop
    decreases |waiting|
  {
    if waiting == [] || !Acceptable(env, g, waiting[0]) then g
    else Accept(env, AcceptOne(g, waiting[0]), waiting[1..])
  }

  predicate Usable(g: Loop, s: CgiStart)
  {
    s.Started? && s.readFd !in g.open && s.writeFd !in g.open && s.readFd != s.writeFd && s.ptr !in g.table.heap
  }

  /** The job is registered while the program is being started. */
  function OpenJob(g: Loop, c: int, s: CgiStart): Loop
    requires s.Started?
  {
    g.(jobs := g.jobs[s.readFd := Pipe(c, FRESH_CORE)], open := g.open + {s.readFd},
       table := Register(g.table, s.readFd, Cgi, READABLE, s.ptr))
  }

  // ------------------------------------------------ responses and their limits

  /** An exception leaves the loop; what is still in memory no longer matters. */
  function Fall(g: Loop): Loop { g.(fallen := true) }

  /** The `catch` of `_handleRead`: an error page behind whatever fitted; this append is not caught. */
  function Catch(env: Env, g: Loop, c: int): Loop
    requires c in g.clients
  {
    var v, page := g.clients[c], env.setting.errorPage(413);
    if Buffers.Room(v.out, page, v.limit) then Put(g, c, v.(state := Writing, out := v.out + page, keepAlive := false))
    else Fall(g)
  }

  /** A response inside the `try` of `_handleRead`. */
  function Respond(env: Env, g: Loop, c: int, parts: seq<string>): Loop
    requires c in g.clients
  {
    var v := g.clients[c];
    var w := Buffers.AppendAll(v.out, parts, v.limit);
    if w.thrown then Catch(env, g.(clients := g.clients[c := v.(out := w.out)]), c)
    else Put(g, c, v.(state := Writing, out := w.out))
  }

  function Remember(g: Loop, c: int, keepAlive: bool): Loop
    requires c in g.clients
  {
    g.(clients := g.clients[c := g.clients[c].(keepAlive := keepAlive)])
  }

  // ------------------------------------------------------------ programs

  /** With a pipe: the job runs, or the program could not be started. */
  function WithPipe(env: Env, g: Loop, c: int, s: CgiStart, a: Answers): Loop
    requires c in g.clients && s.Started?
  {
    var v := g.clients[c];
    var k := Put(OpenJob(g, c, s), c, v.(state := CgiRunning));
    if s.pid.Some? && s.pid.value !in k.wards.kernel then
      k.(wards := Children.Fork(k.wards, s.readFd, s.pid.value))
    else
      Respond(env, CloseJob(k, s.readFd, a), c, [env.setting.errorPage(502)])
  }

  /** `_ApiStartCgi`, without the write end, which is opened and closed on the way; the body file is
      closed behind it unless it throws. */
  function StartCgi(env: Env, g: Loop, c: int, s: CgiStart, a: Answers): Loop
    requires c in g.clients
  {
    var v, page := g.clients[c], env.setting.errorPage(500);
    if Usable(g, s) then WithPipe(env, CloseSpool(g, c), c, s, a)
    else Respond(env, if Buffers.Room(v.out, page, v.limit) then CloseSpool(g, c) else g, c, [page])
  }

  /** The first flush opens the body file. */
  function OpenSpool(g: Loop, c: int, spool: Option<int>): Loop
  {
    if spool.Some? && spool.value !in g.open && SpoolsOf(g, c) == {}
    then g.(open := g.open + {spool.value}, spools := g.spools[spool.value := c]) else g
  }

  /** `_tryDispatchComplete` for a request that a program answers. */
  function Launch(env: Env, g: Loop, c: int, keepAlive: bool, head: bool, start: CgiStart, a: Answers): Loop
    requires c in g.clients
  {
    var processing := g.clients[c].(state := Processing, keepAlive := keepAlive, head := head);
    StartCgi(env, g.(clients := g.clients[c := processing]), c, start, a)
  }

  ghost function React(env: Env, g: Loop, c: int, a: Answers): Loop
    requires c in g.clients
  {
    match a.reaction
    case Quiet(keepAlive) => Remember(g, c, keepAlive)
    case PeerClosed => CloseClient(g, c, a)
    case Flooded => Catch(env, g, c)
    case Refused(page, keepAlive) => Respond(env, Remember(g, c, keepAlive), c, [page])
    case Served(parts, keepAlive) => Respond(env, Remember(CloseSpool(g, c), c, keepAlive), c, parts)
    case Program(keepAlive, head, start) => Launch(env, g, c, keepAlive, head, start, a)
  }

  /** The configuration may have changed with the Host header, and the write buffer's limit with it. */
  function Configure(g: Loop, c: int, limit: nat): Loop
    requires c in g.clients
  {
    g.(clients := g.clients[c := g.clients[c].(limit := limit)])
  }

  /** `_handleRead`: the body may go to a file first. */
  ghost function HandleRead(env: Env, g: Loop, c: int, a: Answers): Loop
    requires c in g.clients
  {
    if g.clients[c].state == CgiRunning then g else React(env, Configure(OpenSpool(g, c, a.spool), c, a.limit), c, a)
  }

  function SettingOf(env: Env, v: Connection): CgiStream.Setting
  {
    env.setting.(keepAlive := v.keepAlive, head := v.head)
  }

  /** `read` returns at least one byte, and at most what the handler's array holds. */
  function Clipped(r: CgiPipe.ReadResult): CgiPipe.ReadResult
  {
    if r.Bytes? && r.bytes == "" then CgiPipe.WouldBlock
    else if r.Bytes? && |r.bytes| > CgiStream.READ_SIZE then CgiPipe.Bytes(r.bytes[..CgiStream.READ_SIZE]) else r
  }

  /** A job with the write buffer of its client. */
  function JobAt(g: Loop, j: int): CgiStream.Job
    requires j in g.jobs && g.jobs[j].client in g.clients
  {
    g.jobs[j].core.(out := g.clients[g.jobs[j].client].out)
  }

  /** What became of the job, and of its client. */
  function ApplyPipe(g: Loop, j: int, o: CgiPipe.Outcome, a: Answers): Loop
    requires j in g.jobs && g.jobs[j].client in g.clients
  {
    match o
    case Escaped => Fall(g)
    case Kept(t) =>
      var c, v := g.jobs[j].client, g.clients[g.jobs[j].client];
      if t == JobAt(g, j) then g
      else
        match t.phase
        case Heading => g.(jobs := g.jobs[j := Pipe(c, t.(out := ""))])
        case Streaming => Put(g.(jobs := g.jobs[j := Pipe(c, t.(out := ""))]), c, v.(state := Writing, out := t.out))
        case Over(hadHeaders, _, failed, _) =>
          CloseJob(Put(g, c, v.(state := Writing, out := t.out, keepAlive := v.keepAlive && !(hadHeaders && failed))), j, a)
  }

  /** `_handleCgiEvent`. */
  function HandleCgi(env: Env, g: Loop, j: int, a: Answers): Loop
  {
    if j !in g.jobs then g
    else if g.jobs[j].client !in g.clients then CloseJob(g, j, a)
    else
      var v := g.clients[g.jobs[j].client];
      ApplyPipe(g, j, CgiPipe.OnPipeWithin(SettingOf(env, v), JobAt(g, j), Clipped(a.pipe), v.limit), a)
  }

  /** `_failCgiJob` with 504. */
  function ExpireJob(env: Env, g: Loop, j: int, a: Answers): Loop
  {
    if j !in g.jobs || g.fallen then g
    else if g.jobs[j].client !in g.clients then CloseJob(g, j, a)
    else
      var v := g.clients[g.jobs[j].client];
      ApplyPipe(g, j, CgiPipe.Failed(SettingOf(env, v), JobAt(g, j), 504, v.limit), a)
  }

  /** The socket takes some of the write buffer. */
  function Send(g: Loop, c: int, n: nat): Loop
    requires c in g.clients
  {
    var v := g.clients[c];
    g.(clients := g.clients[c := v.(out := v.out[CgiStream.AtMost(n, |v.out|)..])])
  }

  /** The two halves of `_handleWrite` behind the sends: with a job, below the low-water mark the pipe
      is read at once; without one, an empty buffer ends the response. */
  function WriteOn(env: Env, g: Loop, c: int, j: int, a: Answers): Loop
    requires c in g.clients
  {
    var k := if |g.clients[c].out| < CGI_STREAM_LWM then HandleCgi(env, g.(table := Rearm(g.table, j, READABLE)), j, a) else g;
    if k.fallen || c !in k.clients then k else Put(k, c, k.clients[c].(state := Writing))
  }

  ghost function WriteAlone(g: Loop, c: int, a: Answers): Loop
    requires c in g.clients
  {
    var v := g.clients[c];
    if v.out != "" then Put(g, c, v.(state := Writing))
    else if !v.halfClosed && v.keepAlive then Put(CloseSpool(g, c), c, Idle(v.limit))
    else CloseClient(g, c, a)
  }

  /** `_handleWrite`. */
  ghost function HandleWrite(env: Env, g: Loop, c: int, a: Answers): Loop
    requires c in g.clients
  {
    var h := Send(g, c, a.takes);
    match JobOf(h.jobs, c)
    case Some(j) => WriteOn(env, h, c, j, a)
    case None => WriteAlone(h, c, a)
  }

  /** `_handleClientEvent`. */
  ghost function HandleClient(env: Env, g: Loop, c: int, bits: Bits, a: Answers): Loop
  {
    if c !in g.clients then g
    else if bits.error then CloseClient(g, c, a)
    else if bits.hangup then
      if g.clients[c].out == "" || JobOf(g.jobs, c).Some? then CloseClient(g, c, a)
      else g.(clients := g.clients[c := g.clients[c].(halfClosed := true)])
    else if bits.input then HandleRead(env, g, c, a)
    else if bits.output then HandleWrite(env, g, c, a)
    else g
  }

  /** `_dispatch`. */
  ghost function Dispatch(env: Env, g: Loop, e: Event, a: Answers): Loop
  {
    if g.fallen then g
    else if e.ptr !in g.table.heap then g.(wild := true)
    else
      var fd := g.table.heap[e.ptr].fd;
      match g.table.heap[e.ptr].kind
      case Invalid => g
      case Server => Accept(env, g, a.accepts)
      case Cgi => HandleCgi(env, g, fd, a)
      case Client => HandleClient(env, g, fd, e.bits, a)
  }
}
