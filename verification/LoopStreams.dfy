/** The jobs of the event loop are the streams of module CgiStream: what the steps of a run do to one job and its
    client, one after the other, is a run of that module, on the bytes that were read from its pipe. */
module LoopStreams {
  import opened Text
  import opened EventTable
  import opened LoopState
  import opened LoopInvariant
  import opened LoopRun
  import opened LoopSteps
  import opened CgiHeaders
  import CgiStream
  import CgiPipe
  import ChunkWriter
  import Chunked
  import Buffers

  // ---------------------------------------------- what a step does to a stream

  /** Events of a stream, the bytes they read, and the bytes they send. */
  datatype Change = Change(events: seq<CgiStream.Event>, piece: string, sent: string)

  const NOTHING := Change([], "", "")

  /** From a stream with the job `b` and these bytes to come, the events lead to the job `t`. */
  ghost predicate Leads(setting: CgiStream.Setting, b: CgiStream.Job, t: CgiStream.Job, ch: Change, s: CgiStream.Stream)
  {
    s.job == b && ch.piece <= s.unread ==>
      var u := CgiStream.Run(setting, s, ch.events);
      && u.job == t && u.unread == s.unread[|ch.piece|..] && u.sent == s.sent + ch.sent && u.log.read == s.log.read + ch.piece
  }

  function EventOf(r: CgiPipe.ReadResult): CgiStream.Event
  {
    match r
    case Bytes(bytes) => CgiStream.PipeData(|bytes|)
    case EndOfFile => CgiStream.PipeEnd
    case WouldBlock => CgiStream.PipeEmpty
  }

  /** A call of the pipe handler. */
  function PipeChange(b: CgiStream.Job, r: CgiPipe.ReadResult): Change
  {
    Change([EventOf(r)], if r.Bytes? && !b.phase.Over? && !CgiStream.Exhausted(b) && !CgiStream.Congested(b) then r.bytes else "", "")
  }

  /** A call of the write handler: the socket takes some, and below the low-water mark the pipe is read. */
  function WriteChange(b: CgiStream.Job, a: Answers): Change
  {
    var n := CgiStream.AtMost(a.takes, |b.out|);
    if |b.out| - n < CGI_STREAM_LWM then
      var p := PipeChange(b.(out := b.out[n..]), Clipped(a.pipe));
      Change([CgiStream.SocketTakes(a.takes)] + p.events, p.piece, b.out[..n])
    else Change([CgiStream.SocketTakes(a.takes)], "", b.out[..n])
  }

  /** What a handler may be given of a pipe. */
  predicate Readable(r: CgiPipe.ReadResult) { r.Bytes? ==> 0 < |r.bytes| <= CgiStream.READ_SIZE }

  lemma RunOne(setting: CgiStream.Setting, s: CgiStream.Stream, e: CgiStream.Event)
    ensures CgiStream.Run(setting, s, [e]) == CgiStream.Step(setting, s, e)
  {
    assert [e][1..] == [];
  }

  lemma RunTwo(setting: CgiStream.Setting, s: CgiStream.Stream, e: CgiStream.Event, f: CgiStream.Event)
    ensures CgiStream.Run(setting, s, [e] + [f]) == CgiStream.Step(setting, CgiStream.Step(setting, s, e), f)
  {
    assert ([e] + [f])[1..] == [f];
    RunOne(setting, CgiStream.Step(setting, s, e), f);
  }

  /** The handler's answer is given in the schedule of a stream that has the bytes, unless the stream were to
      end with bytes left. */
  lemma PipeLeads(setting: CgiStream.Setting, b: CgiStream.Job, r: CgiPipe.ReadResult, s: CgiStream.Stream)
    requires Readable(r) && (r.EndOfFile? && s.unread != "" ==> CgiPipe.OnPipe(setting, b, r) == b || CgiStream.Exhausted(b))
    ensures Leads(setting, b, CgiPipe.OnPipe(setting, b, r), PipeChange(b, r), s)
  {
    var ch := PipeChange(b, r);
    if s.job == b && ch.piece <= s.unread {
      RunOne(setting, s, EventOf(r));
      CgiPipe.StepIsOnPipe(setting, s, EventOf(r));
      assert s.sent + "" == s.sent && s.log.read + "" == s.log.read;
      if r.Bytes? && ch.piece != "" {
        assert CgiStream.Offered(s, |r.bytes|) == |r.bytes| && s.unread[..|r.bytes|] == r.bytes;
      }
    }
  }

  /** A job that was kept and is not over did what it would do without a limit. */
  lemma LimitedIsOver(setting: CgiStream.Setting, b: CgiStream.Job, r: CgiPipe.ReadResult, limit: nat)
    requires |b.out| <= limit
    ensures var o := CgiPipe.OnPipeWithin(setting, b, r, limit);
            o.Kept? && !o.job.phase.Over? ==> o.job == CgiPipe.OnPipe(setting, b, r)
  {
    if b.phase.Over? || CgiStream.Exhausted(b) || CgiStream.Congested(b) || !r.Bytes? {
      CgiPipe.WithinLimit(setting, b, r, limit);
    } else {
      DataIsOver(setting, b, r.bytes, limit);
    }
  }

  lemma DataIsOver(setting: CgiStream.Setting, b: CgiStream.Job, bytes: string, limit: nat)
    requires |b.out| <= limit && !b.phase.Over?
    ensures var o := CgiPipe.DataInside(setting, b, bytes, limit);
            o.Kept? && !o.job.phase.Over? ==> o.job == CgiStream.OnData(setting, b, bytes)
  {
    var k := b.(readCount := b.readCount + 1);
    if b.phase.Streaming? {
      ChunkIsOver(setting, k, bytes, limit);
    } else {
      HeaderIsOver(setting, k.(pending := b.pending + bytes), limit);
    }
  }

  lemma HeaderIsOver(setting: CgiStream.Setting, k: CgiStream.Job, limit: nat)
    requires |k.out| <= limit && k.phase.Heading?
    ensures var o, end := CgiPipe.HeaderInside(setting, k, limit), HeaderEnd(k.pending);
            o.Kept? && !o.job.phase.Over? ==>
              o.job == if end.None? then k
                       else CgiStream.Job(CgiStream.Streaming, "", k.bodyWritten + |k.pending[end.value..]|, k.readCount,
                              k.out + Rendered(setting.phrases, setting.keepAlive, k.pending[..end.value])
                              + ChunkWriter.Chunk(k.pending[end.value..]))
  {
    var end := HeaderEnd(k.pending);
    if end.Some? {
      var block := Rendered(setting.phrases, setting.keepAlive, k.pending[..end.value]);
      if |k.out| + |block| <= limit {
        ChunkIsOver(setting, k.(phase := CgiStream.Streaming, pending := "", out := k.out + block), k.pending[end.value..], limit);
      }
    }
  }

  lemma ChunkIsOver(setting: CgiStream.Setting, k: CgiStream.Job, data: string, limit: nat)
    requires |k.out| <= limit && k.phase.Streaming?
    ensures var o := CgiPipe.ChunkInside(setting, k, data, limit);
            o.Kept? && !o.job.phase.Over? ==> o.job == k.(bodyWritten := k.bodyWritten + |data|, out := k.out + ChunkWriter.Chunk(data))
  {
    ChunkWriter.ChunkFitsOrIsCut(k.out, data, limit);
  }

  // --------------------------------------------------- a job from step to step

  function SettingAt(env: Env, g: Loop, j: int): CgiStream.Setting
    requires j in g.jobs && g.jobs[j].client in g.clients
  {
    SettingOf(env, g.clients[g.jobs[j].client])
  }

  /** It is the same job, and the events lead any stream in its state to its new one. */
  ghost predicate Advances(env: Env, g: Loop, h: Loop, j: int, ch: Change)
  {
    && j in g.jobs && j in h.jobs && h.jobs[j].client == g.jobs[j].client
    && g.jobs[j].client in g.clients && g.jobs[j].client in h.clients && SettingAt(env, h, j) == SettingAt(env, g, j)
    && forall s :: Leads(SettingAt(env, g, j), JobAt(g, j), JobAt(h, j), ch, s)
  }

  lemma NothingLeads(setting: CgiStream.Setting, b: CgiStream.Job, s: CgiStream.Stream)
    ensures Leads(setting, b, b, NOTHING, s)
  {
    assert s.unread[0..] == s.unread && s.sent + "" == s.sent && s.log.read + "" == s.log.read;
  }

  lemma UntouchedAdvances(env: Env, g: Loop, h: Loop, j: int)
    requires j in g.jobs && j in h.jobs && h.jobs[j] == g.jobs[j]
    requires g.jobs[j].client in g.clients && g.jobs[j].client in h.clients && h.clients[g.jobs[j].client] == g.clients[g.jobs[j].client]
    ensures Advances(env, g, h, j, NOTHING)
  {
    forall s ensures Leads(SettingAt(env, g, j), JobAt(g, j), JobAt(h, j), NOTHING, s) { NothingLeads(SettingAt(env, g, j), JobAt(g, j), s); }
  }

  /** What the pipe handler keeps of a job is what it was given. */
  lemma KeptIsThere(g: Loop, j: int, t: CgiStream.Job, a: Answers)
    requires j in g.jobs && g.jobs[j].client in g.clients && (t.phase.Heading? ==> t.out == JobAt(g, j).out)
    requires j in ApplyPipe(g, j, CgiPipe.Kept(t), a).jobs
    ensures var h, c := ApplyPipe(g, j, CgiPipe.Kept(t), a), g.jobs[j].client;
            && (!t.phase.Over? || t == JobAt(g, j))
            && h.jobs[j].client == c && c in h.clients && JobAt(h, j) == t
            && h.clients[c].keepAlive == g.clients[c].keepAlive && h.clients[c].head == g.clients[c].head
  {
  }

  lemma HandleCgiAdvances(env: Env, g: Loop, j: int, a: Answers)
    requires j in g.jobs && g.jobs[j].client in g.clients && !g.jobs[j].core.phase.Over?
    requires |JobAt(g, j).out| <= g.clients[g.jobs[j].client].limit
    requires var h := HandleCgi(env, g, j, a); !h.fallen && j in h.jobs
    ensures Advances(env, g, HandleCgi(env, g, j, a), j, PipeChange(JobAt(g, j), Clipped(a.pipe)))
  {
    var v, b, r := g.clients[g.jobs[j].client], JobAt(g, j), Clipped(a.pipe);
    var o := CgiPipe.OnPipeWithin(SettingOf(env, v), b, r, v.limit);
    LimitedIsOver(SettingOf(env, v), b, r, v.limit);
    HeadingKeepsOut(SettingOf(env, v), b, r);
    KeptIsThere(g, j, o.job, a);
    forall s ensures Leads(SettingOf(env, v), b, o.job, PipeChange(b, r), s) {
      PipeLeads(SettingOf(env, v), b, r, s);
    }
  }

  lemma HeadingKeepsOut(setting: CgiStream.Setting, b: CgiStream.Job, r: CgiPipe.ReadResult)
    ensures var t := CgiPipe.OnPipe(setting, b, r);
            && (t.phase.Heading? ==> t.out == b.out)
            && (r.EndOfFile? && !t.phase.Over? ==> t == b)
  {
  }

  lemma SendLeads(setting: CgiStream.Setting, b: CgiStream.Job, takes: nat, s: CgiStream.Stream)
    ensures var n := CgiStream.AtMost(takes, |b.out|);
            Leads(setting, b, b.(out := b.out[n..]), Change([CgiStream.SocketTakes(takes)], "", b.out[..n]), s)
  {
    RunOne(setting, s, CgiStream.SocketTakes(takes));
    assert s.unread[0..] == s.unread && s.log.read + "" == s.log.read;
  }

  lemma SendThenPipeLeads(setting: CgiStream.Setting, b: CgiStream.Job, t: CgiStream.Job, takes: nat, p: Change, e: CgiStream.Event, s: CgiStream.Stream)
    requires var n := CgiStream.AtMost(takes, |b.out|);
             forall u :: Leads(setting, b.(out := b.out[n..]), t, p, u)
    requires p.events == [e] && p.sent == ""
    ensures var n := CgiStream.AtMost(takes, |b.out|);
            Leads(setting, b, t, Change([CgiStream.SocketTakes(takes)] + p.events, p.piece, b.out[..n]), s)
  {
    var n := CgiStream.AtMost(takes, |b.out|);
    var u := CgiStream.Step(setting, s, CgiStream.SocketTakes(takes));
    RunTwo(setting, s, CgiStream.SocketTakes(takes), e);
    RunOne(setting, u, e);
    assert Leads(setting, b.(out := b.out[n..]), t, p, u);
    if s.job == b { assert (s.sent + b.out[..n]) + "" == s.sent + b.out[..n]; }
  }

  /** A connection with the pipe read at once. */
  function Resumed(env: Env, g: Loop, c: int, j: int, a: Answers): Loop
    requires c in g.clients
  {
    var h := Send(g, c, a.takes);
    HandleCgi(env, h.(table := Rearm(h.table, j, READABLE)), j, a)
  }

  /** In the end only its state is set. */
  lemma ResumedIs(env: Env, g: Loop, c: int, j: int, a: Answers)
    requires c in g.clients && JobOf(g.jobs, c) == Some(j) && |Send(g, c, a.takes).clients[c].out| < CGI_STREAM_LWM
    requires var h := HandleWrite(env, g, c, a); !h.fallen && j in h.jobs
    ensures var h, l := HandleWrite(env, g, c, a), Resumed(env, g, c, j, a);
            && !l.fallen && h.jobs == l.jobs
            && (c in l.clients ==> c in h.clients && h.clients[c] == l.clients[c].(state := Writing))
  {
  }

  /** The state of a connection does not matter to its job. */
  lemma StateDoesNotMatter(env: Env, g: Loop, l: Loop, h: Loop, j: int, ch: Change)
    requires Advances(env, g, l, j, ch) && h.jobs == l.jobs && g.jobs[j].client in h.clients
    requires var c := g.jobs[j].client; exists s :: h.clients[c] == l.clients[c].(state := s)
    ensures Advances(env, g, h, j, ch)
  {
    assert JobAt(h, j) == JobAt(l, j);
    forall s ensures Leads(SettingAt(env, g, j), JobAt(g, j), JobAt(h, j), ch, s) {
      assert Leads(SettingAt(env, g, j), JobAt(g, j), JobAt(l, j), ch, s);
    }
  }

  lemma ResumedAdvances(env: Env, g: Loop, c: int, j: int, a: Answers)
    requires c in g.clients && j in g.jobs && g.jobs[j].client == c && |Send(g, c, a.takes).clients[c].out| < CGI_STREAM_LWM
    requires !g.jobs[j].core.phase.Over? && |g.clients[c].out| <= g.clients[c].limit
    requires var l := Resumed(env, g, c, j, a); !l.fallen && j in l.jobs
    ensures Advances(env, g, Resumed(env, g, c, j, a), j, WriteChange(JobAt(g, j), a))
  {
    var b, h, setting := JobAt(g, j), Send(g, c, a.takes), SettingAt(env, g, j);
    var k, l := h.(table := Rearm(h.table, j, READABLE)), Resumed(env, g, c, j, a);
    HandleCgiAdvances(env, k, j, a);
    forall s ensures Leads(setting, b, JobAt(l, j), WriteChange(b, a), s) {
      SendThenPipeLeads(setting, b, JobAt(l, j), a.takes, PipeChange(JobAt(k, j), Clipped(a.pipe)), EventOf(Clipped(a.pipe)), s);
    }
  }

  lemma WriteLowAdvances(env: Env, g: Loop, c: int, j: int, a: Answers)
    requires c in g.clients && JobOf(g.jobs, c) == Some(j) && |Send(g, c, a.takes).clients[c].out| < CGI_STREAM_LWM
    requires !g.jobs[j].core.phase.Over? && |g.clients[c].out| <= g.clients[c].limit
    requires var h := HandleWrite(env, g, c, a); !h.fallen && j in h.jobs
    ensures Advances(env, g, HandleWrite(env, g, c, a), j, WriteChange(JobAt(g, j), a))
  {
    ResumedIs(env, g, c, j, a);
    ResumedAdvances(env, g, c, j, a);
    StateDoesNotMatter(env, g, Resumed(env, g, c, j, a), HandleWrite(env, g, c, a), j, WriteChange(JobAt(g, j), a));
  }

  lemma WriteAdvances(env: Env, g: Loop, c: int, j: int, a: Answers)
    requires c in g.clients && JobOf(g.jobs, c) == Some(j)
    requires !g.jobs[j].core.phase.Over? && |g.clients[c].out| <= g.clients[c].limit
    requires var h := HandleWrite(env, g, c, a); !h.fallen && j in h.jobs
    ensures Advances(env, g, HandleWrite(env, g, c, a), j, WriteChange(JobAt(g, j), a))
  {
    if |Send(g, c, a.takes).clients[c].out| < CGI_STREAM_LWM {
      WriteLowAdvances(env, g, c, j, a);
    } else {
      var b, setting, n := JobAt(g, j), SettingAt(env, g, j), CgiStream.AtMost(a.takes, |g.clients[c].out|);
      forall s ensures Leads(setting, b, b.(out := b.out[n..]), WriteChange(b, a), s) { SendLeads(setting, b, a.takes, s); }
    }
  }

  // --------------------------------------------------------------- every step

  /** What a step does to the stream of a job. */
  ghost function ChangeOf(g: Loop, x: Happening, j: int): Change
    requires j in g.jobs && g.jobs[j].client in g.clients
  {
    if !x.Occurs? || g.fallen || !Live(g.table, x.event) then NOTHING
    else if x.event.fd == j then PipeChange(JobAt(g, j), Clipped(x.answers.pipe))
    else if x.event.fd == g.jobs[j].client && x.event.bits.output then WriteChange(JobAt(g, j), x.answers)
    else NOTHING
  }

  lemma OwnEventAdvances(env: Env, g: Loop, c: int, bits: Bits, a: Answers, j: int)
    requires Inv(g) && !g.fallen && Fitting(g, c, bits) && JobOf(g.jobs, c) == Some(j)
    requires var h := HandleClient(env, g, c, bits, a); !h.fallen && j in h.jobs
    ensures Advances(env, g, HandleClient(env, g, c, bits, a), j, if bits.output then WriteChange(JobAt(g, j), a) else NOTHING)
  {
    assert Agree(g, c);
    if bits.output && !bits.error && !bits.hangup {
      WriteAdvances(env, g, c, j, a);
    } else if !bits.error && !bits.hangup {
      UntouchedAdvances(env, g, g, j);
    }
  }

  lemma AcceptAdvances(env: Env, g: Loop, waiting: seq<Accepted>, j: int)
    requires Inv(g) && j in g.jobs
    ensures Advances(env, g, Accept(env, g, waiting), j, NOTHING)
  {
    AcceptKeepsJobs(env, g, waiting);
    AcceptMoves(env, g, waiting, g.jobs[j].client);
    UntouchedAdvances(env, g, Accept(env, g, waiting), j);
  }

  lemma OtherPipeAdvances(env: Env, g: Loop, k: int, a: Answers, j: int)
    requires Inv(g) && j in g.jobs && k in g.jobs && k != j
    requires Inv(HandleCgi(env, g, k, a))
    ensures Advances(env, g, HandleCgi(env, g, k, a), j, NOTHING)
  {
    HandleCgiSpares(env, g, k, a, g.jobs[k].client);
    HandleCgiMoves(env, g, k, a, g.jobs[k].client);
    UntouchedAdvances(env, g, HandleCgi(env, g, k, a), j);
  }

  lemma OtherClientAdvances(env: Env, g: Loop, c: int, bits: Bits, a: Answers, j: int)
    requires Inv(g) && j in g.jobs && g.jobs[j].client != c
    requires Inv(HandleClient(env, g, c, bits, a))
    ensures Advances(env, g, HandleClient(env, g, c, bits, a), j, NOTHING)
  {
    assert forall k :: k in g.jobs ==> k in g.open;
    HandleClientSpares(env, g, c, bits, a);
    HandleClientMoves(env, g, c, bits, a);
    UntouchedAdvances(env, g, HandleClient(env, g, c, bits, a), j);
  }

  lemma OwnPipeAdvances(env: Env, g: Loop, j: int, a: Answers)
    requires Inv(g) && j in g.jobs
    requires var h := HandleCgi(env, g, j, a); !h.fallen && j in h.jobs
    ensures Advances(env, g, HandleCgi(env, g, j, a), j, PipeChange(JobAt(g, j), Clipped(a.pipe)))
  {
    assert Agree(g, g.jobs[j].client);
    HandleCgiAdvances(env, g, j, a);
  }

  /** An event is handled by what its descriptor is. */
  lemma DispatchIs(env: Env, g: Loop, e: Event, a: Answers)
    requires Inv(g) && !g.fallen && Awaits(g, e)
    ensures Dispatch(env, g, e, a) ==
            if !Live(g.table, e) then g
            else
              match Expected(g, e.fd)
              case Server => Accept(env, g, a.accepts)
              case Client => HandleClient(env, g, e.fd, e.bits, a)
              case Cgi => HandleCgi(env, g, e.fd, a)
              case Invalid => g
    ensures Live(g.table, e) && Expected(g, e.fd).Client? ==> Fitting(g, e.fd, e.bits)
  {
    ActedOnIffLive(g.table, e);
  }

  /** A live event that concerns another job or another connection, or neither. */
  lemma OtherEventAdvances(env: Env, g: Loop, e: Event, a: Answers, j: int)
    requires Inv(g) && !g.fallen && Awaits(g, e) && Live(g.table, e) && j in g.jobs && e.fd != j && e.fd != g.jobs[j].client
    requires Inv(Dispatch(env, g, e, a))
    ensures Advances(env, g, Dispatch(env, g, e, a), j, NOTHING)
  {
    DispatchIs(env, g, e, a);
    match Expected(g, e.fd)
    case Server => AcceptAdvances(env, g, a.accepts, j);
    case Cgi => OtherPipeAdvances(env, g, e.fd, a, j);
    case Client => OtherClientAdvances(env, g, e.fd, e.bits, a, j);
    case Invalid => UntouchedAdvances(env, g, g, j);
  }

  lemma PipeEventAdvances(env: Env, g: Loop, e: Event, a: Answers, j: int)
    requires Inv(g) && !g.fallen && Awaits(g, e) && Live(g.table, e) && j in g.jobs && e.fd == j
    requires var h := Dispatch(env, g, e, a); !h.fallen && j in h.jobs
    ensures Advances(env, g, Dispatch(env, g, e, a), j, PipeChange(JobAt(g, j), Clipped(a.pipe)))
  {
    DispatchIs(env, g, e, a);
    assert Expected(g, j).Cgi?;
    OwnPipeAdvances(env, g, j, a);
  }

  lemma ClientEventAdvances(env: Env, g: Loop, e: Event, a: Answers, j: int)
    requires Inv(g) && !g.fallen && Awaits(g, e) && Live(g.table, e) && j in g.jobs && e.fd == g.jobs[j].client
    requires var h := Dispatch(env, g, e, a); !h.fallen && j in h.jobs
    ensures Advances(env, g, Dispatch(env, g, e, a), j, if e.bits.output then WriteChange(JobAt(g, j), a) else NOTHING)
  {
    DispatchIs(env, g, e, a);
    assert Expected(g, e.fd).Client?;
    JobIs(g.jobs, j);
    OwnEventAdvances(env, g, e.fd, e.bits, a, j);
  }

  lemma DeadEventAdvances(env: Env, g: Loop, e: Event, a: Answers, j: int)
    requires Inv(g) && !g.fallen && Awaits(g, e) && !Live(g.table, e) && j in g.jobs
    ensures Advances(env, g, Dispatch(env, g, e, a), j, NOTHING)
  {
    DispatchIs(env, g, e, a);
    UntouchedAdvances(env, g, g, j);
  }

  lemma DispatchAdvances(env: Env, g: Loop, e: Event, a: Answers, j: int, h: Loop, ch: Change)
    requires Inv(g) && !g.fallen && Awaits(g, e) && j in g.jobs
    requires !h.fallen && j in h.jobs && Inv(h) && h == Dispatch(env, g, e, a) && ch == ChangeOf(g, Occurs(e, a), j)
    ensures Advances(env, g, h, j, ch)
  {
    if !Live(g.table, e) {
      DeadEventAdvances(env, g, e, a, j);
    } else if e.fd == j {
      PipeEventAdvances(env, g, e, a, j);
    } else if e.fd == g.jobs[j].client {
      ClientEventAdvances(env, g, e, a, j);
    } else {
      OtherEventAdvances(env, g, e, a, j);
    }
  }

  lemma TimeOutAdvances(env: Env, g: Loop, x: Late, j: int)
    requires Inv(g) && !g.fallen && j in g.jobs
    requires var h := TimeOut(env, g, x); !h.fallen && j in h.jobs && Inv(h)
    ensures Advances(env, g, TimeOut(env, g, x), j, NOTHING)
  {
    var h := TimeOut(env, g, x);
    TimeOutSpares(env, g, x);
    TimeOutMoves(env, g, x);
    if x.fd == g.jobs[j].client { TimeOutKeepsOnlyWaiting(env, g, x, j); }
    UntouchedAdvances(env, g, h, j);
  }

  /** Nothing the write handler does gives a job to another connection. */
  lemma WriteKeepsClients(env: Env, g: Loop, c: int, a: Answers, j: int)
    requires c in g.clients && j in HandleWrite(env, g, c, a).jobs
    ensures j in g.jobs && HandleWrite(env, g, c, a).jobs[j].client == g.jobs[j].client
  {
    var h := Send(g, c, a.takes);
    match JobOf(h.jobs, c)
    case Some(k) =>
      if |h.clients[c].out| < CGI_STREAM_LWM { PipeKeepsClients(env, h.(table := Rearm(h.table, k, READABLE)), k, a, j); }
    case None =>
  }

  lemma PipeKeepsClients(env: Env, g: Loop, k: int, a: Answers, j: int)
    requires j in HandleCgi(env, g, k, a).jobs
    ensures j in g.jobs && HandleCgi(env, g, k, a).jobs[j].client == g.jobs[j].client
  {
    if k in g.jobs && g.jobs[k].client in g.clients {
      var v := g.clients[g.jobs[k].client];
      AppliedKeepsClients(g, k, CgiPipe.OnPipeWithin(SettingOf(env, v), JobAt(g, k), Clipped(a.pipe), v.limit), a, j);
    }
  }

  lemma AppliedKeepsClients(g: Loop, k: int, o: CgiPipe.Outcome, a: Answers, j: int)
    requires k in g.jobs && g.jobs[k].client in g.clients && j in ApplyPipe(g, k, o, a).jobs
    ensures j in g.jobs && ApplyPipe(g, k, o, a).jobs[j].client == g.jobs[j].client
  {
  }

  lemma ClosedHasNone(g: Loop, c: int, a: Answers, j: int)
    requires Single(g.jobs) && (j in g.jobs ==> g.jobs[j].client == c)
    ensures j !in CloseClient(g, c, a).jobs
  {
    if j in g.jobs { JobIs(g.jobs, j); }
  }

  lemma TimeOutKeepsOnlyWaiting(env: Env, g: Loop, x: Late, j: int)
    requires Inv(g) && !g.fallen && j in g.jobs && x.fd == g.jobs[j].client
    requires var h := TimeOut(env, g, x); !h.fallen && j in h.jobs
    ensures TimeOut(env, g, x) == g
  {
    var c := x.fd;
    if g.clients[c].state != CgiRunning
       && Buffers.Room(g.clients[c].out, env.setting.errorPage(408), g.clients[c].limit) {
      var h := HandleWrite(env, Told(env, g, c), c, x.first);
      TimeOutWrites(env, g, x);
      if !h.fallen {
        if j in h.jobs { WriteKeepsClients(env, Told(env, g, c), c, x.first, j); }
        ClosedHasNone(h, c, x.second, j);
      }
    }
  }

  lemma ExpiredIsGone(env: Env, g: Loop, j: int, a: Answers)
    requires j in g.jobs && !g.fallen && !g.jobs[j].core.phase.Over? && !ExpireJob(env, g, j, a).fallen
    ensures j !in ExpireJob(env, g, j, a).jobs
  {
  }

  lemma OtherExpires(env: Env, g: Loop, k: int, a: Answers, j: int)
    requires Inv(g) && j in g.jobs && k in g.jobs && k != j
    ensures Advances(env, g, ExpireJob(env, g, k, a), j, NOTHING)
  {
    ExpireSpares(env, g, k, a, g.jobs[k].client);
    UntouchedAdvances(env, g, ExpireJob(env, g, k, a), j);
  }

  lemma ExpireAdvances(env: Env, g: Loop, x: Expired, j: int)
    requires Inv(g) && !g.fallen && j in g.jobs
    requires var h := ExpireJob(env, g, x.job, x.answers); !h.fallen && j in h.jobs
    ensures Advances(env, g, ExpireJob(env, g, x.job, x.answers), j, NOTHING)
  {
    if x.job !in g.jobs {
      UntouchedAdvances(env, g, g, j);
    } else if x.job == j {
      ExpiredIsGone(env, g, j, x.answers);
    } else {
      OtherExpires(env, g, x.job, x.answers, j);
    }
  }

  /** Every step that leaves a job in the loop advances it. */
  lemma DoAdvances(env: Env, g: Loop, x: Happening, j: int)
    requires Inv(g) && !g.fallen && Possible(g, x) && j in g.jobs
    requires var h := Do(env, g, x); !h.fallen && j in h.jobs
    ensures Advances(env, g, Do(env, g, x), j, ChangeOf(g, x, j))
  {
    DoKeepsInv(env, g, x);
    match x
    case Occurs(e, a) => DispatchAdvances(env, g, e, a, j, Do(env, g, x), ChangeOf(g, x, j));
    case Frees => UntouchedAdvances(env, g, Freed(g), j);
    case IsLate(late) => TimeOutAdvances(env, g, late, j);
    case Expires(expired) => ExpireAdvances(env, g, expired, j);
    case Reaps(exits, now) => UntouchedAdvances(env, g, Reap(g, exits, now), j);
  }

  // ------------------------------------------------------------- a job's life

  /** The job stays in the loop. */
  ghost predicate Alive(env: Env, g: Loop, xs: seq<Happening>, j: int)
    decreases |xs|
  {
    j in g.jobs && (xs == [] || Alive(env, Do(env, g, xs[0]), xs[1..], j))
  }

  /** Nothing has thrown. */
  ghost predicate Stands(env: Env, g: Loop, xs: seq<Happening>)
    decreases |xs|
  {
    !g.fallen && (xs == [] || Stands(env, Do(env, g, xs[0]), xs[1..]))
  }

  lemma {:induction false} FallenAllStays(env: Env, g: Loop, xs: seq<Happening>)
    requires g.fallen
    ensures DoAll(env, g, xs) == g
    decreases |xs|
  {
    if xs != [] {
      FallenStays(env, g, xs[0]);
      FallenAllStays(env, g, xs[1..]);
    }
  }

  lemma {:induction false} StandsIff(env: Env, g: Loop, xs: seq<Happening>)
    ensures Stands(env, g, xs) <==> !DoAll(env, g, xs).fallen
    decreases |xs|
  {
    if g.fallen { FallenAllStays(env, g, xs); } else if xs != [] { StandsIff(env, Do(env, g, xs[0]), xs[1..]); }
  }

  function Both(a: Change, b: Change): Change { Change(a.events + b.events, a.piece + b.piece, a.sent + b.sent) }

  /** What some steps do to the stream of a job: its events, all that was read from its pipe and all that was
      sent to its client. */
  ghost function Changes(env: Env, g: Loop, xs: seq<Happening>, j: int): Change
    decreases |xs|
  {
    if xs == [] || j !in g.jobs || g.jobs[j].client !in g.clients then NOTHING
    else Both(ChangeOf(g, xs[0], j), Changes(env, Do(env, g, xs[0]), xs[1..], j))
  }

  lemma {:induction false} RunJoins(setting: CgiStream.Setting, s: CgiStream.Stream, es: seq<CgiStream.Event>, fs: seq<CgiStream.Event>)
    ensures CgiStream.Run(setting, s, es + fs) == CgiStream.Run(setting, CgiStream.Run(setting, s, es), fs)
    decreases |es|
  {
    if es == [] {
      assert es + fs == fs;
    } else {
      assert (es + fs)[1..] == es[1..] + fs;
      RunJoins(setting, CgiStream.Step(setting, s, es[0]), es[1..], fs);
    }
  }

  /** What has become of a stream: the job as it is in the loop, what was read and sent on the way, and what
      is still to be read. */
  ghost predicate Became(s: CgiStream.Stream, t: CgiStream.Stream, b: CgiStream.Job, ch: Change, more: string)
  {
    t.job == b && t.unread == more && t.log.read == s.log.read + ch.piece && t.sent == s.sent + ch.sent
  }

  lemma Cuts(a: string, b: string, c: string)
    ensures a <= a + b + c && (a + b + c)[|a|..] == b + c && (a + b) + c == a + (b + c)
  {
  }

  lemma StepBecomes(setting: CgiStream.Setting, b: CgiStream.Job, t: CgiStream.Job, ch: Change, s: CgiStream.Stream, rest: string, more: string)
    requires Leads(setting, b, t, ch, s) && s.job == b && s.unread == ch.piece + rest + more
    ensures Became(s, CgiStream.Run(setting, s, ch.events), t, ch, rest + more)
  {
    Cuts(ch.piece, rest, more);
  }

  lemma BecameTwice(s: CgiStream.Stream, t: CgiStream.Stream, u: CgiStream.Stream, b: CgiStream.Job, d: CgiStream.Job,
                    m: Change, n: Change, more: string)
    requires Became(s, t, b, m, n.piece + more) && Became(t, u, d, n, more)
    ensures Became(s, u, d, Both(m, n), more)
  {
    assert (s.log.read + m.piece) + n.piece == s.log.read + (m.piece + n.piece) && (s.sent + m.sent) + n.sent == s.sent + (m.sent + n.sent);
  }

  /** It is still the same job, of the same client, and with the same setting. */
  ghost predicate Remains(env: Env, g: Loop, h: Loop, j: int)
  {
    && j in g.jobs && g.jobs[j].client in g.clients && j in h.jobs && h.jobs[j].client == g.jobs[j].client
    && h.jobs[j].client in h.clients && SettingAt(env, h, j) == SettingAt(env, g, j)
  }

  /** As long as a job stays in the loop, its steps are a run of the stream it is. */
  lemma {:induction false} JobStreams(env: Env, g: Loop, xs: seq<Happening>, j: int, s: CgiStream.Stream, more: string)
    requires Inv(g) && Proper(env, g, xs) && Stands(env, g, xs) && Alive(env, g, xs, j)
    requires s.job == JobAt(g, j) && s.unread == Changes(env, g, xs, j).piece + more
    ensures var h, ch := DoAll(env, g, xs), Changes(env, g, xs, j);
            && Inv(h) && Remains(env, g, h, j)
            && Became(s, CgiStream.Run(SettingAt(env, g, j), s, ch.events), JobAt(h, j), ch, more)
    decreases |xs|
  {
    if xs == [] {
      assert "" + more == more && s.log.read + "" == s.log.read && s.sent + "" == s.sent;
    } else {
      var h, ch := Do(env, g, xs[0]), ChangeOf(g, xs[0], j);
      var setting, rest := SettingAt(env, g, j), Changes(env, h, xs[1..], j);
      DoKeepsInv(env, g, xs[0]);
      DoAdvances(env, g, xs[0], j);
      assert Leads(setting, JobAt(g, j), JobAt(h, j), ch, s);
      StepBecomes(setting, JobAt(g, j), JobAt(h, j), ch, s, rest.piece, more);
      var t := CgiStream.Run(setting, s, ch.events);
      JobStreams(env, h, xs[1..], j, t, more);
      RunJoins(setting, s, ch.events, rest.events);
      BecameTwice(s, t, CgiStream.Run(setting, t, rest.events), JobAt(h, j), JobAt(DoAll(env, h, xs[1..]), j), ch, rest, more);
    }
  }

  // --------------------------------------------------------------- its beginning

  /** New jobs are new. */
  ghost predicate OpensFresh(g: Loop, h: Loop)
  {
    forall j :: j in h.jobs ==> j in g.jobs || h.jobs[j].core == FRESH_CORE
  }

  lemma StartCgiOpensFresh(env: Env, g: Loop, c: int, s: CgiStart, a: Answers)
    requires c in g.clients
    ensures OpensFresh(g, StartCgi(env, g, c, s, a))
  {
    if Usable(g, s) {
      var h := CloseSpool(g, c);
      var k := Put(OpenJob(h, c, s), c, h.clients[c].(state := CgiRunning));
      if !(s.pid.Some? && s.pid.value !in k.wards.kernel) { RespondKeepsJobs(env, CloseJob(k, s.readFd, a), c, [env.setting.errorPage(502)]); }
    }
  }

  lemma LaunchOpensFresh(env: Env, g: Loop, c: int, keepAlive: bool, head: bool, s: CgiStart, a: Answers)
    requires c in g.clients
    ensures OpensFresh(g, Launch(env, g, c, keepAlive, head, s, a))
  {
    StartCgiOpensFresh(env, g.(clients := g.clients[c := g.clients[c].(state := Processing, keepAlive := keepAlive, head := head)]), c, s, a);
  }

  lemma HandleReadOpensFresh(env: Env, g: Loop, c: int, a: Answers)
    requires c in g.clients
    ensures OpensFresh(g, HandleRead(env, g, c, a))
  {
    var h := Configure(OpenSpool(g, c, a.spool), c, a.limit);
    match a.reaction
    case PeerClosed =>
    case Program(keepAlive, head, start) => LaunchOpensFresh(env, h, c, keepAlive, head, start, a);
    case _ => AnswerKeepsJobs(env, h, c, a);
  }

  lemma HandleWriteOpensFresh(env: Env, g: Loop, c: int, a: Answers)
    requires c in g.clients
    ensures OpensFresh(g, HandleWrite(env, g, c, a))
  {
    forall j | j in HandleWrite(env, g, c, a).jobs ensures j in g.jobs { WriteKeepsClients(env, g, c, a, j); }
  }

  lemma HandleCgiOpensFresh(env: Env, g: Loop, k: int, a: Answers)
    ensures OpensFresh(g, HandleCgi(env, g, k, a))
  {
    forall j | j in HandleCgi(env, g, k, a).jobs ensures j in g.jobs { PipeKeepsClients(env, g, k, a, j); }
  }

  lemma HandleClientOpensFresh(env: Env, g: Loop, c: int, bits: Bits, a: Answers)
    ensures OpensFresh(g, HandleClient(env, g, c, bits, a))
  {
    if c in g.clients && !bits.error && !bits.hangup {
      if bits.input { HandleReadOpensFresh(env, g, c, a); } else if bits.output { HandleWriteOpensFresh(env, g, c, a); }
    }
  }

  lemma DispatchOpensFresh(env: Env, g: Loop, e: Event, a: Answers)
    requires Inv(g) && !g.fallen && Awaits(g, e)
    ensures OpensFresh(g, Dispatch(env, g, e, a))
  {
    DispatchIs(env, g, e, a);
    match Expected(g, e.fd)
    case Server => AcceptKeepsJobs(env, g, a.accepts);
    case Client => HandleClientOpensFresh(env, g, e.fd, e.bits, a);
    case Cgi => HandleCgiOpensFresh(env, g, e.fd, a);
    case Invalid =>
  }

  lemma TimeOutOpensFresh(env: Env, g: Loop, x: Late)
    ensures OpensFresh(g, TimeOut(env, g, x))
  {
    var c := x.fd;
    if !g.fallen && c in g.clients && g.clients[c].state != CgiRunning
       && Buffers.Room(g.clients[c].out, env.setting.errorPage(408), g.clients[c].limit) {
      HandleWriteOpensFresh(env, Told(env, g, c), c, x.first);
    }
  }

  lemma DoOpensFresh(env: Env, g: Loop, x: Happening)
    requires Inv(g) && !g.fallen && Possible(g, x)
    ensures OpensFresh(g, Do(env, g, x))
  {
    match x
    case Occurs(e, a) => DispatchOpensFresh(env, g, e, a);
    case Frees =>
    case IsLate(late) => TimeOutOpensFresh(env, g, late);
    case Expires(expired) =>
    case Reaps(exits, now) =>
  }

  /** A job starts with nothing read and nothing written. */
  lemma NewJobIsFresh(env: Env, g: Loop, x: Happening, j: int)
    requires Inv(g) && !g.fallen && Possible(g, x)
    requires var h := Do(env, g, x); !h.fallen && j in h.jobs && j !in g.jobs
    ensures var h := Do(env, g, x); h.jobs[j].client in h.clients && JobAt(h, j) == CgiStream.Start("").job
  {
    DoOpensFresh(env, g, x);
    DoKeepsInv(env, g, x);
    var h := Do(env, g, x);
    JobIs(h.jobs, j);
    assert Agree(h, h.jobs[j].client);
  }

  lemma {:induction false} AllKeepInv(env: Env, g: Loop, xs: seq<Happening>)
    requires Inv(g) && Proper(env, g, xs) && Stands(env, g, xs)
    ensures Inv(DoAll(env, g, xs))
    decreases |xs|
  {
    if xs != [] {
      DoKeepsInv(env, g, xs[0]);
      AllKeepInv(env, Do(env, g, xs[0]), xs[1..]);
    }
  }

  ghost predicate Begins(g: Loop, j: int)
  {
    j in g.jobs && g.jobs[j].client in g.clients && JobAt(g, j) == CgiStream.Start("").job
  }

  /** Behind some steps the job is new, and from there on it stays. */
  ghost predicate OpenedBehind(env: Env, g: Loop, before: seq<Happening>, after: seq<Happening>, j: int)
  {
    Begins(DoAll(env, g, before), j) && Alive(env, DoAll(env, g, before), after, j)
  }

  lemma OpenedLater(env: Env, g: Loop, x: Happening, before: seq<Happening>, after: seq<Happening>, j: int)
    requires OpenedBehind(env, Do(env, g, x), before, after, j)
    ensures OpenedBehind(env, g, [x] + before, after, j) && ([x] + before) + after == [x] + (before + after)
  {
    DoOne(env, g, x);
    DoBoth(env, g, [x], before);
  }

  lemma OpenedFirst(env: Env, g: Loop, x: Happening, rest: seq<Happening>, j: int)
    requires Inv(g) && !g.fallen && Possible(g, x) && j !in g.jobs
    requires var h := Do(env, g, x); !h.fallen && Alive(env, h, rest, j)
    ensures OpenedBehind(env, g, [x], rest, j)
  {
    NewJobIsFresh(env, g, x, j);
    DoOne(env, g, x);
  }

  lemma NotYetThere(env: Env, g: Loop, xs: seq<Happening>, j: int)
    requires Inv(g) && Proper(env, g, xs) && Stands(env, g, xs) && !Alive(env, g, xs, j) && j in DoAll(env, g, xs).jobs
    ensures xs != [] && xs == [xs[0]] + xs[1..] && Possible(g, xs[0]) && !g.fallen && !Do(env, g, xs[0]).fallen
    ensures Alive(env, Do(env, g, xs[0]), xs[1..], j) ==> j !in g.jobs
  {
  }

  lemma OneStepOn(env: Env, g: Loop, xs: seq<Happening>, j: int)
    requires Inv(g) && Proper(env, g, xs) && Stands(env, g, xs) && xs != [] && j in DoAll(env, g, xs).jobs
    requires Possible(g, xs[0]) && !Do(env, g, xs[0]).fallen
    ensures var h := Do(env, g, xs[0]);
            Inv(h) && Proper(env, h, xs[1..]) && Stands(env, h, xs[1..]) && j in DoAll(env, h, xs[1..]).jobs
  {
    DoKeepsInv(env, g, xs[0]);
  }

  /** The part of a run in which a job that is there in the end was there, and the part before. */
  lemma {:induction false} SinceOpened(env: Env, g: Loop, xs: seq<Happening>, j: int) returns (before: seq<Happening>, after: seq<Happening>)
    requires Inv(g) && Proper(env, g, xs) && Stands(env, g, xs) && !Alive(env, g, xs, j) && j in DoAll(env, g, xs).jobs
    ensures xs == before + after && OpenedBehind(env, g, before, after, j)
    decreases |xs|
  {
    NotYetThere(env, g, xs, j);
    if Alive(env, Do(env, g, xs[0]), xs[1..], j) {
      before, after := [xs[0]], xs[1..];
      OpenedFirst(env, g, xs[0], xs[1..], j);
    } else {
      OneStepOn(env, g, xs, j);
      before, after := SinceOpened(env, Do(env, g, xs[0]), xs[1..], j);
      OpenedLater(env, g, xs[0], before, after, j);
      before := [xs[0]] + before;
    }
  }

  /** The stream of a job that has begun, from there over some steps, with `more` still to come from its pipe. */
  ghost function StreamAt(env: Env, g: Loop, xs: seq<Happening>, j: int, more: string): CgiStream.Stream
    requires j in g.jobs && g.jobs[j].client in g.clients
  {
    CgiStream.Run(SettingAt(env, g, j), CgiStream.Start(Changes(env, g, xs, j).piece + more), Changes(env, g, xs, j).events)
  }

  /** That stream has the job as it is in the loop in the end, and read and sent what the steps read and sent. */
  ghost predicate StreamsTo(env: Env, g: Loop, xs: seq<Happening>, h: Loop, j: int, more: string)
  {
    Remains(env, g, h, j) &&
    var s, ch := StreamAt(env, g, xs, j, more), Changes(env, g, xs, j);
    s.job == JobAt(h, j) && s.unread == more && s.log.read == ch.piece && s.sent == ch.sent
  }

  lemma BegunStreams(env: Env, g: Loop, xs: seq<Happening>, j: int, more: string)
    requires Inv(g) && Begins(g, j) && Proper(env, g, xs) && Stands(env, g, xs) && Alive(env, g, xs, j)
    ensures var k := DoAll(env, g, xs); Inv(k) && !k.fallen && StreamsTo(env, g, xs, k, j, more)
  {
    var ch := Changes(env, g, xs, j);
    StandsIff(env, g, xs);
    JobStreams(env, g, xs, j, CgiStream.Start(ch.piece + more), more);
    FromTheStart(env, g, xs, DoAll(env, g, xs), j, more);
  }

  /** Before the start nothing was read or sent. */
  lemma FromTheStart(env: Env, g: Loop, xs: seq<Happening>, h: Loop, j: int, more: string)
    requires Remains(env, g, h, j)
    requires var ch := Changes(env, g, xs, j);
             Became(CgiStream.Start(ch.piece + more), StreamAt(env, g, xs, j, more), JobAt(h, j), ch, more)
    ensures StreamsTo(env, g, xs, h, j, more)
  {
    var ch := Changes(env, g, xs, j);
    assert "" + ch.piece == ch.piece && "" + ch.sent == ch.sent;
  }

  /** What a job in the loop is: after some steps it was opened, and what came behind them is a run of a
      stream from its start, on what was read from its pipe and on whatever may still come. */
  lemma EveryJobStreams(env: Env, g: Loop, xs: seq<Happening>, j: int, more: string)
    returns (before: seq<Happening>, after: seq<Happening>)
    requires Inv(g) && j !in g.jobs && Proper(env, g, xs) && !DoAll(env, g, xs).fallen && j in DoAll(env, g, xs).jobs
    ensures xs == before + after && OpenedBehind(env, g, before, after, j)
    ensures Inv(DoAll(env, g, xs)) && StreamsTo(env, DoAll(env, g, before), after, DoAll(env, g, xs), j, more)
  {
    StandsIff(env, g, xs);
    before, after := SinceOpened(env, g, xs, j);
    DoBoth(env, g, before, after);
    var k := DoAll(env, g, before);
    StandsIff(env, k, after);
    if k.fallen { FallenAllStays(env, k, after); }
    StandsIff(env, g, before);
    AllKeepInv(env, g, before);
    BegunStreams(env, k, after, j, more);
  }

  /** A streaming job's client: in all that it was sent by the steps and is to be sent it finds all that they
      read behind the program's header. */
  lemma ClientGetsBodySoFar(env: Env, k: Loop, after: seq<Happening>, h: Loop, j: int, room: nat)
    requires Printable(env.setting.phrases) && StreamsTo(env, k, after, h, j, "") && h.jobs[j].core.phase.Streaming?
    ensures ResponseSoFar(SettingAt(env, k, j), StreamAt(env, k, after, j, ""),
                          Changes(env, k, after, j).sent + h.clients[h.jobs[j].client].out, room)
  {
    var ch := Changes(env, k, after, j);
    assert ch.piece + "" == ch.piece;
    CgiStream.ClientGetsBody(SettingAt(env, k, j), ch.piece, ch.events, room);
  }

  /** So every job that is there after a run was opened by one of its steps, and in all that its client was
      sent by the steps since and is to be sent, the client finds all that those steps read behind the
      program's header. */
  lemma ClientInLoopGetsBody(env: Env, g: Loop, turns: seq<Turn>, j: int, room: nat)
    returns (before: seq<Happening>, after: seq<Happening>)
    requires Printable(env.setting.phrases) && Inv(g) && j !in g.jobs
    requires !Run(env, g, turns).fallen && j in Run(env, g, turns).jobs
    ensures RunSteps(env, g, turns) == before + after && OpenedBehind(env, g, before, after, j)
    ensures StreamsTo(env, DoAll(env, g, before), after, Run(env, g, turns), j, "")
    ensures var k, h := DoAll(env, g, before), Run(env, g, turns);
            h.jobs[j].core.phase.Streaming? ==>
              ResponseSoFar(SettingAt(env, k, j), StreamAt(env, k, after, j, ""),
                            Changes(env, k, after, j).sent + h.clients[h.jobs[j].client].out, room)
  {
    RunIsSteps(env, g, turns);
    before, after := EveryJobStreams(env, g, RunSteps(env, g, turns), j, "");
    if Run(env, g, turns).jobs[j].core.phase.Streaming? {
      ClientGetsBodySoFar(env, DoAll(env, g, before), after, Run(env, g, turns), j, room);
    }
  }

  /** The client splits the response into the header block and the coding of the body that was read. */
  ghost predicate ResponseSoFar(setting: CgiStream.Setting, t: CgiStream.Stream, all: string, room: nat)
  {
    && t.log.bodyAt <= |t.log.read|
    && var block := CgiStream.HeaderBlock(setting, t);
       && CgiStream.Splits(all, block) && CgiStream.Announced(setting, t, all)
       && (|CgiStream.BodyRead(t)| <= room ==> Chunked.DecodeWhole(all[|block|..], room) == CgiStream.Decoded(t))
  }

  // --------------------------------------------------------------------- its end

  /** What a step does to the stream of a job that ends with it. */
  ghost function EndOf(g: Loop, x: Happening, j: int): Change
    requires j in g.jobs && g.jobs[j].client in g.clients
  {
    if x.Expires? then Change([CgiStream.TimedOut], "", "") else ChangeOf(g, x, j)
  }

  /** The client has headers in hand and the program failed. */
  predicate BrokenOff(phase: CgiStream.Phase) { phase.Over? && phase.hadHeaders && phase.failed }

  /** With a limit that is not met, these events end the stream; its client, `v` before, is `w` now: it has the
      stream's write buffer to send, and is kept alive as before unless the response was broken off. */
  ghost predicate EndsWith(setting: CgiStream.Setting, s: CgiStream.Stream, ch: Change, v: Connection, w: Connection)
  {
    var t := CgiStream.Run(setting, s, ch.events);
    |t.job.out| <= v.limit ==>
      && t.job.phase.Over? && t.job.out == w.out && t.unread == "" && t.log.read == s.log.read + ch.piece && t.sent == s.sent + ch.sent
      && w.state == Writing && (w.keepAlive <==> v.keepAlive && !BrokenOff(t.job.phase))
  }

  /** The job's stream ends so, with what its client has in the loop, if it is still there. */
  ghost predicate EndsAs(env: Env, g: Loop, h: Loop, j: int, ch: Change, s: CgiStream.Stream)
    requires j in g.jobs && g.jobs[j].client in g.clients
  {
    var c := g.jobs[j].client;
    s.job == JobAt(g, j) && s.unread == ch.piece && c in h.clients ==>
      EndsWith(SettingAt(env, g, j), s, ch, g.clients[c], h.clients[c])
  }

  lemma OverIsWritten(g: Loop, j: int, t: CgiStream.Job, a: Answers)
    requires j in g.jobs && g.jobs[j].client in g.clients && j !in ApplyPipe(g, j, CgiPipe.Kept(t), a).jobs
    ensures var h, c := ApplyPipe(g, j, CgiPipe.Kept(t), a), g.jobs[j].client;
            && t.phase.Over? && c in h.clients && h.clients[c].out == t.out && h.clients[c].state == Writing
            && (h.clients[c].keepAlive <==> g.clients[c].keepAlive && !BrokenOff(t.phase))
  {
  }

  lemma PipeEnds(env: Env, g: Loop, j: int, a: Answers, s: CgiStream.Stream)
    requires j in g.jobs && g.jobs[j].client in g.clients && |JobAt(g, j).out| <= g.clients[g.jobs[j].client].limit
    requires var h := HandleCgi(env, g, j, a); !h.fallen && j !in h.jobs
    ensures EndsAs(env, g, HandleCgi(env, g, j, a), j, PipeChange(JobAt(g, j), Clipped(a.pipe)), s)
  {
    var v, b, r := g.clients[g.jobs[j].client], JobAt(g, j), Clipped(a.pipe);
    var o := CgiPipe.OnPipeWithin(SettingOf(env, v), b, r, v.limit);
    CgiPipe.WithinLimit(SettingOf(env, v), b, r, v.limit);
    OverIsWritten(g, j, o.job, a);
    if s.job == b && s.unread == PipeChange(b, r).piece {
      PipeLeads(SettingOf(env, v), b, r, s);
      assert s.unread[|s.unread|..] == "";
    }
  }

  lemma WriteEnds(env: Env, g: Loop, c: int, j: int, a: Answers, s: CgiStream.Stream)
    requires c in g.clients && JobOf(g.jobs, c) == Some(j) && |g.clients[c].out| <= g.clients[c].limit
    requires var h := HandleWrite(env, g, c, a); !h.fallen && j !in h.jobs
    ensures EndsAs(env, g, HandleWrite(env, g, c, a), j, WriteChange(JobAt(g, j), a), s)
  {
    var b, h, setting := JobAt(g, j), Send(g, c, a.takes), SettingAt(env, g, j);
    var k := h.(table := Rearm(h.table, j, READABLE));
    var ch := WriteChange(b, a);
    if s.job == b && s.unread == ch.piece {
      var e := EventOf(Clipped(a.pipe));
      var u := CgiStream.Step(setting, s, CgiStream.SocketTakes(a.takes));
      PipeEnds(env, k, j, a, u);
      RunTwo(setting, s, CgiStream.SocketTakes(a.takes), e);
      RunOne(setting, u, e);
      assert u.sent + "" == u.sent;
    }
  }

  lemma ExpireEnds(env: Env, g: Loop, j: int, a: Answers, s: CgiStream.Stream)
    requires j in g.jobs && g.jobs[j].client in g.clients && !g.jobs[j].core.phase.Over? && !g.fallen
    requires |JobAt(g, j).out| <= g.clients[g.jobs[j].client].limit
    requires var h := ExpireJob(env, g, j, a); !h.fallen && j !in h.jobs
    ensures EndsAs(env, g, ExpireJob(env, g, j, a), j, Change([CgiStream.TimedOut], "", ""), s)
  {
    var v, b := g.clients[g.jobs[j].client], JobAt(g, j);
    var o := CgiPipe.Failed(SettingOf(env, v), b, 504, v.limit);
    CgiPipe.FailedWithin(SettingOf(env, v), b, 504, v.limit);
    OverIsWritten(g, j, o.job, a);
    RunOne(SettingOf(env, v), s, CgiStream.TimedOut);
    assert s.log.read + "" == s.log.read && s.sent + "" == s.sent;
  }

  lemma NothingEnds(env: Env, g: Loop, h: Loop, j: int, ch: Change, s: CgiStream.Stream)
    requires j in g.jobs && g.jobs[j].client in g.clients && g.jobs[j].client !in h.clients
    ensures EndsAs(env, g, h, j, ch, s)
  {
  }

  lemma OwnEventEnds(env: Env, g: Loop, c: int, bits: Bits, a: Answers, j: int, s: CgiStream.Stream)
    requires Inv(g) && !g.fallen && Fitting(g, c, bits) && JobOf(g.jobs, c) == Some(j)
    requires var h := HandleClient(env, g, c, bits, a); !h.fallen && j !in h.jobs
    ensures EndsAs(env, g, HandleClient(env, g, c, bits, a), j, if bits.output then WriteChange(JobAt(g, j), a) else NOTHING, s)
  {
    assert Agree(g, c);
    if bits.output && !bits.error && !bits.hangup { WriteEnds(env, g, c, j, a, s); }
  }

  lemma DispatchEnds(env: Env, g: Loop, e: Event, a: Answers, j: int, s: CgiStream.Stream)
    requires Inv(g) && !g.fallen && Awaits(g, e) && j in g.jobs
    requires var h := Dispatch(env, g, e, a); !h.fallen && j !in h.jobs
    ensures Live(g.table, e) && (e.fd == j || e.fd == g.jobs[j].client)
    ensures EndsAs(env, g, Dispatch(env, g, e, a), j, ChangeOf(g, Occurs(e, a), j), s)
  {
    DispatchIs(env, g, e, a);
    OthersDoNotEnd(env, g, e, a, j);
    JobIs(g.jobs, j);
    assert Agree(g, g.jobs[j].client);
    if e.fd == j {
      assert Expected(g, j).Cgi?;
      PipeEnds(env, g, j, a, s);
    } else {
      assert Expected(g, e.fd).Client?;
      OwnEventEnds(env, g, e.fd, e.bits, a, j, s);
    }
  }

  lemma OthersDoNotEnd(env: Env, g: Loop, e: Event, a: Answers, j: int)
    requires Inv(g) && !g.fallen && Awaits(g, e) && j in g.jobs && j !in Dispatch(env, g, e, a).jobs
    ensures Live(g.table, e) && (e.fd == j || e.fd == g.jobs[j].client)
  {
    DispatchIs(env, g, e, a);
    assert forall k :: k in g.jobs ==> k in g.open;
    match Expected(g, e.fd)
    case Server => AcceptKeepsJobs(env, g, a.accepts);
    case Client => HandleClientSpares(env, g, e.fd, e.bits, a);
    case Cgi => HandleCgiSpares(env, g, e.fd, a, g.jobs[e.fd].client);
    case Invalid =>
  }

  lemma TimeOutEnds(env: Env, g: Loop, x: Late, j: int, s: CgiStream.Stream)
    requires Inv(g) && !g.fallen && j in g.jobs
    requires var h := TimeOut(env, g, x); !h.fallen && j !in h.jobs
    ensures EndsAs(env, g, TimeOut(env, g, x), j, NOTHING, s)
  {
    TimeOutSpares(env, g, x);
    NothingEnds(env, g, TimeOut(env, g, x), j, NOTHING, s);
  }

  lemma ExpiryEnds(env: Env, g: Loop, x: Expired, j: int, s: CgiStream.Stream)
    requires Inv(g) && !g.fallen && j in g.jobs
    requires var h := ExpireJob(env, g, x.job, x.answers); !h.fallen && j !in h.jobs
    ensures EndsAs(env, g, ExpireJob(env, g, x.job, x.answers), j, Change([CgiStream.TimedOut], "", ""), s)
  {
    assert Agree(g, g.jobs[j].client);
    if x.job in g.jobs && x.job != j { ExpireSpares(env, g, x.job, x.answers, g.jobs[x.job].client); }
    ExpireEnds(env, g, j, x.answers, s);
  }

  /** Every step that takes a job out of the loop and leaves its client ends the stream. */
  lemma DoEnds(env: Env, g: Loop, x: Happening, j: int, s: CgiStream.Stream)
    requires Inv(g) && !g.fallen && Possible(g, x) && j in g.jobs
    requires var h := Do(env, g, x); !h.fallen && j !in h.jobs
    ensures EndsAs(env, g, Do(env, g, x), j, EndOf(g, x, j), s)
  {
    match x
    case Occurs(e, a) => DispatchEnds(env, g, e, a, j, s);
    case Frees =>
    case IsLate(late) => TimeOutEnds(env, g, late, j, s);
    case Expires(expired) => ExpiryEnds(env, g, expired, j, s);
    case Reaps(exits, now) =>
  }

  /** All that becomes of a job by some steps and the one that ends it. */
  ghost function LifeOf(env: Env, g: Loop, xs: seq<Happening>, x: Happening, j: int): Change
    requires j in DoAll(env, g, xs).jobs && DoAll(env, g, xs).jobs[j].client in DoAll(env, g, xs).clients
  {
    Both(Changes(env, g, xs, j), EndOf(DoAll(env, g, xs), x, j))
  }

  /** From its start to its end. */
  lemma LifeJoins(setting: CgiStream.Setting, first: Change, last: Change, s: CgiStream.Stream, v: Connection, w: Connection)
    requires s == CgiStream.Run(setting, CgiStream.Start(first.piece + last.piece), first.events)
    requires s.log.read == first.piece && s.sent == first.sent && EndsWith(setting, s, last, v, w)
    ensures var life := Both(first, last); EndsWith(setting, CgiStream.Start(life.piece), life, v, w)
  {
    var start := CgiStream.Start(first.piece + last.piece);
    RunJoins(setting, start, first.events, last.events);
    assert start.log.read + (first.piece + last.piece) == first.piece + last.piece;
    assert start.sent + (first.sent + last.sent) == first.sent + last.sent;
  }

  /** A job has begun; the steps leave it in the loop, and the next one takes it out and leaves its client. */
  ghost predicate Lived(env: Env, g: Loop, xs: seq<Happening>, x: Happening, j: int)
  {
    && Inv(g) && Begins(g, j) && Proper(env, g, xs) && Stands(env, g, xs) && Alive(env, g, xs, j)
    && var k, h := DoAll(env, g, xs), Do(env, DoAll(env, g, xs), x);
       Possible(k, x) && !h.fallen && j !in h.jobs && g.jobs[j].client in h.clients
  }

  /** A job from its beginning over any steps to the one that ends it: with a limit that is not met, the
      stream is over and its client has, or is to be sent, what it wrote. */
  lemma WholeLife(env: Env, g: Loop, xs: seq<Happening>, x: Happening, j: int)
    requires Lived(env, g, xs, x, j)
    ensures Remains(env, g, DoAll(env, g, xs), j)
    ensures var k, h, c, life := DoAll(env, g, xs), Do(env, DoAll(env, g, xs), x), g.jobs[j].client, LifeOf(env, g, xs, x, j);
            EndsWith(SettingAt(env, g, j), CgiStream.Start(life.piece), life, k.clients[c], h.clients[c])
  {
    var k, h, c := DoAll(env, g, xs), Do(env, DoAll(env, g, xs), x), g.jobs[j].client;
    BegunStreams(env, g, xs, j, "");
    var first, last := Changes(env, g, xs, j), EndOf(k, x, j);
    var s := StreamAt(env, g, xs, j, last.piece);
    BegunStreams(env, g, xs, j, last.piece);
    DoEnds(env, k, x, j, s);
    LifeJoins(SettingAt(env, g, j), first, last, s, k.clients[c], h.clients[c]);
  }

  /** The whole life of a job whose client stays.  If the limit was not met, all its client was sent by these
      steps and is to be sent is the response of a stream that is over, on all that they read from the pipe:
      header block and coding of what stands behind the header, whole when the job finished. */
  lemma LoopDeliversBody(env: Env, g: Loop, xs: seq<Happening>, x: Happening, j: int, room: nat)
    requires Printable(env.setting.phrases) && Lived(env, g, xs, x, j)
    ensures Remains(env, g, DoAll(env, g, xs), j)
    ensures var k, h, c, life := DoAll(env, g, xs), Do(env, DoAll(env, g, xs), x), g.jobs[j].client, LifeOf(env, g, xs, x, j);
            var t := CgiStream.Run(SettingAt(env, g, j), CgiStream.Start(life.piece), life.events);
            |t.job.out| <= k.clients[c].limit ==>
              && t.job.phase.Over? && t.job.out == h.clients[c].out && t.log.read == life.piece && t.sent == life.sent && t.unread == ""
              && h.clients[c].state == Writing && (h.clients[c].keepAlive <==> k.clients[c].keepAlive && !BrokenOff(t.job.phase))
              && (t.job.phase.hadHeaders ==> ResponseSoFar(SettingAt(env, g, j), t, life.sent + h.clients[c].out, room))
  {
    WholeLife(env, g, xs, x, j);
    var life := LifeOf(env, g, xs, x, j);
    StartsEmpty(SettingAt(env, g, j), life);
    CgiStream.ClientGetsBody(SettingAt(env, g, j), life.piece, life.events, room);
  }

  lemma StartsEmpty(setting: CgiStream.Setting, life: Change)
    ensures var s := CgiStream.Start(life.piece); s.log.read + life.piece == life.piece && s.sent + life.sent == life.sent
  {
  }
}
