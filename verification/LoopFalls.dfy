/** When a BodyLimitException leaves the event loop: for every event, every late connection and every
    expired job, exactly in terms of the room in the client's write buffer before it. */
module LoopFalls {
  import opened Text
  import opened EventTable
  import opened LoopState
  import opened LoopInvariant
  import opened LoopRun
  import CgiStream
  import CgiPipe
  import Buffers
  import ChunkWriter

  /** The page for `code` does not fit. */
  predicate TooLong(env: Env, code: nat, room: int) { room < |env.setting.errorPage(code)| }

  // -------------------------------------------------------- the conditions

  predicate PipeFalls(env: Env, g: Loop, j: int, a: Answers)
  {
    j in g.jobs && g.jobs[j].client in g.clients &&
    var v := g.clients[g.jobs[j].client];
    CgiPipe.Stuck(SettingOf(env, v), JobAt(g, j), Clipped(a.pipe), v.limit - |v.out|)
  }

  /** After the sends, below the low-water mark, the pipe is read. */
  ghost predicate WriteFalls(env: Env, g: Loop, c: int, a: Answers)
  {
    c in g.clients && JobOf(g.jobs, c).Some? &&
    var h := Send(g, c, a.takes);
    |h.clients[c].out| < CGI_STREAM_LWM && PipeFalls(env, h, JobOf(g.jobs, c).value, a)
  }

  /** The program could not be started, and neither that page nor the one of the handler fits. */
  predicate StartFalls(env: Env, g: Loop, s: CgiStart, room: int)
  {
    TooLong(env, 413, room) &&
    if Usable(g, s) then !(s.pid.Some? && s.pid.value !in g.wards.kernel) && TooLong(env, 502, room)
    else TooLong(env, 500, room)
  }

  /** A response was cut, and the page that should follow what fitted does not fit either. */
  predicate LeavesNoRoom(env: Env, g: Loop, a: Answers)
  {
    match a.reaction
    case Quiet(_) => false
    case PeerClosed => false
    case Flooded => TooLong(env, 413, a.limit)
    case Refused(page, _) => a.limit < |page| && TooLong(env, 413, a.limit)
    case Served(parts, _) =>
      var w := Buffers.AppendAll("", parts, a.limit);
      w.thrown && TooLong(env, 413, a.limit - |w.out|)
    case Program(_, _, start) => StartFalls(env, g, start, a.limit)
  }

  predicate ReadFalls(env: Env, g: Loop, c: int, a: Answers)
  {
    LeavesNoRoom(env, OpenSpool(g, c, a.spool), a)
  }

  ghost predicate ClientFalls(env: Env, g: Loop, c: int, bits: Bits, a: Answers)
  {
    c in g.clients && !bits.error && !bits.hangup &&
    if bits.input then ReadFalls(env, g, c, a) else bits.output && WriteFalls(env, g, c, a)
  }

  ghost predicate EventFalls(env: Env, g: Loop, e: Event, a: Answers)
  {
    Live(g.table, e) &&
    match KindOf(g.table, e.fd)
    case Invalid => false
    case Server => false
    case Cgi => PipeFalls(env, g, e.fd, a)
    case Client => ClientFalls(env, g, e.fd, e.bits, a)
  }

  // ---------------------------------------------------------------- proofs

  lemma PipeFallsIff(env: Env, g: Loop, j: int, a: Answers)
    requires !g.fallen
    requires j in g.jobs && g.jobs[j].client in g.clients ==> |g.clients[g.jobs[j].client].out| <= g.clients[g.jobs[j].client].limit
    ensures HandleCgi(env, g, j, a).fallen <==> PipeFalls(env, g, j, a)
  {
    if j in g.jobs && g.jobs[j].client in g.clients {
      var v := g.clients[g.jobs[j].client];
      CgiPipe.EscapesIff(SettingOf(env, v), JobAt(g, j), Clipped(a.pipe), v.limit);
    }
  }

  /** What is done with a job needs the table only where the job is. */
  lemma RearmingChangesNothing(env: Env, g: Loop, j: int, a: Answers)
    ensures PipeFalls(env, g.(table := Rearm(g.table, j, READABLE)), j, a) <==> PipeFalls(env, g, j, a)
  {
  }

  lemma WriteFallsIff(env: Env, g: Loop, c: int, a: Answers)
    requires !g.fallen && c in g.clients && |g.clients[c].out| <= g.clients[c].limit
    ensures HandleWrite(env, g, c, a).fallen <==> WriteFalls(env, g, c, a)
  {
    var h := Send(g, c, a.takes);
    match JobOf(h.jobs, c)
    case Some(j) =>
      if |h.clients[c].out| < CGI_STREAM_LWM {
        var r := h.(table := Rearm(h.table, j, READABLE));
        PipeFallsIff(env, r, j, a);
        RearmingChangesNothing(env, h, j, a);
      }
    case None =>
  }

  lemma CatchFallsIff(env: Env, g: Loop, c: int)
    requires !g.fallen && c in g.clients && |g.clients[c].out| <= g.clients[c].limit
    ensures Catch(env, g, c).fallen <==> TooLong(env, 413, g.clients[c].limit - |g.clients[c].out|)
  {
  }

  lemma RespondFallsIff(env: Env, g: Loop, c: int, parts: seq<string>)
    requires !g.fallen && c in g.clients && g.clients[c].out == ""
    ensures var w := Buffers.AppendAll("", parts, g.clients[c].limit);
            Respond(env, g, c, parts).fallen <==> w.thrown && TooLong(env, 413, g.clients[c].limit - |w.out|)
  {
    var w := Buffers.AppendAll("", parts, g.clients[c].limit);
    if w.thrown { CatchFallsIff(env, g.(clients := g.clients[c := g.clients[c].(out := w.out)]), c); }
  }

  lemma OnePart(page: string, limit: nat)
    ensures var w := Buffers.AppendAll("", [page], limit);
            (w.thrown <==> limit < |page|) && (w.thrown ==> w.out == "")
  {
    assert [page][1..] == [];
  }

  lemma StartFallsIff(env: Env, g: Loop, c: int, s: CgiStart, a: Answers)
    requires !g.fallen && c in g.clients && g.clients[c].out == ""
    ensures StartCgi(env, g, c, s, a).fallen <==> StartFalls(env, g, s, g.clients[c].limit)
  {
    var limit := g.clients[c].limit;
    var h := CloseSpool(g, c);
    if Usable(g, s) {
      var k := Put(OpenJob(h, c, s), c, g.clients[c].(state := CgiRunning));
      if !(s.pid.Some? && s.pid.value !in k.wards.kernel) {
        RespondFallsIff(env, CloseJob(k, s.readFd, a), c, [env.setting.errorPage(502)]);
        OnePart(env.setting.errorPage(502), limit);
      }
    } else {
      var page := env.setting.errorPage(500);
      RespondFallsIff(env, if Buffers.Room("", page, limit) then h else g, c, [page]);
      OnePart(page, limit);
    }
  }

  lemma LaunchFallsIff(env: Env, g: Loop, c: int, keepAlive: bool, head: bool, start: CgiStart, a: Answers)
    requires !g.fallen && c in g.clients && g.clients[c].out == ""
    ensures Launch(env, g, c, keepAlive, head, start, a).fallen <==> StartFalls(env, g, start, g.clients[c].limit)
  {
    var processing := g.clients[c].(state := Processing, keepAlive := keepAlive, head := head);
    StartFallsIff(env, g.(clients := g.clients[c := processing]), c, start, a);
  }

  lemma RefusedFallsIff(env: Env, g: Loop, c: int, page: string, keepAlive: bool)
    requires !g.fallen && c in g.clients && g.clients[c].out == ""
    ensures var limit := g.clients[c].limit;
            Respond(env, Remember(g, c, keepAlive), c, [page]).fallen <==> limit < |page| && TooLong(env, 413, limit)
  {
    RespondFallsIff(env, Remember(g, c, keepAlive), c, [page]);
    OnePart(page, g.clients[c].limit);
  }

  lemma ReactFallsIff(env: Env, g: Loop, c: int, a: Answers)
    requires !g.fallen && c in g.clients && g.clients[c].out == "" && g.clients[c].limit == a.limit
    ensures React(env, g, c, a).fallen <==> LeavesNoRoom(env, g, a)
  {
    match a.reaction
    case Quiet(_) =>
    case PeerClosed =>
    case Flooded => CatchFallsIff(env, g, c);
    case Refused(page, keepAlive) => RefusedFallsIff(env, g, c, page, keepAlive);
    case Served(parts, keepAlive) => RespondFallsIff(env, Remember(CloseSpool(g, c), c, keepAlive), c, parts);
    case Program(keepAlive, head, start) => LaunchFallsIff(env, g, c, keepAlive, head, start, a);
  }

  lemma ReadFallsIff(env: Env, g: Loop, c: int, a: Answers)
    requires !g.fallen && c in g.clients && g.clients[c].out == "" && g.clients[c].state == Reading
    ensures HandleRead(env, g, c, a).fallen <==> ReadFalls(env, g, c, a)
  {
    ReactFallsIff(env, Configure(OpenSpool(g, c, a.spool), c, a.limit), c, a);
  }

  lemma {:induction false} AcceptNeverFalls(env: Env, g: Loop, waiting: seq<Accepted>)
    ensures Accept(env, g, waiting).fallen == g.fallen
    decreases |waiting|
  {
    if waiting != [] && Acceptable(env, g, waiting[0]) { AcceptNeverFalls(env, AcceptOne(g, waiting[0]), waiting[1..]); }
  }

  /** For every event of a batch: the server goes down exactly then. */
  lemma EventFallsIff(env: Env, g: Loop, e: Event, a: Answers)
    requires Inv(g) && !g.fallen && Awaits(g, e)
    ensures Dispatch(env, g, e, a).fallen <==> EventFalls(env, g, e, a)
  {
    ActedOnIffLive(g.table, e);
    match g.table.heap[e.ptr].kind
    case Invalid =>
    case Server => AcceptNeverFalls(env, g, a.accepts);
    case Cgi =>
      assert e.fd in g.jobs && Agree(g, g.jobs[e.fd].client);
      PipeFallsIff(env, g, e.fd, a);
    case Client => ClientFallsIff(env, g, e.fd, e.bits, a);
  }

  lemma ClientFallsIff(env: Env, g: Loop, c: int, bits: Bits, a: Answers)
    requires Inv(g) && !g.fallen && Fitting(g, c, bits)
    ensures HandleClient(env, g, c, bits, a).fallen <==> ClientFalls(env, g, c, bits, a)
  {
    if c in g.clients && !bits.error && !bits.hangup {
      assert Agree(g, c);
      if bits.input { ReadFallsIff(env, g, c, a); } else if bits.output { WriteFallsIff(env, g, c, a); }
    }
  }

  /** For every late connection: nothing catches what the 408 response throws. */
  lemma TimeOutFallsIff(env: Env, g: Loop, x: Late)
    requires Inv(g) && !g.fallen
    ensures TimeOut(env, g, x).fallen <==>
            x.fd in g.clients && g.clients[x.fd].state != CgiRunning
            && (TooLong(env, 408, g.clients[x.fd].limit - |g.clients[x.fd].out|) || WriteFalls(env, Told(env, g, x.fd), x.fd, x.first))
  {
    if x.fd in g.clients && g.clients[x.fd].state != CgiRunning {
      var v := g.clients[x.fd];
      assert Agree(g, x.fd);
      if Buffers.Room(v.out, env.setting.errorPage(408), v.limit) { WriteFallsIff(env, Told(env, g, x.fd), x.fd, x.first); }
    }
  }

  /** For every expired job: nor what its page or its terminator throws. */
  lemma ExpireFallsIff(env: Env, g: Loop, j: int, a: Answers)
    requires Inv(g) && !g.fallen
    ensures ExpireJob(env, g, j, a).fallen <==>
            j in g.jobs &&
            var v := g.clients[g.jobs[j].client];
            v.limit - |v.out| < |CgiPipe.Ending(SettingOf(env, v), g.jobs[j].core, 504)|
  {
    if j in g.jobs {
      var v := g.clients[g.jobs[j].client];
      assert Agree(g, g.jobs[j].client);
      CgiPipe.TimeoutEscapesIff(SettingOf(env, v), JobAt(g, j), v.limit);
    }
  }

  // ------------------------------------------------------- jobs in the loop

  /** Back-pressure for a job of the loop: a read of the body starts below the high-water mark and leaves
      at most one read and its framing above it. */
  lemma LoopKeepsBackPressure(env: Env, g: Loop, j: int, a: Answers)
    requires Inv(g) && j in g.jobs && g.jobs[j].core.phase.Streaming?
    ensures var h, c := HandleCgi(env, g, j, a), g.jobs[j].client;
            !h.fallen && j in h.jobs && h.jobs[j].core.readCount != g.jobs[j].core.readCount ==>
              && |g.clients[c].out| < CgiStream.CGI_STREAM_HWM && c in h.clients
              && |h.clients[c].out| < CgiStream.CGI_STREAM_HWM + CgiStream.READ_SIZE + 8
  {
    var c := g.jobs[j].client;
    assert Agree(g, c);
    ReadIsBounded(SettingOf(env, g.clients[c]), JobAt(g, j), Clipped(a.pipe), g.clients[c].limit);
  }

  lemma ReadIsBounded(setting: CgiStream.Setting, b: CgiStream.Job, r: CgiPipe.ReadResult, limit: nat)
    requires b.phase.Streaming? && |b.out| <= limit && (r.Bytes? ==> |r.bytes| <= CgiStream.READ_SIZE)
    ensures var o := CgiPipe.OnPipeWithin(setting, b, r, limit);
            o.Kept? && !o.job.phase.Over? ==>
              if o.job.readCount == b.readCount then o.job == b
              else |b.out| < CgiStream.CGI_STREAM_HWM && |o.job.out| < CgiStream.CGI_STREAM_HWM + CgiStream.READ_SIZE + 8
  {
    if r.Bytes? {
      ChunkWriter.FramingIsSmall(r.bytes);
      ChunkWriter.ChunkFitsOrIsCut(b.out, r.bytes, limit);
    }
  }
}
