/** The other end of a job in the event loop: its client's write buffer met the limit while the body was sent.
    What the client makes of the whole response is what module CgiPipe says of a cut one. */
module LoopCuts {
  import opened Text
  import opened EventTable
  import opened LoopState
  import opened LoopInvariant
  import opened LoopRun
  import opened LoopSteps
  import opened LoopStreams
  import opened CgiHeaders
  import CgiStream
  import CgiPipe
  import ChunkWriter
  import Chunked

  /** The response of the stream `s`, with `room` left for the chunk `data`, that was cut and closed. */
  ghost predicate CutResponse(setting: CgiStream.Setting, s: CgiStream.Stream, data: string, all: string, room: int, max: nat)
  {
    && s.log.bodyAt <= |s.log.read|
    && var block, body := CgiStream.HeaderBlock(setting, s), CgiStream.BodyRead(s);
       && CgiStream.Splits(all, block)
       && (|body| + 5 <= max ==>
             Chunked.DecodeWhole(all[|block|..], max) ==
             if room < |ChunkWriter.SizeLine(data)| then Chunked.Whole(body, "") else Chunked.Partial(body + ChunkWriter.TERMINATOR))
  }

  /** What takes a streaming job beyond the limit, and is survived, is a read. */
  lemma OnlyReadsAreCut(setting: CgiStream.Setting, b: CgiStream.Job, r: CgiPipe.ReadResult, limit: nat)
    requires b.phase.Streaming? && |b.out| <= limit < |CgiPipe.OnPipe(setting, b, r).out|
    requires CgiPipe.OnPipeWithin(setting, b, r, limit).Kept?
    ensures r.Bytes? && !CgiStream.Exhausted(b) && !CgiStream.Congested(b)
    ensures limit < |b.out| + |ChunkWriter.Chunk(r.bytes)| && !CgiPipe.Stuck(setting, b, r, limit - |b.out|)
  {
    CgiPipe.EscapesIff(setting, b, r, limit);
  }

  lemma CutPipeEnds(env: Env, g: Loop, j: int, a: Answers, program: string, s: CgiStream.Stream, max: nat)
    requires j in g.jobs && g.jobs[j].client in g.clients && Printable(env.setting.phrases)
    requires CgiStream.Inv(SettingAt(env, g, j), program, s) && s.job == JobAt(g, j) && s.job.phase.Streaming?
    requires var limit := g.clients[g.jobs[j].client].limit;
             |s.job.out| <= limit < |CgiPipe.OnPipe(SettingAt(env, g, j), s.job, Clipped(a.pipe)).out|
    requires PipeChange(s.job, Clipped(a.pipe)).piece <= s.unread
    requires var h := HandleCgi(env, g, j, a); !h.fallen && j !in h.jobs
    ensures var h, c := HandleCgi(env, g, j, a), g.jobs[j].client;
            && c in h.clients && !h.clients[c].keepAlive
            && CutResponse(SettingAt(env, g, j), s, PipeChange(s.job, Clipped(a.pipe)).piece, s.sent + h.clients[c].out,
                           g.clients[c].limit - |s.job.out|, max)
  {
    var setting, r, limit := SettingAt(env, g, j), Clipped(a.pipe), g.clients[g.jobs[j].client].limit;
    var o := CgiPipe.OnPipeWithin(setting, s.job, r, limit);
    OnlyReadsAreCut(setting, s.job, r, limit);
    OverIsWritten(g, j, o.job, a);
    var enough := if |CgiStream.BodyRead(s)| + 5 <= max then max else |CgiStream.BodyRead(s)| + 5;
    assert s.unread[..|r.bytes|] == r.bytes;
    CgiPipe.LimitedClientReads(setting, program, s, |r.bytes|, limit, enough);
  }

  lemma SendKeepsBody(setting: CgiStream.Setting, program: string, s: CgiStream.Stream, takes: nat)
    requires CgiStream.Inv(setting, program, s) && s.job.phase.Streaming?
    ensures var u, n := CgiStream.Step(setting, s, CgiStream.SocketTakes(takes)), CgiStream.AtMost(takes, |s.job.out|);
            && CgiStream.Inv(setting, program, u) && u.log == s.log && u.unread == s.unread
            && u.job == s.job.(out := s.job.out[n..]) && u.sent == s.sent + s.job.out[..n]
  {
    CgiStream.SendsKeepsInv(setting, program, s, takes);
  }

  lemma CutWriteEnds(env: Env, g: Loop, c: int, j: int, a: Answers, program: string, s: CgiStream.Stream, max: nat)
    requires c in g.clients && JobOf(g.jobs, c) == Some(j) && Printable(env.setting.phrases) && |s.job.out| <= g.clients[c].limit
    requires CgiStream.Inv(SettingAt(env, g, j), program, s) && s.job == JobAt(g, j) && s.job.phase.Streaming?
    requires g.clients[c].limit < |CgiStream.Run(SettingAt(env, g, j), s, WriteChange(s.job, a).events).job.out|
    requires s.unread == WriteChange(s.job, a).piece
    requires var h := HandleWrite(env, g, c, a); !h.fallen && j !in h.jobs
    ensures var h, ch := HandleWrite(env, g, c, a), WriteChange(s.job, a);
            && c in h.clients && !h.clients[c].keepAlive
            && CutResponse(SettingAt(env, g, j), s, ch.piece, s.sent + ch.sent + h.clients[c].out,
                           g.clients[c].limit - (|s.job.out| - |ch.sent|), max)
  {
    var h, setting := Send(g, c, a.takes), SettingAt(env, g, j);
    var k := h.(table := Rearm(h.table, j, READABLE));
    var u, r := CgiStream.Step(setting, s, CgiStream.SocketTakes(a.takes)), Clipped(a.pipe);
    SendKeepsBody(setting, program, s, a.takes);
    WriteIsPipe(setting, s, a);
    CutPipeEnds(env, k, j, a, program, u, max);
  }

  /** With nothing to come behind it, the event of a read is the call of the handler. */
  lemma PipeIsCalled(setting: CgiStream.Setting, s: CgiStream.Stream, r: CgiPipe.ReadResult)
    requires Readable(r) && s.unread == PipeChange(s.job, r).piece
    ensures CgiStream.Run(setting, s, [EventOf(r)]).job == CgiPipe.OnPipe(setting, s.job, r)
  {
    PipeLeads(setting, s.job, r, s);
  }

  /** The stream of a write with a read behind it is the stream of the read behind the send. */
  lemma WriteIsPipe(setting: CgiStream.Setting, s: CgiStream.Stream, a: Answers)
    requires s.unread == WriteChange(s.job, a).piece
    ensures var n, u := CgiStream.AtMost(a.takes, |s.job.out|), CgiStream.Step(setting, s, CgiStream.SocketTakes(a.takes));
            CgiStream.Run(setting, s, WriteChange(s.job, a).events).job ==
            if |s.job.out| - n < CGI_STREAM_LWM then CgiPipe.OnPipe(setting, u.job, Clipped(a.pipe)) else u.job
  {
    var u, e := CgiStream.Step(setting, s, CgiStream.SocketTakes(a.takes)), EventOf(Clipped(a.pipe));
    RunOne(setting, s, CgiStream.SocketTakes(a.takes));
    RunTwo(setting, s, CgiStream.SocketTakes(a.takes), e);
    RunOne(setting, u, e);
    if |u.job.out| < CGI_STREAM_LWM { PipeIsCalled(setting, u, Clipped(a.pipe)); }
  }

  /** The step that ends a streaming job takes its stream beyond the limit: its client gets a cut response. */
  ghost predicate CutsAs(env: Env, g: Loop, h: Loop, j: int, ch: Change, s: CgiStream.Stream, max: nat)
    requires j in g.jobs && g.jobs[j].client in g.clients
  {
    var c := g.jobs[j].client;
    c in h.clients ==>
      !h.clients[c].keepAlive &&
      CutResponse(SettingAt(env, g, j), s, ch.piece, s.sent + ch.sent + h.clients[c].out,
                  g.clients[c].limit - (|s.job.out| - |ch.sent|), max)
  }

  lemma PipeCuts(env: Env, g: Loop, j: int, a: Answers, program: string, s: CgiStream.Stream, max: nat)
    requires j in g.jobs && g.jobs[j].client in g.clients && |s.job.out| <= g.clients[g.jobs[j].client].limit
    requires Printable(env.setting.phrases)
    requires CgiStream.Inv(SettingAt(env, g, j), program, s) && s.job == JobAt(g, j) && s.job.phase.Streaming?
    requires var ch := PipeChange(s.job, Clipped(a.pipe));
             s.unread == ch.piece && g.clients[g.jobs[j].client].limit < |CgiStream.Run(SettingAt(env, g, j), s, ch.events).job.out|
    requires var h := HandleCgi(env, g, j, a); !h.fallen && j !in h.jobs
    ensures CutsAs(env, g, HandleCgi(env, g, j, a), j, PipeChange(s.job, Clipped(a.pipe)), s, max)
  {
    PipeIsCalled(SettingAt(env, g, j), s, Clipped(a.pipe));
    CutPipeEnds(env, g, j, a, program, s, max);
    assert s.sent + "" == s.sent;
  }

  lemma WriteCuts(env: Env, g: Loop, c: int, j: int, bits: Bits, a: Answers, program: string, s: CgiStream.Stream, max: nat)
    requires Inv(g) && Fitting(g, c, bits) && c in g.clients && JobOf(g.jobs, c) == Some(j) && Printable(env.setting.phrases)
    requires CgiStream.Inv(SettingAt(env, g, j), program, s) && s.job == JobAt(g, j) && s.job.phase.Streaming? && bits.output
    requires var ch := WriteChange(s.job, a);
             s.unread == ch.piece && g.clients[c].limit < |CgiStream.Run(SettingAt(env, g, j), s, ch.events).job.out|
    requires var h := HandleClient(env, g, c, bits, a); !h.fallen && j !in h.jobs
    ensures CutsAs(env, g, HandleClient(env, g, c, bits, a), j, WriteChange(s.job, a), s, max)
  {
    assert Agree(g, c);
    if !bits.error && !bits.hangup { CutWriteEnds(env, g, c, j, a, program, s, max); }
  }

  /** For every step. */
  lemma StepCuts(env: Env, g: Loop, x: Happening, j: int, program: string, s: CgiStream.Stream, max: nat)
    requires Inv(g) && !g.fallen && Possible(g, x) && j in g.jobs && Printable(env.setting.phrases)
    requires CgiStream.Inv(SettingAt(env, g, j), program, s) && s.job == JobAt(g, j) && s.job.phase.Streaming?
    requires var ch := EndOf(g, x, j);
             s.unread == ch.piece && g.clients[g.jobs[j].client].limit < |CgiStream.Run(SettingAt(env, g, j), s, ch.events).job.out|
    requires var h := Do(env, g, x); !h.fallen && j !in h.jobs
    ensures CutsAs(env, g, Do(env, g, x), j, EndOf(g, x, j), s, max)
  {
    var c := g.jobs[j].client;
    JobIs(g.jobs, j);
    assert Agree(g, c);
    match x
    case Occurs(e, a) =>
      DispatchEnds(env, g, e, a, j, s);
      DispatchIs(env, g, e, a);
      if e.fd == j {
        assert Expected(g, j).Cgi?;
        PipeCuts(env, g, j, a, program, s, max);
      } else if e.bits.output {
        assert Expected(g, c).Client?;
        WriteCuts(env, g, c, j, e.bits, a, program, s, max);
      }
    case Expires(expired) =>
      if expired.job == j {
        ExpiryIsNotSurvived(env, g, j, expired.answers, s);
      } else if expired.job in g.jobs {
        ExpireSpares(env, g, expired.job, expired.answers, g.jobs[expired.job].client);
      }
    case _ =>
  }

  /** A timeout beyond the limit takes the server down. */
  lemma ExpiryIsNotSurvived(env: Env, g: Loop, j: int, a: Answers, s: CgiStream.Stream)
    requires Inv(g) && !g.fallen && j in g.jobs && s.job == JobAt(g, j)
    requires g.clients[g.jobs[j].client].limit < |CgiStream.Run(SettingAt(env, g, j), s, [CgiStream.TimedOut]).job.out|
    ensures ExpireJob(env, g, j, a).fallen
  {
    var v := g.clients[g.jobs[j].client];
    assert Agree(g, g.jobs[j].client);
    RunOne(SettingAt(env, g, j), s, CgiStream.TimedOut);
    CgiPipe.TimeoutEscapesIff(SettingAt(env, g, j), s.job, v.limit);
  }

  /** The whole life of a job whose client stays, when the limit was met in the middle of the body.  All its
      client was sent by the steps and is to be sent is the response up to the last step with what of the
      last chunk fitted, and the terminator: read as it was before, or with the terminator taken for data. */
  lemma LoopCutsBody(env: Env, g: Loop, xs: seq<Happening>, x: Happening, j: int, max: nat)
    requires Printable(env.setting.phrases) && Lived(env, g, xs, x, j)
    requires var k := DoAll(env, g, xs);
             && Remains(env, g, k, j) && k.jobs[j].core.phase.Streaming?
             && var life := LifeOf(env, g, xs, x, j);
                k.clients[g.jobs[j].client].limit < |CgiStream.Run(SettingAt(env, g, j), CgiStream.Start(life.piece), life.events).job.out|
    ensures var k, h, c := DoAll(env, g, xs), Do(env, DoAll(env, g, xs), x), g.jobs[j].client;
            var life, last := LifeOf(env, g, xs, x, j), EndOf(k, x, j);
            var s := StreamAt(env, g, xs, j, last.piece);
            && s.log.read == Changes(env, g, xs, j).piece && !h.clients[c].keepAlive
            && CutResponse(SettingAt(env, g, j), s, last.piece, life.sent + h.clients[c].out,
                           k.clients[c].limit - (|k.clients[c].out| - |last.sent|), max)
  {
    var k, c, setting := DoAll(env, g, xs), g.jobs[j].client, SettingAt(env, g, j);
    var first, last := Changes(env, g, xs, j), EndOf(k, x, j);
    var program, s := first.piece + last.piece, StreamAt(env, g, xs, j, last.piece);
    BegunStreams(env, g, xs, j, last.piece);
    CgiStream.StartIsInv(setting, program);
    CgiStream.RunKeepsInv(setting, program, CgiStream.Start(program), first.events);
    RunJoins(setting, CgiStream.Start(program), first.events, last.events);
    StepCuts(env, k, x, j, program, s, max);
  }
}
