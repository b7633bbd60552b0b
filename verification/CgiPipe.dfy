/** One event of a CGI pipe, without and with the limit of the client's write buffer.  Module CgiStream
    follows whole responses that stay within the limit; here is what `_handleCgiEvent` does when an
    append throws, and when the exception is thrown again where nobody catches it. */
module CgiPipe {
  import opened Text
  import opened ChunkWriter
  import opened CgiHeaders
  import opened CgiStream
  import opened Buffers
  import Chunked

  datatype ReadResult = Bytes(bytes: string) | EndOfFile | WouldBlock

  /** One call of `_handleCgiEvent` with a write buffer that takes everything. */
  function OnPipe(env: Setting, j: Job, r: ReadResult): Job
  {
    if j.phase.Over? then j
    else if Exhausted(j) then FailJob(env, j, 502)
    else if Congested(j) then j
    else
      match r
      case Bytes(bytes) => OnData(env, j, bytes)
      case EndOfFile => FinishJob(env, j)
      case WouldBlock => j
  }

  /** What `read` returns in the schedule of a stream. */
  function ResultOf(s: Stream, e: Event): ReadResult
  {
    if e.PipeData? && Offered(s, e.n) > 0 then Bytes(s.unread[..Offered(s, e.n)])
    else if e.PipeEnd? && s.unread == "" then EndOfFile
    else WouldBlock
  }

  /** The pipe events of a run are calls of the handler. */
  lemma StepIsOnPipe(env: Setting, s: Stream, e: Event)
    requires IsPipeEvent(e)
    ensures Step(env, s, e).job == OnPipe(env, s.job, ResultOf(s, e))
  {
  }

  // -------------------------------------------------------------- with a limit

  /** The job goes on or is over, or a BodyLimitException has left the event loop. */
  datatype Outcome = Kept(job: Job) | Escaped

  /** What `_failCgiJob` appends. */
  function Ending(env: Setting, j: Job, code: nat): string
  {
    if j.phase.Heading? then env.errorPage(code) else TERMINATOR
  }

  /** `_failCgiJob`; nobody catches what it throws here. */
  function Failed(env: Setting, j: Job, code: nat, limit: nat): Outcome
  {
    if j.phase.Over? || Room(j.out, Ending(env, j, code), limit) then Kept(FailJob(env, j, code)) else Escaped
  }

  /** `_failCgiJob` inside the `try` block: the handler fails the job once more. */
  function FailedInside(env: Setting, j: Job, code: nat, limit: nat): Outcome
  {
    var f := Failed(env, j, code, limit);
    if f.Escaped? then Failed(env, j, 413, limit) else f
  }

  function FinishedInside(env: Setting, j: Job, limit: nat): Outcome
  {
    match j.phase
    case Heading => FailedInside(env, j, 502, limit)
    case Streaming =>
      if env.head || Room(j.out, TERMINATOR, limit) then Kept(FinishJob(env, j)) else Failed(env, j, 413, limit)
    case Over(_, _, _, _) => Kept(j)
  }

  /** `writeChunk` and its count; a chunk that does not fit leaves what fitted and fails the job. */
  function ChunkInside(env: Setting, j: Job, data: string, limit: nat): Outcome
  {
    var w := AppendChunk(j.out, data, limit);
    if w.thrown then Failed(env, j.(out := w.out), 413, limit)
    else Kept(j.(bodyWritten := j.bodyWritten + |data|, out := w.out))
  }

  /** The header block, then the bytes behind it as the first chunk. */
  function HeadersInside(env: Setting, j: Job, end: nat, limit: nat): Outcome
    requires end <= |j.pending|
  {
    var block := Rendered(env.phrases, env.keepAlive, j.pending[..end]);
    if !Room(j.out, block, limit) then Failed(env, j, 413, limit)
    else ChunkInside(env, j.(phase := Streaming, pending := "", out := j.out + block), j.pending[end..], limit)
  }

  /** The bytes read so far, in search of a header. */
  function HeaderInside(env: Setting, j: Job, limit: nat): Outcome
  {
    var end := HeaderEnd(j.pending);
    if end.Some? then HeadersInside(env, j, end.value, limit)
    else if |j.pending| > FHLS then FailedInside(env, j, 502, limit)
    else Kept(j)
  }

  function DataInside(env: Setting, j: Job, bytes: string, limit: nat): Outcome
  {
    var k := j.(readCount := j.readCount + 1);
    if j.phase.Heading? then HeaderInside(env, k.(pending := j.pending + bytes), limit) else ChunkInside(env, k, bytes, limit)
  }

  /** `_handleCgiEvent` with a write buffer of `limit` bytes. */
  function OnPipeWithin(env: Setting, j: Job, r: ReadResult, limit: nat): Outcome
  {
    if j.phase.Over? then Kept(j)
    else if Exhausted(j) then Failed(env, j, 502, limit)
    else if Congested(j) then Kept(j)
    else
      match r
      case Bytes(bytes) => DataInside(env, j, bytes, limit)
      case EndOfFile => FinishedInside(env, j, limit)
      case WouldBlock => Kept(j)
  }

  // ------------------------------------------------------ what the limit keeps

  /** An outcome stays within the limit, and is the unlimited one exactly when that is within it. */
  ghost predicate Agrees(o: Outcome, t: Job, limit: nat)
  {
    (o.Kept? ==> |o.job.out| <= limit) && (o == Kept(t) <==> |t.out| <= limit)
  }

  lemma ChunkWithin(env: Setting, j: Job, data: string, t: Job, limit: nat)
    requires !j.phase.Over? && |j.out| <= limit
    requires t == j.(bodyWritten := j.bodyWritten + |data|, out := j.out + Chunk(data))
    ensures Agrees(ChunkInside(env, j, data, limit), t, limit)
  {
    ChunkFitsOrIsCut(j.out, data, limit);
  }

  lemma HeadersWithin(env: Setting, j: Job, end: nat, t: Job, limit: nat)
    requires j.phase.Heading? && |j.out| <= limit && end <= |j.pending|
    requires t == Job(Streaming, "", j.bodyWritten + |j.pending[end..]|, j.readCount,
                      j.out + Rendered(env.phrases, env.keepAlive, j.pending[..end]) + Chunk(j.pending[end..]))
    ensures Agrees(HeadersInside(env, j, end, limit), t, limit)
  {
    var block := Rendered(env.phrases, env.keepAlive, j.pending[..end]);
    if Room(j.out, block, limit) {
      ChunkWithin(env, j.(phase := Streaming, pending := "", out := j.out + block), j.pending[end..], t, limit);
    }
  }

  lemma FailedWithin(env: Setting, j: Job, code: nat, limit: nat)
    requires |j.out| <= limit
    ensures Agrees(Failed(env, j, code, limit), FailJob(env, j, code), limit)
  {
  }

  lemma FinishedWithin(env: Setting, j: Job, limit: nat)
    requires |j.out| <= limit
    ensures Agrees(FinishedInside(env, j, limit), FinishJob(env, j), limit)
    ensures Agrees(FailedInside(env, j, 502, limit), FailJob(env, j, 502), limit)
  {
    FailedWithin(env, j, 502, limit);
    FailedWithin(env, j, 413, limit);
  }

  lemma HeaderDataWithin(env: Setting, j: Job, bytes: string, limit: nat)
    requires |j.out| <= limit && j.phase.Heading?
    ensures Agrees(DataInside(env, j, bytes, limit), OnHeaderData(env, j, bytes), limit)
  {
    var k := j.(readCount := j.readCount + 1, pending := j.pending + bytes);
    if HeaderEnd(k.pending).Some? {
      HeadersWithin(env, k, HeaderEnd(k.pending).value, OnHeaderData(env, j, bytes), limit);
    } else {
      FinishedWithin(env, k, limit);
    }
  }

  lemma DataWithin(env: Setting, j: Job, bytes: string, limit: nat)
    requires |j.out| <= limit && !j.phase.Over?
    ensures Agrees(DataInside(env, j, bytes, limit), OnData(env, j, bytes), limit)
  {
    if j.phase.Heading? {
      HeaderDataWithin(env, j, bytes, limit);
    } else {
      ChunkWithin(env, j.(readCount := j.readCount + 1), bytes, OnData(env, j, bytes), limit);
    }
  }

  /** The buffer never grows beyond its limit, and the event does what it would do without one exactly
      when what it would write fits. */
  lemma WithinLimit(env: Setting, j: Job, r: ReadResult, limit: nat)
    requires |j.out| <= limit
    ensures Agrees(OnPipeWithin(env, j, r, limit), OnPipe(env, j, r), limit)
  {
    FailedWithin(env, j, 502, limit);
    if !j.phase.Over? && !Exhausted(j) && !Congested(j) {
      if r.Bytes? { DataWithin(env, j, r.bytes, limit); } else { FinishedWithin(env, j, limit); }
    }
  }

  // ---------------------------------------------------------- when it escapes

  /** A chunk of `n` bytes fails, and what is left behind the part that fitted does not take a terminator:
      no room for the size line, for the data behind it, or for the line end behind them. */
  predicate ChunkStuck(n: nat, line: nat, room: int)
  {
    n > 0 && ((room < line && room < 5) || (line <= room < line + n && room < line + 5) || line + n <= room < line + n + 2)
  }

  /** Neither of two pages fits. */
  predicate BothTooLong(env: Setting, code: nat, room: int)
  {
    room < |env.errorPage(code)| && room < |env.errorPage(413)|
  }

  /** Given the room left in the write buffer, the event throws where nobody catches. */
  predicate Stuck(env: Setting, j: Job, r: ReadResult, room: int)
  {
    if j.phase.Over? then false
    else if Exhausted(j) then room < |Ending(env, j, 502)|
    else if Congested(j) || r.WouldBlock? then false
    else if j.phase.Streaming? then
      if r.EndOfFile? then !env.head && room < 5 else ChunkStuck(|r.bytes|, |SizeLine(r.bytes)|, room)
    else if r.EndOfFile? then BothTooLong(env, 502, room)
    else
      var pending := j.pending + r.bytes;
      var end := HeaderEnd(pending);
      if end.None? then |pending| > FHLS && BothTooLong(env, 502, room)
      else
        var block := |Rendered(env.phrases, env.keepAlive, pending[..end.value])|;
        if room < block then room < |env.errorPage(413)|
        else ChunkStuck(|pending| - end.value, |SizeLine(pending[end.value..])|, room - block)
  }

  lemma ChunkEscapesIff(env: Setting, j: Job, data: string, limit: nat)
    requires j.phase.Streaming? && |j.out| <= limit
    ensures ChunkInside(env, j, data, limit).Escaped? <==> ChunkStuck(|data|, |SizeLine(data)|, limit - |j.out|)
  {
  }

  lemma HeadersEscapeIff(env: Setting, j: Job, end: nat, limit: nat)
    requires j.phase.Heading? && |j.out| <= limit && end <= |j.pending|
    ensures var room, block := limit - |j.out|, |Rendered(env.phrases, env.keepAlive, j.pending[..end])|;
            HeadersInside(env, j, end, limit).Escaped? <==>
            if room < block then room < |env.errorPage(413)|
            else ChunkStuck(|j.pending| - end, |SizeLine(j.pending[end..])|, room - block)
  {
    var block := Rendered(env.phrases, env.keepAlive, j.pending[..end]);
    if Room(j.out, block, limit) {
      ChunkEscapesIff(env, j.(phase := Streaming, pending := "", out := j.out + block), j.pending[end..], limit);
    }
  }

  /** Exactly when a pipe event brings the server down, in terms of the room left before it. */
  lemma EscapesIff(env: Setting, j: Job, r: ReadResult, limit: nat)
    requires |j.out| <= limit
    ensures OnPipeWithin(env, j, r, limit).Escaped? <==> Stuck(env, j, r, limit - |j.out|)
  {
    if !j.phase.Over? && !Exhausted(j) && !Congested(j) && r.Bytes? {
      var k := j.(readCount := j.readCount + 1);
      if !j.phase.Heading? {
        ChunkEscapesIff(env, k, r.bytes, limit);
      } else {
        var h := k.(pending := j.pending + r.bytes);
        if HeaderEnd(h.pending).Some? { HeadersEscapeIff(env, h, HeaderEnd(h.pending).value, limit); }
      }
    }
  }

  /** Exactly when the timeout of a job brings the server down: nothing is caught there. */
  lemma TimeoutEscapesIff(env: Setting, j: Job, limit: nat)
    requires |j.out| <= limit
    ensures Failed(env, j, 504, limit).Escaped? <==> !j.phase.Over? && limit - |j.out| < |Ending(env, j, 504)|
    ensures Failed(env, j, 504, limit).Kept? ==> |Failed(env, j, 504, limit).job.out| <= limit
  {
  }

  /** A chunk beyond the limit that does not bring the server down fails the job: what fitted of it stays
      in the buffer, and the terminator is put behind that. */
  lemma LimitFailsTheJob(env: Setting, j: Job, bytes: string, limit: nat)
    requires j.phase.Streaming? && !Exhausted(j) && !Congested(j)
    requires |j.out| <= limit < |j.out| + |Chunk(bytes)| && !Stuck(env, j, Bytes(bytes), limit - |j.out|)
    ensures var o, fitted := OnPipeWithin(env, j, Bytes(bytes), limit), AppendChunk(j.out, bytes, limit).out;
            && o.Kept? && o.job.phase == Over(true, true, true, 413) && o.job.out == fitted + TERMINATOR
            && j.out <= fitted < j.out + Chunk(bytes)
  {
    EscapesIff(env, j, Bytes(bytes), limit);
    ChunkFitsOrIsCut(j.out, bytes, limit);
  }

  // ------------------------------------------------------ what the client makes of it

  /** A response whose last chunk was cut and which was closed with the terminator: the client splits it as
      any other, and reads what was written before exactly when not even the size line fitted. */
  lemma CutResponseIsRead(env: Setting, header: string, blocks: seq<string>, sent: string, out: string, data: string, limit: nat, max: nat)
    requires Printable(env.phrases) && Small(blocks) && |data| <= Chunked.MAX_ALLOWED_CHUNK && |Flat(blocks)| + 5 <= max
    requires sent + out == Rendered(env.phrases, env.keepAlive, header) + Encode(blocks) && |out| <= limit
    requires AppendChunk(out, data, limit).thrown && Room(AppendChunk(out, data, limit).out, TERMINATOR, limit)
    ensures var block, all := Rendered(env.phrases, env.keepAlive, header), sent + (AppendChunk(out, data, limit).out + TERMINATOR);
            && Splits(all, block)
            && Chunked.DecodeWhole(all[|block|..], max) ==
               if limit - |out| < |SizeLine(data)| then Chunked.Whole(Flat(blocks), "") else Chunked.Partial(Flat(blocks) + TERMINATOR)
  {
    var fitted := Fitted(data, limit - |out|);
    AppendsWhatFits(out, data, limit);
    Regrouped(sent, out, Rendered(env.phrases, env.keepAlive, header), Encode(blocks), fitted);
    BlockSplits(env.phrases, env.keepAlive, header, Encode(blocks) + (fitted + TERMINATOR), sent + (out + fitted + TERMINATOR));
    CutBodyIsReadIff(blocks, data, limit - |out|, max);
  }

  lemma Regrouped(sent: string, out: string, block: string, coded: string, fitted: string)
    requires sent + out == block + coded
    ensures sent + (out + fitted + TERMINATOR) == block + (coded + (fitted + TERMINATOR))
  {
    Assoc(out, fitted, TERMINATOR);
    Assoc(sent, out, fitted + TERMINATOR);
    Assoc(block, coded, fitted + TERMINATOR);
  }

  /** A client that has received the whole response of a job failed by the limit, wherever its stream was:
      it reads the body sent before, or waits for more with the terminator taken for data. */
  lemma LimitedClientReads(env: Setting, program: string, s: Stream, n: nat, limit: nat, max: nat)
    requires Printable(env.phrases) && CgiStream.Inv(env, program, s) && n <= |s.unread| && n <= READ_SIZE
    requires s.job.phase.Streaming? && !Exhausted(s.job) && !Congested(s.job) && |BodyRead(s)| + 5 <= max
    requires |s.job.out| <= limit < |s.job.out| + |Chunk(s.unread[..n])|
    requires !Stuck(env, s.job, Bytes(s.unread[..n]), limit - |s.job.out|)
    ensures var bytes := s.unread[..n];
            var o, block := OnPipeWithin(env, s.job, Bytes(bytes), limit), HeaderBlock(env, s);
            && o.Kept? && Splits(s.sent + o.job.out, block)
            && Chunked.DecodeWhole((s.sent + o.job.out)[|block|..], max) ==
               if limit - |s.job.out| < |SizeLine(bytes)| then Chunked.Whole(BodyRead(s), "") else Chunked.Partial(BodyRead(s) + TERMINATOR)
  {
    var bytes := s.unread[..n];
    LimitFailsTheJob(env, s.job, bytes, limit);
    BodyIsWithin(env, program, s);
    ResponseIs(env, program, s);
    ChunkFitsOrIsCut(s.job.out, bytes, limit);
    assert Encode(s.log.blocks) + "" == Encode(s.log.blocks);
    CutResponseIsRead(env, s.log.read[..s.log.bodyAt], s.log.blocks, s.sent, s.job.out, bytes, limit, max);
  }

  /** The job behind an empty header, with its block in the write buffer. */
  function HeaderSent(env: Setting): Job
  {
    Job(Streaming, "", 0, 1, Rendered(env.phrases, env.keepAlive, "\n\n"))
  }

  /** The limit that leaves four bytes behind that block. */
  function FourBytesMore(env: Setting): nat { |HeaderSent(env).out| + 4 }

  lemma EmptyHeaderIsSent(env: Setting)
    ensures OnPipeWithin(env, Job(Heading, "", 0, 0, ""), Bytes("\n\n"), FourBytesMore(env)) == Kept(HeaderSent(env))
  {
    var block := Rendered(env.phrases, env.keepAlive, "\n\n");
    EmptyHeaderEnds();
    assert "" + "\n\n" == "\n\n" && "\n\n"[..2] == "\n\n" && "\n\n"[2..] == "" && "" + block == block;
  }

  /** With such a limit a new job sends its header; and then the end of its output takes the server down,
      and so does one byte more of it. */
  lemma TwoWaysDown(env: Setting)
    requires !env.head && |HeaderSent(env).out| < CGI_STREAM_HWM
    ensures var o := OnPipeWithin(env, Job(Heading, "", 0, 0, ""), Bytes("\n\n"), FourBytesMore(env));
            && o == Kept(HeaderSent(env))
            && OnPipeWithin(env, o.job, EndOfFile, FourBytesMore(env)) == Escaped
            && OnPipeWithin(env, o.job, Bytes("x"), FourBytesMore(env)) == Escaped
  {
    EmptyHeaderIsSent(env);
    EscapesIff(env, HeaderSent(env), EndOfFile, FourBytesMore(env));
    EscapesIff(env, HeaderSent(env), Bytes("x"), FourBytesMore(env));
    assert SizeLine("x") == "1\r\n";
  }

  lemma EmptyHeaderEnds()
    ensures HeaderEnd("\n\n") == Some(2)
  {
    forall i: nat ensures !OccursAt("\n\n", BLANK_LINE, i) {}
    assert "\n\n"[0..2] == "\n\n";
    SeekIs("\n\n", "\n\n", 0, 0);
  }

  /** A limit that never matters to a streaming job: the high-water mark, one read with its framing, and
      a terminator. */
  const ENOUGH: nat := CGI_STREAM_HWM + READ_SIZE + 8 + 5

  lemma EnoughIsEnough(env: Setting, j: Job, r: ReadResult, limit: nat)
    requires j.phase.Streaming? && |j.out| < CGI_STREAM_HWM + READ_SIZE + 8 && limit >= ENOUGH
    requires r.Bytes? ==> |r.bytes| <= READ_SIZE
    ensures OnPipeWithin(env, j, r, limit) == Kept(OnPipe(env, j, r))
    ensures !OnPipe(env, j, r).phase.Over? ==> |OnPipe(env, j, r).out| < CGI_STREAM_HWM + READ_SIZE + 8
    ensures Failed(env, j, 504, limit).Kept?
  {
    if r.Bytes? { FramingIsSmall(r.bytes); }
    WithinLimit(env, j, r, limit);
  }
}
