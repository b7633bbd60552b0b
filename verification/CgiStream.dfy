/** A CGI response on its way from the program's pipe to the client: src/EventLoop/EventLoop_helper_cgi.cpp
    and cgi/CgiCleanning.cpp, over every schedule of pipe reads, socket sends and the job timeout. */
module CgiStream {
  import opened Text
  import opened ChunkWriter
  import opened CgiHeaders
  import CgiHeaderLaws
  import Chunked

  const CGI_STREAM_HWM: nat := 256 * 1024
  const FHLS: nat := 8 * 1024
  const READ_SIZE: nat := 60 * 1024
  const LIMIT_INTERNAL_RECURSION: nat := 8000
  const LIMIT_REQUEST_BODY: nat := 20971520

  /** What the response depends on besides the program's output. */
  datatype Setting = Setting(phrases: Phrases, keepAlive: bool, head: bool, errorPage: nat -> string)

  /** `Over` says whether headers had been sent, whether a terminator followed, and the error code. */
  datatype Phase = Heading | Streaming | Over(hadHeaders: bool, terminated: bool, failed: bool, code: nat)

  /** A `CgiJob` with the write buffer of its client. */
  datatype Job = Job(phase: Phase, pending: string, bodyWritten: nat, readCount: nat, out: string)

  // ----------------------------------------------------------- transitions

  /** `_failCgiJob`. */
  function FailJob(env: Setting, j: Job, code: nat): Job
  {
    match j.phase
    case Heading => j.(phase := Over(false, false, true, code), out := j.out + env.errorPage(code))
    case Streaming => j.(phase := Over(true, true, true, code), out := j.out + TERMINATOR)
    case Over(_, _, _, _) => j
  }

  /** `_finishCgiJob`. */
  function FinishJob(env: Setting, j: Job): Job
  {
    match j.phase
    case Heading => j.(phase := Over(false, false, true, 502), out := j.out + env.errorPage(502))
    case Streaming =>
      if env.head then j.(phase := Over(true, false, false, 0))
      else j.(phase := Over(true, true, false, 0), out := j.out + TERMINATOR)
    case Over(_, _, _, _) => j
  }

  /** `read` returned `bytes` while the headers were still awaited. */
  function OnHeaderData(env: Setting, j: Job, bytes: string): Job
  {
    var pending := j.pending + bytes;
    var end := HeaderEnd(pending);
    var k := j.(pending := pending, readCount := j.readCount + 1);
    if end.None? then (if |pending| > FHLS then FailJob(env, k, 502) else k)
    else
      var leftover := pending[end.value..];
      Job(Streaming, "", j.bodyWritten + |leftover|, k.readCount,
          j.out + Rendered(env.phrases, env.keepAlive, pending[..end.value]) + Chunk(leftover))
  }

  function OnData(env: Setting, j: Job, bytes: string): Job
  {
    if j.phase.Heading? then OnHeaderData(env, j, bytes)
    else j.(bodyWritten := j.bodyWritten + |bytes|, readCount := j.readCount + 1, out := j.out + Chunk(bytes))
  }

  /** The guards of `_handleCgiEvent` before it reads. */
  predicate Exhausted(j: Job) { j.readCount > LIMIT_INTERNAL_RECURSION }

  predicate Congested(j: Job) { j.phase.Streaming? && |j.out| >= CGI_STREAM_HWM }

  // ------------------------------------------------------------------- run

  /** What has been read so far, where the body was found to start and after how many bytes, and the
      blocks that were written. */
  datatype Log = Log(read: string, seen: nat, bodyAt: nat, blocks: seq<string>)

  /** The job, what the program has still to deliver, what the client has received, and the log. */
  datatype Stream = Stream(job: Job, unread: string, sent: string, log: Log)

  /** The pipe offers up to `n` bytes, its end, or nothing yet; the job times out; the socket takes up
      to `n` bytes. */
  datatype Event = PipeData(n: nat) | PipeEnd | PipeEmpty | TimedOut | SocketTakes(n: nat)

  function Start(program: string): Stream
  {
    Stream(Job(Heading, "", 0, 0, ""), program, "", Log("", 0, 0, []))
  }

  function AtMost(n: nat, bound: nat): nat { if n < bound then n else bound }

  /** How many bytes one `read` hands over. */
  function Offered(s: Stream, n: nat): nat { AtMost(AtMost(n, READ_SIZE), |s.unread|) }

  function LogData(log: Log, j: Job, bytes: string): Log
  {
    var read := log.read + bytes;
    if !j.phase.Heading? then log.(read := read, blocks := log.blocks + [bytes])
    else
      var end := HeaderEnd(j.pending + bytes);
      if end.None? then log.(read := read)
      else Log(read, |read|, end.value, [(j.pending + bytes)[end.value..]])
  }

  function Reads(env: Setting, s: Stream, n: nat): Stream
    requires n <= |s.unread|
  {
    var bytes := s.unread[..n];
    Stream(OnData(env, s.job, bytes), s.unread[n..], s.sent, LogData(s.log, s.job, bytes))
  }

  predicate IsPipeEvent(e: Event) { e.PipeData? || e.PipeEnd? || e.PipeEmpty? }

  function Step(env: Setting, s: Stream, e: Event): Stream
  {
    if e.SocketTakes? then
      var n := AtMost(e.n, |s.job.out|);
      s.(sent := s.sent + s.job.out[..n], job := s.job.(out := s.job.out[n..]))
    else if s.job.phase.Over? then s
    else if e.TimedOut? then s.(job := FailJob(env, s.job, 504))
    else if Exhausted(s.job) then s.(job := FailJob(env, s.job, 502))
    else if Congested(s.job) then s
    else if e.PipeData? && Offered(s, e.n) > 0 then Reads(env, s, Offered(s, e.n))
    else if e.PipeEnd? && s.unread == "" then s.(job := FinishJob(env, s.job))
    else s
  }

  function Run(env: Setting, s: Stream, events: seq<Event>): Stream
    decreases |events|
  {
    if events == [] then s else Run(env, Step(env, s, events[0]), events[1..])
  }

  // -------------------------------------------------------------- invariant

  /** The response so far: header block, then the coding of the blocks. */
  function Response(env: Setting, s: Stream): string
    requires s.log.bodyAt <= |s.log.read|
  {
    Rendered(env.phrases, env.keepAlive, s.log.read[..s.log.bodyAt]) + Encode(s.log.blocks)
  }

  /** The boundary that was found, and the blocks: all that was read behind it. */
  ghost predicate BodyLogged(s: Stream)
  {
    && s.log.seen <= |s.log.read| && HeaderEnd(s.log.read[..s.log.seen]) == Some(s.log.bodyAt)
    && Flat(s.log.blocks) == s.log.read[s.log.bodyAt..]
    && s.job.bodyWritten == |Flat(s.log.blocks)| && Small(s.log.blocks)
  }

  ghost predicate Inv(env: Setting, program: string, s: Stream)
  {
    && s.log.read + s.unread == program
    && s.job.readCount <= LIMIT_INTERNAL_RECURSION + 1
    && match s.job.phase
       case Heading =>
         && s.job.pending == s.log.read && |s.job.pending| <= FHLS && HeaderEnd(s.job.pending).None?
         && s.sent + s.job.out == "" && s.job.bodyWritten == 0 && s.log.blocks == []
       case Streaming => BodyLogged(s) && s.sent + s.job.out == Response(env, s)
       case Over(true, terminated, failed, _) =>
         && BodyLogged(s) && s.sent + s.job.out == Response(env, s) + (if terminated then TERMINATOR else "")
         && (failed ==> terminated) && (!failed ==> s.unread == "" && terminated == !env.head)
       case Over(false, _, _, code) => s.sent + s.job.out == env.errorPage(code)
  }

  lemma SendsKeepsInv(env: Setting, program: string, s: Stream, n: nat)
    requires Inv(env, program, s)
    ensures Inv(env, program, Step(env, s, SocketTakes(n)))
  {
    var k := AtMost(n, |s.job.out|);
    assert (s.sent + s.job.out[..k]) + s.job.out[k..] == s.sent + s.job.out;
  }

  lemma EndKeepsInv(env: Setting, program: string, s: Stream, j: Job)
    requires Inv(env, program, s) && !s.job.phase.Over?
    requires (exists code :: j == FailJob(env, s.job, code)) || (s.unread == "" && j == FinishJob(env, s.job))
    ensures Inv(env, program, s.(job := j))
  {
    assert s.sent + (s.job.out + TERMINATOR) == (s.sent + s.job.out) + TERMINATOR;
    if s.job.phase.Heading? {
      assert s.sent == "" && s.job.out == "";
      assert forall x: string :: "" + ("" + x) == x;
    }
    if s.job.phase.Streaming? && j.out == s.job.out { assert Response(env, s) + "" == Response(env, s); }
  }

  lemma SplitRead(program: string, read: string, unread: string, n: nat)
    requires read + unread == program && n <= |unread|
    ensures (read + unread[..n]) + unread[n..] == program
  {
  }

  lemma StreamingDataKeepsInv(env: Setting, program: string, s: Stream, n: nat)
    requires Inv(env, program, s) && s.job.phase.Streaming? && !Exhausted(s.job)
    requires n <= |s.unread| && n <= READ_SIZE
    ensures Inv(env, program, Reads(env, s, n))
  {
    var bytes, log := s.unread[..n], s.log;
    SplitRead(program, log.read, s.unread, n);
    EncodeOneMore(log.blocks, bytes);
    LoggedMore(s, bytes);
    var t := Reads(env, s, n);
    assert Response(env, t) == Response(env, s) + Chunk(bytes) by {
      assert t.log.read[..log.bodyAt] == log.read[..log.bodyAt];
      Assoc(Rendered(env.phrases, env.keepAlive, log.read[..log.bodyAt]), Encode(log.blocks), Chunk(bytes));
    }
    Assoc(s.sent, s.job.out, Chunk(bytes));
  }

  lemma MoreIsBehind(read: string, bytes: string, seen: nat, bodyAt: nat)
    requires seen <= |read| && bodyAt <= |read|
    ensures (read + bytes)[..seen] == read[..seen] && (read + bytes)[bodyAt..] == read[bodyAt..] + bytes
  {
  }

  lemma LoggedMore(s: Stream, bytes: string)
    requires BodyLogged(s) && |bytes| <= READ_SIZE
    ensures var t := s.(log := s.log.(read := s.log.read + bytes, blocks := s.log.blocks + [bytes]),
                        job := s.job.(bodyWritten := s.job.bodyWritten + |bytes|));
            BodyLogged(t)
  {
    EncodeOneMore(s.log.blocks, bytes);
    MoreIsBehind(s.log.read, bytes, s.log.seen, s.log.bodyAt);
  }

  lemma HeaderDataKeepsInv(env: Setting, program: string, s: Stream, n: nat)
    requires Inv(env, program, s) && s.job.phase.Heading? && !Exhausted(s.job)
    requires n <= |s.unread| && n <= READ_SIZE
    ensures Inv(env, program, Reads(env, s, n))
  {
    var bytes := s.unread[..n];
    var pending := s.job.pending + bytes;
    SplitRead(program, s.log.read, s.unread, n);
    var end := HeaderEnd(pending);
    if end.None? {
      if |pending| > FHLS { assert s.sent == "" && "" + ("" + env.errorPage(502)) == env.errorPage(502); }
    } else {
      BodyStarts(env, s, pending, end.value);
    }
  }

  lemma OneBlock(block: string)
    ensures Encode([block]) == Chunk(block) && Flat([block]) == block
  {
    EncodeOneMore([], block);
    assert [] + [block] == [block] && "" + Chunk(block) == Chunk(block) && "" + block == block;
  }

  lemma WithNothing(header: string, chunk: string)
    ensures "" + ("" + header + chunk) == header + chunk
  {
  }

  lemma WholeOf(s: string)
    ensures s[..|s|] == s
  {
  }

  lemma BodyStarts(env: Setting, s: Stream, pending: string, h: nat)
    requires s.sent == "" && s.job.out == "" && s.job.bodyWritten == 0
    requires HeaderEnd(pending) == Some(h) && |pending| <= FHLS + READ_SIZE
    ensures var block := pending[h..];
            var t := s.(log := Log(pending, |pending|, h, [block]), job := s.job.(bodyWritten := |block|));
            BodyLogged(t)
            && s.sent + (s.job.out + Rendered(env.phrases, env.keepAlive, pending[..h]) + Chunk(block)) == Response(env, t)
  {
    OneBlock(pending[h..]);
    WholeOf(pending);
    WithNothing(Rendered(env.phrases, env.keepAlive, pending[..h]), Chunk(pending[h..]));
  }

  lemma DataKeepsInv(env: Setting, program: string, s: Stream, n: nat)
    requires Inv(env, program, s) && !s.job.phase.Over? && !Exhausted(s.job) && n <= |s.unread| && n <= READ_SIZE
    ensures Inv(env, program, Reads(env, s, n))
  {
    if s.job.phase.Heading? { HeaderDataKeepsInv(env, program, s, n); } else { StreamingDataKeepsInv(env, program, s, n); }
  }

  lemma PipeKeepsInv(env: Setting, program: string, s: Stream, e: Event)
    requires Inv(env, program, s) && !s.job.phase.Over? && !Exhausted(s.job) && IsPipeEvent(e)
    ensures Inv(env, program, Step(env, s, e))
  {
    if !Congested(s.job) {
      if e.PipeData? {
        DataKeepsInv(env, program, s, Offered(s, e.n));
      } else if e.PipeEnd? && s.unread == "" {
        EndKeepsInv(env, program, s, FinishJob(env, s.job));
      }
    }
  }

  lemma TimeKeepsInv(env: Setting, program: string, s: Stream, code: nat)
    requires Inv(env, program, s) && !s.job.phase.Over?
    ensures Inv(env, program, s.(job := FailJob(env, s.job, code)))
  {
    EndKeepsInv(env, program, s, FailJob(env, s.job, code));
  }

  /** Every event keeps the invariant. */
  lemma StepKeepsInv(env: Setting, program: string, s: Stream, e: Event)
    requires Inv(env, program, s)
    ensures Inv(env, program, Step(env, s, e))
  {
    if e.SocketTakes? {
      SendsKeepsInv(env, program, s, e.n);
    } else if !s.job.phase.Over? {
      if e.TimedOut? {
        TimeKeepsInv(env, program, s, 504);
      } else if Exhausted(s.job) {
        TimeKeepsInv(env, program, s, 502);
      } else {
        PipeKeepsInv(env, program, s, e);
      }
    }
  }

  /** Conservation: over every schedule, what was sent followed by what is buffered is the header block,
      the coding of everything read behind the boundary, and the terminator exactly once, when the job
      is over; read and unread make up the program's output. */
  lemma {:induction false} RunKeepsInv(env: Setting, program: string, s: Stream, events: seq<Event>)
    requires Inv(env, program, s)
    ensures Inv(env, program, Run(env, s, events))
    decreases |events|
  {
    if events != [] {
      StepKeepsInv(env, program, s, events[0]);
      RunKeepsInv(env, program, Step(env, s, events[0]), events[1..]);
    }
  }

  lemma StartIsInv(env: Setting, program: string)
    ensures Inv(env, program, Start(program))
  {
    var none: string := "";
    forall i: nat ensures !OccursAt(none, BLANK_LINE, i) && !OccursAt(none, "\n\n", i) {}
    assert "" + program == program;
  }

  /** A job that fails without having been late failed at the gateway; one that was late says so. */
  lemma {:induction false} FailureTellsWhy(env: Setting, s: Stream, events: seq<Event>)
    requires !s.job.phase.Over?
    ensures var p := Run(env, s, events).job.phase;
            p.Over? && p.failed ==> (p.code == 502 || (p.code == 504 && TimedOut in events))
    ensures TimedOut in events ==> Run(env, s, events).job.phase.Over?
    decreases |events|
  {
    if events != [] {
      var t := Step(env, s, events[0]);
      if t.job.phase.Over? {
        OverIsFinal(env, t, events[1..]);
      } else {
        FailureTellsWhy(env, t, events[1..]);
      }
    }
  }

  /** A job that is late when it is not over yet ends so: with 504 if its client has no header, else broken off. */
  lemma {:induction false} LatenessIs504(env: Setting, s: Stream, events: seq<Event>, k: nat)
    requires k < |events| && events[k] == TimedOut && !Run(env, s, events[..k]).job.phase.Over?
    ensures var before, p := Run(env, s, events[..k]).job.phase, Run(env, s, events).job.phase;
            p == Over(before.Streaming?, before.Streaming?, true, 504)
    decreases |events|
  {
    var t := Step(env, s, events[0]);
    if k == 0 {
      assert events[..0] == [];
      OverIsFinal(env, t, events[1..]);
    } else {
      assert events[..k][1..] == events[1..][..k - 1] && events[..k][0] == events[0];
      LatenessIs504(env, t, events[1..], k - 1);
    }
  }

  // ------------------------------------------------------------ round trip

  ghost predicate HasHeaders(s: Stream)
  {
    s.job.phase.Streaming? || (s.job.phase.Over? && s.job.phase.hadHeaders)
  }

  function HeaderBlock(env: Setting, s: Stream): string
    requires s.log.bodyAt <= |s.log.read|
  {
    Rendered(env.phrases, env.keepAlive, s.log.read[..s.log.bodyAt])
  }

  /** The log lies within the program's output. */
  ghost predicate Within(program: string, s: Stream)
  {
    s.log.read <= program && s.log.bodyAt <= |s.log.read|
  }

  /** The bytes behind the header that were read. */
  function BodyRead(s: Stream): string
    requires s.log.bodyAt <= |s.log.read|
  {
    s.log.read[s.log.bodyAt..]
  }

  ghost predicate Splits(all: string, block: string)
  {
    4 <= |block| <= |all| && Seek(all, BLANK_LINE, 0) == Some(|block| - 4)
  }

  /** The header in front of the body says what it must: above all that the body is chunked. */
  ghost predicate Announced(env: Setting, s: Stream, all: string)
    requires s.log.bodyAt <= |s.log.read|
  {
    |HeaderBlock(env, s)| <= |all|
    && CgiHeaderLaws.Announces(all, env.phrases, env.keepAlive, s.log.read[..s.log.bodyAt], all[|HeaderBlock(env, s)|..])
  }

  /** A client that has received the whole response splits it at the first blank line, reads that the rest is
      chunked and decodes it with the decoder of this very server: it gets the bytes the program wrote behind
      its header, all of them when the job finished, a prefix when it failed. */
  lemma ClientGetsBody(env: Setting, program: string, events: seq<Event>, room: nat)
    requires Printable(env.phrases)
    ensures var s := Run(env, Start(program), events);
            HasHeaders(s) ==>
              && Within(program, s) && s.job.bodyWritten == |BodyRead(s)| && BodyRead(s) <= program[s.log.bodyAt..]
              && Splits(s.sent + s.job.out, HeaderBlock(env, s)) && Announced(env, s, s.sent + s.job.out)
              && (|BodyRead(s)| <= room ==>
                    Chunked.DecodeWhole((s.sent + s.job.out)[|HeaderBlock(env, s)|..], room) == Decoded(s))
              && (s.job.phase.Over? && !s.job.phase.failed ==> BodyRead(s) == program[s.log.bodyAt..])
  {
    StartIsInv(env, program);
    RunKeepsInv(env, program, Start(program), events);
    var s := Run(env, Start(program), events);
    if HasHeaders(s) {
      BodyIsWithin(env, program, s);
      ResponseDecodes(env, program, s, room);
    }
  }

  function Tail(s: Stream): string
  {
    if s.job.phase.Over? && s.job.phase.terminated then TERMINATOR else ""
  }

  lemma BodyIsWithin(env: Setting, program: string, s: Stream)
    requires Inv(env, program, s) && HasHeaders(s)
    ensures Within(program, s) && BodyRead(s) == Flat(s.log.blocks) && s.job.bodyWritten == |BodyRead(s)|
    ensures BodyRead(s) + s.unread == program[s.log.bodyAt..]
    ensures s.job.phase.Over? && !s.job.phase.failed ==> BodyRead(s) == program[s.log.bodyAt..]
  {
    MoreIsBehind(s.log.read, s.unread, 0, s.log.bodyAt);
    if s.unread == "" { assert BodyRead(s) + "" == BodyRead(s); }
  }

  /** What the invariant says of the response, in the shape the client sees. */
  lemma ResponseIs(env: Setting, program: string, s: Stream)
    requires Inv(env, program, s) && HasHeaders(s)
    ensures s.log.bodyAt <= |s.log.read| && s.sent + s.job.out == HeaderBlock(env, s) + (Encode(s.log.blocks) + Tail(s))
  {
    Assoc(HeaderBlock(env, s), Encode(s.log.blocks), Tail(s));
    assert Response(env, s) + "" == Response(env, s);
  }

  lemma Behind(block: string, coded: string)
    ensures (block + coded)[|block|..] == coded
  {
  }

  /** How a whole body decodes, with and without its terminator. */
  function Decoded(s: Stream): Chunked.Message
    requires s.log.bodyAt <= |s.log.read|
  {
    if s.job.phase.Over? && s.job.phase.terminated then Chunked.Whole(BodyRead(s), "") else Chunked.Partial(BodyRead(s))
  }

  lemma BlockSplits(phrases: Phrases, keepAlive: bool, header: string, coded: string, all: string)
    requires Printable(phrases) && all == Rendered(phrases, keepAlive, header) + coded
    ensures Splits(all, Rendered(phrases, keepAlive, header))
    ensures all[|Rendered(phrases, keepAlive, header)|..] == coded
    ensures CgiHeaderLaws.Announces(all, phrases, keepAlive, header, coded)
  {
    CgiHeaderLaws.ClientReadsHeader(phrases, keepAlive, header, coded);
    HeaderBlockIsDelimited(phrases, keepAlive, header, coded);
    Behind(Rendered(phrases, keepAlive, header), coded);
  }

  lemma ResponseSplits(env: Setting, program: string, s: Stream)
    requires Printable(env.phrases) && Inv(env, program, s) && HasHeaders(s) && Within(program, s)
    ensures Splits(s.sent + s.job.out, HeaderBlock(env, s)) && Announced(env, s, s.sent + s.job.out)
    ensures (s.sent + s.job.out)[|HeaderBlock(env, s)|..] == Encode(s.log.blocks) + Tail(s)
  {
    ResponseIs(env, program, s);
    BlockSplits(env.phrases, env.keepAlive, s.log.read[..s.log.bodyAt], Encode(s.log.blocks) + Tail(s), s.sent + s.job.out);
  }

  lemma ResponseDecodes(env: Setting, program: string, s: Stream, room: nat)
    requires Printable(env.phrases) && Inv(env, program, s) && HasHeaders(s) && Within(program, s)
    ensures Splits(s.sent + s.job.out, HeaderBlock(env, s)) && Announced(env, s, s.sent + s.job.out)
    ensures |BodyRead(s)| <= room ==>
              Chunked.DecodeWhole((s.sent + s.job.out)[|HeaderBlock(env, s)|..], room) == Decoded(s)
  {
    ResponseSplits(env, program, s);
    BodyIsWithin(env, program, s);
    if |BodyRead(s)| <= room { TailDecodes(s, room); }
  }

  lemma TailDecodes(s: Stream, room: nat)
    requires s.log.bodyAt <= |s.log.read| && BodyRead(s) == Flat(s.log.blocks)
    requires Small(s.log.blocks) && |Flat(s.log.blocks)| <= room
    ensures Chunked.DecodeWhole(Encode(s.log.blocks) + Tail(s), room) == Decoded(s)
  {
    WriterRoundTrip(s.log.blocks, "", room);
    assert TERMINATOR + "" == TERMINATOR && Encode(s.log.blocks) + "" == Encode(s.log.blocks);
  }

  /** And a client that has received only part of it has decoded a prefix. */
  lemma PartialClientGetsPrefix(env: Setting, program: string, events: seq<Event>, max: nat)
    ensures var s := Run(env, Start(program), events);
            HasHeaders(s) ==>
              && Within(program, s)
              && (|HeaderBlock(env, s)| <= |s.sent| && |s.log.read| <= max ==>
                   var p := Chunked.Decode(START, s.sent[|HeaderBlock(env, s)|..], max);
                   !p.Failed? && p.d.body <= program[s.log.bodyAt..])
  {
    StartIsInv(env, program);
    RunKeepsInv(env, program, Start(program), events);
    var s := Run(env, Start(program), events);
    if HasHeaders(s) {
      BodyIsWithin(env, program, s);
      if |HeaderBlock(env, s)| <= |s.sent| && |s.log.read| <= max { SentDecodes(env, program, s, max); }
    }
  }

  lemma SentIsCut(env: Setting, program: string, s: Stream)
    requires Inv(env, program, s) && HasHeaders(s) && Within(program, s) && |HeaderBlock(env, s)| <= |s.sent|
    ensures var n := |s.sent| - |HeaderBlock(env, s)|;
            && n <= |Encode(s.log.blocks) + TERMINATOR|
            && s.sent[|HeaderBlock(env, s)|..] == (Encode(s.log.blocks) + TERMINATOR)[..n]
  {
    ResponseIs(env, program, s);
    CutOfCoding(s.sent, s.job.out, HeaderBlock(env, s), Encode(s.log.blocks), Tail(s));
  }

  lemma PrefixOfPrefix(a: string, b: string, c: string)
    requires a <= b && b <= c
    ensures a <= c
  {
  }

  lemma GotDecodes(blocks: seq<string>, got: string, body: string, max: nat)
    requires Small(blocks) && |Flat(blocks)| <= max && Flat(blocks) <= body
    requires |got| <= |Encode(blocks) + TERMINATOR| && got == (Encode(blocks) + TERMINATOR)[..|got|]
    ensures var p := Chunked.Decode(START, got, max); !p.Failed? && p.d.body <= body
  {
    CutDecodesToPrefix(blocks, |got|, max);
    PrefixOfPrefix(Chunked.Decode(START, got, max).d.body, Flat(blocks), body);
  }

  lemma SentDecodes(env: Setting, program: string, s: Stream, max: nat)
    requires Inv(env, program, s) && HasHeaders(s) && Within(program, s)
    requires |HeaderBlock(env, s)| <= |s.sent| && |s.log.read| <= max
    ensures var p := Chunked.Decode(START, s.sent[|HeaderBlock(env, s)|..], max);
            !p.Failed? && p.d.body <= program[s.log.bodyAt..]
  {
    BodyIsWithin(env, program, s);
    SentIsCut(env, program, s);
    GotDecodes(s.log.blocks, s.sent[|HeaderBlock(env, s)|..], program[s.log.bodyAt..], max);
  }

  lemma CutOfCoding(sent: string, out: string, block: string, coded: string, tail: string)
    requires sent + out == block + (coded + tail) && |block| <= |sent| && (tail == "" || tail == TERMINATOR)
    ensures |sent| - |block| <= |coded + TERMINATOR|
    ensures sent[|block|..] == (coded + TERMINATOR)[..|sent| - |block|]
  {
    var n := |sent| - |block|;
    assert |sent| <= |block| + |coded| + |tail|;
    assert sent[|block|..] == (sent + out)[|block|..][..n] == (coded + tail)[..n];
    assert (coded + tail)[..n] == (coded + TERMINATOR)[..n];
  }

  // ---------------------------------------------------------- back-pressure

  /** Before headers at most 8192 bytes wait between events, so the append never meets its limit; a
      body read starts below the high-water mark and leaves at most one read and its framing above
      it; no job reads more than 8001 times. */
  lemma BackPressure(env: Setting, program: string, events: seq<Event>, e: Event)
    ensures var s := Run(env, Start(program), events);
            var t := Step(env, s, e);
            && s.job.readCount <= LIMIT_INTERNAL_RECURSION + 1
            && (s.job.phase.Heading? ==> |s.job.pending| <= FHLS && |s.job.pending| + READ_SIZE <= LIMIT_REQUEST_BODY)
            && (s.job.phase.Streaming? && t.log.read != s.log.read ==>
                 |s.job.out| < CGI_STREAM_HWM && |t.job.out| < CGI_STREAM_HWM + READ_SIZE + 8)
  {
    StartIsInv(env, program);
    RunKeepsInv(env, program, Start(program), events);
    var s := Run(env, Start(program), events);
    if s.job.phase.Streaming? && e.PipeData? { FramingIsSmall(s.unread[..Offered(s, e.n)]); }
  }

  /** Once a job is over nothing more is written: the client receives what is there. */
  lemma {:induction false} OverIsFinal(env: Setting, s: Stream, events: seq<Event>)
    requires s.job.phase.Over?
    ensures var t := Run(env, s, events);
            t.job.phase == s.job.phase && t.log == s.log && t.sent + t.job.out == s.sent + s.job.out
    decreases |events|
  {
    if events != [] {
      var e := events[0];
      if e.SocketTakes? {
        var k := AtMost(e.n, |s.job.out|);
        assert (s.sent + s.job.out[..k]) + s.job.out[k..] == s.sent + s.job.out;
      }
      OverIsFinal(env, Step(env, s, e), events[1..]);
    }
  }
}
