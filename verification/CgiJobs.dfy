/** `_handleCgiEvent`, `_finishCgiJob` and `_failCgiJob` in place, each proved to do to the job and the
    client's write buffer what module CgiPipe says, whatever the buffer's limit. */
module CgiJobs {
  import opened Text
  import opened ChunkWriter
  import opened CgiHeaders
  import opened CgiStream
  import opened CgiPipe
  import Buffers

  class CgiJob {
    const resultBuffer: Buffers.Buffer
    var headersSent: bool
    var bodyWritten: nat
    var parentRequest: nat

    constructor (maxSize: nat)
      ensures fresh(resultBuffer) && resultBuffer.Valid() && resultBuffer.Contents() == ""
      ensures !headersSent && bodyWritten == 0 && parentRequest == 0
    {
      resultBuffer := new Buffers.Buffer(maxSize);
      headersSent, bodyWritten, parentRequest := false, 0, 0;
    }

    ghost function View(out: string): Job
      reads this, resultBuffer
    {
      Job(if headersSent then Streaming else Heading, resultBuffer.Contents(), bodyWritten, parentRequest, out)
    }

    /** The erased buffer of a job that streams is never used again. */
    ghost predicate Valid()
      reads this, resultBuffer
    {
      !headersSent ==> resultBuffer.Valid() && |resultBuffer.Contents()| <= FHLS
    }
  }

  /** The same for the client: the job's phase and what is in the write buffer. */
  ghost predicate Alike(o: Outcome, p: Outcome)
  {
    o.Escaped? == p.Escaped? && (o.Kept? ==> o.job.phase == p.job.phase && o.job.out == p.job.out)
  }

  /** Where a step inside the `try` block leaves job and buffer: with the outcome, or with an exception
      after which failing the job as it now stands gives the outcome. */
  ghost predicate Leaves(env: Setting, job: CgiJob, wb: Buffers.Buffer, o: Outcome, closed: bool, thrown: bool)
    reads job, job.resultBuffer, wb
  {
    if thrown then Alike(Failed(env, job.View(wb.Contents()), 413, wb.cmbs), o)
    else o.Kept? && wb.Contents() == o.job.out && closed == o.job.phase.Over?
         && (!closed ==> job.View(wb.Contents()) == o.job && job.Valid())
  }

  /** The job ends; the caller closes its pipe. */
  method FailCgiJob(env: Setting, job: CgiJob, wb: Buffers.Buffer, code: nat) returns (thrown: bool)
    requires wb.Valid() && wb != job.resultBuffer
    modifies wb
    ensures wb.Valid() && wb.cmbs == old(wb.cmbs)
    ensures var o := Failed(env, old(job.View(wb.Contents())), code, wb.cmbs);
            thrown == o.Escaped? && wb.Contents() == if thrown then old(wb.Contents()) else o.job.out
  {
    if !job.headersSent {
      thrown := wb.Append(env.errorPage(code));
    } else {
      thrown := wb.Append(TERMINATOR);
    }
  }

  method FinishCgiJob(env: Setting, job: CgiJob, wb: Buffers.Buffer) returns (thrown: bool)
    requires wb.Valid() && wb != job.resultBuffer
    modifies wb
    ensures wb.Valid() && wb.cmbs == old(wb.cmbs)
    ensures Leaves(env, job, wb, FinishedInside(env, old(job.View(wb.Contents())), wb.cmbs), true, thrown)
  {
    thrown := false;
    if !job.headersSent {
      thrown := wb.Append(env.errorPage(502));
    } else if !env.head {
      thrown := wb.Append(TERMINATOR);
    }
  }

  /** The header is still incomplete; it may not become too long. */
  method AwaitHeader(env: Setting, job: CgiJob, wb: Buffers.Buffer) returns (closed: bool, thrown: bool)
    requires !job.headersSent && job.resultBuffer.Valid() && wb.Valid() && wb != job.resultBuffer
    modifies wb
    ensures wb.Valid() && wb.cmbs == old(wb.cmbs)
    ensures var j := old(job.View(wb.Contents()));
            Leaves(env, job, wb, if |j.pending| > FHLS then FailedInside(env, j, 502, wb.cmbs) else Kept(j), closed, thrown)
  {
    closed, thrown := false, false;
    if |job.resultBuffer.Contents()| > FHLS {
      thrown := FailCgiJob(env, job, wb, 502);
      closed := true;
    }
  }

  /** The header block and the first chunk; from here on the job streams. */
  method SendHeaders(env: Setting, job: CgiJob, wb: Buffers.Buffer, bodyStart: nat, ghost o: Outcome) returns (thrown: bool)
    requires wb.Valid() && wb != job.resultBuffer && !job.headersSent && bodyStart <= |job.resultBuffer.Contents()|
    requires o == HeadersInside(env, job.View(wb.Contents()), bodyStart, wb.cmbs)
    modifies job`headersSent, job`bodyWritten, job.resultBuffer, wb
    ensures wb.Valid() && wb.cmbs == old(wb.cmbs) && Leaves(env, job, wb, o, false, thrown)
  {
    var data := job.resultBuffer.Contents();
    thrown := FlushCgiHeaders(env.phrases, env.keepAlive, data[..bodyStart], wb);
    if thrown { return; }
    job.headersSent := true;
    thrown := SendFirstChunk(env, job, wb, data[bodyStart..], o);
  }

  method SendFirstChunk(env: Setting, job: CgiJob, wb: Buffers.Buffer, leftover: string, ghost o: Outcome) returns (thrown: bool)
    requires wb.Valid() && wb != job.resultBuffer && job.headersSent
    requires o == ChunkInside(env, job.View(wb.Contents()).(pending := ""), leftover, wb.cmbs)
    modifies job`bodyWritten, job.resultBuffer, wb
    ensures wb.Valid() && wb.cmbs == old(wb.cmbs) && Leaves(env, job, wb, o, false, thrown)
  {
    thrown := WriteChunk(wb, leftover);
    if thrown { return; }
    job.bodyWritten := job.bodyWritten + |leftover|;
    job.resultBuffer.Earase();
  }

  method SeekHeader(env: Setting, job: CgiJob, wb: Buffers.Buffer, ghost o: Outcome) returns (closed: bool, thrown: bool)
    requires !job.headersSent && job.resultBuffer.Valid() && wb.Valid() && wb != job.resultBuffer
    requires o == HeaderInside(env, job.View(wb.Contents()), wb.cmbs)
    modifies job`headersSent, job`bodyWritten, job.resultBuffer, wb
    ensures wb.Valid() && wb.cmbs == old(wb.cmbs) && Leaves(env, job, wb, o, closed, thrown)
  {
    closed, thrown := false, false;
    var bodyStart := FindHeaderEnd(job.resultBuffer.Contents());
    if bodyStart.None? {
      closed, thrown := AwaitHeader(env, job, wb);
    } else {
      thrown := SendHeaders(env, job, wb, bodyStart.value, o);
    }
  }

  method AppendFits(buf: Buffers.Buffer, bytes: string)
    requires buf.Valid() && |buf.Contents()| <= FHLS && |bytes| <= READ_SIZE
    modifies buf
    ensures buf.Valid() && buf.Contents() == old(buf.Contents()) + bytes
  {
    var thrown := buf.AppendResult(bytes);
    assert !thrown;
  }

  /** Bytes of the program while its header is incomplete; the append to the job's own buffer cannot
      meet the limit. */
  method TakeHeaderData(env: Setting, job: CgiJob, wb: Buffers.Buffer, bytes: string) returns (closed: bool, thrown: bool)
    requires job.Valid() && !job.headersSent && wb.Valid() && wb != job.resultBuffer && |bytes| <= READ_SIZE
    modifies job, job.resultBuffer, wb
    ensures wb.Valid() && wb.cmbs == old(wb.cmbs)
    ensures Leaves(env, job, wb, DataInside(env, old(job.View(wb.Contents())), bytes, wb.cmbs), closed, thrown)
  {
    ghost var o := DataInside(env, job.View(wb.Contents()), bytes, wb.cmbs);
    job.parentRequest := job.parentRequest + 1;
    AppendFits(job.resultBuffer, bytes);
    closed, thrown := SeekHeader(env, job, wb, o);
  }

  method TakeBodyData(env: Setting, job: CgiJob, wb: Buffers.Buffer, bytes: string) returns (thrown: bool)
    requires job.headersSent && wb.Valid() && wb != job.resultBuffer
    modifies job`bodyWritten, job`parentRequest, wb
    ensures wb.Valid() && wb.cmbs == old(wb.cmbs)
    ensures Leaves(env, job, wb, DataInside(env, old(job.View(wb.Contents())), bytes, wb.cmbs), false, thrown)
  {
    job.parentRequest := job.parentRequest + 1;
    thrown := WriteChunk(wb, bytes);
    if !thrown { job.bodyWritten := job.bodyWritten + |bytes|; }
  }

  /** The `try` block. */
  method ReadPipe(env: Setting, job: CgiJob, wb: Buffers.Buffer, result: ReadResult) returns (closed: bool, thrown: bool)
    requires job.Valid() && wb.Valid() && wb != job.resultBuffer
    requires result.Bytes? ==> |result.bytes| <= READ_SIZE
    modifies job, job.resultBuffer, wb
    ensures wb.Valid() && wb.cmbs == old(wb.cmbs)
    ensures var j := old(job.View(wb.Contents()));
            var o := match result
              case Bytes(bytes) => DataInside(env, j, bytes, wb.cmbs)
              case EndOfFile => FinishedInside(env, j, wb.cmbs)
              case WouldBlock => Kept(j);
            Leaves(env, job, wb, o, closed, thrown)
  {
    closed, thrown := false, false;
    match result
    case Bytes(bytes) =>
      if !job.headersSent {
        closed, thrown := TakeHeaderData(env, job, wb, bytes);
      } else {
        thrown := TakeBodyData(env, job, wb, bytes);
      }
    case EndOfFile =>
      job.parentRequest := 0;
      thrown := FinishCgiJob(env, job, wb);
      closed := true;
    case WouldBlock =>
  }

  /** `closed` when the job is over; `escaped` when an exception leaves the handler. */
  method HandleCgiEvent(env: Setting, job: CgiJob, wb: Buffers.Buffer, result: ReadResult)
    returns (closed: bool, escaped: bool)
    requires job.Valid() && wb.Valid() && wb != job.resultBuffer
    requires result.Bytes? ==> |result.bytes| <= READ_SIZE
    modifies job, job.resultBuffer, wb
    ensures wb.Valid() && wb.cmbs == old(wb.cmbs)
    ensures var o := OnPipeWithin(env, old(job.View(wb.Contents())), result, wb.cmbs);
            escaped == o.Escaped? &&
            (!escaped ==> wb.Contents() == o.job.out && closed == o.job.phase.Over?
                          && (!closed ==> job.View(wb.Contents()) == o.job && job.Valid()))
  {
    closed, escaped := false, false;
    if job.parentRequest > LIMIT_INTERNAL_RECURSION {
      escaped := FailCgiJob(env, job, wb, 502);
      closed := true;
      return;
    }
    if job.headersSent && |wb.Contents()| >= CGI_STREAM_HWM { return; }
    var thrown;
    closed, thrown := ReadPipe(env, job, wb, result);
    if thrown {
      escaped := FailCgiJob(env, job, wb, 413);
      closed := true;
    }
  }
}
