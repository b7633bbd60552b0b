/** What every event comes to, for the connection it is for and for all others: stated on one step of the loop,
    by what the connection was, not by who handles it. */
module LoopOutcomes {
  import opened Text
  import opened EventTable
  import opened LoopState
  import opened LoopInvariant
  import opened LoopRun
  import opened LoopSteps
  import opened LoopStreams
  import Buffers
  import Children
  import CgiStream
  import CgiPipe
  import ChunkWriter

  // -------------------------------------------------------------- statement

  /** An event in force reaches a connection. */
  ghost predicate Reaches(g: Loop, e: Event)
  {
    Inv(g) && !g.fallen && Awaits(g, e) && Live(g.table, e) && e.fd in g.clients
  }

  /** No program is writing to the connection. */
  predicate NoJob(g: Loop, c: int) { forall j :: j in g.jobs ==> g.jobs[j].client != c }

  /** The body files of other connections are left open. */
  predicate SparesFiles(g: Loop, h: Loop, c: int)
  {
    forall s :: s in g.spools && g.spools[s] != c ==> s in h.spools && h.spools[s] == g.spools[s]
  }

  /** Nothing changes but the connection `c` and its body file. */
  predicate Around(g: Loop, h: Loop, c: int)
  {
    && h.listeners == g.listeners && h.clients - {c} == g.clients - {c}
    && h.jobs == g.jobs && h.wards == g.wards && SparesFiles(g, h, c) && !h.fallen
  }

  /** `c` is closed, with its job: its descriptors are free and nobody is registered for them. */
  ghost predicate Closes(g: Loop, h: Loop, c: int)
  {
    && h.clients == g.clients - {c} && h.listeners == g.listeners && !h.fallen && SparesFiles(g, h, c)
    && c !in h.open && KindOf(h.table, c).Invalid? && SpoolsOf(h, c) == {}
    && (forall j :: j in h.jobs <==> j in g.jobs && g.jobs[j].client != c)
    && (forall j :: j in h.jobs ==> h.jobs[j] == g.jobs[j])
    && (forall j :: j in g.jobs && g.jobs[j].client == c ==> j !in h.open && KindOf(h.table, j).Invalid?)
    && (NoJob(g, c) ==> h.wards == g.wards)
  }

  lemma NoJobIsNone(g: Loop, c: int)
    requires NoJob(g, c)
    ensures JobOf(g.jobs, c).None?
  {
  }

  /** Whoever is dispatched to, the connection's handler is what happens. */
  lemma ReachedIsHandled(env: Env, g: Loop, e: Event, a: Answers)
    requires Reaches(g, e)
    ensures Do(env, g, Occurs(e, a)) == HandleClient(env, g, e.fd, e.bits, a) && Fitting(g, e.fd, e.bits) && Agree(g, e.fd)
    ensures Well(Do(env, g, Occurs(e, a)))
  {
    DispatchIs(env, g, e, a);
    DoKeepsInv(env, g, Occurs(e, a));
  }

  // ---------------------------------------------------------------- closing

  lemma ClosedJobs(g: Loop, c: int, a: Answers)
    requires Single(g.jobs)
    ensures var h := CloseClient(g, c, a);
            && (forall j :: j in h.jobs <==> j in g.jobs && g.jobs[j].client != c)
            && (forall j :: j in h.jobs ==> h.jobs[j] == g.jobs[j])
            && (NoJob(g, c) ==> h.wards == g.wards)
  {
  }

  lemma ClosedLoop(g: Loop, c: int, a: Answers)
    requires c in g.clients
    ensures var h := CloseClient(g, c, a);
            && h.clients == g.clients - {c} && h.listeners == g.listeners && h.fallen == g.fallen
            && SparesFiles(g, h, c) && SpoolsOf(h, c) == {} && h.open <= g.open && c !in h.open
            && forall j :: j in g.jobs && JobOf(g.jobs, c) == Some(j) ==> j !in h.open
  {
  }

  lemma ClosedIsGone(g: Loop, c: int, a: Answers)
    requires Inv(g) && !g.fallen && c in g.clients
    ensures Closes(g, CloseClient(g, c, a), c)
  {
    var h := CloseClient(g, c, a);
    CloseClientKeepsInv(g, c, a);
    ClosedLoop(g, c, a);
    ClosedJobs(g, c, a);
    GoneIsInvalid(h, c);
    forall j | j in g.jobs && g.jobs[j].client == c ensures j !in h.open && KindOf(h.table, j).Invalid? {
      JobIs(g.jobs, j);
      GoneIsInvalid(h, j);
    }
  }

  lemma GoneIsInvalid(h: Loop, fd: int)
    requires Inv(h) && fd !in h.open
    ensures KindOf(h.table, fd).Invalid?
  {
    assert Expected(h, fd) == Invalid;
  }

  /** An error closes the connection. */
  lemma ErrorCloses(env: Env, g: Loop, e: Event, a: Answers)
    requires Reaches(g, e) && e.bits.error
    ensures Closes(g, Do(env, g, Occurs(e, a)), e.fd)
  {
    ReachedIsHandled(env, g, e, a);
    ClosedIsGone(g, e.fd, a);
  }

  /** A hang-up closes it when nothing is left to send or a program is writing; otherwise it is remembered. */
  lemma HangUpClosesIff(env: Env, g: Loop, e: Event, a: Answers)
    requires Reaches(g, e) && e.bits.hangup && !e.bits.error
    ensures var h, v := Do(env, g, Occurs(e, a)), g.clients[e.fd];
            if v.out == "" || !NoJob(g, e.fd) then Closes(g, h, e.fd)
            else Around(g, h, e.fd) && e.fd in h.clients && h.clients[e.fd] == v.(halfClosed := true)
  {
    ReachedIsHandled(env, g, e, a);
    if g.clients[e.fd].out == "" || !NoJob(g, e.fd) { ClosedIsGone(g, e.fd, a); } else { HangUpIsRemembered(env, g, e.fd, e.bits, a); }
  }

  lemma HangUpIsRemembered(env: Env, g: Loop, c: int, bits: Bits, a: Answers)
    requires c in g.clients && !g.fallen && bits.hangup && !bits.error && g.clients[c].out != "" && NoJob(g, c)
    ensures var h := HandleClient(env, g, c, bits, a);
            Around(g, h, c) && c in h.clients && h.clients[c] == g.clients[c].(halfClosed := true)
  {
    NoJobIsNone(g, c);
  }

  // ---------------------------------------------------------------- writing

  ghost predicate Writes(g: Loop, e: Event)
  {
    Reaches(g, e) && e.bits.output && !e.bits.input && !e.bits.hangup && !e.bits.error
  }

  /** The whole of a response is sent: the connection reads again, with its limit, if it is kept alive and its
      peer has not closed its half; otherwise it is closed. */
  lemma SentWhole(env: Env, g: Loop, e: Event, a: Answers)
    requires Writes(g, e) && NoJob(g, e.fd) && a.takes >= |g.clients[e.fd].out|
    ensures var h, v := Do(env, g, Occurs(e, a)), g.clients[e.fd];
            && (e.fd in h.clients <==> v.keepAlive && !v.halfClosed)
            && (e.fd in h.clients ==>
                  Around(g, h, e.fd) && SpoolsOf(h, e.fd) == {} && h.clients[e.fd] == Connection(Reading, "", v.limit, false, false, false)
                  && MaskOf(h.table, e.fd) == Some(Mask(true, false)))
            && (e.fd !in h.clients ==> Closes(g, h, e.fd))
  {
    var h, v := Do(env, g, Occurs(e, a)), g.clients[e.fd];
    ReachedIsHandled(env, g, e, a);
    WholeIsWritten(env, g, e.fd, a);
    if v.keepAlive && !v.halfClosed {
      assert Agree(h, e.fd);
    } else {
      SendThenClose(g, e.fd, a);
    }
  }

  lemma WholeIsWritten(env: Env, g: Loop, c: int, a: Answers)
    requires c in g.clients && !g.fallen && NoJob(g, c) && a.takes >= |g.clients[c].out|
    ensures var h, v := HandleWrite(env, g, c, a), g.clients[c];
            if v.keepAlive && !v.halfClosed
            then Around(g, h, c) && SpoolsOf(h, c) == {} && c in h.clients && h.clients[c] == Connection(Reading, "", v.limit, false, false, false)
            else h == CloseClient(Send(g, c, a.takes), c, a)
  {
    NoJobIsNone(g, c);
    assert g.clients[c].out[|g.clients[c].out|..] == "";
  }

  lemma SendThenClose(g: Loop, c: int, a: Answers)
    requires Inv(g) && !g.fallen && c in g.clients && NoJob(g, c)
    ensures Closes(g, CloseClient(Send(g, c, a.takes), c, a), c)
  {
    ClosedIsGone(g, c, a);
    NoJobIsNone(g, c);
    var v := g.clients[c];
    var k := v.(out := v.out[CgiStream.AtMost(a.takes, |v.out|)..]);
    assert g.clients[c := k] - {c} == g.clients - {c};
    assert CloseClient(Send(g, c, a.takes), c, a) == CloseClient(g, c, a);
  }

  lemma LeavesTheRest(env: Env, g: Loop, c: int, a: Answers)
    requires c in g.clients && NoJob(g, c) && a.takes < |g.clients[c].out| && !g.fallen && g.clients[c].state == Writing
    ensures var h, v := HandleWrite(env, g, c, a), g.clients[c];
            Around(g, h, c) && c in h.clients && h.clients[c] == v.(out := v.out[a.takes..]) && h.spools == g.spools
  {
    NoJobIsNone(g, c);
  }

  /** What the socket did not take stays, and nothing else changes. */
  lemma SentPart(env: Env, g: Loop, e: Event, a: Answers)
    requires Writes(g, e) && NoJob(g, e.fd) && a.takes < |g.clients[e.fd].out|
    ensures var h, v := Do(env, g, Occurs(e, a)), g.clients[e.fd];
            && Around(g, h, e.fd) && e.fd in h.clients && h.clients[e.fd] == v.(out := v.out[a.takes..])
            && h.clients[e.fd].state == Writing && h.spools == g.spools && MaskOf(h.table, e.fd) == Some(Mask(false, true))
  {
    ReachedIsHandled(env, g, e, a);
    LeavesTheRest(env, g, e.fd, a);
    assert Agree(Do(env, g, Occurs(e, a)), e.fd);
  }

  // ---------------------------------------------------------------- reading

  ghost predicate Reads(g: Loop, e: Event)
  {
    Reaches(g, e) && e.bits.input && !e.bits.hangup && !e.bits.error
  }

  /** A connection that reads, with the limit of the configuration its request has chosen. */
  function Read(g: Loop, c: int, a: Answers, keepAlive: bool): Connection
    requires c in g.clients
  {
    g.clients[c].(limit := a.limit, keepAlive := keepAlive)
  }

  /** The connection `c` becomes `v`, and nothing else changes but its body file. */
  predicate Becomes(g: Loop, h: Loop, c: int, v: Connection)
  {
    && h.clients == g.clients[c := v] && h.listeners == g.listeners && h.jobs == g.jobs && h.wards == g.wards
    && SparesFiles(g, h, c) && !h.fallen
  }

  lemma BecomesThen(g: Loop, k: Loop, h: Loop, c: int, u: Connection, v: Connection)
    requires Becomes(g, k, c, u) && Becomes(k, h, c, v)
    ensures Becomes(g, h, c, v)
  {
    assert g.clients[c := u][c := v] == g.clients[c := v];
  }

  /** A connection without job and with nothing to send. */
  predicate IsIdle(g: Loop, c: int)
  {
    c in g.clients && !g.fallen && g.clients[c].out == "" && NoJob(g, c) && g.spools.Keys <= g.open
  }

  /** The connection as the reaction finds it. */
  function Prepared(g: Loop, c: int, a: Answers): Loop
    requires c in g.clients
  {
    Configure(OpenSpool(g, c, a.spool), c, a.limit)
  }

  lemma ReadingIsIdle(g: Loop, c: int)
    requires Inv(g) && !g.fallen && c in g.clients && g.clients[c].state == Reading
    ensures IsIdle(g, c)
  {
    assert Agree(g, c);
    forall s | s in g.spools ensures s in g.open {}
  }

  lemma ReadsIdle(env: Env, g: Loop, e: Event, a: Answers)
    requires Reads(g, e)
    ensures IsIdle(g, e.fd) && g.clients[e.fd].state == Reading
    ensures Do(env, g, Occurs(e, a)) == React(env, Prepared(g, e.fd, a), e.fd, a)
  {
    ReachedIsHandled(env, g, e, a);
    ReadingIsIdle(g, e.fd);
    IdleReacts(env, g, e.fd, e.bits, a);
  }

  lemma IdleReacts(env: Env, g: Loop, c: int, bits: Bits, a: Answers)
    requires c in g.clients && g.clients[c].state == Reading && bits.input && !bits.error && !bits.hangup
    ensures HandleClient(env, g, c, bits, a) == React(env, Prepared(g, c, a), c, a)
  {
  }

  lemma PreparedIs(g: Loop, c: int, a: Answers)
    requires IsIdle(g, c)
    ensures Becomes(g, Prepared(g, c, a), c, g.clients[c].(limit := a.limit))
    ensures Prepared(g, c, a).open <= g.open + (if a.spool.Some? then {a.spool.value} else {})
    ensures Prepared(g, c, a).table == g.table
  {
  }

  lemma QuietReads(env: Env, g: Loop, c: int, a: Answers)
    requires IsIdle(g, c) && a.reaction.Quiet?
    ensures Becomes(g, React(env, Prepared(g, c, a), c, a), c, Read(g, c, a, a.reaction.keepAlive))
  {
    var k := Prepared(g, c, a);
    PreparedIs(g, c, a);
    Remembers(k, c, a.reaction.keepAlive);
    BecomesThen(g, k, Remember(k, c, a.reaction.keepAlive), c, k.clients[c], Read(g, c, a, a.reaction.keepAlive));
  }

  /** An unfinished request goes on being read. */
  lemma ReadsOn(env: Env, g: Loop, e: Event, a: Answers)
    requires Reads(g, e) && a.reaction.Quiet?
    ensures Becomes(g, Do(env, g, Occurs(e, a)), e.fd, Read(g, e.fd, a, a.reaction.keepAlive))
  {
    ReadsIdle(env, g, e, a);
    QuietReads(env, g, e.fd, a);
  }

  lemma Remembers(g: Loop, c: int, keepAlive: bool)
    requires c in g.clients && !g.fallen
    ensures Becomes(g, Remember(g, c, keepAlive), c, g.clients[c].(keepAlive := keepAlive))
  {
  }

  /** `c` is closed, and nothing else changes. */
  predicate Leaves(g: Loop, h: Loop, c: int)
  {
    && h.clients == g.clients - {c} && h.listeners == g.listeners && h.jobs == g.jobs && h.wards == g.wards
    && SparesFiles(g, h, c) && SpoolsOf(h, c) == {} && c !in h.open && !h.fallen
  }

  lemma ClosedAlone(g: Loop, c: int, a: Answers)
    requires c in g.clients && NoJob(g, c) && !g.fallen
    ensures Leaves(g, CloseClient(g, c, a), c)
  {
    NoJobIsNone(g, c);
  }

  lemma PeerCloses(env: Env, g: Loop, c: int, a: Answers)
    requires IsIdle(g, c) && a.reaction.PeerClosed?
    ensures Leaves(g, React(env, Prepared(g, c, a), c, a), c)
  {
    var k := Prepared(g, c, a);
    PreparedIs(g, c, a);
    ClosedAlone(k, c, a);
    assert k.clients - {c} == g.clients - {c};
  }

  /** A peer that closes is closed. */
  lemma PeerIsClosed(env: Env, g: Loop, e: Event, a: Answers)
    requires Reads(g, e) && a.reaction.PeerClosed?
    ensures Leaves(g, Do(env, g, Occurs(e, a)), e.fd)
  {
    ReadsIdle(env, g, e, a);
    PeerCloses(env, g, e.fd, a);
  }

  // -------------------------------------------------------------- responses

  /** Where a response stops fitting. */
  predicate StopsAt(parts: seq<string>, limit: nat, k: nat)
  {
    k < |parts| && |ChunkWriter.Flat(parts[..k])| <= limit < |ChunkWriter.Flat(parts[..k + 1])|
  }

  lemma {:induction false} AppendsOneMore(out: string, parts: seq<string>, last: string, limit: nat)
    ensures var w := Buffers.AppendAll(out, parts, limit);
            Buffers.AppendAll(out, parts + [last], limit) ==
            if w.thrown then w
            else if Buffers.Room(w.out, last, limit) then Buffers.Appended(w.out + last, false) else Buffers.Appended(w.out, true)
    decreases |parts|
  {
    if parts == [] {
      assert parts + [last] == [last] && [last][1..] == [];
    } else if Buffers.Room(out, parts[0], limit) {
      assert (parts + [last])[1..] == parts[1..] + [last];
      AppendsOneMore(out + parts[0], parts[1..], last, limit);
    }
  }

  lemma {:induction false} AppendsFlat(parts: seq<string>, limit: nat)
    requires |ChunkWriter.Flat(parts)| <= limit
    ensures Buffers.AppendAll("", parts, limit) == Buffers.Appended(ChunkWriter.Flat(parts), false)
    decreases |parts|
  {
    if parts != [] {
      var n := |parts| - 1;
      AppendsFlat(parts[..n], limit);
      AppendsOneMore("", parts[..n], parts[n], limit);
      assert parts == parts[..n] + [parts[n]];
    }
  }

  lemma {:induction false} AppendsUpTo(parts: seq<string>, limit: nat) returns (k: nat)
    requires |ChunkWriter.Flat(parts)| > limit
    ensures StopsAt(parts, limit, k) && Buffers.AppendAll("", parts, limit) == Buffers.Appended(ChunkWriter.Flat(parts[..k]), true)
    decreases |parts|
  {
    var n := |parts| - 1;
    AppendsOneMore("", parts[..n], parts[n], limit);
    assert parts == parts[..n] + [parts[n]];
    if |ChunkWriter.Flat(parts[..n])| > limit {
      k := AppendsUpTo(parts[..n], limit);
      assert parts[..n][..k] == parts[..k] && parts[..n][..k + 1] == parts[..k + 1];
    } else {
      k := n;
      AppendsFlat(parts[..n], limit);
      assert parts[..n + 1] == parts;
    }
  }

  /** The page for a response that is too long stands behind what fitted, or does not fit either. */
  ghost predicate Cut(env: Env, g: Loop, h: Loop, c: int, v: Connection, fitted: string)
  {
    var out := fitted + env.setting.errorPage(413);
    if |out| <= v.limit || env.setting.errorPage(413) == "" then Becomes(g, h, c, v.(state := Writing, out := out, keepAlive := false))
    else h.fallen
  }

  /** A connection that has been answered: with the response, if it fits; otherwise with the parts that fit and
      a page that says so. */
  ghost predicate Answered(env: Env, g: Loop, h: Loop, c: int, v: Connection, parts: seq<string>)
  {
    if |ChunkWriter.Flat(parts)| <= v.limit then Becomes(g, h, c, v.(state := Writing, out := ChunkWriter.Flat(parts)))
    else exists k: nat :: StopsAt(parts, v.limit, k) && Cut(env, g, h, c, v, ChunkWriter.Flat(parts[..k]))
  }

  lemma AnsweredThen(env: Env, g: Loop, k: Loop, h: Loop, c: int, u: Connection, v: Connection, parts: seq<string>)
    requires Becomes(g, k, c, u) && Answered(env, k, h, c, v, parts)
    ensures Answered(env, g, h, c, v, parts)
  {
    var flat := ChunkWriter.Flat(parts);
    if |flat| <= v.limit {
      BecomesThen(g, k, h, c, u, v.(state := Writing, out := flat));
    } else {
      var n: nat :| StopsAt(parts, v.limit, n) && Cut(env, k, h, c, v, ChunkWriter.Flat(parts[..n]));
      CutThen(env, g, k, h, c, u, v, ChunkWriter.Flat(parts[..n]));
    }
  }

  lemma CutThen(env: Env, g: Loop, k: Loop, h: Loop, c: int, u: Connection, v: Connection, fitted: string)
    requires Becomes(g, k, c, u) && Cut(env, k, h, c, v, fitted)
    ensures Cut(env, g, h, c, v, fitted)
  {
    if !h.fallen { BecomesThen(g, k, h, c, u, v.(state := Writing, out := fitted + env.setting.errorPage(413), keepAlive := false)); }
  }

  lemma Responds(env: Env, g: Loop, c: int, parts: seq<string>)
    requires c in g.clients && g.clients[c].out == "" && !g.fallen
    ensures Answered(env, g, Respond(env, g, c, parts), c, g.clients[c], parts)
  {
    var v := g.clients[c];
    if |ChunkWriter.Flat(parts)| <= v.limit {
      AppendsFlat(parts, v.limit);
    } else {
      var k := AppendsUpTo(parts, v.limit);
      var w := v.(out := ChunkWriter.Flat(parts[..k]));
      var cut := g.(clients := g.clients[c := w]);
      Catches(env, cut, c);
      CutThen(env, g, cut, Catch(env, cut, c), c, w, v, w.out);
    }
  }

  lemma Catches(env: Env, g: Loop, c: int)
    requires c in g.clients && !g.fallen
    ensures Cut(env, g, Catch(env, g, c), c, g.clients[c], g.clients[c].out)
  {
  }

  lemma FloodCuts(env: Env, g: Loop, c: int, a: Answers)
    requires IsIdle(g, c) && a.reaction.Flooded?
    ensures Cut(env, g, React(env, Prepared(g, c, a), c, a), c, g.clients[c].(limit := a.limit), "")
  {
    var k := Prepared(g, c, a);
    PreparedIs(g, c, a);
    Catches(env, k, c);
    CutThen(env, g, k, Catch(env, k, c), c, k.clients[c], k.clients[c], "");
  }

  /** A request that met its limit is answered with the page that says so. */
  lemma FloodIsCut(env: Env, g: Loop, e: Event, a: Answers)
    requires Reads(g, e) && a.reaction.Flooded?
    ensures Cut(env, g, Do(env, g, Occurs(e, a)), e.fd, g.clients[e.fd].(limit := a.limit), "")
  {
    ReadsIdle(env, g, e, a);
    FloodCuts(env, g, e.fd, a);
  }

  lemma RespondsRemembering(env: Env, g: Loop, c: int, keepAlive: bool, parts: seq<string>)
    requires c in g.clients && g.clients[c].out == "" && !g.fallen
    ensures Answered(env, g, Respond(env, Remember(g, c, keepAlive), c, parts), c, g.clients[c].(keepAlive := keepAlive), parts)
  {
    var k := Remember(g, c, keepAlive);
    Remembers(g, c, keepAlive);
    Responds(env, k, c, parts);
    AnsweredThen(env, g, k, Respond(env, k, c, parts), c, k.clients[c], k.clients[c], parts);
  }

  lemma RefusalResponds(env: Env, g: Loop, c: int, a: Answers)
    requires IsIdle(g, c) && a.reaction.Refused?
    ensures Answered(env, g, React(env, Prepared(g, c, a), c, a), c, Read(g, c, a, a.reaction.keepAlive), [a.reaction.page])
  {
    var k := Prepared(g, c, a);
    PreparedIs(g, c, a);
    RespondsRemembering(env, k, c, a.reaction.keepAlive, [a.reaction.page]);
    AnsweredThen(env, g, k, React(env, k, c, a), c, k.clients[c], Read(g, c, a, a.reaction.keepAlive), [a.reaction.page]);
  }

  /** A refused request is answered with its page. */
  lemma RefusalIsAnswered(env: Env, g: Loop, e: Event, a: Answers)
    requires Reads(g, e) && a.reaction.Refused?
    ensures Answered(env, g, Do(env, g, Occurs(e, a)), e.fd, Read(g, e.fd, a, a.reaction.keepAlive), [a.reaction.page])
  {
    ReadsIdle(env, g, e, a);
    RefusalResponds(env, g, e.fd, a);
  }

  lemma ClosesFile(g: Loop, c: int)
    requires c in g.clients && !g.fallen
    ensures Becomes(g, CloseSpool(g, c), c, g.clients[c]) && CloseSpool(g, c).open <= g.open && CloseSpool(g, c).table == g.table
  {
    assert g.clients[c := g.clients[c]] == g.clients;
  }

  lemma ServiceResponds(env: Env, g: Loop, c: int, a: Answers)
    requires IsIdle(g, c) && a.reaction.Served?
    ensures Answered(env, g, React(env, Prepared(g, c, a), c, a), c, Read(g, c, a, a.reaction.keepAlive), a.reaction.parts)
  {
    var k, v := Prepared(g, c, a), Read(g, c, a, a.reaction.keepAlive);
    var l := CloseSpool(k, c);
    PreparedIs(g, c, a);
    ClosesFile(k, c);
    RespondsRemembering(env, l, c, a.reaction.keepAlive, a.reaction.parts);
    AnsweredThen(env, k, l, React(env, k, c, a), c, l.clients[c], v, a.reaction.parts);
    AnsweredThen(env, g, k, React(env, k, c, a), c, k.clients[c], v, a.reaction.parts);
  }

  /** A request that is served is answered with the parts of its response. */
  lemma RequestIsServed(env: Env, g: Loop, e: Event, a: Answers)
    requires Reads(g, e) && a.reaction.Served?
    ensures Answered(env, g, Do(env, g, Occurs(e, a)), e.fd, Read(g, e.fd, a, a.reaction.keepAlive), a.reaction.parts)
  {
    ReadsIdle(env, g, e, a);
    ServiceResponds(env, g, e.fd, a);
  }

  // --------------------------------------------------------------- programs

  /** The kernel's answers are descriptors nobody has and an address that is free. */
  predicate Free(g: Loop, spool: Option<int>, s: CgiStart)
  {
    && s.Started? && s.readFd != s.writeFd && s.ptr !in g.table.heap
    && s.readFd !in g.open && s.writeFd !in g.open && spool != Some(s.readFd) && spool != Some(s.writeFd)
  }

  /** A program runs: its job is fresh and belongs to the connection, its child to the job. */
  ghost predicate Runs(g: Loop, h: Loop, c: int, v: Connection, s: CgiStart)
    requires s.Started? && s.pid.Some?
  {
    && h.clients == g.clients[c := v.(state := CgiRunning)] && h.listeners == g.listeners && !h.fallen
    && h.jobs == g.jobs[s.readFd := Pipe(c, FRESH_CORE)] && SpoolsOf(h, c) == {} && SparesFiles(g, h, c)
    && h.wards.running == g.wards.running[s.readFd := Children.Child(s.pid.value, g.wards.next)]
    && h.wards.pending == g.wards.pending && h.wards.kernel == g.wards.kernel[s.pid.value := g.wards.next]
  }

  lemma Launches(env: Env, g: Loop, c: int, keepAlive: bool, head: bool, s: CgiStart, a: Answers)
    requires c in g.clients && !g.fallen && Usable(g, s) && s.pid.Some? && s.pid.value !in g.wards.kernel
    ensures Runs(g, Launch(env, g, c, keepAlive, head, s, a), c, g.clients[c].(keepAlive := keepAlive, head := head), s)
  {
  }

  lemma FreeIsUsable(g: Loop, c: int, a: Answers, s: CgiStart)
    requires IsIdle(g, c) && Free(g, a.spool, s)
    ensures Usable(Prepared(g, c, a), s)
  {
    PreparedIs(g, c, a);
  }

  lemma ProgramLaunches(env: Env, g: Loop, c: int, a: Answers)
    requires IsIdle(g, c) && a.reaction.Program? && Free(g, a.spool, a.reaction.start)
    requires a.reaction.start.pid.Some? && a.reaction.start.pid.value !in g.wards.kernel
    ensures Runs(g, React(env, Prepared(g, c, a), c, a), c, Read(g, c, a, a.reaction.keepAlive).(head := a.reaction.head), a.reaction.start)
  {
    var k := Prepared(g, c, a);
    PreparedIs(g, c, a);
    FreeIsUsable(g, c, a, a.reaction.start);
    Launches(env, k, c, a.reaction.keepAlive, a.reaction.head, a.reaction.start, a);
    RunsThen(g, k, React(env, k, c, a), c, Read(g, c, a, a.reaction.keepAlive).(head := a.reaction.head), a.reaction.start);
  }

  lemma RunsThen(g: Loop, k: Loop, h: Loop, c: int, v: Connection, s: CgiStart)
    requires s.Started? && s.pid.Some? && c in k.clients && Becomes(g, k, c, k.clients[c]) && Runs(k, h, c, v, s)
    ensures Runs(g, h, c, v, s)
  {
    assert k.clients[c := v.(state := CgiRunning)] == g.clients[c := v.(state := CgiRunning)];
  }

  /** A request for a program that can be started. */
  lemma ProgramRuns(env: Env, g: Loop, e: Event, a: Answers)
    requires Reads(g, e) && a.reaction.Program? && Free(g, a.spool, a.reaction.start)
    requires a.reaction.start.pid.Some? && a.reaction.start.pid.value !in g.wards.kernel
    ensures Runs(g, Do(env, g, Occurs(e, a)), e.fd, Read(g, e.fd, a, a.reaction.keepAlive).(head := a.reaction.head), a.reaction.start)
  {
    ReadsIdle(env, g, e, a);
    ProgramLaunches(env, g, e.fd, a);
  }

  /** The job that was registered for a program that cannot be started is taken back. */
  lemma TakesBack(env: Env, g: Loop, c: int, s: CgiStart, a: Answers)
    requires c in g.clients && g.clients[c].out == "" && !g.fallen && Usable(g, s) && s.pid.None?
    requires s.readFd !in g.jobs && s.readFd !in g.wards.running
    ensures Answered(env, g, WithPipe(env, g, c, s, a), c, g.clients[c], [env.setting.errorPage(502)])
  {
    var v := g.clients[c].(state := CgiRunning);
    var k := CloseJob(Put(OpenJob(g, c, s), c, v), s.readFd, a);
    assert g.jobs[s.readFd := Pipe(c, FRESH_CORE)] - {s.readFd} == g.jobs;
    assert Becomes(g, k, c, v);
    Responds(env, k, c, [env.setting.errorPage(502)]);
    AnsweredThen(env, g, k, WithPipe(env, g, c, s, a), c, v, v, [env.setting.errorPage(502)]);
  }

  lemma StartFails(env: Env, g: Loop, c: int, s: CgiStart, a: Answers)
    requires c in g.clients && g.clients[c].out == "" && !g.fallen
    requires s.NoPipe? || (Usable(g, s) && s.pid.None? && s.readFd !in g.jobs && s.readFd !in g.wards.running)
    ensures Answered(env, g, StartCgi(env, g, c, s, a), c, g.clients[c], [env.setting.errorPage(if s.NoPipe? then 500 else 502)])
  {
    var v, page := g.clients[c], env.setting.errorPage(500);
    var k := if s.Started? || Buffers.Room(v.out, page, v.limit) then CloseSpool(g, c) else g;
    ClosesFile(g, c);
    assert g.clients[c := v] == g.clients;
    if s.NoPipe? { Responds(env, k, c, [page]); } else { TakesBack(env, k, c, s, a); }
    AnsweredThen(env, g, k, StartCgi(env, g, c, s, a), c, v, v, [env.setting.errorPage(if s.NoPipe? then 500 else 502)]);
  }

  /** The connection of a program, started or not. */
  function Asking(g: Loop, c: int, a: Answers): Connection
    requires c in g.clients && a.reaction.Program?
  {
    Read(g, c, a, a.reaction.keepAlive).(head := a.reaction.head)
  }

  lemma LaunchFails(env: Env, g: Loop, c: int, a: Answers)
    requires IsIdle(g, c) && a.reaction.Program?
    requires var s := a.reaction.start;
             s.NoPipe? || (Free(g, a.spool, s) && s.pid.None? && s.readFd !in g.jobs && s.readFd !in g.wards.running)
    ensures Answered(env, g, React(env, Prepared(g, c, a), c, a), c, Asking(g, c, a).(state := Processing),
                     [env.setting.errorPage(if a.reaction.start.NoPipe? then 500 else 502)])
  {
    var k, s, v := Prepared(g, c, a), a.reaction.start, Asking(g, c, a).(state := Processing);
    PreparedIs(g, c, a);
    if s.Started? { FreeIsUsable(g, c, a, s); }
    var l := k.(clients := k.clients[c := v]);
    var parts := [env.setting.errorPage(if s.NoPipe? then 500 else 502)];
    assert Becomes(k, l, c, v);
    StartFails(env, l, c, s, a);
    AnsweredThen(env, k, l, React(env, k, c, a), c, v, v, parts);
    AnsweredThen(env, g, k, React(env, k, c, a), c, k.clients[c], v, parts);
  }

  /** Without a pipe the answer is 500, with one but without a process it is 502. */
  lemma ProgramFails(env: Env, g: Loop, e: Event, a: Answers)
    requires Reads(g, e) && a.reaction.Program?
    requires a.reaction.start.NoPipe? || (Free(g, a.spool, a.reaction.start) && a.reaction.start.pid.None?)
    ensures Answered(env, g, Do(env, g, Occurs(e, a)), e.fd, Asking(g, e.fd, a).(state := Processing),
                     [env.setting.errorPage(if a.reaction.start.NoPipe? then 500 else 502)])
  {
    ReadsIdle(env, g, e, a);
    JobsAreOpen(g);
    LaunchFails(env, g, e.fd, a);
  }

  lemma JobsAreOpen(g: Loop)
    requires Inv(g)
    ensures g.jobs.Keys <= g.open && g.wards.running.Keys == g.jobs.Keys
  {
    forall j | j in g.jobs ensures j in g.open {}
  }

  // -------------------------------------------------------------- accepting

  /** What `accept` may return: descriptors nobody has, references at free addresses. */
  ghost predicate AllFresh(g: Loop, waiting: seq<Accepted>)
  {
    && (forall i :: 0 <= i < |waiting| ==> waiting[i].fd !in g.open && waiting[i].ptr !in g.table.heap)
    && (forall i, k :: 0 <= i < k < |waiting| ==> waiting[i].fd != waiting[k].fd && waiting[i].ptr != waiting[k].ptr)
  }

  /** The first `n` that wait have become connections, and nothing else has changed. */
  ghost predicate Accepts(g: Loop, h: Loop, waiting: seq<Accepted>, n: nat)
  {
    && n <= |waiting| && |h.clients| == |g.clients| + n
    && (forall c :: c in h.clients <==> c in g.clients || Waits(waiting, n, c))
    && (forall c :: c in g.clients ==> h.clients[c] == g.clients[c])
    && (forall i :: 0 <= i < n ==> waiting[i].fd in h.clients && h.clients[waiting[i].fd] == Idle(waiting[i].limit))
    && h.listeners == g.listeners && h.jobs == g.jobs && h.wards == g.wards && h.spools == g.spools && !h.fallen
  }

  predicate Waits(waiting: seq<Accepted>, n: nat, c: int)
  {
    exists i :: 0 <= i < n <= |waiting| && waiting[i].fd == c
  }

  lemma FirstWaits(waiting: seq<Accepted>, n: nat, c: int)
    requires 0 < n <= |waiting|
    ensures Waits(waiting, n, c) <==> c == waiting[0].fd || Waits(waiting[1..], n - 1, c)
  {
    if Waits(waiting, n, c) {
      var i :| 0 <= i < n && waiting[i].fd == c;
      if i > 0 { assert waiting[1..][i - 1].fd == c; }
    }
    if Waits(waiting[1..], n - 1, c) {
      var i :| 0 <= i < n - 1 && waiting[1..][i].fd == c;
      assert waiting[i + 1].fd == c;
    }
  }

  /** How many connections are taken. */
  function Taken(env: Env, g: Loop, waiting: seq<Accepted>): nat
  {
    if |g.clients| >= env.maxConnections then 0 else CgiStream.AtMost(|waiting|, env.maxConnections - |g.clients|)
  }

  lemma FreshAfterOne(g: Loop, waiting: seq<Accepted>)
    requires AllFresh(g, waiting) && waiting != []
    ensures AllFresh(AcceptOne(g, waiting[0]), waiting[1..])
  {
  }

  lemma OneMoreAccepted(g: Loop, h: Loop, waiting: seq<Accepted>, n: nat)
    requires g.clients.Keys <= g.open && AllFresh(g, waiting) && 0 < n <= |waiting|
    requires Accepts(AcceptOne(g, waiting[0]), h, waiting[1..], n - 1)
    ensures Accepts(g, h, waiting, n)
  {
    var k := AcceptOne(g, waiting[0]);
    OneMoreClient(g, waiting[0]);
    forall c ensures Waits(waiting, n, c) <==> c == waiting[0].fd || Waits(waiting[1..], n - 1, c) { FirstWaits(waiting, n, c); }
    forall i | 0 <= i < n ensures waiting[i].fd in h.clients && h.clients[waiting[i].fd] == Idle(waiting[i].limit) {
      if i > 0 { assert waiting[1..][i - 1] == waiting[i]; } else { assert k.clients[waiting[0].fd] == Idle(waiting[0].limit); }
    }
  }

  lemma OneMoreClient(g: Loop, x: Accepted)
    requires x.fd !in g.clients
    ensures |AcceptOne(g, x).clients| == |g.clients| + 1
  {
    var k := AcceptOne(g, x);
    assert k.clients.Keys == g.clients.Keys + {x.fd} && |k.clients| == |k.clients.Keys| && |g.clients| == |g.clients.Keys|;
  }

  lemma {:induction false} AcceptTakes(env: Env, g: Loop, waiting: seq<Accepted>)
    requires g.clients.Keys <= g.open && AllFresh(g, waiting) && !g.fallen
    ensures Accepts(g, Accept(env, g, waiting), waiting, Taken(env, g, waiting))
    decreases |waiting|
  {
    if Taken(env, g, waiting) > 0 {
      FreshAfterOne(g, waiting);
      OneMoreClient(g, waiting[0]);
      AcceptTakes(env, AcceptOne(g, waiting[0]), waiting[1..]);
      OneMoreAccepted(g, Accept(env, g, waiting), waiting, Taken(env, g, waiting));
    }
  }

  /** Connections are taken in the order in which they wait, up to the limit on their number. */
  lemma ListenerAccepts(env: Env, g: Loop, e: Event, a: Answers)
    requires Inv(g) && !g.fallen && Awaits(g, e) && Live(g.table, e) && e.fd in g.listeners && AllFresh(g, a.accepts)
    ensures var h := Do(env, g, Occurs(e, a));
            && Accepts(g, h, a.accepts, Taken(env, g, a.accepts))
            && forall c :: c in h.clients && c !in g.clients ==> MaskOf(h.table, c) == Some(Mask(true, false))
  {
    DispatchIs(env, g, e, a);
    DoKeepsInv(env, g, Occurs(e, a));
    ClientsAreOpen(g);
    AcceptTakes(env, g, a.accepts);
    AcceptedRead(Do(env, g, Occurs(e, a)), g, a.accepts, Taken(env, g, a.accepts));
  }

  lemma ClientsAreOpen(g: Loop)
    requires Inv(g)
    ensures g.clients.Keys <= g.open
  {
    forall c | c in g.clients ensures c in g.open {}
  }

  lemma AcceptedRead(h: Loop, g: Loop, waiting: seq<Accepted>, n: nat)
    requires Inv(h) && Accepts(g, h, waiting, n)
    ensures forall c :: c in h.clients && c !in g.clients ==> MaskOf(h.table, c) == Some(Mask(true, false))
  {
    forall c | c in h.clients && c !in g.clients ensures MaskOf(h.table, c) == Some(Mask(true, false)) {
      assert Waits(waiting, n, c) && Agree(h, c);
    }
  }

  // -------------------------------------------------------------- time limits

  lemma AppliedAround(g: Loop, j: int, o: CgiPipe.Outcome, a: Answers)
    requires j in g.jobs && g.jobs[j].client in g.clients
    ensures ApplyPipe(g, j, o, a).clients - {g.jobs[j].client} == g.clients - {g.jobs[j].client}
  {
  }

  lemma PipeAround(env: Env, g: Loop, j: int, a: Answers, c: int)
    requires j in g.jobs && g.jobs[j].client == c
    ensures HandleCgi(env, g, j, a).clients - {c} == g.clients - {c}
  {
    if c in g.clients {
      var v := g.clients[c];
      AppliedAround(g, j, CgiPipe.OnPipeWithin(SettingOf(env, v), JobAt(g, j), Clipped(a.pipe), v.limit), a);
    }
  }

  lemma AloneAround(g: Loop, c: int, a: Answers)
    requires c in g.clients
    ensures WriteAlone(g, c, a).clients - {c} == g.clients - {c}
  {
    var v := g.clients[c];
    if v.out != "" {
      assert g.clients[c := v.(state := Writing)] - {c} == g.clients - {c};
    } else if !v.halfClosed && v.keepAlive {
      assert g.clients[c := Idle(v.limit)] - {c} == g.clients - {c};
    } else {
      CloseLeaves(g, c, a);
    }
  }

  lemma OnAround(env: Env, g: Loop, c: int, j: int, a: Answers)
    requires c in g.clients && j in g.jobs && g.jobs[j].client == c
    ensures WriteOn(env, g, c, j, a).clients - {c} == g.clients - {c}
  {
    PipeAround(env, g.(table := Rearm(g.table, j, READABLE)), j, a, c);
  }

  lemma WriteAround(env: Env, g: Loop, c: int, a: Answers)
    requires c in g.clients
    ensures HandleWrite(env, g, c, a).clients - {c} == g.clients - {c}
  {
    var h := Send(g, c, a.takes);
    assert h.clients - {c} == g.clients - {c};
    match JobOf(h.jobs, c)
    case Some(j) => OnAround(env, h, c, j, a);
    case None => AloneAround(h, c, a);
  }

  lemma CloseLeaves(g: Loop, c: int, a: Answers)
    ensures CloseClient(g, c, a).clients == g.clients - {c}
  {
  }

  lemma LateLeaves(env: Env, g: Loop, x: Late)
    requires !g.fallen && x.fd in g.clients && g.clients[x.fd].state != CgiRunning && !TimeOut(env, g, x).fallen
    ensures TimeOut(env, g, x).clients == g.clients - {x.fd}
  {
    var k := HandleWrite(env, Told(env, g, x.fd), x.fd, x.first);
    WriteAround(env, Told(env, g, x.fd), x.fd, x.first);
    CloseLeaves(k, x.fd, x.second);
    assert Told(env, g, x.fd).clients - {x.fd} == g.clients - {x.fd};
  }

  /** A late connection is closed, unless it waits for the header of a program: then nothing happens. */
  lemma LateIsClosedIff(env: Env, g: Loop, x: Late)
    requires Inv(g) && !g.fallen && x.fd in g.clients && !Do(env, g, IsLate(x)).fallen
    ensures var h := Do(env, g, IsLate(x));
            if g.clients[x.fd].state == CgiRunning then h == g
            else h.clients == g.clients - {x.fd} && NoJob(h, x.fd) && KindOf(h.table, x.fd).Invalid?
  {
    if g.clients[x.fd].state != CgiRunning {
      LateLeaves(env, g, x);
      LateIsOut(env, g, x);
    }
  }

  lemma LateIsOut(env: Env, g: Loop, x: Late)
    requires Inv(g) && !g.fallen && x.fd in g.clients && g.clients[x.fd].state != CgiRunning
    requires !TimeOut(env, g, x).fallen && x.fd !in TimeOut(env, g, x).clients
    ensures var h := TimeOut(env, g, x); NoJob(h, x.fd) && KindOf(h.table, x.fd).Invalid?
  {
    TimeOutKeepsInv(env, g, x);
    LateOpensNothing(env, g, x);
    AbsentIsOut(TimeOut(env, g, x), x.fd);
  }

  lemma LateOpensNothing(env: Env, g: Loop, x: Late)
    requires x.fd in g.clients && g.clients[x.fd].state != CgiRunning && !TimeOut(env, g, x).fallen
    ensures var h := TimeOut(env, g, x); h.jobs.Keys <= g.jobs.Keys && h.listeners == g.listeners
  {
    if !g.fallen { WriteOpensNothing(env, Told(env, g, x.fd), x.fd, x.first); }
  }

  lemma AbsentIsOut(h: Loop, c: int)
    requires Inv(h) && c !in h.clients && c !in h.jobs && c !in h.listeners
    ensures NoJob(h, c) && KindOf(h.table, c).Invalid?
  {
    assert Expected(h, c) == Invalid;
  }
}
