/** The read loop in place: flushing the body to its temporary file, the fix-ups around `feed` and the
    dispatch test, each proved to do what module Spool says. */
module Spooling {
  import opened Text
  import opened Routing
  import opened Parser
  import opened HttpParsing
  import opened Spool

  /** The temporary file and the request fields that describe it; `usable` is whether it could be opened. */
  class TmpFile {
    var isOpen: bool
    var usable: bool
    var contents: string
    var bodyFileWritten: nat

    constructor ()
      ensures !isOpen && contents == "" && bodyFileWritten == 0
    {
      isOpen, usable, contents, bodyFileWritten := false, false, "", 0;
    }

    /** `open` with O_EXCL; it may fail, and is not tried again. */
    method Open()
      modifies this`isOpen, this`usable
      ensures isOpen
    {
      isOpen := true;
      usable := *;
    }

    /** `write`: an error, or at least one byte taken. */
    method Write(data: string) returns (n: int)
      requires data != ""
      modifies this`contents
      ensures n == -1 || (usable && 0 < n <= |data|)
      ensures contents == if n < 0 then old(contents) else old(contents) + data[..n]
    {
      n := *;
      if usable && 0 < n <= |data| { contents := contents + data[..n]; } else { n := -1; }
    }

    /** The write loop: all of `data`, or an error after some of it. */
    method WriteAll(data: string) returns (ok: bool, ghost store: Store)
      modifies this`contents
      ensures ok == store.Stored?
      ensures contents == old(contents) + (if store.Stored? then data else Prefix(data, store.n))
    {
      var offset := 0;
      while offset < |data|
        invariant 0 <= offset <= |data|
        invariant contents == old(contents) + data[..offset]
      {
        var n := Write(data[offset..]);
        if n < 0 { return false, Failed(offset); }
        assert data[..offset] + data[offset..][..n] == data[..offset + n];
        offset := offset + n;
      }
      ok, store := true, Stored;
    }

    /** Open on first use, write, and count what was written. */
    method Take(data: string) returns (ok: bool, ghost store: Store)
      modifies this
      ensures ok == store.Stored?
      ensures contents == old(contents) + (if store.Stored? then data else Prefix(data, store.n))
      ensures bodyFileWritten == old(bodyFileWritten) + if store.Stored? then |data| else 0
    {
      if !isOpen { Open(); }
      ok, store := WriteAll(data);
      if ok { bodyFileWritten := bodyFileWritten + |data|; }
    }
  }

  ghost function Both(conn: Connection, file: TmpFile): Spooled
    reads conn, conn.request, conn.request.body, conn.readBuffer, file
  {
    Spooled(conn.View(), file.contents, file.bodyFileWritten)
  }

  method PathRequiresCgiBodySpool(conn: Connection) returns (r: bool)
    ensures r == NeedsSpool(conn.View())
  {
    var loc := MatchLocation(conn.config, conn.request.path);
    if loc.None? { return false; }
    var rest := loc.value.cgiExtensions;
    while rest != {}
      invariant rest <= loc.value.cgiExtensions
      invariant forall ext :: ext in loc.value.cgiExtensions - rest ==> !EndsWith(conn.request.path, ext)
    {
      var ext :| ext in rest;
      if EndsWith(conn.request.path, ext) { return true; }
      rest := rest - {ext};
    }
    r := false;
  }

  method IsBodyFullySpooled(conn: Connection, file: TmpFile) returns (r: bool)
    ensures r == FullySpooled(Both(conn, file))
  {
    var req := conn.request;
    if !(req.contentLength > 0 || req.chunked || req.verb == "POST") { return true; }
    var spool := PathRequiresCgiBodySpool(conn);
    if spool {
      if req.body.Contents() != "" { return false; }
      if req.parseState != ParseState.Complete { return false; }
      if file.bodyFileWritten == 0 || file.bodyFileWritten != req.written { return false; }
      if req.contentLength > 0 && file.bodyFileWritten < req.contentLength { return false; }
      return true;
    }
    if req.chunked { return req.parseState == ParseState.Complete; }
    if req.contentLength > 0 { return req.written >= req.contentLength; }
    r := req.parseState == ParseState.Complete && req.written > 0;
  }

  method FlushRequestBody(conn: Connection, file: TmpFile) returns (ghost store: Store)
    requires conn.Valid()
    modifies file, conn.request`parseState, conn.request`errorCode, conn.request.body
    ensures conn.Valid() && Both(conn, file) == Flush(old(Both(conn, file)), store)
  {
    var req := conn.request;
    var data := req.body.Contents();
    store := Stored;
    if data == "" { return; }
    if req.maxBodySize > 0 && file.bodyFileWritten + |data| > req.maxBodySize {
      req.Fail(413);
      return;
    }
    var ok;
    ok, store := file.Take(data);
    if ok { Rewind(req.body); } else { req.Fail(503); }
  }

  method ResumeBodyIfNeeded(conn: Connection, file: TmpFile)
    modifies conn.request`parseState
    ensures Both(conn, file) == Resume(old(Both(conn, file)))
  {
    var req := conn.request;
    if req.parseState != ParseState.Complete { return; }
    if req.contentLength > 0 && file.bodyFileWritten < req.contentLength {
      req.parseState := Body;
      return;
    }
    if !req.chunked && req.contentLength == 0 && req.verb == "POST" && conn.readBuffer.Contents() != "" {
      req.parseState := Body;
    }
  }

  method CompletePostWithoutLength(conn: Connection, ghost file: TmpFile)
    modifies conn.request`parseState
    ensures Both(conn, file) == CompleteUnframed(old(Both(conn, file)))
  {
    var req := conn.request;
    if req.parseState != Body || req.chunked || req.contentLength > 0 { return; }
    if req.verb != "POST" { return; }
    if req.written == 0 || conn.readBuffer.Contents() != "" { return; }
    req.parseState := ParseState.Complete;
  }

  /** In the read loop: nothing lost so far, or a flush has failed and nobody has noticed yet. */
  ghost predicate Going(conn: Connection, file: TmpFile)
    reads conn, conn.request, conn.request.body, conn.readBuffer, file
  {
    conn.Valid() && InLoop(Both(conn, file))
  }

  ghost predicate InLoop(s: Spooled)
  {
    s.conn.req.state == Error || (Conserved(s, Unspooled(s)) && Lingers(s))
  }

  lemma TurnStaysInLoop(env: Env, s: Spooled, a: Arrival)
    requires InLoop(s)
    ensures Turn(env, s, a).end.Open? ==> InLoop(Turn(env, s, a).s)
  {
    if s.conn.req.state != Error { TurnConserves(env, s, Unspooled(s), a); }
  }

  method FlushIfNeeded(conn: Connection, file: TmpFile) returns (ghost store: Store)
    requires conn.Valid()
    modifies file, conn.request`parseState, conn.request`errorCode, conn.request.body
    ensures conn.Valid() && Both(conn, file) == FlushAsNeeded(old(Both(conn, file)), store)
  {
    store := Stored;
    if conn.request.parseState == Body || conn.request.parseState == ParseState.Complete {
      var spool := PathRequiresCgiBodySpool(conn);
      if spool { store := FlushRequestBody(conn, file); }
    }
  }

  /** The test at the head of `_tryDispatchComplete`. */
  method TryDispatchComplete(conn: Connection, file: TmpFile) returns (dispatched: bool)
    ensures dispatched == Ready(Both(conn, file))
  {
    if conn.request.parseState != ParseState.Complete { return false; }
    dispatched := IsBodyFullySpooled(conn, file);
  }

  /** Before `recv` nothing is to be resumed. */
  lemma NothingToResume(s: Spooled, piece: string)
    requires InLoop(s)
    ensures var m := s.(conn := More(s.conn, piece)); Resume(m) == m
  {
    if s.conn.req.state != Error { ResumeIsIdle(s, Unspooled(s), piece); }
  }

  /** `recv` returned a piece, and `feed` looks at it; `thrown` is the read-buffer limit. */
  method FeedPiece(env: Env, conn: Connection, file: TmpFile, piece: string) returns (thrown: bool)
    requires Going(conn, file) && conn.configuration == env.configs && !Erased(conn.View())
    modifies conn`config, conn.readBuffer, conn.writeBuffer`cmbs, conn.request, conn.request.body
    ensures conn.Valid()
    ensures Both(conn, file) == if thrown then old(Both(conn, file)) else Fed(env, old(Both(conn, file)), piece)
  {
    NothingToResume(Both(conn, file), piece);
    thrown := conn.Recv(piece);
    if thrown { return; }
    ResumeBodyIfNeeded(conn, file);
    FeedConnection(env, conn);
  }

  lemma FixupIsIdle(f: Spooled, store: Store)
    requires f.conn.req.state == Error || Conserved(f, Unspooled(f))
    ensures CompleteUnframed(FlushAsNeeded(f, store)) == FlushAsNeeded(f, store) && CompleteUnframed(f) == f
  {
    if f.conn.req.state != Error {
      FixupsAreIdle(f, Unspooled(f));
      if FlushAsNeeded(f, store) != f {
        FlushConserves(f, Unspooled(f), store);
        if store.Stored? { FixupsAreIdle(Flush(f, store), Unspooled(f)); }
      }
    }
  }

  lemma FedStaysConserved(env: Env, s: Spooled, piece: string)
    requires InLoop(s)
    ensures var f := Fed(env, s, piece); f.conn.req.state == Error || Conserved(f, Unspooled(f))
  {
    NothingToResume(s, piece);
    if s.conn.req.state != Error { FedIsFeed(env, s, Unspooled(s), piece); }
  }

  /** The body that belongs in the file is put there, the POST fix-up, and the dispatch test. */
  method AfterFeed(conn: Connection, file: TmpFile) returns (end: End, ghost store: Store)
    requires conn.Valid() && Conserved(Both(conn, file), Unspooled(Both(conn, file)))
    modifies file, conn.request`parseState, conn.request`errorCode, conn.request.body
    ensures conn.Valid()
    ensures Progress(Both(conn, file), end) == Dispatched(CompleteUnframed(FlushAsNeeded(old(Both(conn, file)), store)))
  {
    ghost var f := Both(conn, file);
    store := FlushIfNeeded(conn, file);
    FixupIsIdle(f, store);
    CompletePostWithoutLength(conn, file);
    var dispatched := TryDispatchComplete(conn, file);
    end := if dispatched then HandedOn else Open;
  }

  /** One turn of the read loop on a piece of the stream.  An append to an erased buffer does not come
      back; the model stops in front of it. */
  method TakePiece(env: Env, conn: Connection, file: TmpFile, piece: string) returns (thrown: bool, end: End, ghost store: Store)
    requires Going(conn, file) && conn.configuration == env.configs
    modifies file, conn`config, conn.readBuffer, conn.writeBuffer`cmbs, conn.request, conn.request.body
    ensures conn.Valid()
    ensures if thrown then Both(conn, file) == old(Both(conn, file)) && end.Open?
            else Progress(Both(conn, file), end) == Turn(env, old(Both(conn, file)), Data(piece, store))
  {
    ghost var s := Both(conn, file);
    FedStaysConserved(env, s, piece);
    thrown, end, store := false, Open, Stored;
    if conn.Wiped() { return false, OnErased, Stored; }
    thrown := FeedPiece(env, conn, file, piece);
    if thrown { return; }
    if conn.request.parseState == Error { return false, Refused, Stored; }
    end, store := AfterFeed(conn, file);
  }

  /** The state with the fix-up, flush and test behind an empty `recv`. */
  lemma NothingIs(env: Env, s: Spooled, store: Store)
    requires InLoop(s)
    ensures Turn(env, s, WouldBlock(store)) == Dispatched(if NeedsSpool(s.conn) then Flush(s, store) else s)
    ensures CompleteUnframed(s) == s
  {
    FixupIsIdle(s, store);
  }

  /** `recv` had nothing: flush and leave the loop. */
  method TakeNothing(env: Env, conn: Connection, file: TmpFile) returns (end: End, ghost store: Store)
    requires Going(conn, file)
    modifies file, conn.request`parseState, conn.request`errorCode, conn.request.body
    ensures conn.Valid() && Progress(Both(conn, file), end) == Turn(env, old(Both(conn, file)), WouldBlock(store))
  {
    ghost var s := Both(conn, file);
    store := Stored;
    NothingIs(env, s, store);
    CompletePostWithoutLength(conn, file);
    var spool := PathRequiresCgiBodySpool(conn);
    if spool { store := FlushRequestBody(conn, file); }
    NothingIs(env, s, store);
    var dispatched := TryDispatchComplete(conn, file);
    end := if dispatched then HandedOn else Open;
  }

  /** In the read loop the end of the stream finds no body without framing: the connection is closed. */
  lemma EndIs(env: Env, s: Spooled, store: Store)
    requires InLoop(s)
    ensures Turn(env, s, PeerClosed(store)) == Progress(s, Gone)
  {
    if s.conn.req.state != Error { TurnConserves(env, s, Unspooled(s), PeerClosed(store)); }
  }

  /** A body without framing is flushed and declared complete. */
  method CompleteAtEnd(conn: Connection, file: TmpFile) returns (dispatched: bool, ghost store: Store)
    requires conn.Valid()
    modifies file, conn.request`parseState, conn.request`errorCode, conn.request.body
    ensures conn.Valid()
    ensures Both(conn, file) == Completed(Flush(old(Both(conn, file)), store)) && dispatched == Ready(Both(conn, file))
  {
    store := FlushRequestBody(conn, file);
    conn.request.parseState := ParseState.Complete;
    dispatched := TryDispatchComplete(conn, file);
  }

  /** The end of the stream: a body without framing would be complete; otherwise the connection is closed. */
  method TakeEnd(env: Env, conn: Connection, file: TmpFile) returns (end: End, ghost store: Store)
    requires conn.Valid()
    modifies file, conn.request`parseState, conn.request`errorCode, conn.request.body
    ensures conn.Valid() && Progress(Both(conn, file), end) == Turn(env, old(Both(conn, file)), PeerClosed(store))
  {
    var req := conn.request;
    end, store := Gone, Stored;
    if req.parseState == Body && !req.chunked && req.contentLength == 0 && req.written > 0 {
      var spool := PathRequiresCgiBodySpool(conn);
      if spool {
        var dispatched;
        dispatched, store := CompleteAtEnd(conn, file);
        if dispatched { end := HandedOn; }
      }
    }
  }

  lemma PiecesOneMore(arrivals: seq<Arrival>, a: Arrival)
    ensures Pieces(arrivals + [a]) == Pieces(arrivals) + (if a.Data? then [a.piece] else [])
    decreases |arrivals|
  {
    if arrivals != [] {
      assert (arrivals + [a])[1..] == arrivals[1..] + [a];
      PiecesOneMore(arrivals[1..], a);
    }
  }

  lemma RunUnfolds(env: Env, p: Progress, a: Arrival, rest: seq<Arrival>)
    ensures Run(env, p, [a] + rest) == if p.end.Open? then Run(env, Turn(env, p.s, a), rest) else p
  {
    assert ([a] + rest)[1..] == rest;
  }

  lemma {:induction false} RunOneMore(env: Env, p: Progress, arrivals: seq<Arrival>, a: Arrival)
    ensures Run(env, p, arrivals + [a]) == Run(env, Run(env, p, arrivals), [a])
    decreases |arrivals|
  {
    if arrivals == [] {
      assert arrivals + [a] == [a];
    } else {
      assert arrivals + [a] == [arrivals[0]] + (arrivals[1..] + [a]) && arrivals == [arrivals[0]] + arrivals[1..];
      RunUnfolds(env, p, arrivals[0], arrivals[1..] + [a]);
      RunUnfolds(env, p, arrivals[0], arrivals[1..]);
      RunUnfolds(env, p, a, []);
      if p.end.Open? { RunOneMore(env, Turn(env, p.s, arrivals[0]), arrivals[1..], a); }
    }
  }

  lemma RunTurn(env: Env, p: Progress, arrivals: seq<Arrival>, a: Arrival)
    requires Run(env, p, arrivals).end.Open?
    ensures Run(env, p, arrivals + [a]) == Turn(env, Run(env, p, arrivals).s, a)
  {
    RunOneMore(env, p, arrivals, a);
    RunUnfolds(env, Run(env, p, arrivals), a, []);
    assert [a] + [] == [a];
  }

  /** A turn of the loop, as one more step of the run so far. */
  method ReadTurn(env: Env, conn: Connection, file: TmpFile, piece: string, ghost p: Progress, ghost before: seq<Arrival>)
    returns (thrown: bool, end: End, ghost arrivals: seq<Arrival>)
    requires Going(conn, file) && conn.configuration == env.configs && Progress(Both(conn, file), Open) == Run(env, p, before)
    modifies file, conn`config, conn.readBuffer, conn.writeBuffer`cmbs, conn.request, conn.request.body
    ensures conn.Valid() && Progress(Both(conn, file), end) == Run(env, p, arrivals)
    ensures Pieces(arrivals) == Pieces(before) + (if thrown then [] else [piece])
    ensures !thrown && end.Open? ==> Going(conn, file)
  {
    ghost var store, s := Stored, Both(conn, file);
    thrown, end, store := TakePiece(env, conn, file, piece);
    arrivals := before;
    if thrown { return; }
    arrivals := before + [Data(piece, store)];
    PiecesOneMore(before, Data(piece, store));
    RunTurn(env, p, before, Data(piece, store));
    TurnStaysInLoop(env, s, Data(piece, store));
  }

  method LastTurn(env: Env, conn: Connection, file: TmpFile, closed: bool, ghost p: Progress, ghost before: seq<Arrival>)
    returns (end: End, ghost arrivals: seq<Arrival>)
    requires Going(conn, file) && Progress(Both(conn, file), Open) == Run(env, p, before)
    modifies file, conn.request`parseState, conn.request`errorCode, conn.request.body
    ensures conn.Valid() && Progress(Both(conn, file), end) == Run(env, p, arrivals) && Pieces(arrivals) == Pieces(before)
    ensures if closed then end.Gone? && Both(conn, file) == old(Both(conn, file)) else end.Open? ==> Going(conn, file)
  {
    ghost var store, s := Stored, Both(conn, file);
    if closed { end, store := TakeEnd(env, conn, file); } else { end, store := TakeNothing(env, conn, file); }
    ghost var a := if closed then PeerClosed(store) else WouldBlock(store);
    arrivals := before + [a];
    PiecesOneMore(before, a);
    RunTurn(env, p, before, a);
    if closed { EndIs(env, s, store); } else { TurnStaysInLoop(env, s, a); }
  }

  lemma PrefixGrows(socket: seq<string>, i: nat)
    requires i < |socket|
    ensures socket[..i] + [socket[i]] == socket[..i + 1] && socket[..i] <= socket && socket[..i + 1] <= socket
  {
  }

  /** The whole read loop: the pieces the socket holds, then nothing or the end of the stream.  It is left
      early with an error response, with a request that is handed on, and on the read-buffer limit; a failed
      flush does not leave it. */
  method HandleRead(env: Env, conn: Connection, file: TmpFile, socket: seq<string>, closed: bool)
    returns (thrown: bool, end: End, ghost arrivals: seq<Arrival>)
    requires Going(conn, file) && conn.configuration == env.configs
    modifies file, conn`config, conn.readBuffer, conn.writeBuffer`cmbs, conn.request, conn.request.body
    ensures conn.Valid() && Progress(Both(conn, file), end) == Run(env, Progress(old(Both(conn, file)), Open), arrivals)
    ensures Pieces(arrivals) <= socket
    ensures thrown || !end.Open? || (Pieces(arrivals) == socket && Going(conn, file))
  {
    ghost var p := Progress(Both(conn, file), Open);
    arrivals := [];
    thrown, end := false, Open;
    for i := 0 to |socket|
      invariant !thrown && end.Open? && Pieces(arrivals) == socket[..i]
      invariant Going(conn, file) && Progress(Both(conn, file), Open) == Run(env, p, arrivals)
    {
      PrefixGrows(socket, i);
      thrown, end, arrivals := ReadTurn(env, conn, file, socket[i], p, arrivals);
      if thrown || !end.Open? { return; }
    }
    assert socket[..|socket|] == socket;
    end, arrivals := LastTurn(env, conn, file, closed, p, arrivals);
  }
}
