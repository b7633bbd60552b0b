/** The parser in place: `HttpRequest`, `Connection` and the methods of `HttpParser`, each proved to do
    to the objects what the functions of module Parser say. */
module HttpParsing {
  import opened Text
  import opened Routing
  import opened Parser
  import Buffers
  import Uri
  import Host
  import Headers
  import RequestLine
  import Chunked

  class HttpRequest {
    var verb: string
    var path: string
    var query: string
    var version: string
    var headers: map<string, string>
    const body: Buffers.Buffer
    var parseState: ParseState
    var contentLength: nat
    var chunked: bool
    var maxBodySize: nat
    var errorCode: nat
    var chunkSize: nat
    var chunkTrailing: bool
    var chunkDone: bool
    var written: nat

    constructor (clientMaxBodySize: nat)
      ensures fresh(body) && body.Valid()
      ensures View() == FRESH_REQUEST
    {
      verb, path, query, version, headers := "", "", "", "", map[];
      body := new Buffers.Buffer(clientMaxBodySize);
      parseState, contentLength, chunked, maxBodySize, errorCode := Idle, 0, false, 0, 0;
      chunkSize, chunkTrailing, chunkDone, written := 0, false, false, 0;
    }

    ghost function Decoder(): Chunked.Decoder
      reads this, body
    {
      Chunked.Decoder(chunkSize, chunkTrailing, chunkDone, written, body.Contents())
    }

    ghost function View(): Request
      reads this, body
    {
      Request(parseState, errorCode, verb, path, query, version, headers, contentLength, chunked, maxBodySize, Decoder())
    }

    /** `body.append` cannot throw: what is in memory was counted, and the count stays within the limit. */
    ghost predicate BodyFits()
      reads this, body
    {
      body.Valid() && |body.Contents()| <= written
    }

    method Fail(code: nat)
      modifies this`parseState, this`errorCode
      ensures parseState == Error && errorCode == code
    {
      parseState, errorCode := Error, code;
    }

    /** Ready for the next request on the same connection. */
    method Reset()
      requires body.moved <= 2 * body.consumed
      modifies this, body
      ensures View() == FRESH_REQUEST && body.Valid()
    {
      Rewind(body);
      verb, path, query, version, headers := "", "", "", "", map[];
      parseState, contentLength, chunked, maxBodySize, errorCode := Idle, 0, false, 0, 0;
      chunkSize, chunkTrailing, chunkDone, written := 0, false, false, 0;
      assert Decoder() == FRESH_DECODER;
    }

    /** The objects show where the chunk decoder stopped. */
    ghost predicate Shows(buf: Buffers.Buffer, p: Chunked.Progress, stop: bool, st: ParseState, code: nat)
      reads this, body, buf
    {
      && Decoder() == p.d && buf.Contents() == p.rest && stop == !p.Again?
      && parseState == (if p.Failed? then Error else if p.Complete? then ParseState.Complete else st)
      && errorCode == (if p.Failed? then p.code else code)
      && buf.Valid() && BodyFits()
    }
  }

  class Connection {
    const readBuffer: Buffers.Buffer
    const writeBuffer: Buffers.Buffer
    const request: HttpRequest
    const configuration: seq<ServerConfig>
    var config: ServerConfig

    constructor (config: ServerConfig, configuration: seq<ServerConfig>)
      ensures Valid() && Inv(View()) && View() == Conn(FRESH_REQUEST, "", config)
      ensures this.configuration == configuration
      ensures fresh(readBuffer) && fresh(writeBuffer) && fresh(request) && fresh(request.body)
    {
      this.config := config;
      this.configuration := configuration;
      readBuffer := new Buffers.Buffer(config.maxBody);
      writeBuffer := new Buffers.Buffer(config.maxBody);
      request := new HttpRequest(config.maxBody);
    }

    ghost function View(): Conn
      reads this, request, request.body, readBuffer
    {
      Conn(request.View(), readBuffer.Contents(), config)
    }

    /** The request has its whole fixed-length body. */
    predicate Wiped()
      reads request
    {
      (request.parseState == ParseState.Complete || request.parseState == Error) && !request.chunked
      && request.contentLength > 0 && request.written == request.contentLength
    }

    /** After a complete fixed-length body the read buffer is erased and only `reset` may follow. */
    ghost predicate Valid()
      reads this, request, request.body, readBuffer
    {
      && readBuffer != request.body && writeBuffer != request.body && writeBuffer != readBuffer
      && (!Wiped() ==> readBuffer.Valid())
      && readBuffer.moved <= 2 * readBuffer.consumed
      && request.BodyFits()
      && (request.parseState in {Heads, Body} ==> request.path != "")
    }

    /** Bytes from the socket; `thrown` is the read-buffer limit. */
    method Recv(data: string) returns (thrown: bool)
      requires Valid() && !Erased(View())
      modifies readBuffer
      ensures Valid()
      ensures View() == if thrown then old(View()) else More(old(View()), data)
      ensures thrown == !old(readBuffer.View()).Fits(|data|, readBuffer.cmbs)
    {
      thrown := readBuffer.Append(data);
    }

    /** `setReading`: the connection is recycled for the next request. */
    method Reset()
      requires Valid() && writeBuffer.Valid()
      modifies readBuffer, writeBuffer, request, request.body
      ensures Valid() && writeBuffer.Valid() && writeBuffer.Contents() == ""
      ensures View() == Conn(FRESH_REQUEST, "", config)
    {
      Rewind(readBuffer);
      Rewind(writeBuffer);
      readBuffer.SetMaxSize(config.maxBody);
      writeBuffer.SetMaxSize(config.maxBody);
      request.Reset();
      request.body.SetMaxSize(config.maxBody);
    }

    method ResizeBuffers()
      modifies readBuffer`cmbs, writeBuffer`cmbs, request.body`cmbs
      ensures readBuffer.cmbs == writeBuffer.cmbs == request.body.cmbs == config.maxBody
    {
      readBuffer.SetMaxSize(config.maxBody);
      writeBuffer.SetMaxSize(config.maxBody);
      request.body.SetMaxSize(config.maxBody);
    }
  }

  // What the parser needs to know of the buffer operations: their effect on the unread bytes.

  method Advance(buf: Buffers.Buffer, n: nat)
    requires buf.Valid() && n <= |buf.Contents()|
    modifies buf
    ensures buf.Valid() && buf.Contents() == old(buf.Contents())[n..] && buf.cmbs == old(buf.cmbs)
  {
    buf.Consume(n);
  }

  method Store(body: Buffers.Buffer, data: string)
    requires body.Valid() && |body.Contents()| + |data| <= body.cmbs
    modifies body
    ensures body.Valid() && body.Contents() == old(body.Contents()) + data && body.cmbs == old(body.cmbs)
  {
    var thrown := body.Append(data);
    assert !thrown;
  }

  method Erase(buf: Buffers.Buffer)
    requires buf.Valid()
    modifies buf
    ensures buf.Contents() == "" && buf.moved <= 2 * buf.consumed
  {
    buf.Earase();
  }

  method Rewind(buf: Buffers.Buffer)
    requires buf.moved <= 2 * buf.consumed
    modifies buf
    ensures buf.Valid() && buf.Contents() == ""
  {
    buf.Reset();
  }

  /** `n` more body bytes. */
  method MoveBytes(buf: Buffers.Buffer, req: HttpRequest, n: nat)
    requires buf.Valid() && req.BodyFits() && buf != req.body && req.body.cmbs == req.maxBodySize
    requires n <= |buf.Contents()| && req.written + n <= req.maxBodySize
    modifies buf, req.body, req`written
    ensures req.body.Contents() == old(req.body.Contents()) + old(buf.Contents())[..n]
    ensures req.written == old(req.written) + n && buf.Contents() == old(buf.Contents())[n..]
    ensures buf.Valid() && req.BodyFits() && req.body.cmbs == req.maxBodySize
  {
    var data := buf.Contents();
    Store(req.body, data[..n]);
    Advance(buf, n);
    req.written := req.written + n;
  }

  // -------------------------------------------------------------- chunked

  method TakeChunkData(buf: Buffers.Buffer, req: HttpRequest) returns (stop: bool)
    requires buf.Valid() && req.BodyFits() && buf != req.body && req.body.cmbs == req.maxBodySize
    modifies buf, req.body, req`parseState, req`errorCode, req`chunkSize, req`chunkTrailing, req`chunkDone, req`written
    ensures req.body.cmbs == old(req.body.cmbs)
    ensures req.Shows(buf, Chunked.TakeData(old(req.Decoder()), old(buf.Contents()), req.maxBodySize), stop,
                      old(req.parseState), old(req.errorCode))
  {
    var data := buf.Contents();
    if |data| == 0 { return true; }
    var toRead := if req.chunkSize < |data| then req.chunkSize else |data|;
    if req.written + toRead > req.maxBodySize {
      req.Fail(413);
      return true;
    }
    MoveBytes(buf, req, toRead);
    req.chunkSize := req.chunkSize - toRead;
    if req.chunkSize == 0 {
      req.chunkTrailing := true;
      req.chunkDone := false;
    }
    return false;
  }

  /** Takes the size line off the buffer once all of it is there. */
  method ReadSizeLine(buf: Buffers.Buffer) returns (r: Option<Chunked.ChunkSize>)
    requires buf.Valid()
    modifies buf
    ensures buf.Valid() && buf.cmbs == old(buf.cmbs)
    ensures var data := old(buf.Contents());
            var k := Crlf(data, 0);
            if k.None? then r == None && buf.Contents() == data
            else r == Some(Chunked.SizeOf(data[..k.value])) && buf.Contents() == data[k.value + 2..]
  {
    var data := buf.Contents();
    var crlf := FindCrlf(data);
    if crlf.None? { return None; }
    Advance(buf, crlf.value + 2);
    var size := Chunked.ParseSizeLine(data[..crlf.value]);
    return Some(size);
  }

  /** A new chunk, the last chunk, or a refusal. */
  method OpenChunk(buf: Buffers.Buffer, req: HttpRequest, size: Chunked.ChunkSize) returns (stop: bool)
    modifies req`parseState, req`errorCode, req`chunkSize, req`chunkTrailing, req`chunkDone
    ensures stop == size.BadLine?
    ensures req.parseState == (if stop then Error else old(req.parseState))
    ensures req.errorCode == (if stop then size.code else old(req.errorCode))
    ensures var last := size.Size? && size.value == 0;
            && req.chunkDone == (last || old(req.chunkDone)) && req.chunkTrailing == (last || old(req.chunkTrailing))
            && req.chunkSize == (if size.Size? && !last then size.value else old(req.chunkSize))
  {
    if size.BadLine? {
      req.Fail(size.code);
      return true;
    }
    if size.value == 0 {
      req.chunkDone := true;
      req.chunkTrailing := true;
    } else {
      req.chunkSize := size.value;
    }
    return false;
  }

  method TakeChunkSize(buf: Buffers.Buffer, req: HttpRequest) returns (stop: bool)
    requires buf.Valid() && req.BodyFits() && buf != req.body && req.body.cmbs == req.maxBodySize && !req.chunkTrailing
    modifies buf, req.body, req`parseState, req`errorCode, req`chunkSize, req`chunkTrailing, req`chunkDone, req`written
    ensures req.body.cmbs == old(req.body.cmbs)
    ensures req.Shows(buf, Chunked.TakeSize(old(req.Decoder()), old(buf.Contents()), req.maxBodySize), stop,
                      old(req.parseState), old(req.errorCode))
  {
    if req.chunkSize == 0 {
      ghost var data, d := buf.Contents(), req.Decoder();
      var size := ReadSizeLine(buf);
      if size.None? { return true; }
      stop := OpenChunk(buf, req, size.value);
      if stop || req.chunkTrailing { return; }
    }
    stop := TakeChunkData(buf, req);
  }

  method ChunkTurn(buf: Buffers.Buffer, req: HttpRequest) returns (stop: bool)
    requires buf.Valid() && req.BodyFits() && buf != req.body && req.body.cmbs == req.maxBodySize
    modifies buf, req.body, req`parseState, req`errorCode, req`chunkSize, req`chunkTrailing, req`chunkDone, req`written
    ensures req.body.cmbs == old(req.body.cmbs)
    ensures req.Shows(buf, Chunked.Turn(old(req.Decoder()), old(buf.Contents()), req.maxBodySize), stop,
                      old(req.parseState), old(req.errorCode))
  {
    if req.chunkTrailing {
      if |buf.Contents()| < 2 { return true; }
      Advance(buf, 2);
      req.chunkTrailing := false;
      if req.chunkDone {
        req.parseState := ParseState.Complete;
        return true;
      }
      req.chunkSize := 0;
    }
    stop := TakeChunkSize(buf, req);
  }

  /** The `while (true)` of `_parseChunked`; it ends because every turn that goes on has shortened
      the buffer. */
  method ParseChunked(buf: Buffers.Buffer, req: HttpRequest)
    requires buf.Valid() && req.BodyFits() && buf != req.body && req.body.cmbs == req.maxBodySize
    modifies buf, req.body, req`parseState, req`errorCode, req`chunkSize, req`chunkTrailing, req`chunkDone, req`written
    ensures req.Shows(buf, Chunked.Decode(old(req.Decoder()), old(buf.Contents()), req.maxBodySize), true,
                      old(req.parseState), old(req.errorCode))
  {
    var stop := false;
    while !stop
      invariant buf.Valid() && req.BodyFits() && req.body.cmbs == req.maxBodySize
      invariant var p := Chunked.Decode(old(req.Decoder()), old(buf.Contents()), req.maxBodySize);
                if stop then req.Shows(buf, p, true, old(req.parseState), old(req.errorCode))
                else Chunked.Decode(req.Decoder(), buf.Contents(), req.maxBodySize) == p
                     && req.parseState == old(req.parseState) && req.errorCode == old(req.errorCode)
      decreases !stop, |buf.Contents()|
    {
      stop := ChunkTurn(buf, req);
    }
  }

  // --------------------------------------------------------- fixed length

  /** The announced length is reached: nothing behind it is read. */
  method EndBody(buf: Buffers.Buffer, req: HttpRequest)
    requires buf.Valid() && buf != req.body
    modifies buf, req`parseState
    ensures var complete := (req.contentLength != 0 || req.chunked) && req.written == req.contentLength;
            if complete then req.parseState == ParseState.Complete && buf.Contents() == "" && buf.moved <= 2 * buf.consumed
            else req.parseState == old(req.parseState) && buf.Contents() == old(buf.Contents()) && buf.Valid()
  {
    if (req.contentLength != 0 || req.chunked) && req.written == req.contentLength {
      Erase(buf);
      req.parseState := ParseState.Complete;
    }
  }

  /** `n` more body bytes, and the end of the body when they reach the announced length. */
  method TakeFixed(buf: Buffers.Buffer, req: HttpRequest, n: nat)
    requires buf.Valid() && req.BodyFits() && buf != req.body && req.body.cmbs == req.maxBodySize
    requires n <= |buf.Contents()| && req.parseState == Body
    modifies buf, req.body, req`parseState, req`errorCode, req`written
    ensures old(req.written) + n > req.maxBodySize ==>
              req.Decoder() == old(req.Decoder()) && req.parseState == Error && req.errorCode == 413
              && buf.Contents() == old(buf.Contents()) && buf.Valid()
    ensures old(req.written) + n <= req.maxBodySize ==>
              var complete := (req.contentLength != 0 || req.chunked) && old(req.written) + n == req.contentLength;
              && req.body.Contents() == old(req.body.Contents()) + old(buf.Contents())[..n]
              && req.written == old(req.written) + n && req.errorCode == old(req.errorCode)
              && req.parseState == (if complete then ParseState.Complete else Body)
              && buf.Contents() == (if complete then "" else old(buf.Contents())[n..])
              && (complete || buf.Valid())
    ensures req.BodyFits() && buf.moved <= 2 * buf.consumed
  {
    if req.written + n > req.maxBodySize {
      req.Fail(413);
      return;
    }
    MoveBytes(buf, req, n);
    EndBody(buf, req);
  }

  /** How much of what has arrived belongs to the body; the subtraction is one of `size_t`. */
  method FixedAmount(buf: Buffers.Buffer, req: HttpRequest, ghost config: ServerConfig) returns (n: nat)
    requires buf.Valid()
    ensures n == FixedTake(Conn(req.View(), buf.Contents(), config)) && n <= |buf.Contents()|
  {
    n := |buf.Contents()|;
    if req.contentLength != 0 || req.chunked {
      var needed := if req.written <= req.contentLength then req.contentLength - req.written
                    else (req.contentLength - req.written) % (SIZE_MAX + 1);
      n := if needed < n then needed else n;
    }
  }

  method ParseBody(buf: Buffers.Buffer, req: HttpRequest, ghost config: ServerConfig)
    requires buf.Valid() && req.BodyFits() && buf != req.body && req.body.cmbs == req.maxBodySize
    requires req.parseState == Body
    modifies buf, req.body, req`parseState, req`errorCode, req`written
    ensures var r := ReadFixed(Conn(old(req.View()), old(buf.Contents()), config));
            req.Decoder() == r.req.dec && req.parseState == r.req.state && req.errorCode == r.req.code && buf.Contents() == r.buf
    ensures req.BodyFits() && (req.parseState != ParseState.Complete ==> buf.Valid())
    ensures buf.moved <= 2 * buf.consumed
  {
    if |buf.Contents()| == 0 { return; }
    var toRead := FixedAmount(buf, req, config);
    ghost var c := Conn(req.View(), buf.Contents(), config);
    FixedShows(c, toRead, ReadFixed(c));
    TakeFixed(buf, req, toRead);
  }

  /** The four things a fixed-length step changes, spelled out. */
  lemma FixedShows(c: Conn, n: nat, r: Conn)
    requires c.buf != "" && n == FixedTake(c) && r == ReadFixed(c)
    ensures var over := c.req.dec.written + n > c.req.maxBody;
            var complete := !over && (c.req.contentLength != 0 || c.req.chunked) && c.req.dec.written + n == c.req.contentLength;
            && r.req.dec == (if over then c.req.dec
                             else c.req.dec.(body := c.req.dec.body + c.buf[..n], written := c.req.dec.written + n))
            && r.req.state == (if over then Error else if complete then ParseState.Complete else c.req.state)
            && r.req.code == (if over then 413 else c.req.code)
            && r.buf == if over then c.buf else if complete then "" else c.buf[n..]
  {
  }

  // --------------------------------------------------------- request line

  /** The scan loop of `_parseRequestLine`. */
  method ScanLine(data: string) returns (r: RequestLine.Outcome)
    ensures r == RequestLine.Run(data, RequestLine.FRESH, 0)
  {
    var x, p := RequestLine.FRESH, 0;
    while p < |data|
      invariant p <= |data| && RequestLine.Ordered(x, p)
      invariant RequestLine.Run(data, RequestLine.FRESH, 0) == RequestLine.Run(data, x, p)
    {
      var turn := RequestLine.Step(x, data[p], p);
      match turn
      case Reject(code) => return RequestLine.Rejected(code);
      case Finish(y) => return RequestLine.Finished(y, p + 1);
      case Go(y) => x := y;
      p := p + 1;
    }
    return RequestLine.Pending(x);
  }

  /** Scan, then version, target length and method, in that order. */
  method ExamineLine(data: string) returns (v: RequestLine.Verdict)
    ensures v == RequestLine.Examine(data)
  {
    var r := ScanLine(data);
    match r
    case Pending(_) => return RequestLine.Incomplete;
    case Rejected(code) => return RequestLine.Refused(code);
    case Finished(x, length) =>
      if !(x.major == 1 && (x.minor == 0 || x.minor == 1)) { return RequestLine.Refused(505); }
      var uriLen := x.uriEnd - x.uriStart;
      if uriLen > RequestLine.MAX_URI { return RequestLine.Refused(414); }
      var verb := data[x.verbStart..x.verbEnd];
      if verb != "GET" && verb != "HEAD" && verb != "POST" && verb != "DELETE" { return RequestLine.UnknownVerb(verb); }
      return RequestLine.Accepted(verb, data[x.uriStart..x.uriEnd], length);
  }

  method SplitTarget(raw: string) returns (path: string, query: string)
    ensures path == PathOf(raw) && query == QueryOf(raw)
  {
    var uri := raw;
    if "http://" <= raw || "https://" <= raw {
      var slash := Find(raw, '/', if "http://" <= raw then 7 else 8);
      uri := if slash == |raw| then "/" else raw[slash..];
    }
    var qmark := Find(uri, '?', 0);
    path := Uri.PctDecode(uri[..qmark]);
    query := if qmark == |uri| then "" else uri[qmark + 1..];
    if path == "" { path := "/"; }
    path := Uri.CleanPath(path);
  }

  method ValidatePath(config: ServerConfig, path: string) returns (absolute: string)
    ensures absolute == AbsolutePath(config, path)
  {
    var root, uri := config.root, path;
    var loc := MatchLocation(config, uri);
    var own := loc.Some? && loc.value.root != "";
    if own {
      root := loc.value.root;
      var locPath := loc.value.path;
      if locPath <= uri {
        var stripped := uri[|locPath|..];
        if stripped != "" {
          uri := if stripped[0] != '/' then locPath + stripped else stripped;
        }
      }
    }
    ghost var whole := root;
    while root != "" && root[|root| - 1] == '/'
      invariant WithoutSlashes(root) == WithoutSlashes(whole)
      decreases |root|
    {
      root := root[..|root| - 1];
    }
    if own && uri == loc.value.path {
      var lastSlash := LastSlash(uri);
      if lastSlash >= 0 { uri := uri[lastSlash..]; }
    }
    absolute := root + uri;
  }

  method Refuse(conn: Connection, code: nat)
    requires conn.Valid() && conn.readBuffer.Valid()
    modifies conn.request`parseState, conn.request`errorCode
    ensures conn.Valid() && conn.View() == Parser.Fail(old(conn.View()), code)
  {
    conn.request.Fail(code);
  }

  method ParseRequestLine(env: Env, conn: Connection)
    requires conn.Valid() && conn.request.parseState == Line
    modifies conn.readBuffer, conn.request`verb, conn.request`path, conn.request`query, conn.request`version,
             conn.request`parseState, conn.request`errorCode
    ensures conn.Valid() && conn.View() == ReadLine(env, old(conn.View()))
  {
    var req := conn.request;
    var data := conn.readBuffer.Contents();
    var v := ExamineLine(data);
    match v
    case Incomplete =>
    case Refused(code) => Refuse(conn, code);
    case UnknownVerb(verb) =>
      req.verb := verb;
      Refuse(conn, 501);
    case Accepted(verb, uri, length) =>
      LengthInBuffer(data);
      StoreLine(env, conn, verb, uri, length);
  }

  method StoreLine(env: Env, conn: Connection, verb: string, uri: string, length: nat)
    requires conn.Valid() && conn.request.parseState == Line && length <= |conn.readBuffer.Contents()|
    modifies conn.readBuffer, conn.request`verb, conn.request`path, conn.request`query, conn.request`version,
             conn.request`parseState, conn.request`errorCode
    ensures conn.Valid() && conn.View() == Lookup(env, old(conn.View()), verb, uri, length)
  {
    var path, query := SplitTarget(uri);
    PathIsKnown(uri);
    var absolute := ValidatePath(conn.config, path);
    Advance(conn.readBuffer, length);
    SetLine(conn, verb, path, query, env.stat(absolute));
  }

  method SetLine(conn: Connection, verb: string, path: string, query: string, stat: Stat)
    requires conn.Valid() && path != "" && conn.request.parseState == Line
    modifies conn.request`verb, conn.request`path, conn.request`query, conn.request`version,
             conn.request`parseState, conn.request`errorCode
    ensures conn.Valid()
    ensures var c := old(conn.View());
            conn.View() == c.(req := c.req.(verb := verb, path := path, query := query, version := "HTTP/1.1",
                                            state := if stat.Found? then Heads else Error,
                                            code := if stat.Found? then c.req.code else if stat.Forbidden? then 403 else 404))
  {
    var req := conn.request;
    req.verb, req.version, req.path, req.query := verb, "HTTP/1.1", path, query;
    if stat.Found? {
      req.parseState := Heads;
    } else {
      Refuse(conn, if stat.Forbidden? then 403 else 404);
    }
  }

  // -------------------------------------------------------------- headers

  method OverrideHost(conn: Connection, host: string)
    modifies conn`config, conn.readBuffer`cmbs, conn.writeBuffer`cmbs, conn.request.body`cmbs
    ensures conn.config == ConfigFor(conn.configuration, host, old(conn.config))
    ensures if exists g :: g in conn.configuration && g.serverName == host
            then conn.readBuffer.cmbs == conn.writeBuffer.cmbs == conn.request.body.cmbs == conn.config.maxBody
            else conn.readBuffer.cmbs == old(conn.readBuffer.cmbs) && conn.writeBuffer.cmbs == old(conn.writeBuffer.cmbs)
                 && conn.request.body.cmbs == old(conn.request.body.cmbs)
  {
    for i := 0 to |conn.configuration|
      invariant conn.config == old(conn.config) && forall k :: 0 <= k < i ==> conn.configuration[k].serverName != host
      invariant conn.readBuffer.cmbs == old(conn.readBuffer.cmbs) && conn.writeBuffer.cmbs == old(conn.writeBuffer.cmbs)
      invariant conn.request.body.cmbs == old(conn.request.body.cmbs)
      invariant ConfigFor(conn.configuration, host, conn.config) == ConfigFor(conn.configuration[i..], host, conn.config)
    {
      assert conn.configuration[i..][1..] == conn.configuration[i + 1..];
      if conn.configuration[i].serverName == host {
        conn.config := conn.configuration[i];
        conn.ResizeBuffers();
        return;
      }
    }
  }

  /** Name and value of a header line; None without a colon or without a name. */
  method SplitHeader(line: string) returns (r: Option<(string, string)>)
    ensures r == if Find(line, ':', 0) == |line| || Headers.NameOf(line) == "" then None
                 else Some((Headers.NameOf(line), Headers.ValueOf(line)))
  {
    var colon := Find(line, ':', 0);
    if colon == |line| { return None; }
    var name := StrTrim(line[..colon]);
    name := StrToLower(name);
    var value := StrTrim(line[colon + 1..]);
    r := if name == "" then None else Some((name, value));
  }

  /** One header line into the map; true when it was refused. */
  method StoreHeader(req: HttpRequest, line: string) returns (refused: bool)
    modifies req`headers, req`parseState, req`errorCode
    ensures var r := Headers.AddLine(old(req.headers), line);
            && refused == r.Rejected? && req.headers == r.headers
            && req.parseState == (if refused then Error else old(req.parseState))
            && req.errorCode == (if refused then r.code else old(req.errorCode))
  {
    var split := SplitHeader(line);
    if split.None? { req.Fail(400); return true; }
    var (name, value) := split.value;
    if name in req.headers {
      if name in Headers.SINGLETON_HEADERS { req.Fail(400); return true; }
      value := req.headers[name] + ", " + value;
    }
    req.headers := req.headers[name := value];
    refused := |req.headers| > Headers.MAX_HEADERS;
    if refused { req.Fail(431); }
  }

  /** The objects show where the header lines stopped. */
  ghost predicate ShowsBlock(conn: Connection, b: Headers.Block, ended: bool, code: nat)
    reads conn, conn.request, conn.request.body, conn.readBuffer
  {
    && conn.Valid() && ended == b.Ended? && conn.request.headers == b.headers && conn.readBuffer.Contents() == b.rest
    && conn.request.parseState == (if b.Broken? then Error else Heads)
    && conn.request.errorCode == (if b.Broken? then b.code else code)
  }

  /** One header line, if it is there. */
  method HeaderTurn(conn: Connection) returns (more: bool, ended: bool)
    requires conn.Valid() && conn.request.parseState == Heads
    modifies conn.readBuffer, conn.request`headers, conn.request`parseState, conn.request`errorCode
    ensures var b := Headers.Collect(old(conn.request.headers), old(conn.readBuffer.Contents()));
            if more then
              && conn.Valid() && conn.request.parseState == Heads && conn.request.errorCode == old(conn.request.errorCode)
              && Headers.Collect(conn.request.headers, conn.readBuffer.Contents()) == b
              && |conn.readBuffer.Contents()| < |old(conn.readBuffer.Contents())|
            else ShowsBlock(conn, b, ended, old(conn.request.errorCode))
  {
    var buf, req := conn.readBuffer, conn.request;
    var data := buf.Contents();
    var crlf := FindCrlf(data);
    if crlf.None? { return false, false; }
    if crlf.value > Headers.MAX_LINE {
      req.Fail(431);
      return false, false;
    }
    Advance(buf, crlf.value + 2);
    if crlf.value == 0 { return false, true; }
    var refused := StoreHeader(req, data[..crlf.value]);
    more, ended := !refused, false;
  }

  /** The line loop of `_parseHeaders`; true when the empty line was reached. */
  method CollectHeaders(conn: Connection) returns (ended: bool)
    requires conn.Valid() && conn.request.parseState == Heads
    modifies conn.readBuffer, conn.request`headers, conn.request`parseState, conn.request`errorCode
    ensures ShowsBlock(conn, Headers.Collect(old(conn.request.headers), old(conn.readBuffer.Contents())), ended,
                       old(conn.request.errorCode))
  {
    var more := true;
    ended := false;
    while more
      invariant var b := Headers.Collect(old(conn.request.headers), old(conn.readBuffer.Contents()));
                if more then
                  && conn.Valid() && conn.request.parseState == Heads && conn.request.errorCode == old(conn.request.errorCode)
                  && Headers.Collect(conn.request.headers, conn.readBuffer.Contents()) == b
                else ShowsBlock(conn, b, ended, old(conn.request.errorCode))
      decreases more, |conn.readBuffer.Contents()|
    {
      more, ended := HeaderTurn(conn);
    }
  }

  method ParseHeaders(env: Env, conn: Connection)
    requires conn.Valid() && conn.request.parseState == Heads && conn.configuration == env.configs
    modifies conn`config, conn.readBuffer, conn.writeBuffer`cmbs, conn.request.body`cmbs,
             conn.request`headers, conn.request`parseState, conn.request`errorCode, conn.request`contentLength, conn.request`chunked
    ensures conn.Valid() && conn.View() == ReadHeaders(env, old(conn.View()))
  {
    ghost var c := conn.View();
    var ended := CollectHeaders(conn);
    ghost var d := conn.View();
    HeadersShow(env, c, d, Headers.Collect(c.req.headers, c.buf));
    if ended { SettleHeaders(env, conn); }
  }

  /** Where the line loop leaves a connection, nothing but the block has changed. */
  lemma HeadersShow(env: Env, c: Conn, d: Conn, b: Headers.Block)
    requires b == Headers.Collect(c.req.headers, c.buf) && c.req.state == Heads
    requires d == c.(buf := b.rest, req := c.req.(headers := b.headers,
                     state := if b.Broken? then Error else Heads, code := if b.Broken? then b.code else c.req.code))
    ensures ReadHeaders(env, c) == if b.Ended? then Settle(env, d) else d
  {
    assert b.Ended? ==> d == c.(req := c.req.(headers := b.headers), buf := b.rest);
  }

  method SettleHeaders(env: Env, conn: Connection)
    requires conn.Valid() && conn.request.parseState == Heads && conn.configuration == env.configs
    modifies conn`config, conn.readBuffer`cmbs, conn.writeBuffer`cmbs, conn.request.body`cmbs,
             conn.request`headers, conn.request`parseState, conn.request`errorCode, conn.request`contentLength, conn.request`chunked
    ensures conn.Valid() && conn.View() == Settle(env, old(conn.View()))
  {
    var req := conn.request;
    if req.version == "HTTP/1.1" && "host" !in req.headers { Refuse(conn, 400); return; }
    if "host" in req.headers {
      var host := Host.ValidateHost(req.headers["host"]);
      if host.None? { Refuse(conn, 400); return; }
      StoreHost(conn, host.value.0);
    }
    MeasureBody(conn);
  }

  method StoreHost(conn: Connection, host: string)
    requires conn.Valid() && conn.request.parseState == Heads
    modifies conn`config, conn.readBuffer`cmbs, conn.writeBuffer`cmbs, conn.request.body`cmbs, conn.request`headers
    ensures conn.Valid()
    ensures var c := old(conn.View());
            conn.View() == c.(req := c.req.(headers := c.req.headers["host" := host]), config := ConfigFor(conn.configuration, host, c.config))
  {
    OverrideHost(conn, host);
    conn.request.headers := conn.request.headers["host" := host];
  }

  method MeasureBody(conn: Connection)
    requires conn.Valid() && conn.request.parseState == Heads
    modifies conn.request`parseState, conn.request`errorCode, conn.request`contentLength, conn.request`chunked
    ensures conn.Valid() && conn.View() == Measure(old(conn.View()))
  {
    var req := conn.request;
    if "content-length" in req.headers && "transfer-encoding" in req.headers { Refuse(conn, 400); return; }
    if "content-length" in req.headers {
      var length := Headers.ParseLength(req.headers["content-length"], conn.config.maxBody);
      if length.BadLength? { Refuse(conn, length.code); return; }
      req.contentLength := length.value;
    }
    FrameBody(conn);
  }

  method FrameBody(conn: Connection)
    requires conn.Valid() && conn.request.parseState == Heads
    modifies conn.request`parseState, conn.request`errorCode, conn.request`contentLength, conn.request`chunked
    ensures conn.Valid() && conn.View() == Framing(old(conn.View()))
  {
    var req := conn.request;
    var chunked := false;
    if "transfer-encoding" in req.headers {
      var coding := StrToLower(req.headers["transfer-encoding"]);
      chunked := coding == "chunked";
    }
    req.chunked := chunked;
    if chunked { req.contentLength := 0; }
    ChooseState(conn);
  }

  method ChooseState(conn: Connection)
    requires conn.Valid() && conn.request.parseState == Heads
    modifies conn.request`parseState, conn.request`errorCode
    ensures conn.Valid()
    ensures var c := old(conn.View());
            conn.View() == if c.req.chunked || c.req.contentLength > 0 then c.(req := c.req.(state := Body))
                           else if c.req.verb == "POST" then Parser.Fail(c, 411)
                           else c.(req := c.req.(state := ParseState.Complete))
  {
    var req := conn.request;
    if !req.chunked && req.contentLength == 0 {
      if req.verb == "POST" { req.Fail(411); } else { req.parseState := ParseState.Complete; }
    } else {
      req.parseState := Body;
    }
  }

  // ----------------------------------------------------------------- feed

  method ApplyLocationBodyLimit(conn: Connection)
    requires conn.Valid()
    modifies conn.request`maxBodySize, conn.request.body`cmbs, conn.readBuffer`cmbs
    ensures conn.Valid() && conn.View() == ApplyLimit(old(conn.View()))
    ensures conn.request.path != "" ==> conn.request.body.cmbs == conn.request.maxBodySize
  {
    var req := conn.request;
    if req.path == "" { return; }
    var limit: nat := conn.config.maxBody;
    var loc := MatchLocation(conn.config, req.path);
    if loc.Some? && loc.value.clientMaxBodySize > 0 { limit := loc.value.clientMaxBodySize; }
    if limit == 0 { limit := DEFAULT_LIMIT; }
    req.maxBodySize := limit;
    req.body.SetMaxSize(limit);
    conn.readBuffer.SetMaxSize(limit);
  }

  method ReadChunkedBody(conn: Connection)
    requires conn.Valid() && conn.request.parseState == Body && conn.request.body.cmbs == conn.request.maxBodySize
    modifies conn.readBuffer, conn.request, conn.request.body
    ensures conn.Valid() && conn.View() == ReadChunked(old(conn.View()))
  {
    ParseChunked(conn.readBuffer, conn.request);
  }

  method ReadFixedBody(conn: Connection)
    requires conn.Valid() && conn.request.parseState == Body && !conn.request.chunked
    requires conn.request.body.cmbs == conn.request.maxBodySize
    modifies conn.readBuffer, conn.request, conn.request.body
    ensures conn.Valid() && conn.View() == ReadFixed(old(conn.View()))
  {
    FixedTouches(conn.View());
    ParseBody(conn.readBuffer, conn.request, conn.config);
  }

  lemma FixedTouches(c: Conn)
    ensures var r := ReadFixed(c);
            r == Conn(c.req.(dec := r.req.dec, state := r.req.state, code := r.req.code), r.buf, c.config)
  {
  }

  method ParseRest(conn: Connection)
    requires conn.Valid()
    modifies conn.readBuffer, conn.request, conn.request.body
    ensures conn.Valid() && conn.View() == FromBody(old(conn.View()))
  {
    ApplyLocationBodyLimit(conn);
    if conn.request.parseState == Body {
      if conn.request.chunked { ReadChunkedBody(conn); } else { ReadFixedBody(conn); }
    }
  }

  /** One call of `feed` does to the connection what `Parser.Feed` says. */
  method FeedConnection(env: Env, conn: Connection)
    requires conn.Valid() && conn.configuration == env.configs
    modifies conn`config, conn.readBuffer, conn.writeBuffer`cmbs, conn.request, conn.request.body
    ensures conn.Valid() && conn.View() == Feed(env, old(conn.View()))
  {
    var req := conn.request;
    if req.parseState == ParseState.Complete || req.parseState == Error { return; }
    if req.parseState == Idle { req.parseState := Line; }
    if req.parseState == Line {
      ParseRequestLine(env, conn);
      if req.parseState != Line { ApplyLocationBodyLimit(conn); }
    }
    if req.parseState == Heads { ParseHeaders(env, conn); }
    ParseRest(conn);
  }
}
