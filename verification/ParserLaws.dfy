/** What a request means to the connection: its target, where it is looked up, which limit its body has, and
    when the body is refused for it.  Locations are chosen by `Routing.Serves` alone. */
module ParserLaws {
  import opened Text
  import opened Routing
  import opened Parser
  import Chunked
  import ChunkWriter
  import Uri
  import RequestLine
  import Headers
  import Host

  // ---------------------------------------------------------------- body limits

  /** The limit of a path's body: that of its longest location if it has one, else the server's, else one
      megabyte. */
  ghost predicate Governs(config: ServerConfig, path: string, limit: nat)
  {
    && (forall l :: Longest(config, path, l) && l.clientMaxBodySize > 0 ==> limit == l.clientMaxBodySize)
    && ((forall l :: Longest(config, path, l) ==> l.clientMaxBodySize == 0) ==>
          limit == if config.maxBody == 0 then 1048576 else config.maxBody)
  }

  lemma SomeIsLongest(config: ServerConfig, path: string)
    requires DistinctPaths(config.locations)
    ensures forall l :: Longest(config, path, l) <==> Match(config, path) == Some(l)
  {
    MatchIsUniqueLongest(config, path);
    forall l ensures Longest(config, path, l) <==> Match(config, path) == Some(l) {
      if Longest(config, path, l) { LongestIsMatched(config, path, l); }
    }
  }

  lemma LimitGoverns(config: ServerConfig, path: string)
    requires DistinctPaths(config.locations)
    ensures Governs(config, path, LimitFor(config, path))
  {
    SomeIsLongest(config, path);
    if Match(config, path).Some? { assert Longest(config, path, Match(config, path).value); }
  }

  /** Behind the request line every connection has the limit that governs its path. */
  lemma LimitBehindTheLine(env: Env, c: Conn)
    requires Inv(c) && DistinctPaths(Feed(env, c).config.locations)
    ensures var d := Feed(env, c);
            d.req.state == Heads || d.req.state == Body || d.req.state == ParseState.Complete ==>
              Governs(d.config, d.req.path, d.req.maxBody)
  {
    FeedKeepsInv(env, c);
    LimitGoverns(Feed(env, c).config, Feed(env, c).req.path);
  }

  /** A body of announced length is refused exactly when length and bytes received both pass the limit. */
  lemma FixedBodyIsRefusedIff(env: Env, c: Conn, limit: nat)
    requires Inv(c) && c.req.state == Body && !c.req.chunked
    requires DistinctPaths(c.config.locations) && Governs(c.config, c.req.path, limit)
    ensures var d := Feed(env, c);
            && (d.req.state == Error <==> c.req.contentLength > limit && c.req.dec.written + |c.buf| > limit)
            && (d.req.state == Error ==> d.req.code == 413)
  {
    GovernedAlone(c.config, c.req.path, limit);
  }

  lemma GovernedAlone(config: ServerConfig, path: string, limit: nat)
    requires DistinctPaths(config.locations) && Governs(config, path, limit)
    ensures limit == LimitFor(config, path)
  {
    SomeIsLongest(config, path);
    LimitGoverns(config, path);
    if Match(config, path).Some? { assert Longest(config, path, Match(config, path).value); }
  }

  lemma {:induction false} TooLongIsMalformed(blocks: seq<string>, rest: string, room: nat)
    requires ChunkWriter.Small(blocks) && |ChunkWriter.Flat(blocks)| > room
    ensures Chunked.DecodeWhole(ChunkWriter.Encode(blocks) + rest, room) == Chunked.Malformed(413)
    decreases |blocks|
  {
    var init, last := blocks[..|blocks| - 1], blocks[|blocks| - 1];
    ChunkWriter.EncodeSplits(blocks, rest);
    if |ChunkWriter.Flat(init)| > room {
      TooLongIsMalformed(init, ChunkWriter.Chunk(last) + rest, room);
    } else {
      ChunkWriter.EncodeDecodes(init, ChunkWriter.Chunk(last) + rest, room);
      ChunkIsTooLong(last, rest, room - |ChunkWriter.Flat(init)|);
    }
  }

  lemma ChunkIsTooLong(data: string, rest: string, room: nat)
    requires room < |data| <= Chunked.MAX_ALLOWED_CHUNK
    ensures Chunked.DecodeWhole(ChunkWriter.Chunk(data) + rest, room) == Chunked.Malformed(413)
  {
    var tail := data + ("\r\n" + rest);
    ChunkWriter.ChunkAsLine(data, rest);
    ChunkWriter.SizeLineReadsBack(|data|, tail);
    assert |tail| >= |data|;
  }

  lemma ChunkedStep(env: Env, c: Conn, limit: nat)
    requires Inv(c) && c.req.state == Body && c.req.chunked
    requires DistinctPaths(c.config.locations) && Governs(c.config, c.req.path, limit)
    ensures c.req.maxBody == limit && Feed(env, c) == ReadChunked(c)
  {
    GovernedAlone(c.config, c.req.path, limit);
    FeedInBody(env, c);
  }

  lemma RefusalIsRead(c: Conn, d: Chunked.Decoder, code: nat)
    requires Chunked.Agrees(Chunked.Decode(c.req.dec, c.buf, c.req.maxBody), d, Chunked.Malformed(code))
    ensures ReadChunked(c).req.state == Error && ReadChunked(c).req.code == code
  {
  }

  lemma WholeIsRead(c: Conn, d: Chunked.Decoder, body: string, rest: string)
    requires Chunked.Agrees(Chunked.Decode(c.req.dec, c.buf, c.req.maxBody), d, Chunked.Whole(body, rest))
    ensures var e := ReadChunked(c); e.req.state == ParseState.Complete && e.req.dec.body == d.body + body && e.buf == rest
  {
  }

  /** A chunked body is refused as soon as a chunk passes the limit. */
  lemma ChunkedBodyIsRefused(env: Env, c: Conn, limit: nat, blocks: seq<string>, rest: string)
    requires Inv(c) && c.req.state == Body && c.req.chunked && c.req.dec == FRESH_DECODER
    requires DistinctPaths(c.config.locations) && Governs(c.config, c.req.path, limit)
    requires ChunkWriter.Small(blocks) && c.buf == ChunkWriter.Encode(blocks) + rest && |ChunkWriter.Flat(blocks)| > limit
    ensures Feed(env, c).req.state == Error && Feed(env, c).req.code == 413
  {
    ChunkedStep(env, c, limit);
    TooLongIsMalformed(blocks, rest, limit);
    Chunked.DecodeRefinesWhole(FRESH_DECODER, c.buf, limit);
    RefusalIsRead(c, FRESH_DECODER, 413);
  }

  /** One that stays within it is read as it was written. */
  lemma ChunkedBodyIsRead(env: Env, c: Conn, limit: nat, blocks: seq<string>, rest: string)
    requires Inv(c) && c.req.state == Body && c.req.chunked && c.req.dec == FRESH_DECODER
    requires DistinctPaths(c.config.locations) && Governs(c.config, c.req.path, limit)
    requires ChunkWriter.Small(blocks) && c.buf == ChunkWriter.Encode(blocks) + (ChunkWriter.TERMINATOR + rest) && |ChunkWriter.Flat(blocks)| <= limit
    ensures var d := Feed(env, c);
            d.req.state == ParseState.Complete && d.req.dec.body == ChunkWriter.Flat(blocks) && d.buf == rest
  {
    ChunkedStep(env, c, limit);
    ChunkWriter.WriterRoundTrip(blocks, rest, limit);
    Chunked.DecodeRefinesWhole(FRESH_DECODER, c.buf, limit);
    WholeIsRead(c, FRESH_DECODER, ChunkWriter.Flat(blocks), rest);
    assert "" + ChunkWriter.Flat(blocks) == ChunkWriter.Flat(blocks);
  }

  // ---------------------------------------------------------- the request line

  /** Behind an accepted line: verb, path and query of its target, and the rest. */
  function BehindLine(c: Conn, cuts: RequestLine.Cuts, limit: nat): Conn
    requires RequestLine.RequestLineAt(c.buf, cuts)
  {
    var verb, uri := c.buf[cuts.v..cuts.g], c.buf[cuts.u..cuts.t];
    Conn(Request(Heads, 0, verb, PathOf(uri), QueryOf(uri), "HTTP/1.1", map[], 0, false, limit, FRESH_DECODER), c.buf[cuts.n..], c.config)
  }

  lemma FoundIsFed(env: Env, c: Conn, verb: string, uri: string, length: nat)
    requires c.req == FRESH_REQUEST && RequestLine.Examine(c.buf) == RequestLine.Accepted(verb, uri, length) && length <= |c.buf|
    ensures var path := PathOf(uri);
            var e := Conn(Request(Heads, 0, verb, path, QueryOf(uri), "HTTP/1.1", map[], 0, false, LimitFor(c.config, path), FRESH_DECODER),
                          c.buf[length..], c.config);
            match env.stat(AbsolutePath(c.config, path))
            case Forbidden => Feed(env, c).req.state == Error && Feed(env, c).req.code == 403
            case Missing => Feed(env, c).req.state == Error && Feed(env, c).req.code == 404
            case Found => Feed(env, c) == Feed(env, e)
  {
    var d := c.(req := c.req.(state := Line));
    PathIsKnown(uri);
    assert ReadLine(env, d) == Lookup(env, d, verb, uri, length);
    FreshIsFed(env, c, d);
    LookedUpIsFed(env, d, verb, uri, length);
  }

  lemma FreshIsFed(env: Env, c: Conn, d: Conn)
    requires c.req == FRESH_REQUEST && d == c.(req := c.req.(state := Line)) && ReadLine(env, d).req.state != Line
    ensures Feed(env, c) == FromHeaders(env, ApplyLimit(ReadLine(env, d)))
  {
  }

  lemma LookedUpIsFed(env: Env, d: Conn, verb: string, uri: string, length: nat)
    requires d.req == FRESH_REQUEST.(state := Line) && length <= |d.buf| && PathOf(uri) != ""
    ensures var path, x := PathOf(uri), FromHeaders(env, ApplyLimit(Lookup(env, d, verb, uri, length)));
            var e := Conn(Request(Heads, 0, verb, path, QueryOf(uri), "HTTP/1.1", map[], 0, false, LimitFor(d.config, path), FRESH_DECODER),
                          d.buf[length..], d.config);
            match env.stat(AbsolutePath(d.config, path))
            case Forbidden => x.req.state == Error && x.req.code == 403
            case Missing => x.req.state == Error && x.req.code == 404
            case Found => x == FromHeaders(env, e)
  {
    LimitTwice(Lookup(env, d, verb, uri, length));
  }

  lemma RefusalIsFed(env: Env, c: Conn)
    requires c.req == FRESH_REQUEST
    ensures var x, d := RequestLine.Examine(c.buf), Feed(env, c);
            && (x.Refused? ==> d.req.state == Error && d.req.code == x.code)
            && (x.UnknownVerb? ==> d.req.state == Error && d.req.code == 501)
  {
  }

  /** A well-formed line on a fresh connection: refused for its length or its method, then for what the file system
      says of its path, or followed by the headers. */
  lemma LineIsFed(env: Env, c: Conn, cuts: RequestLine.Cuts, limit: nat)
    requires c.req == FRESH_REQUEST && RequestLine.RequestLineAt(c.buf, cuts) && DistinctPaths(c.config.locations)
    requires Governs(c.config, PathOf(c.buf[cuts.u..cuts.t]), limit)
    ensures var verb, uri, d := c.buf[cuts.v..cuts.g], c.buf[cuts.u..cuts.t], Feed(env, c);
            if |uri| > RequestLine.MAX_URI then d.req.state == Error && d.req.code == 414
            else if !RequestLine.Supported(verb) then d.req.state == Error && d.req.code == 501
            else
              match env.stat(AbsolutePath(c.config, PathOf(uri)))
              case Forbidden => d.req.state == Error && d.req.code == 403
              case Missing => d.req.state == Error && d.req.code == 404
              case Found => d == Feed(env, BehindLine(c, cuts, limit))
  {
    var verb, uri := c.buf[cuts.v..cuts.g], c.buf[cuts.u..cuts.t];
    RequestLine.LineIsExamined(c.buf, cuts);
    if |uri| > RequestLine.MAX_URI || !RequestLine.Supported(verb) {
      RefusalIsFed(env, c);
    } else {
      GovernedAlone(c.config, PathOf(uri), limit);
      FoundIsFed(env, c, verb, uri, cuts.n);
    }
  }

  // ------------------------------------------------------- what headers decide

  /** The header block is complete: these headers and this rest, a valid host, and the configuration it chooses. */
  ghost predicate HeadersAre(env: Env, c: Conn, h: Headers.HeaderMap, rest: string, host: string, config: ServerConfig)
  {
    && Inv(c) && c.req.state == Heads && Headers.Collect(c.req.headers, c.buf) == Headers.Ended(h, rest)
    && "host" in h && Host.Validated(h["host"]).Some? && Host.Validated(h["host"]).value.0 == host
    && config == ConfigFor(env.configs, host, c.config)
  }

  /** The connection with its headers, not yet framed. */
  function Known(c: Conn, h: Headers.HeaderMap, rest: string, host: string, config: ServerConfig): Conn
  {
    c.(req := c.req.(headers := h["host" := host]), buf := rest, config := config)
  }

  lemma HeadersAreSettled(env: Env, c: Conn, h: Headers.HeaderMap, rest: string)
    requires Inv(c) && c.req.state == Heads && Headers.Collect(c.req.headers, c.buf) == Headers.Ended(h, rest)
    ensures Feed(env, c) == FromBody(Settle(env, c.(req := c.req.(headers := h), buf := rest)))
  {
    assert ReadHeaders(env, c) == Settle(env, c.(req := c.req.(headers := h), buf := rest));
  }

  lemma HeadersAreFed(env: Env, c: Conn, h: Headers.HeaderMap, rest: string, host: string, config: ServerConfig)
    requires HeadersAre(env, c, h, rest, host, config)
    ensures Feed(env, c) == FromBody(Measure(Known(c, h, rest, host, config)))
    ensures c.req.contentLength == 0 && !c.req.chunked && c.req.dec == FRESH_DECODER && c.req.path != ""
  {
    HeadersAreSettled(env, c, h, rest);
    assert Settle(env, c.(req := c.req.(headers := h), buf := rest)) == Measure(Known(c, h, rest, host, config));
  }

  lemma SettleAsksForHost(env: Env, c: Conn)
    requires c.req.version == "HTTP/1.1" && ("host" !in c.req.headers || Host.Validated(c.req.headers["host"]).None?)
    ensures Settle(env, c) == Fail(c, 400)
  {
  }

  lemma FailureStays(c: Conn)
    requires c.req.state == Error
    ensures FromBody(c).req.state == Error && FromBody(c).req.code == c.req.code
  {
  }

  /** Without a host, or with one that is not valid. */
  lemma HostIsAskedFor(env: Env, c: Conn, h: Headers.HeaderMap, rest: string)
    requires Inv(c) && c.req.state == Heads && Headers.Collect(c.req.headers, c.buf) == Headers.Ended(h, rest)
    requires "host" !in h || Host.Validated(h["host"]).None?
    ensures Feed(env, c).req.state == Error && Feed(env, c).req.code == 400
  {
    var d := c.(req := c.req.(headers := h), buf := rest);
    HeadersAreSettled(env, c, h, rest);
    SettleAsksForHost(env, d);
    FailureStays(Fail(d, 400));
  }

  /** Two framings are one too many. */
  lemma TwoFramingsAreRefused(env: Env, c: Conn, h: Headers.HeaderMap, rest: string, host: string, config: ServerConfig)
    requires HeadersAre(env, c, h, rest, host, config) && "content-length" in h && "transfer-encoding" in h
    ensures Feed(env, c).req.state == Error && Feed(env, c).req.code == 400
  {
    HeadersAreFed(env, c, h, rest, host, config);
    var k := Known(c, h, rest, host, config);
    assert Measure(k) == Fail(k, 400);
  }

  /** A length must be digits, and may not pass the limit of the server, whatever the location's. */
  lemma LengthIsRefused(env: Env, c: Conn, h: Headers.HeaderMap, rest: string, host: string, config: ServerConfig)
    requires HeadersAre(env, c, h, rest, host, config) && "content-length" in h && "transfer-encoding" !in h
    requires config.maxBody < Headers.EXACT
    requires var v := h["content-length"]; v == "" || !Headers.Decimal(v) || Headers.DecimalValue(v) > config.maxBody
    ensures var d, v := Feed(env, c), h["content-length"];
            && d.req.state == Error && (v == "" ==> d.req.code == 400)
            && (d.req.code == 400 || d.req.code == 413) && (v != "" && Headers.Decimal(v) ==> d.req.code == 413)
  {
    HeadersAreFed(env, c, h, rest, host, config);
    var k, v := Known(c, h, rest, host, config), h["content-length"];
    if v != "" && Headers.Decimal(v) { Headers.ContentLengthIsExact(v, config.maxBody); }
    Headers.LengthNeedsDigits(v, 0, 0, config.maxBody);
    assert Measure(k) == Fail(k, Headers.ContentLength(v, config.maxBody).code);
  }

  predicate Announces(length: string, n: nat) { length != "" && Headers.Decimal(length) && Headers.DecimalValue(length) == n }

  /** No body is announced: no length or length zero, and no coding, or one that is not known. */
  ghost predicate WithoutBody(h: Headers.HeaderMap)
  {
    && ("content-length" in h ==> "transfer-encoding" !in h && Announces(h["content-length"], 0))
    && ("transfer-encoding" in h ==> Lowered(h["transfer-encoding"]) != "chunked")
  }

  lemma NoBodyIsMeasured(k: Conn)
    requires WithoutBody(k.req.headers) && k.req.contentLength == 0 && k.config.maxBody < Headers.EXACT
    ensures Measure(k) == if k.req.verb == "POST" then Fail(k.(req := k.req.(chunked := false)), 411)
                          else k.(req := k.req.(chunked := false, state := ParseState.Complete))
  {
    var h := k.req.headers;
    if "content-length" in h { Headers.ContentLengthIsExact(h["content-length"], k.config.maxBody); }
    assert k.req.(contentLength := 0) == k.req;
  }

  lemma OtherHeadersStay(h: Headers.HeaderMap, host: string)
    requires WithoutBody(h) && "host" in h
    ensures WithoutBody(h["host" := host])
  {
    assert |"host"| == 4 && |"content-length"| == 14 && |"transfer-encoding"| == 17;
  }

  /** Then the request is complete, but for a POST, which is refused. */
  lemma RequestWithoutBody(env: Env, c: Conn, h: Headers.HeaderMap, rest: string, host: string, config: ServerConfig)
    requires HeadersAre(env, c, h, rest, host, config) && WithoutBody(h) && config.maxBody < Headers.EXACT
    ensures var d := Feed(env, c);
            && d.req.headers == h["host" := host] && d.buf == rest && d.req.dec.body == "" && d.config == config
            && (if c.req.verb == "POST" then d.req.state == Error && d.req.code == 411 else d.req.state == ParseState.Complete)
  {
    HeadersAreFed(env, c, h, rest, host, config);
    OtherHeadersStay(h, host);
    NoBodyIsMeasured(Known(c, h, rest, host, config));
  }

  // -------------------------------------------------------- bodies behind headers

  lemma MeasuredIs(env: Env, c: Conn, h: Headers.HeaderMap, rest: string, host: string, config: ServerConfig)
    requires HeadersAre(env, c, h, rest, host, config)
    ensures Inv(ApplyLimit(Measure(Known(c, h, rest, host, config))))
    ensures var e := Measure(Known(c, h, rest, host, config)); e.req.state == Body ==> Feed(env, c) == Feed(env, ApplyLimit(e))
  {
    var d, e := c.(req := c.req.(headers := h), buf := rest), Measure(Known(c, h, rest, host, config));
    HeadersAreFed(env, c, h, rest, host, config);
    CollectBounded(c.req.headers, c.buf);
    SettleEstablishes(env, d);
    if e.req.state == Body {
      LimitTwice(e);
      FeedInBody(env, ApplyLimit(e));
    }
  }

  lemma LengthIsMeasured(k: Conn, n: nat)
    requires k.req.contentLength == 0 && 0 < n <= k.config.maxBody < Headers.EXACT
    requires "content-length" in k.req.headers && "transfer-encoding" !in k.req.headers && Announces(k.req.headers["content-length"], n)
    ensures Measure(k) == k.(req := k.req.(contentLength := n, chunked := false, state := Body))
  {
    Headers.ContentLengthIsExact(k.req.headers["content-length"], k.config.maxBody);
  }

  lemma NamesStay(h: Headers.HeaderMap, host: string, name: string)
    requires |name| > 4
    ensures var g := h["host" := host]; (name in g <==> name in h) && (name in h ==> g[name] == h[name])
  {
    assert |"host"| == 4;
  }

  /** What has come of a body of `n` bytes. */
  ghost predicate FixedBody(d: Conn, n: nat, limit: nat, rest: string)
  {
    && (n <= |rest| && n <= limit ==> d.req.state == ParseState.Complete && d.req.dec.body == rest[..n] && d.buf == "")
    && (|rest| < n && |rest| <= limit ==> d.req.state == Body && d.req.dec.body == rest && d.buf == "")
    && (n > limit && |rest| > limit ==> d.req.state == Error && d.req.code == 413)
  }

  lemma FixedIsTaken(e: Conn)
    requires e.req.state == Body && !e.req.chunked && e.req.contentLength > 0 && e.req.dec == FRESH_DECODER
    ensures FixedBody(ReadFixed(e), e.req.contentLength, e.req.maxBody, e.buf)
  {
    assert e.buf[..|e.buf|] == e.buf && e.buf[|e.buf|..] == "";
    assert forall x: string :: "" + x == x;
  }

  /** A body of announced length is taken up to its last byte, and what follows it is dropped; it is refused when
      more than the governing limit has come of it. */
  lemma FixedBodyArrives(env: Env, c: Conn, h: Headers.HeaderMap, rest: string, host: string, config: ServerConfig, n: nat, limit: nat)
    requires HeadersAre(env, c, h, rest, host, config) && 0 < n <= config.maxBody < Headers.EXACT
    requires "content-length" in h && "transfer-encoding" !in h && Announces(h["content-length"], n)
    requires DistinctPaths(config.locations) && Governs(config, c.req.path, limit)
    ensures FixedBody(Feed(env, c), n, limit, rest)
  {
    var k := Known(c, h, rest, host, config);
    assert |"content-length"| == 14 && |"transfer-encoding"| == 17;
    NamesStay(h, host, "content-length");
    NamesStay(h, host, "transfer-encoding");
    HeadersAreFed(env, c, h, rest, host, config);
    LengthIsMeasured(k, n);
    MeasuredIs(env, c, h, rest, host, config);
    GovernedAlone(config, c.req.path, limit);
    FeedInBody(env, ApplyLimit(Measure(k)));
    LimitTwice(Measure(k));
    FixedIsTaken(ApplyLimit(Measure(k)));
  }

  lemma CodingIsMeasured(k: Conn)
    requires k.req.contentLength == 0 && "content-length" !in k.req.headers
    requires "transfer-encoding" in k.req.headers && Lowered(k.req.headers["transfer-encoding"]) == "chunked"
    ensures Measure(k) == k.(req := k.req.(chunked := true, state := Body))
  {
    assert k.req.(contentLength := 0) == k.req;
  }

  /** A chunked body behind its headers is read as it was written, or refused when it passes the limit. */
  lemma ChunksArrive(env: Env, c: Conn, h: Headers.HeaderMap, rest: string, host: string, config: ServerConfig, limit: nat,
                     blocks: seq<string>, more: string)
    requires HeadersAre(env, c, h, rest, host, config) && "content-length" !in h
    requires "transfer-encoding" in h && Lowered(h["transfer-encoding"]) == "chunked"
    requires DistinctPaths(config.locations) && Governs(config, c.req.path, limit)
    requires ChunkWriter.Small(blocks) && rest == ChunkWriter.Encode(blocks) + (ChunkWriter.TERMINATOR + more)
    ensures var d := Feed(env, c);
            if |ChunkWriter.Flat(blocks)| <= limit
            then d.req.state == ParseState.Complete && d.req.dec.body == ChunkWriter.Flat(blocks) && d.buf == more
            else d.req.state == Error && d.req.code == 413
  {
    var k := Known(c, h, rest, host, config);
    assert |"content-length"| == 14 && |"transfer-encoding"| == 17;
    NamesStay(h, host, "content-length");
    NamesStay(h, host, "transfer-encoding");
    HeadersAreFed(env, c, h, rest, host, config);
    CodingIsMeasured(k);
    MeasuredIs(env, c, h, rest, host, config);
    var e := ApplyLimit(Measure(k));
    if |ChunkWriter.Flat(blocks)| <= limit { ChunkedBodyIsRead(env, e, limit, blocks, more); } else { ChunkedBodyIsRefused(env, e, limit, blocks, ChunkWriter.TERMINATOR + more); }
  }

  // -------------------------------------------------------------------- targets

  predicate Absolute(raw: string) { "http://" <= raw || "https://" <= raw }

  lemma FindIs(s: string, c: char, i: nat, k: nat)
    requires i <= k <= |s| && (k < |s| ==> s[k] == c) && forall j :: i <= j < k ==> s[j] != c
    ensures Find(s, c, i) == k
  {
  }

  /** A target is split at its first question mark; what stands in front of it is decoded and cleaned. */
  lemma TargetSplits(path: string, query: string)
    requires '?' !in path && path != "" && !Absolute(path + "?" + query)
    ensures QueryOf(path + "?" + query) == query
    ensures Uri.PctDecoded(path) != "" ==> PathOf(path + "?" + query) == Uri.Cleaned(Uri.PctDecoded(path))
  {
    var raw := path + "?" + query;
    FindIs(raw, '?', 0, |path|);
    assert raw[..|path|] == path && raw[|path| + 1..] == query;
  }

  lemma TargetWithoutQuery(path: string)
    requires '?' !in path && path != "" && !Absolute(path)
    ensures QueryOf(path) == ""
    ensures Uri.PctDecoded(path) != "" ==> PathOf(path) == Uri.Cleaned(Uri.PctDecoded(path))
  {
    FindIs(path, '?', 0, |path|);
    assert path[..|path|] == path;
  }

  /** Nothing in front of the question mark is the root. */
  lemma TargetOfQueryAlone(query: string)
    ensures PathOf("?" + query) == "/" && QueryOf("?" + query) == query
  {
    var raw := "?" + query;
    FindIs(raw, '?', 0, 0);
    assert raw[..0] == "" && raw[1..] == query;
    assert Uri.IsClean("/");
    Uri.CleanPathIsIdempotent("/");
  }

  lemma SchemeIsSeen(scheme: string, rest: string)
    requires scheme == "http://" || scheme == "https://"
    ensures scheme <= scheme + rest && (scheme == "https://" ==> !("http://" <= scheme + rest))
  {
    if scheme == "https://" { assert (scheme + rest)[4] == 's' && "http://"[4] == ':'; }
  }

  lemma AuthorityEnds(scheme: string, authority: string, target: string)
    requires '/' !in authority && (target != "" ==> target[0] == '/')
    ensures var raw, n := scheme + (authority + target), |scheme| + |authority|;
            Find(raw, '/', |scheme|) == n && (n < |raw| <==> target != "") && raw[n..] == target
  {
    var raw, n := scheme + (authority + target), |scheme|;
    forall j | n <= j < n + |authority| ensures raw[j] != '/' { assert raw[j] == authority[j - n]; }
    FindIs(raw, '/', n, n + |authority|);
  }

  lemma OriginFormIs(scheme: string, authority: string, target: string)
    requires scheme == "http://" || scheme == "https://"
    requires '/' !in authority && (target != "" ==> target[0] == '/')
    ensures OriginForm(scheme + (authority + target)) == if target == "" then "/" else target
  {
    SchemeIsSeen(scheme, authority + target);
    AuthorityEnds(scheme, authority, target);
  }

  lemma OriginStays(target: string)
    requires target != "" && target[0] == '/'
    ensures OriginForm(target) == target
  {
  }

  /** In absolute form scheme and authority do not matter. */
  lemma AbsoluteFormIsStripped(scheme: string, authority: string, target: string)
    requires scheme == "http://" || scheme == "https://"
    requires '/' !in authority && (target != "" ==> target[0] == '/')
    ensures var t := if target == "" then "/" else target;
            PathOf(scheme + authority + target) == PathOf(t) && QueryOf(scheme + authority + target) == QueryOf(t)
  {
    var t := if target == "" then "/" else target;
    OriginFormIs(scheme, authority, target);
    OriginStays(t);
    assert scheme + authority + target == scheme + (authority + target);
    SameOrigin(scheme + authority + target, t);
  }

  lemma SameOrigin(raw: string, target: string)
    requires OriginForm(raw) == OriginForm(target)
    ensures PathOf(raw) == PathOf(target) && QueryOf(raw) == QueryOf(target)
  {
  }

  // ----------------------------------------------------------- where it is looked up

  predicate SlashesOnly(s: string) { forall i :: 0 <= i < |s| ==> s[i] == '/' }

  /** Slashes at the end of a root are taken off. */
  lemma {:induction false} RootWithoutSlashes(root: string, slashes: string)
    requires SlashesOnly(slashes) && (root == "" || root[|root| - 1] != '/')
    ensures WithoutSlashes(root + slashes) == root
    decreases |slashes|
  {
    var s := root + slashes;
    if slashes == "" {
      assert s == root;
    } else {
      assert s[..|s| - 1] == root + slashes[..|slashes| - 1];
      RootWithoutSlashes(root, slashes[..|slashes| - 1]);
    }
  }

  /** Without a location, or with one that has no root, the path stands under the server's root. */
  lemma UnderTheServer(config: ServerConfig, path: string)
    requires DistinctPaths(config.locations) && forall l :: Longest(config, path, l) ==> l.root == ""
    ensures AbsolutePath(config, path) == WithoutSlashes(config.root) + path
  {
    SomeIsLongest(config, path);
    if Match(config, path).Some? { assert Longest(config, path, Match(config, path).value); }
  }

  lemma WhatIsBelow(config: ServerConfig, l: Location, below: string)
    requires Longest(config, l.path + "/" + below, l) && l.root != ""
    ensures AbsolutePath(config, l.path + "/" + below) ==
            WithoutSlashes(l.root) + (if "/" + below == l.path then FromLastSlash(l.path) else "/" + below)
  {
    LongestIsMatched(config, l.path + "/" + below, l);
    var uri := l.path + "/" + below;
    assert uri[..|l.path|] == l.path && uri[|l.path|..] == "/" + below;
  }

  /** Under the root of a location stands what is below it in the path; a path below a location that is written
      like the location again keeps only its last segment. */
  lemma BelowTheLocation(config: ServerConfig, l: Location, dir: string, name: string, below: string)
    requires l.path == dir + "/" + name && '/' !in name && Longest(config, l.path + "/" + below, l) && l.root != ""
    ensures AbsolutePath(config, l.path + "/" + below) ==
            WithoutSlashes(l.root) + (if "/" + below == l.path then "/" + name else "/" + below)
  {
    LastSlashIs(dir, name);
    WhatIsBelow(config, l, below);
  }

  /** The path of the location itself: its last segment under the root. */
  lemma TheLocationItself(config: ServerConfig, l: Location, dir: string, name: string)
    requires l.path == dir + "/" + name && '/' !in name && Longest(config, l.path, l) && l.root != ""
    ensures AbsolutePath(config, l.path) == WithoutSlashes(l.root) + ("/" + name)
  {
    LastSlashIs(dir, name);
    LongestIsMatched(config, l.path, l);
  }

  /** A location written with a slash at its end keeps its own path in front of what is below it. */
  lemma BelowAWrittenSlash(config: ServerConfig, l: Location, below: string)
    requires l.path != "" && l.path[|l.path| - 1] == '/' && below != "" && below[0] != '/'
    requires Longest(config, l.path + below, l) && l.root != ""
    ensures AbsolutePath(config, l.path + below) == WithoutSlashes(l.root) + (l.path + below)
  {
    LongestIsMatched(config, l.path + below, l);
    var uri := l.path + below;
    assert uri[..|l.path|] == l.path && uri[|l.path|..] == below;
  }

  /** Nor is its path without that slash taken off. */
  lemma AtAWrittenSlash(config: ServerConfig, l: Location, path: string)
    requires l.path == path + "/" && Longest(config, path, l) && l.root != ""
    ensures AbsolutePath(config, path) == WithoutSlashes(l.root) + path
  {
    LongestIsMatched(config, path, l);
    assert |l.path| > |path|;
  }

  lemma {:induction false} LastSlashIs(dir: string, name: string)
    requires '/' !in name
    ensures FromLastSlash(dir + "/" + name) == "/" + name
    decreases |name|
  {
    var s := dir + "/" + name;
    LastSlashAt(s, |dir|);
    assert s[|dir|..] == "/" + name;
  }

  lemma {:induction false} LastSlashAt(s: string, k: nat)
    requires k < |s| && s[k] == '/' && forall j :: k < j < |s| ==> s[j] != '/'
    ensures LastSlash(s) == k
    decreases |s|
  {
    if k < |s| - 1 { LastSlashAt(s[..|s| - 1], k); }
  }
}
