/** `HttpParser::feed` of src/HttpParser.cpp on values: what one call makes of the bytes received so
    far, and why it does not matter how the network cut them. */
module Parser {
  import opened Text
  import opened Routing
  import Uri
  import Host
  import Headers
  import RequestLine
  import Chunked

  datatype ParseState = Idle | Line | Heads | Body | Complete | Error

  /** Everything an `HttpRequest` remembers between calls.  `dec` holds the decoded bytes, their
      count and the chunk decoder's position. */
  datatype Request = Request(
    state: ParseState, code: nat,
    verb: string, path: string, query: string, version: string,
    headers: map<string, string>, contentLength: nat, chunked: bool, maxBody: nat,
    dec: Chunked.Decoder)

  /** A connection as the parser sees it: request, unread bytes, configuration in force. */
  datatype Conn = Conn(req: Request, buf: string, config: ServerConfig)

  datatype Stat = Found | Forbidden | Missing

  /** What surrounds a connection and does not change: the file system and the virtual hosts. */
  datatype Env = Env(stat: string -> Stat, configs: seq<ServerConfig>)

  const DEFAULT_LIMIT: nat := 1048576
  const FRESH_DECODER := Chunked.Decoder(0, false, false, 0, "")
  const FRESH_REQUEST := Request(Idle, 0, "", "", "", "", map[], 0, false, 0, FRESH_DECODER)

  predicate Terminal(c: Conn) { c.req.state == Complete || c.req.state == Error }

  /** The announced length has been reached: `_parseBody` has erased the read buffer, which is left without
      capacity.  Only `reset` may follow; an `append` would double a capacity of zero for ever. */
  predicate Erased(c: Conn)
  {
    Terminal(c) && !c.req.chunked && c.req.contentLength > 0 && c.req.dec.written == c.req.contentLength
  }

  function Fail(c: Conn, code: nat): Conn { c.(req := c.req.(state := Error, code := code)) }

  // ---------------------------------------------------------- path lookup

  function WithoutSlashes(root: string): string
  {
    if root != "" && root[|root| - 1] == '/' then WithoutSlashes(root[..|root| - 1]) else root
  }

  /** The path with the location prefix taken off, when something is left of it. */
  function BelowLocation(uri: string, locPath: string): string
  {
    if !(locPath <= uri) then uri
    else
      var stripped := uri[|locPath|..];
      if stripped == "" then uri else if stripped[0] != '/' then locPath + stripped else stripped
  }

  function LastSlash(s: string): (r: int)
    ensures -1 <= r < |s|
  {
    if s == "" then -1 else if s[|s| - 1] == '/' then |s| - 1 else LastSlash(s[..|s| - 1])
  }

  function FromLastSlash(s: string): string
  {
    if LastSlash(s) < 0 then s else s[LastSlash(s)..]
  }

  /** `_validatePath`: the file system path the request line is checked against. */
  function AbsolutePath(config: ServerConfig, path: string): string
  {
    var loc := Match(config, path);
    if loc.None? || loc.value.root == "" then WithoutSlashes(config.root) + path
    else
      var uri := BelowLocation(path, loc.value.path);
      WithoutSlashes(loc.value.root) + (if uri == loc.value.path then FromLastSlash(uri) else uri)
  }

  /** Absolute-form targets lose scheme and authority. */
  function OriginForm(raw: string): string
  {
    if !("http://" <= raw) && !("https://" <= raw) then raw
    else
      var from := if "http://" <= raw then 7 else 8;
      var slash := Find(raw, '/', from);
      if slash == |raw| then "/" else raw[slash..]
  }

  function PathOf(raw: string): string
  {
    var uri := OriginForm(raw);
    var decoded := Uri.PctDecoded(uri[..Find(uri, '?', 0)]);
    Uri.Cleaned(if decoded == "" then "/" else decoded)
  }

  function QueryOf(raw: string): string
  {
    var uri := OriginForm(raw);
    var q := Find(uri, '?', 0);
    if q == |uri| then "" else uri[q + 1..]
  }

  // --------------------------------------------------------------- stages

  /** An accepted line is stored and consumed; the file system decides whether to go on. */
  function Lookup(env: Env, c: Conn, verb: string, uri: string, length: nat): Conn
    requires length <= |c.buf|
  {
    var req := c.req.(verb := verb, version := "HTTP/1.1", path := PathOf(uri), query := QueryOf(uri));
    var d := c.(req := req, buf := c.buf[length..]);
    match env.stat(AbsolutePath(c.config, req.path))
    case Found => d.(req := req.(state := Heads))
    case Forbidden => Fail(d, 403)
    case Missing => Fail(d, 404)
  }

  function ReadLine(env: Env, c: Conn): Conn
  {
    match RequestLine.Examine(c.buf)
    case Incomplete => c
    case Refused(code) => Fail(c, code)
    case UnknownVerb(verb) => Fail(c.(req := c.req.(verb := verb)), 501)
    case Accepted(verb, uri, length) =>
      LengthInBuffer(c.buf);
      Lookup(env, c, verb, uri, length)
  }

  lemma LengthInBuffer(s: string)
    ensures RequestLine.Examine(s).Accepted? ==> RequestLine.Examine(s).length <= |s|
  {
  }

  /** The virtual host named by the Host header; the configuration in force when there is none. */
  function ConfigFor(configs: seq<ServerConfig>, host: string, current: ServerConfig): ServerConfig
    decreases |configs|
  {
    if configs == [] then current
    else if configs[0].serverName == host then configs[0]
    else ConfigFor(configs[1..], host, current)
  }

  /** Whether a body follows, once Host and the two framing headers have been accepted. */
  function Framing(c: Conn): Conn
  {
    var h := c.req.headers;
    var chunked := "transfer-encoding" in h && Lowered(h["transfer-encoding"]) == "chunked";
    var req := c.req.(chunked := chunked, contentLength := if chunked then 0 else c.req.contentLength);
    if req.chunked || req.contentLength > 0 then c.(req := req.(state := Body))
    else if req.verb == "POST" then Fail(c.(req := req), 411)
    else c.(req := req.(state := Complete))
  }

  function Measure(c: Conn): Conn
  {
    var h := c.req.headers;
    if "content-length" in h && "transfer-encoding" in h then Fail(c, 400)
    else if "content-length" !in h then Framing(c)
    else
      match Headers.ContentLength(h["content-length"], c.config.maxBody)
      case BadLength(code) => Fail(c, code)
      case Length(n) => Framing(c.(req := c.req.(contentLength := n)))
  }

  /** The checks behind the empty line. */
  function Settle(env: Env, c: Conn): Conn
  {
    if "host" !in c.req.headers then (if c.req.version == "HTTP/1.1" then Fail(c, 400) else Measure(c))
    else
      match Host.Validated(c.req.headers["host"])
      case None => Fail(c, 400)
      case Some(v) =>
        Measure(c.(req := c.req.(headers := c.req.headers["host" := v.0]), config := ConfigFor(env.configs, v.0, c.config)))
  }

  function ReadHeaders(env: Env, c: Conn): Conn
  {
    match Headers.Collect(c.req.headers, c.buf)
    case Waiting(h, rest) => c.(req := c.req.(headers := h), buf := rest)
    case Broken(code, h, rest) => Fail(c.(req := c.req.(headers := h), buf := rest), code)
    case Ended(h, rest) => Settle(env, c.(req := c.req.(headers := h), buf := rest))
  }

  /** The body limit for a path: the location's, else the server's, else one megabyte. */
  function LimitFor(config: ServerConfig, path: string): nat
  {
    var loc := Match(config, path);
    var limit := if loc.Some? && loc.value.clientMaxBodySize > 0 then loc.value.clientMaxBodySize else config.maxBody;
    if limit == 0 then DEFAULT_LIMIT else limit
  }

  function ApplyLimit(c: Conn): Conn
  {
    if c.req.path == "" then c else c.(req := c.req.(maxBody := LimitFor(c.config, c.req.path)))
  }

  /** `content_length - written` in `size_t`, wrap-around included. */
  function Needed(req: Request): nat
  {
    if req.dec.written <= req.contentLength then req.contentLength - req.dec.written
    else (req.contentLength - req.dec.written) % (SIZE_MAX + 1)
  }

  function Taken(c: Conn, n: nat): Conn
    requires n <= |c.buf|
  {
    c.(req := c.req.(dec := c.req.dec.(body := c.req.dec.body + c.buf[..n], written := c.req.dec.written + n)), buf := c.buf[n..])
  }

  predicate Unframed(req: Request) { req.contentLength == 0 && !req.chunked }

  /** Up to `n` more body bytes: refused over the limit, complete at the announced length. */
  function FixedStep(c: Conn, n: nat): Conn
    requires n <= |c.buf|
  {
    if c.req.dec.written + n > c.req.maxBody then Fail(c, 413)
    else
      var d := Taken(c, n);
      if !Unframed(c.req) && d.req.dec.written == c.req.contentLength
      then d.(req := d.req.(state := Complete), buf := "") else d
  }

  function FixedTake(c: Conn): (n: nat)
    ensures n <= |c.buf|
  {
    if !Unframed(c.req) && Needed(c.req) < |c.buf| then Needed(c.req) else |c.buf|
  }

  function ReadFixed(c: Conn): Conn
  {
    if c.buf == "" then c else FixedStep(c, FixedTake(c))
  }

  function ReadChunked(c: Conn): Conn
  {
    match Chunked.Decode(c.req.dec, c.buf, c.req.maxBody)
    case Waiting(d, rest) => c.(req := c.req.(dec := d), buf := rest)
    case Complete(d, rest) => c.(req := c.req.(dec := d, state := ParseState.Complete), buf := rest)
    case Failed(code, d, rest) => Fail(c.(req := c.req.(dec := d), buf := rest), code)
    case Again(d, rest) => c  // Decode never stops there
  }

  function FromBody(c: Conn): Conn
  {
    var d := ApplyLimit(c);
    if d.req.state != Body then d else if d.req.chunked then ReadChunked(d) else ReadFixed(d)
  }

  function FromHeaders(env: Env, c: Conn): Conn
  {
    FromBody(if c.req.state == Heads then ReadHeaders(env, c) else c)
  }

  function FromLine(env: Env, c: Conn): Conn
  {
    var d := ReadLine(env, c);
    FromHeaders(env, if d.req.state == Line then d else ApplyLimit(d))
  }

  /** One call of `feed`. */
  function Feed(env: Env, c: Conn): Conn
  {
    if Terminal(c) then c
    else if c.req.state == Idle then FromLine(env, c.(req := c.req.(state := Line)))
    else if c.req.state == Line then FromLine(env, c)
    else FromHeaders(env, c)
  }

  // ------------------------------------------------------------ invariant

  /** Nothing of the request is known before its first line is complete. */
  ghost predicate Untouched(req: Request)
  {
    req.path == "" && req.headers == map[] && req.contentLength == 0 && !req.chunked && req.dec == FRESH_DECODER
  }

  ghost predicate Limited(c: Conn)
  {
    c.req.path != "" && c.req.maxBody == LimitFor(c.config, c.req.path)
  }

  ghost predicate LineKnown(req: Request)
  {
    req.path != "" && Uri.IsClean(req.path) && RequestLine.Supported(req.verb) && req.version == "HTTP/1.1"
  }

  ghost predicate LengthKnown(c: Conn)
  {
    && c.req.contentLength <= c.config.maxBody
    && (c.req.contentLength > 0 ==>
          "content-length" in c.req.headers && Headers.Decimal(c.req.headers["content-length"])
          && (c.config.maxBody < Headers.EXACT ==> c.req.contentLength == Headers.DecimalValue(c.req.headers["content-length"])))
    && (c.req.chunked ==> c.req.contentLength == 0)
    && !("content-length" in c.req.headers && "transfer-encoding" in c.req.headers)
  }

  ghost predicate HostKnown(req: Request)
  {
    && "host" in req.headers
    && Host.Validated(req.headers["host"]) == Some((req.headers["host"], 0))
  }

  ghost predicate Counted(req: Request)
  {
    && req.dec.written == |req.dec.body|
    && (!req.chunked ==> req.dec.written <= req.contentLength)
    && (req.dec.trailing ==> req.dec.chunkSize == 0)
  }

  /** What holds between two calls of `feed`. */
  ghost predicate Inv(c: Conn)
  {
    match c.req.state
    case Idle => Untouched(c.req)
    case Line => Untouched(c.req)
    case Heads =>
      && Limited(c) && LineKnown(c.req) && |c.req.headers| <= Headers.MAX_HEADERS
      && c.req.contentLength == 0 && !c.req.chunked && c.req.dec == FRESH_DECODER
    case Body =>
      && Limited(c) && HeadersRead(c)
      && (c.req.chunked || c.req.contentLength > 0)
      && Counted(c.req) && c.req.dec.written <= c.req.maxBody
      && (!c.req.chunked ==> c.req.dec.written < c.req.contentLength)
    case Complete =>
      && Limited(c) && HeadersRead(c)
      && (c.req.verb == "POST" ==> c.req.chunked || c.req.contentLength > 0)
      && Counted(c.req) && c.req.dec.written <= c.req.maxBody
      && (!c.req.chunked ==> c.req.dec.written == c.req.contentLength)
      && (c.req.chunked ==> c.req.dec.done && c.req.dec.chunkSize == 0)
    case Error => c.req.code >= 400
  }

  ghost predicate HeadersRead(c: Conn)
  {
    LineKnown(c.req) && HostKnown(c.req) && LengthKnown(c) && |c.req.headers| <= Headers.MAX_HEADERS
  }

  lemma PathIsKnown(raw: string)
    ensures PathOf(raw) != "" && Uri.IsClean(PathOf(raw))
  {
    var uri := OriginForm(raw);
    var decoded := Uri.PctDecoded(uri[..Find(uri, '?', 0)]);
    Uri.CleanedIsClean(if decoded == "" then "/" else decoded);
  }

  lemma {:induction false} CollectBounded(headers: Headers.HeaderMap, buf: string)
    requires |headers| <= Headers.MAX_HEADERS
    ensures var b := Headers.Collect(headers, buf);
            (b.Waiting? || b.Ended? ==> |b.headers| <= Headers.MAX_HEADERS) && (b.Broken? ==> b.code >= 400)
    decreases |buf|
  {
    var k := Crlf(buf, 0);
    if k.Some? && 0 < k.value <= Headers.MAX_LINE {
      assert Crlf(buf, 0) == k;
      var added := Headers.AddLine(headers, buf[..k.value]);
      if added.Stored? { CollectBounded(added.headers, buf[k.value + 2..]); }
    }
  }

  lemma {:induction false} ConfigForIsThatOrThis(configs: seq<ServerConfig>, host: string, current: ServerConfig)
    ensures var r := ConfigFor(configs, host, current);
            if exists g :: g in configs && g.serverName == host then r in configs && r.serverName == host else r == current
    decreases |configs|
  {
    if configs != [] { ConfigForIsThatOrThis(configs[1..], host, current); }
  }

  ghost predicate BlockRead(c: Conn)
  {
    && LineKnown(c.req) && |c.req.headers| <= Headers.MAX_HEADERS
    && c.req.contentLength == 0 && !c.req.chunked && c.req.dec == FRESH_DECODER
  }

  lemma FramingEstablishes(c: Conn)
    requires LineKnown(c.req) && HostKnown(c.req) && |c.req.headers| <= Headers.MAX_HEADERS
    requires LengthKnown(c) && !c.req.chunked && c.req.dec == FRESH_DECODER
    ensures Inv(ApplyLimit(Framing(c))) && Framing(c).req.state in {Body, ParseState.Complete, Error}
  {
  }

  lemma MeasureEstablishes(c: Conn)
    requires BlockRead(c) && HostKnown(c.req)
    ensures Inv(ApplyLimit(Measure(c))) && Measure(c).req.state in {Body, ParseState.Complete, Error}
  {
    var h := c.req.headers;
    if "content-length" in h && "transfer-encoding" !in h {
      var v, bound := h["content-length"], c.config.maxBody;
      var length := Headers.ContentLength(v, bound);
      if length.Length? {
        Headers.LengthNeedsDigits(v, 0, 0, bound);
        if bound < Headers.EXACT { Headers.ContentLengthIsExact(v, bound); }
        FramingEstablishes(c.(req := c.req.(contentLength := length.value)));
      }
    } else if "content-length" !in h {
      FramingEstablishes(c);
    }
  }

  lemma SettleEstablishes(env: Env, c: Conn)
    requires BlockRead(c)
    ensures Inv(ApplyLimit(Settle(env, c))) && Settle(env, c).req.state in {Body, ParseState.Complete, Error}
  {
    if "host" in c.req.headers && Host.Validated(c.req.headers["host"]).Some? {
      Host.StoredHostIsFixedPoint(c.req.headers["host"]);
      var v := Host.Validated(c.req.headers["host"]).value.0;
      var h := c.req.headers["host" := v];
      assert h.Keys == c.req.headers.Keys;
      assert |h| == |h.Keys| == |c.req.headers|;
      MeasureEstablishes(c.(req := c.req.(headers := h), config := ConfigFor(env.configs, v, c.config)));
    }
  }

  lemma FixedKeepsInv(c: Conn)
    requires Inv(c) && c.req.state == Body && !c.req.chunked
    ensures Inv(ReadFixed(c)) && ReadFixed(c).req.state in {Body, ParseState.Complete, Error}
  {
    if c.buf != "" { StepKeepsInv(c, FixedTake(c)); }
  }

  lemma StepKeepsInv(c: Conn, n: nat)
    requires Inv(c) && c.req.state == Body && !c.req.chunked && n <= |c.buf| && n <= Needed(c.req)
    ensures Inv(FixedStep(c, n)) && FixedStep(c, n).req.state in {Body, ParseState.Complete, Error}
  {
  }

  lemma ChunkedKeepsInv(c: Conn)
    requires Inv(c) && c.req.state == Body && c.req.chunked
    ensures Inv(ReadChunked(c)) && ReadChunked(c).req.state in {Body, ParseState.Complete, Error}
  {
    Chunked.DecodeCounts(c.req.dec, c.buf, c.req.maxBody);
    DecodeEnds(c.req.dec, c.buf, c.req.maxBody);
  }

  lemma BodyKeepsInv(c: Conn)
    requires Inv(c) && c.req.state == Body
    ensures Inv(FromBody(c)) && FromBody(c).req.state in {Body, ParseState.Complete, Error}
  {
    assert ApplyLimit(c) == c;
    if c.req.chunked { ChunkedKeepsInv(c); } else { FixedKeepsInv(c); }
  }

  lemma {:induction false} DecodeEnds(d: Chunked.Decoder, buf: string, max: nat)
    requires d.trailing ==> d.chunkSize == 0
    ensures var p := Chunked.Decode(d, buf, max);
            && (p.Complete? ==> p.d.done && p.d.chunkSize == 0 && !p.d.trailing)
            && (p.Failed? ==> p.code >= 400)
            && (p.d.trailing ==> p.d.chunkSize == 0)
    decreases |buf|
  {
    var p := Chunked.Turn(d, buf, max);
    if p.Again? { DecodeEnds(p.d, p.rest, max); }
  }

  lemma LookupEstablishes(env: Env, c: Conn, verb: string, uri: string, length: nat)
    requires c.req.state == Line && Untouched(c.req) && length <= |c.buf|
    requires RequestLine.Examine(c.buf) == RequestLine.Accepted(verb, uri, length)
    ensures var d := Lookup(env, c, verb, uri, length);
            d.req.state in {Heads, Error} && Inv(ApplyLimit(d))
  {
    PathIsKnown(uri);
  }

  lemma LineEstablishes(env: Env, c: Conn)
    requires c.req.state == Line && Untouched(c.req)
    ensures var d := ReadLine(env, c);
            if d.req.state == Line then d == c else d.req.state in {Heads, Error} && Inv(ApplyLimit(d))
  {
    match RequestLine.Examine(c.buf)
    case Accepted(verb, uri, length) =>
      LengthInBuffer(c.buf);
      LookupEstablishes(env, c, verb, uri, length);
    case Incomplete =>
    case Refused(_) =>
    case UnknownVerb(_) =>
  }

  lemma HeadersKeepInv(env: Env, c: Conn)
    requires Inv(c) && c.req.state == Heads
    ensures Inv(FromHeaders(env, c))
  {
    CollectBounded(c.req.headers, c.buf);
    var b := Headers.Collect(c.req.headers, c.buf);
    if b.Ended? {
      var d := c.(req := c.req.(headers := b.headers), buf := b.rest);
      SettleEstablishes(env, d);
      FromBodyKeepsInv(Settle(env, d));
    } else {
      FromBodyKeepsInv(ReadHeaders(env, c));
    }
  }

  lemma FromBodyKeepsInv(c: Conn)
    requires Inv(ApplyLimit(c))
    ensures Inv(FromBody(c))
  {
    var d := ApplyLimit(c);
    if d.req.state == Body {
      BodyKeepsInv(d);
      assert FromBody(c) == FromBody(d);
    }
  }

  /** Every call of `feed` keeps the invariant, whatever has arrived. */
  lemma FeedKeepsInv(env: Env, c: Conn)
    requires Inv(c)
    ensures Inv(Feed(env, c))
  {
    if !Terminal(c) {
      if c.req.state == Idle || c.req.state == Line {
        var d := c.(req := c.req.(state := Line));
        LineEstablishes(env, d);
        var e := ReadLine(env, d);
        if e.req.state == Line {
          assert FromLine(env, d) == FromBody(d) == d;
        } else if e.req.state == Heads {
          HeadersKeepInv(env, ApplyLimit(e));
        } else {
          FromBodyKeepsInv(ApplyLimit(e));
        }
      } else if c.req.state == Heads {
        HeadersKeepInv(env, c);
      } else {
        FromBodyKeepsInv(c);
      }
    }
  }

  // -------------------------------------------------- fragmentation

  /** `t` arrives behind what is already buffered. */
  function More(c: Conn, t: string): Conn { c.(buf := c.buf + t) }

  /** The same outcome: state, error, request line, headers and framing always; the whole
      request including the decoded body unless the request was refused; and, while more is
      expected, the unread bytes. */
  ghost predicate Same(c: Conn, d: Conn)
  {
    && c.config == d.config
    && c.req.(dec := FRESH_DECODER) == d.req.(dec := FRESH_DECODER)
    && (c.req.state != Error ==> c.req == d.req)
    && (!Terminal(c) ==> c == d)
  }

  /** The body is complete, or refused, with what is here: later bytes make no difference. */
  lemma FixedEnough(c: Conn, t: string)
    requires Inv(c) && c.req.state == Body && !c.req.chunked && c.buf != ""
    requires Needed(c.req) <= |c.buf| || c.req.dec.written + |c.buf| > c.req.maxBody
    ensures Terminal(ReadFixed(c)) && Same(ReadFixed(More(c, t)), ReadFixed(c))
  {
    if Needed(c.req) <= |c.buf| {
      assert (c.buf + t)[..Needed(c.req)] == c.buf[..Needed(c.req)];
    }
  }

  /** All that is here is taken, and more is needed. */
  lemma FixedPartly(c: Conn)
    requires Inv(c) && c.req.state == Body && !c.req.chunked && c.buf != ""
    requires Needed(c.req) > |c.buf| && c.req.dec.written + |c.buf| <= c.req.maxBody
    ensures ReadFixed(c) == Taken(c, |c.buf|) && Needed(ReadFixed(c).req) == Needed(c.req) - |c.buf|
  {
  }

  lemma TakenInTwo(c: Conn, t: string, n: nat)
    requires n <= |t|
    ensures Taken(More(c, t), |c.buf| + n) == Taken(More(Taken(c, |c.buf|), t), n)
  {
    assert c.buf[..|c.buf|] == c.buf && c.buf[|c.buf|..] + t == t;
    assert (c.buf + t)[..|c.buf| + n] == c.buf + t[..n];
    assert (c.buf + t)[|c.buf| + n..] == t[n..];
    assert c.req.dec.body + (c.buf + t[..n]) == (c.req.dec.body + c.buf) + t[..n];
  }

  lemma StepInTwo(c: Conn, t: string, n: nat)
    requires n <= |t| && c.req.dec.written + |c.buf| <= c.req.maxBody
    ensures Same(FixedStep(More(c, t), |c.buf| + n), FixedStep(More(Taken(c, |c.buf|), t), n))
  {
    TakenInTwo(c, t, n);
  }

  /** What is left to take of `t` is the same either way. */
  lemma TakesTheRest(c: Conn, t: string, n: nat)
    requires Inv(c) && c.req.state == Body && !c.req.chunked && t != "" && Needed(c.req) > |c.buf|
    requires c.req.dec.written + |c.buf| <= c.req.maxBody
    requires n == (if Needed(c.req) - |c.buf| < |t| then Needed(c.req) - |c.buf| else |t|)
    ensures FixedTake(More(c, t)) == |c.buf| + n && FixedTake(More(Taken(c, |c.buf|), t)) == n && n <= |t|
  {
    assert c.buf[|c.buf|..] + t == t;
  }

  lemma FixedInTwo(c: Conn, t: string)
    requires Inv(c) && c.req.state == Body && !c.req.chunked && c.buf != "" && t != ""
    requires Needed(c.req) > |c.buf| && c.req.dec.written + |c.buf| <= c.req.maxBody
    ensures Same(ReadFixed(More(c, t)), ReadFixed(More(ReadFixed(c), t)))
  {
    FixedPartly(c);
    var d := Taken(c, |c.buf|);
    var n := if Needed(c.req) - |c.buf| < |t| then Needed(c.req) - |c.buf| else |t|;
    TakesTheRest(c, t, n);
    StepInTwo(c, t, n);
    ReadIsStep(More(c, t));
    ReadIsStep(More(d, t));
  }

  lemma ReadIsStep(c: Conn)
    requires c.buf != ""
    ensures ReadFixed(c) == FixedStep(c, FixedTake(c))
  {
  }

  lemma FixedExtends(c: Conn, t: string)
    requires Inv(c) && c.req.state == Body && !c.req.chunked
    ensures var d := ReadFixed(c);
            if Terminal(d) then Same(ReadFixed(More(c, t)), d)
            else d.req.state == Body && !d.req.chunked && Same(ReadFixed(More(c, t)), ReadFixed(More(d, t)))
  {
    if c.buf == "" {
    } else if Needed(c.req) <= |c.buf| || c.req.dec.written + |c.buf| > c.req.maxBody {
      FixedEnough(c, t);
    } else if t != "" {
      FixedInTwo(c, t);
    } else {
      assert c.buf + t == c.buf;
    }
  }

  lemma ChunkedExtends(c: Conn, t: string)
    requires c.req.state == Body && c.req.chunked
    ensures var d := ReadChunked(c);
            if Terminal(d) then Same(ReadChunked(More(c, t)), d)
            else d.req.state == Body && d.req.chunked && Same(ReadChunked(More(c, t)), ReadChunked(More(d, t)))
  {
    Chunked.DecodeExtends(c.req.dec, c.buf, t, c.req.maxBody);
  }

  lemma BodyExtends(c: Conn, t: string)
    requires Inv(c) && c.req.state == Body
    ensures var d := FromBody(c);
            if Terminal(d) then Same(FromBody(More(c, t)), d)
            else d.req.state == Body && Same(FromBody(More(c, t)), FromBody(More(d, t)))
  {
    assert ApplyLimit(c) == c && ApplyLimit(More(c, t)) == More(c, t);
    if c.req.chunked { ChunkedExtends(c, t); } else { FixedExtends(c, t); }
    BodyKeepsInv(c);
    var d := FromBody(c);
    if !Terminal(d) { assert ApplyLimit(More(d, t)) == More(d, t); }
  }

  lemma SettleIgnoresBuffer(env: Env, c: Conn, t: string)
    ensures Settle(env, More(c, t)) == More(Settle(env, c), t)
  {
  }

  lemma HeadersExtend(env: Env, c: Conn, t: string)
    requires c.req.state == Heads
    ensures var d := ReadHeaders(env, c);
            ReadHeaders(env, More(c, t)) == if d.req.state == Heads then ReadHeaders(env, More(d, t)) else More(d, t)
  {
    Headers.CollectExtends(c.req.headers, c.buf, t);
    var b := Headers.Collect(c.req.headers, c.buf);
    if b.Ended? {
      var e := c.(req := c.req.(headers := b.headers), buf := b.rest);
      SettleIgnoresBuffer(env, e, t);
      SettleLeaves(env, e);
    }
  }

  lemma SettleLeaves(env: Env, c: Conn)
    ensures Settle(env, c).req.state in {Body, ParseState.Complete, Error}
  {
  }

  lemma LimitTwice(c: Conn)
    ensures FromBody(ApplyLimit(c)) == FromBody(c)
  {
    assert ApplyLimit(ApplyLimit(c)) == ApplyLimit(c);
  }

  lemma FeedInBody(env: Env, c: Conn)
    requires c.req.state == Body
    ensures Feed(env, c) == FromBody(c)
  {
  }

  /** Straight from the headers into the body. */
  lemma ThenBodyExtends(env: Env, z: Conn, t: string)
    requires z.req.state == Body && Inv(ApplyLimit(z))
    ensures var d := FromBody(z);
            if Terminal(d) then Same(FromBody(More(z, t)), d)
            else Same(FromBody(More(z, t)), Feed(env, More(d, t)))
  {
    var y := ApplyLimit(z);
    LimitTwice(z);
    LimitTwice(More(z, t));
    assert ApplyLimit(More(z, t)) == More(y, t);
    BodyExtends(y, t);
    var d := FromBody(y);
    if !Terminal(d) { FeedInBody(env, More(d, t)); }
  }

  lemma SameHeadersSameResult(env: Env, x: Conn, y: Conn)
    requires x.req.state == Heads && y.req.state == Heads && ReadHeaders(env, x) == ReadHeaders(env, y)
    ensures FromHeaders(env, x) == FromHeaders(env, y)
  {
  }

  lemma PendingHeaders(env: Env, c: Conn)
    requires Inv(c) && c.req.state == Heads && ReadHeaders(env, c).req.state == Heads
    ensures FromHeaders(env, c) == ReadHeaders(env, c)
  {
    var z := ReadHeaders(env, c);
    assert ApplyLimit(z) == z by { PendingKeeps(env, c); }
  }

  lemma PendingKeeps(env: Env, c: Conn)
    requires c.req.state == Heads && ReadHeaders(env, c).req.state == Heads
    ensures var z := ReadHeaders(env, c); z.req.path == c.req.path && z.req.maxBody == c.req.maxBody && z.config == c.config
  {
    var b := Headers.Collect(c.req.headers, c.buf);
    if b.Ended? { SettleLeaves(env, c.(req := c.req.(headers := b.headers), buf := b.rest)); }
  }

  /** One call after the request line: later bytes are read as if they had been there. */
  lemma AfterLineExtends(env: Env, c: Conn, t: string)
    requires Inv(c) && c.req.state != Idle && c.req.state != Line
    ensures var d := FromHeaders(env, c);
            if Terminal(d) then Same(FromHeaders(env, More(c, t)), d)
            else Same(FromHeaders(env, More(c, t)), Feed(env, More(d, t)))
  {
    if c.req.state == Body {
      BodyExtends(c, t);
    } else if c.req.state == Heads {
      HeadersLeave(env, c);
      var z := ReadHeaders(env, c);
      if z.req.state == Heads {
        PendingHeaders(env, c);
        HeadersExtend(env, c, t);
        SameHeadersSameResult(env, More(c, t), More(z, t));
      } else {
        HeadersExtend(env, c, t);
        if z.req.state == Body {
          HeadersReadKeepsInv(env, c);
          ThenBodyExtends(env, z, t);
        } else {
          assert ApplyLimit(More(z, t)) == More(ApplyLimit(z), t);
        }
      }
    }
  }

  lemma HeadersLeave(env: Env, c: Conn)
    requires c.req.state == Heads
    ensures ReadHeaders(env, c).req.state in {Heads, Body, ParseState.Complete, Error}
  {
    var b := Headers.Collect(c.req.headers, c.buf);
    if b.Ended? { SettleLeaves(env, c.(req := c.req.(headers := b.headers), buf := b.rest)); }
  }

  lemma HeadersReadKeepsInv(env: Env, c: Conn)
    requires Inv(c) && c.req.state == Heads
    ensures Inv(ApplyLimit(ReadHeaders(env, c)))
  {
    CollectBounded(c.req.headers, c.buf);
    var b := Headers.Collect(c.req.headers, c.buf);
    if b.Ended? { SettleEstablishes(env, c.(req := c.req.(headers := b.headers), buf := b.rest)); }
  }

  lemma LookupExtends(env: Env, c: Conn, t: string, verb: string, uri: string, length: nat)
    requires length <= |c.buf|
    ensures Lookup(env, More(c, t), verb, uri, length) == More(Lookup(env, c, verb, uri, length), t)
  {
    assert (c.buf + t)[length..] == c.buf[length..] + t;
  }

  lemma LineExtends(env: Env, c: Conn, t: string)
    requires c.req.state == Line
    ensures var d := ReadLine(env, c);
            if d.req.state == Line then d == c else ReadLine(env, More(c, t)) == More(d, t)
  {
    var v := RequestLine.Examine(c.buf);
    if !v.Incomplete? {
      RequestLine.VerdictIsStable(c.buf, t);
      if v.Accepted? {
        LengthInBuffer(c.buf);
        LookupExtends(env, c, t, v.verb, v.uri, v.length);
      }
    }
  }

  /** One call with everything is one call with the first bytes and one with the rest. */
  lemma FeedExtends(env: Env, c: Conn, t: string)
    requires Inv(c) && !Terminal(c)
    ensures var d := Feed(env, c);
            if Terminal(d) then Same(Feed(env, More(c, t)), d)
            else Same(Feed(env, More(c, t)), Feed(env, More(d, t)))
  {
    if c.req.state == Idle || c.req.state == Line {
      var l := c.(req := c.req.(state := Line));
      LineExtends(env, l, t);
      LineEstablishes(env, l);
      var x := ReadLine(env, l);
      if x.req.state == Line {
        assert Feed(env, c) == l;
      } else {
        assert ApplyLimit(More(x, t)) == More(ApplyLimit(x), t);
        AfterLineExtends(env, ApplyLimit(x), t);
      }
    } else {
      AfterLineExtends(env, c, t);
    }
  }

  /** Append and feed, piece by piece, as the read loop does. */
  function FeedAll(env: Env, c: Conn, pieces: seq<string>): Conn
    decreases |pieces|
  {
    if pieces == [] then c else FeedAll(env, Feed(env, More(c, pieces[0])), pieces[1..])
  }

  function Concat(pieces: seq<string>): string
  {
    if pieces == [] then "" else pieces[0] + Concat(pieces[1..])
  }

  lemma {:induction false} TerminalStays(env: Env, c: Conn, pieces: seq<string>)
    requires Terminal(c)
    ensures Same(FeedAll(env, c, pieces), c)
    decreases |pieces|
  {
    if pieces != [] { TerminalStays(env, More(c, pieces[0]), pieces[1..]); }
  }

  /** However the network cuts a byte stream, feeding it piece by piece ends like feeding it whole. */
  lemma {:induction false} FragmentationDoesNotMatter(env: Env, c: Conn, pieces: seq<string>)
    requires Inv(c) && !Terminal(c) && pieces != []
    ensures Same(FeedAll(env, c, pieces), Feed(env, More(c, Concat(pieces))))
    decreases |pieces|
  {
    var p, rest := pieces[0], pieces[1..];
    var d := Feed(env, More(c, p));
    assert More(c, Concat(pieces)) == More(More(c, p), Concat(rest)) by {
      assert c.buf + (p + Concat(rest)) == (c.buf + p) + Concat(rest);
    }
    if rest == [] {
      assert c.buf + p + "" == c.buf + p;
    } else {
      InvIgnoresBuffer(c, p);
      FeedExtends(env, More(c, p), Concat(rest));
      if Terminal(d) {
        TerminalStays(env, d, rest);
      } else {
        FeedKeepsInv(env, More(c, p));
        FragmentationDoesNotMatter(env, d, rest);
      }
    }
  }

  lemma InvIgnoresBuffer(c: Conn, t: string)
    requires Inv(c)
    ensures Inv(More(c, t))
  {
  }

  /** Two ways of cutting the same stream cannot be told apart. */
  lemma AnyTwoCutsAgree(env: Env, c: Conn, pieces: seq<string>, others: seq<string>)
    requires Inv(c) && !Terminal(c) && pieces != [] && others != [] && Concat(pieces) == Concat(others)
    ensures Same(FeedAll(env, c, pieces), FeedAll(env, c, others))
  {
    FragmentationDoesNotMatter(env, c, pieces);
    FragmentationDoesNotMatter(env, c, others);
  }
}
