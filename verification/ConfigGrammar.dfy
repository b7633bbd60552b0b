/** The language of the configuration file: its tokens, the cursor functions that read its nested blocks,
    and the blocks as data.  A block is a list of statements and of blocks; it is written as tokens in one
    way, and it means the setters of its statements, one after the other.  The cursor accepts at a position
    exactly what is written there and means something. */
module ConfigGrammar {
  import opened Text

  // ----------------------------------------------------------------- tokens

  datatype Token = Context(name: string) | Directive(name: string) | Value(text: string) | LBrace | RBrace | Semicolon | End

  const CONTEXTS: set<string> := {"events", "http", "server", "location"}
  const DIRECTIVES: set<string> := {
    "worker_connections", "event_model", "listen", "host", "server_name", "root", "index", "client_max_body_size",
    "error_page", "allowed_methods", "autoindex", "return", "upload_path", "timeout", "cgi_path", "cgi_ext" }

  /** `Lexer::identify`. */
  function Identify(t: string): Token
  {
    if t == "{" then LBrace else if t == "}" then RBrace else if t == ";" then Semicolon
    else if t in CONTEXTS then Context(t) else if t in DIRECTIVES then Directive(t) else Value(t)
  }

  function Identified(tokens: seq<string>): seq<Token>
  {
    if tokens == [] then [End] else [Identify(tokens[0])] + Identified(tokens[1..])
  }

  // ---------------------------------------------------------- consumeValues

  /** First token at or after `i` that is not a value. */
  function ValuesEnd(stream: seq<Token>, i: nat): (r: nat)
    requires i <= |stream|
    ensures i <= r <= |stream| && (r < |stream| ==> !stream[r].Value?)
    ensures forall k :: i <= k < r ==> stream[k].Value?
    decreases |stream| - i
  {
    if i < |stream| && stream[i].Value? then ValuesEnd(stream, i + 1) else i
  }

  function Texts(stream: seq<Token>, i: nat, j: nat): (r: seq<string>)
    requires i <= j <= |stream| && forall k :: i <= k < j ==> stream[k].Value?
    ensures |r| == j - i && forall k :: 0 <= k < j - i ==> r[k] == stream[i + k].text
    decreases j - i
  {
    if i == j then [] else [stream[i].text] + Texts(stream, i + 1, j)
  }

  /** The values behind the directive at `i` and the position behind their semicolon. */
  function Consumed(stream: seq<Token>, i: nat): (r: Option<(seq<string>, nat)>)
    requires i < |stream|
    ensures r.Some? ==> i + 1 < r.value.1 <= |stream| && stream[r.value.1 - 1].Semicolon?
  {
    var e := ValuesEnd(stream, i + 1);
    if e < |stream| && stream[e].Semicolon? then Some((Texts(stream, i + 1, e), e + 1)) else None
  }

  lemma TextsOneMore(stream: seq<Token>, i: nat, j: nat)
    requires i <= j < |stream| && forall k :: i <= k <= j ==> stream[k].Value?
    ensures Texts(stream, i, j + 1) == Texts(stream, i, j) + [stream[j].text]
  {
  }

  lemma ValuesEndIs(stream: seq<Token>, i: nat, j: nat)
    requires i <= j <= |stream| && (j < |stream| ==> !stream[j].Value?) && forall k :: i <= k < j ==> stream[k].Value?
    ensures ValuesEnd(stream, i) == j
    decreases j - i
  {
  }

  // ------------------------------------------------------------------- rules

  type Setter<!B> = (B, string, seq<string>) -> Option<B>

  /** What the cursor loops do not look into: the blocks under construction (`L` of a location, `S` of a
      server, `H` of the http block), what each directive sets in them, and when a server is finished. */
  datatype Rules<!L, !S, !H> = Rules(
    onceInLocation: set<string>, onceInServer: set<string>,
    location: Setter<L>, server: Setter<S>, http: Setter<H>,
    newLocation: (S, string) -> L, withLocation: (S, L) -> S,
    newServer: H -> S, finish: S -> Option<S>, withServer: (H, S) -> H, noHttp: H)

  // ----------------------------------------------------------------- cursor

  function Marked(seen: set<string>, name: string, once: set<string>): set<string>
  {
    if name in once then seen + {name} else seen
  }

  predicate PathChar(c: char)
  {
    'a' <= c <= 'z' || 'A' <= c <= 'Z' || '0' <= c <= '9' || c == '/' || c == '-' || c == '_' || c == '.' || c == '~'
  }

  predicate LocationPath(path: string)
  {
    path != "" && path[0] == '/' && forall k :: 0 <= k < |path| ==> PathChar(path[k])
  }

  /** The directives of a location from `i` on, up to and with its closing brace. */
  function LocationFrom<L, S, H>(rules: Rules<L, S, H>, stream: seq<Token>, i: nat, loc: L, seen: set<string>)
    : (r: Option<(L, nat)>)
    requires i <= |stream|
    ensures r.Some? ==> i < r.value.1 <= |stream| && stream[r.value.1 - 1].RBrace?
    decreases |stream| - i
  {
    if i == |stream| then None
    else if stream[i].RBrace? then Some((loc, i + 1))
    else if !stream[i].Directive? || (stream[i].name in rules.onceInLocation && stream[i].name in seen) then None
    else
      var values := Consumed(stream, i);
      if values.None? then None
      else
        var next := rules.location(loc, stream[i].name, values.value.0);
        if next.None? then None
        else LocationFrom(rules, stream, values.value.1, next.value, Marked(seen, stream[i].name, rules.onceInLocation))
  }

  /** A whole location, `location` standing at `i`. */
  function LocationAt<L, S, H>(rules: Rules<L, S, H>, stream: seq<Token>, i: nat, srv: S): (r: Option<(L, nat)>)
    requires i < |stream|
    ensures r.Some? ==> i < r.value.1 <= |stream| && stream[r.value.1 - 1].RBrace?
  {
    if i + 2 < |stream| && stream[i + 1].Value? && LocationPath(stream[i + 1].text) && stream[i + 2].LBrace? then
      LocationFrom(rules, stream, i + 3, rules.newLocation(srv, stream[i + 1].text), {})
    else None
  }

  /** One turn of the loop over the directives and locations of a server: the server, the directives seen
      and the position behind. */
  function ItemAt<L, S, H>(rules: Rules<L, S, H>, stream: seq<Token>, i: nat, srv: S, seen: set<string>)
    : (r: Option<(S, set<string>, nat)>)
    requires i < |stream|
    ensures r.Some? ==> i < r.value.2 <= |stream|
  {
    if stream[i] == Context("location") then
      var loc := LocationAt(rules, stream, i, srv);
      if loc.None? then None else Some((rules.withLocation(srv, loc.value.0), seen, loc.value.1))
    else if !stream[i].Directive? || (stream[i].name in rules.onceInServer && stream[i].name in seen) then None
    else
      var values := Consumed(stream, i);
      if values.None? then None
      else
        var next := rules.server(srv, stream[i].name, values.value.0);
        if next.None? then None else Some((next.value, Marked(seen, stream[i].name, rules.onceInServer), values.value.1))
  }

  /** The directives and locations of a server from `i` on, up to its closing brace. */
  function ServerFrom<L, S, H>(rules: Rules<L, S, H>, stream: seq<Token>, i: nat, srv: S, seen: set<string>)
    : (r: Option<(S, nat)>)
    requires i <= |stream|
    ensures r.Some? ==> i <= r.value.1 < |stream| && stream[r.value.1].RBrace?
    decreases |stream| - i
  {
    if i == |stream| then None
    else if stream[i].RBrace? then Some((srv, i))
    else
      var item := ItemAt(rules, stream, i, srv, seen);
      if item.None? then None else ServerFrom(rules, stream, item.value.2, item.value.0, item.value.1)
  }

  /** A whole server, `server` standing at `i`. */
  function ServerAt<L, S, H>(rules: Rules<L, S, H>, stream: seq<Token>, i: nat, http: H): (r: Option<(S, nat)>)
    requires i < |stream|
    ensures r.Some? ==> i < r.value.1 <= |stream| && stream[r.value.1 - 1].RBrace?
  {
    if i + 1 >= |stream| || !stream[i + 1].LBrace? then None
    else
      var body := ServerFrom(rules, stream, i + 2, rules.newServer(http), {});
      if body.None? then None
      else
        var srv := rules.finish(body.value.0);
        if srv.None? then None else Some((srv.value, body.value.1 + 1))
  }

  /** One turn of the loop over the directives and servers of the http block. */
  function PartAt<L, S, H>(rules: Rules<L, S, H>, stream: seq<Token>, i: nat, http: H): (r: Option<(H, nat)>)
    requires i < |stream|
    ensures r.Some? ==> i < r.value.1 <= |stream|
  {
    if stream[i] == Context("server") then
      var srv := ServerAt(rules, stream, i, http);
      if srv.None? then None else Some((rules.withServer(http, srv.value.0), srv.value.1))
    else if !stream[i].Directive? then None
    else
      var values := Consumed(stream, i);
      if values.None? then None
      else
        var next := rules.http(http, stream[i].name, values.value.0);
        if next.None? then None else Some((next.value, values.value.1))
  }

  /** The directives and servers of the http block from `i` on, up to and with its closing brace. */
  function HttpFrom<L, S, H>(rules: Rules<L, S, H>, stream: seq<Token>, i: nat, http: H): (r: Option<(H, nat)>)
    requires i <= |stream|
    ensures r.Some? ==> i < r.value.1 <= |stream| && stream[r.value.1 - 1].RBrace?
    decreases |stream| - i
  {
    if i == |stream| then None
    else if stream[i].RBrace? then Some((http, i + 1))
    else
      var part := PartAt(rules, stream, i, http);
      if part.None? then None else HttpFrom(rules, stream, part.value.1, part.value.0)
  }

  function HttpAt<L, S, H>(rules: Rules<L, S, H>, stream: seq<Token>, i: nat, http: H): (r: Option<(H, nat)>)
    requires i < |stream|
    ensures r.Some? ==> i < r.value.1 <= |stream| && stream[r.value.1 - 1].RBrace?
  {
    if i + 1 < |stream| && stream[i + 1].LBrace? then HttpFrom(rules, stream, i + 2, http) else None
  }

  /** An events block from `i` on: unknown tokens are skipped, but its cursor advances too. */
  function EventsFrom(stream: seq<Token>, i: nat): (r: Option<nat>)
    requires i <= |stream|
    ensures r.Some? ==> i < r.value <= |stream| && stream[r.value - 1].RBrace?
    decreases |stream| - i
  {
    if i == |stream| || stream[i].LBrace? then None
    else if stream[i].RBrace? then Some(i + 1)
    else if stream[i].Directive? then
      var values := Consumed(stream, i);
      if values.None? then None else EventsFrom(stream, values.value.1)
    else EventsFrom(stream, i + 1)
  }

  function EventsAt(stream: seq<Token>, i: nat): (r: Option<nat>)
    requires i < |stream|
    ensures r.Some? ==> i < r.value <= |stream| && stream[r.value - 1].RBrace?
  {
    if i + 1 < |stream| && stream[i + 1].LBrace? then EventsFrom(stream, i + 2) else None
  }

  /** The top level from `i` on; `block` is the http block once it was met. */
  function BlocksFrom<L, S, H>(rules: Rules<L, S, H>, stream: seq<Token>, i: nat, block: Option<H>): (r: Option<Option<H>>)
    requires i <= |stream|
    decreases |stream| - i
  {
    if i == |stream| || stream[i].End? then Some(block)
    else if stream[i] == Context("events") then
      var next := EventsAt(stream, i);
      if next.None? then None else BlocksFrom(rules, stream, next.value, block)
    else if stream[i] == Context("http") && block.None? then
      var next := HttpAt(rules, stream, i, rules.noHttp);
      if next.None? then None else BlocksFrom(rules, stream, next.value.1, Some(next.value.0))
    else None
  }

  // ------------------------------------------------------------------ blocks

  datatype Statement = Statement(name: string, values: seq<string>)
  datatype ServerItem = Setting(statement: Statement) | Place(path: string, body: seq<Statement>)
  datatype HttpItem = Common(statement: Statement) | Host(items: seq<ServerItem>)

  // ----------------------------------------------------------------- writing

  function Values(values: seq<string>): (r: seq<Token>)
    ensures |r| == |values|
  {
    if values == [] then [] else [Value(values[0])] + Values(values[1..])
  }

  function Written(s: Statement): (r: seq<Token>)
    ensures |r| == |s.values| + 2
  {
    [Directive(s.name)] + Values(s.values) + [Semicolon]
  }

  function WrittenAll(body: seq<Statement>): seq<Token>
  {
    if body == [] then [RBrace] else Written(body[0]) + WrittenAll(body[1..])
  }

  function WrittenItem(item: ServerItem): (r: seq<Token>)
    ensures |r| >= 2
  {
    match item
    case Setting(s) => Written(s)
    case Place(path, body) => [Context("location"), Value(path), LBrace] + WrittenAll(body)
  }

  function WrittenItems(items: seq<ServerItem>): seq<Token>
  {
    if items == [] then [RBrace] else WrittenItem(items[0]) + WrittenItems(items[1..])
  }

  function WrittenPart(part: HttpItem): (r: seq<Token>)
    ensures |r| >= 2
  {
    match part
    case Common(s) => Written(s)
    case Host(items) => [Context("server"), LBrace] + WrittenItems(items)
  }

  function WrittenParts(parts: seq<HttpItem>): seq<Token>
  {
    if parts == [] then [RBrace] else WrittenPart(parts[0]) + WrittenParts(parts[1..])
  }

  function WrittenHttp(parts: seq<HttpItem>): seq<Token>
  {
    [Context("http"), LBrace] + WrittenParts(parts)
  }

  // ----------------------------------------------------------------- meaning

  function LocationMeaning<L, S, H>(rules: Rules<L, S, H>, body: seq<Statement>, loc: L, seen: set<string>): Option<L>
  {
    if body == [] then Some(loc)
    else
      var s := body[0];
      if s.name in rules.onceInLocation && s.name in seen then None
      else
        var next := rules.location(loc, s.name, s.values);
        if next.None? then None
        else LocationMeaning(rules, body[1..], next.value, Marked(seen, s.name, rules.onceInLocation))
  }

  function PlaceMeaning<L, S, H>(rules: Rules<L, S, H>, path: string, body: seq<Statement>, srv: S): Option<L>
  {
    if LocationPath(path) then LocationMeaning(rules, body, rules.newLocation(srv, path), {}) else None
  }

  function ItemMeaning<L, S, H>(rules: Rules<L, S, H>, item: ServerItem, srv: S, seen: set<string>): Option<(S, set<string>)>
  {
    match item
    case Setting(s) =>
      if s.name in rules.onceInServer && s.name in seen then None
      else
        var next := rules.server(srv, s.name, s.values);
        if next.None? then None else Some((next.value, Marked(seen, s.name, rules.onceInServer)))
    case Place(path, body) =>
      var loc := PlaceMeaning(rules, path, body, srv);
      if loc.None? then None else Some((rules.withLocation(srv, loc.value), seen))
  }

  function ServerMeaning<L, S, H>(rules: Rules<L, S, H>, items: seq<ServerItem>, srv: S, seen: set<string>): Option<S>
  {
    if items == [] then Some(srv)
    else
      var m := ItemMeaning(rules, items[0], srv, seen);
      if m.None? then None else ServerMeaning(rules, items[1..], m.value.0, m.value.1)
  }

  /** What a whole server means; None when it is incomplete or its locations collide. */
  function HostMeaning<L, S, H>(rules: Rules<L, S, H>, items: seq<ServerItem>, http: H): Option<S>
  {
    var srv := ServerMeaning(rules, items, rules.newServer(http), {});
    if srv.None? then None else rules.finish(srv.value)
  }

  function PartMeaning<L, S, H>(rules: Rules<L, S, H>, part: HttpItem, http: H): Option<H>
  {
    match part
    case Common(s) => rules.http(http, s.name, s.values)
    case Host(items) =>
      var srv := HostMeaning(rules, items, http);
      if srv.None? then None else Some(rules.withServer(http, srv.value))
  }

  function HttpMeaning<L, S, H>(rules: Rules<L, S, H>, parts: seq<HttpItem>, http: H): Option<H>
  {
    if parts == [] then Some(http)
    else
      var m := PartMeaning(rules, parts[0], http);
      if m.None? then None else HttpMeaning(rules, parts[1..], m.value)
  }

  // --------------------------------------------------------------- positions

  /** The tokens `w` stand at `i`. */
  predicate At(stream: seq<Token>, i: nat, w: seq<Token>)
    decreases |w|
  {
    if w == [] then i <= |stream| else i < |stream| && stream[i] == w[0] && At(stream, i + 1, w[1..])
  }

  /** What was read is what is meant, and reading ended at `j`; nothing was read if nothing is meant. */
  ghost predicate Reads<B>(r: Option<(B, nat)>, m: Option<B>, j: nat)
  {
    if m.None? then r.None? else r.Some? && r.value.0 == m.value && r.value.1 == j
  }

  lemma {:induction false} AtIsSlice(stream: seq<Token>, i: nat, w: seq<Token>)
    ensures At(stream, i, w) <==> i + |w| <= |stream| && stream[i..i + |w|] == w
    decreases |w|
  {
    if w != [] {
      AtIsSlice(stream, i + 1, w[1..]);
      if i + |w| <= |stream| {
        var x := stream[i..i + |w|];
        assert x == [stream[i]] + stream[i + 1..i + |w|] && w == [w[0]] + w[1..];
        assert x == w <==> x[0] == w[0] && x[1..] == w[1..];
      }
    }
  }

  lemma {:induction false} AtSplits(stream: seq<Token>, i: nat, a: seq<Token>, b: seq<Token>)
    ensures At(stream, i, a + b) <==> At(stream, i, a) && At(stream, i + |a|, b)
    decreases |a|
  {
    if a == [] {
      assert a + b == b;
      AtIsSlice(stream, i, b);
    } else {
      assert (a + b)[1..] == a[1..] + b;
      AtSplits(stream, i + 1, a[1..], b);
    }
  }

  lemma AtTwo(stream: seq<Token>, i: nat, t: Token, u: Token, w: seq<Token>)
    ensures At(stream, i, [t, u] + w) <==> i + 1 < |stream| && stream[i] == t && stream[i + 1] == u && At(stream, i + 2, w)
  {
    assert ([t, u] + w)[1..] == [u] + w && ([u] + w)[1..] == w;
    assert At(stream, i + 1, [u] + w) <==> i + 1 < |stream| && stream[i + 1] == u && At(stream, i + 2, w);
  }

  lemma AtThree(stream: seq<Token>, i: nat, t: Token, u: Token, v: Token, w: seq<Token>)
    ensures At(stream, i, [t, u, v] + w) <==>
            i + 2 < |stream| && stream[i] == t && stream[i + 1] == u && stream[i + 2] == v && At(stream, i + 3, w)
  {
    assert ([t, u, v] + w)[1..] == [u, v] + w;
    AtTwo(stream, i + 1, u, v, w);
  }

  // -------------------------------------------------------------- statements

  lemma {:induction false} ValuesAreRead(stream: seq<Token>, i: nat, values: seq<string>)
    requires At(stream, i, Values(values) + [Semicolon])
    ensures var e := i + |values|;
            ValuesEnd(stream, i) == e && e < |stream| && stream[e].Semicolon? && Texts(stream, i, e) == values
    decreases |values|
  {
    var w := Values(values) + [Semicolon];
    if values == [] {
      assert w == [Semicolon];
    } else {
      assert w[1..] == Values(values[1..]) + [Semicolon];
      ValuesAreRead(stream, i + 1, values[1..]);
      assert values == [values[0]] + values[1..];
    }
  }

  lemma WrittenIsConsumed(stream: seq<Token>, i: nat, s: Statement)
    requires At(stream, i, Written(s))
    ensures i < |stream| && stream[i] == Directive(s.name)
    ensures Consumed(stream, i) == Some((s.values, i + |Written(s)|))
  {
    assert Written(s)[1..] == Values(s.values) + [Semicolon];
    ValuesAreRead(stream, i + 1, s.values);
  }

  lemma {:induction false} ReadAreValues(stream: seq<Token>, i: nat)
    requires i <= |stream| && ValuesEnd(stream, i) < |stream| && stream[ValuesEnd(stream, i)].Semicolon?
    ensures var e := ValuesEnd(stream, i); At(stream, i, Values(Texts(stream, i, e)) + [Semicolon])
    decreases |stream| - i
  {
    var e := ValuesEnd(stream, i);
    var w := Values(Texts(stream, i, e)) + [Semicolon];
    if i == e {
      assert w == [Semicolon];
    } else {
      ReadAreValues(stream, i + 1);
      assert Texts(stream, i, e)[1..] == Texts(stream, i + 1, e);
      assert w[1..] == Values(Texts(stream, i + 1, e)) + [Semicolon];
    }
  }

  lemma ConsumedIsWritten(stream: seq<Token>, i: nat)
    requires i < |stream| && stream[i].Directive? && Consumed(stream, i).Some?
    ensures var v := Consumed(stream, i).value;
            var w := Written(Statement(stream[i].name, v.0));
            At(stream, i, w) && v.1 == i + |w|
  {
    var v := Consumed(stream, i).value;
    var w := Written(Statement(stream[i].name, v.0));
    ReadAreValues(stream, i + 1);
    assert w[1..] == Values(v.0) + [Semicolon];
  }

  // --------------------------------------------------------------- locations

  /** A written location is read as what it means. */
  lemma {:induction false} LocationReadsBack<L, S, H>(rules: Rules<L, S, H>, stream: seq<Token>, i: nat, body: seq<Statement>,
                                             loc: L, seen: set<string>)
    requires At(stream, i, WrittenAll(body))
    ensures Reads(LocationFrom(rules, stream, i, loc, seen), LocationMeaning(rules, body, loc, seen), i + |WrittenAll(body)|)
    decreases |body|
  {
    if body == [] {
    } else {
      var w, rest := Written(body[0]), WrittenAll(body[1..]);
      AtSplits(stream, i, w, rest);
      WrittenIsConsumed(stream, i, body[0]);
      var next := rules.location(loc, body[0].name, body[0].values);
      if next.Some? {
        LocationReadsBack(rules, stream, i + |w|, body[1..], next.value, Marked(seen, body[0].name, rules.onceInLocation));
      }
    }
  }

  /** And what is read was written. */
  lemma {:induction false} LocationWasWritten<L, S, H>(rules: Rules<L, S, H>, stream: seq<Token>, i: nat, loc: L, seen: set<string>)
    returns (body: seq<Statement>)
    requires i <= |stream| && LocationFrom(rules, stream, i, loc, seen).Some?
    ensures At(stream, i, WrittenAll(body))
            && Reads(LocationFrom(rules, stream, i, loc, seen), LocationMeaning(rules, body, loc, seen), i + |WrittenAll(body)|)
    decreases |stream| - i
  {
    if stream[i].RBrace? {
      body := [];
    } else {
      var v := Consumed(stream, i).value;
      var s := Statement(stream[i].name, v.0);
      ConsumedIsWritten(stream, i);
      var next := rules.location(loc, s.name, s.values).value;
      var rest := LocationWasWritten(rules, stream, v.1, next, Marked(seen, s.name, rules.onceInLocation));
      body := [s] + rest;
      assert body[1..] == rest;
      assert WrittenAll(body) == Written(s) + WrittenAll(rest);
      AtSplits(stream, i, Written(s), WrittenAll(rest));
    }
  }

  lemma PlaceReadsBack<L, S, H>(rules: Rules<L, S, H>, stream: seq<Token>, i: nat, path: string, body: seq<Statement>, srv: S)
    requires At(stream, i, WrittenItem(Place(path, body)))
    ensures i < |stream| && stream[i] == Context("location")
    ensures Reads(LocationAt(rules, stream, i, srv), PlaceMeaning(rules, path, body, srv), i + |WrittenItem(Place(path, body))|)
  {
    AtThree(stream, i, Context("location"), Value(path), LBrace, WrittenAll(body));
    if LocationPath(path) { LocationReadsBack(rules, stream, i + 3, body, rules.newLocation(srv, path), {}); }
  }

  lemma PlaceWasWritten<L, S, H>(rules: Rules<L, S, H>, stream: seq<Token>, i: nat, srv: S) returns (path: string, body: seq<Statement>)
    requires i < |stream| && stream[i] == Context("location") && LocationAt(rules, stream, i, srv).Some?
    ensures At(stream, i, WrittenItem(Place(path, body)))
            && Reads(LocationAt(rules, stream, i, srv), PlaceMeaning(rules, path, body, srv), i + |WrittenItem(Place(path, body))|)
  {
    path := stream[i + 1].text;
    body := LocationWasWritten(rules, stream, i + 3, rules.newLocation(srv, path), {});
    AtThree(stream, i, Context("location"), Value(path), LBrace, WrittenAll(body));
  }

  // ----------------------------------------------------------------- servers

  ghost predicate ItemReads<S>(r: Option<(S, set<string>, nat)>, m: Option<(S, set<string>)>, j: nat)
  {
    if m.None? then r.None? else r.Some? && r.value.0 == m.value.0 && r.value.1 == m.value.1 && r.value.2 == j
  }

  lemma ItemReadsBack<L, S, H>(rules: Rules<L, S, H>, stream: seq<Token>, i: nat, item: ServerItem, srv: S, seen: set<string>)
    requires At(stream, i, WrittenItem(item))
    ensures i < |stream| && !stream[i].RBrace?
    ensures ItemReads(ItemAt(rules, stream, i, srv, seen), ItemMeaning(rules, item, srv, seen), i + |WrittenItem(item)|)
  {
    match item
    case Setting(s) => WrittenIsConsumed(stream, i, s);
    case Place(path, body) => PlaceReadsBack(rules, stream, i, path, body, srv);
  }

  lemma ItemWasWritten<L, S, H>(rules: Rules<L, S, H>, stream: seq<Token>, i: nat, srv: S, seen: set<string>) returns (item: ServerItem)
    requires i < |stream| && ItemAt(rules, stream, i, srv, seen).Some?
    ensures At(stream, i, WrittenItem(item))
    ensures ItemReads(ItemAt(rules, stream, i, srv, seen), ItemMeaning(rules, item, srv, seen), i + |WrittenItem(item)|)
  {
    if stream[i] == Context("location") {
      var path, body := PlaceWasWritten(rules, stream, i, srv);
      item := Place(path, body);
    } else {
      ConsumedIsWritten(stream, i);
      item := Setting(Statement(stream[i].name, Consumed(stream, i).value.0));
    }
  }

  lemma WrittenItemsSplit(stream: seq<Token>, i: nat, item: ServerItem, rest: seq<ServerItem>)
    ensures var w := WrittenItem(item);
            && (At(stream, i, WrittenItems([item] + rest)) <==> At(stream, i, w) && At(stream, i + |w|, WrittenItems(rest)))
            && |WrittenItems([item] + rest)| == |w| + |WrittenItems(rest)|
  {
    var w, tail := WrittenItem(item), WrittenItems(rest);
    assert WrittenItems([item] + rest) == w + tail by { assert ([item] + rest)[1..] == rest; }
    AtSplits(stream, i, w, tail);
  }

  lemma ItemThenRest<L, S, H>(rules: Rules<L, S, H>, stream: seq<Token>, i: nat, item: ServerItem, rest: seq<ServerItem>,
                              srv: S, seen: set<string>, j: nat)
    requires i < |stream| && !stream[i].RBrace?
    requires ItemReads(ItemAt(rules, stream, i, srv, seen), ItemMeaning(rules, item, srv, seen), j)
    ensures var m, whole := ItemMeaning(rules, item, srv, seen), ServerMeaning(rules, [item] + rest, srv, seen);
            if m.None? then ServerFrom(rules, stream, i, srv, seen).None? && whole.None?
            else
              && j <= |stream| && ServerFrom(rules, stream, i, srv, seen) == ServerFrom(rules, stream, j, m.value.0, m.value.1)
              && whole == ServerMeaning(rules, rest, m.value.0, m.value.1)
  {
    assert ([item] + rest)[1..] == rest;
  }

  lemma {:induction false} ServerReadsBack<L, S, H>(rules: Rules<L, S, H>, stream: seq<Token>, i: nat, items: seq<ServerItem>,
                                                    srv: S, seen: set<string>)
    requires At(stream, i, WrittenItems(items))
    ensures Reads(ServerFrom(rules, stream, i, srv, seen), ServerMeaning(rules, items, srv, seen), i + |WrittenItems(items)| - 1)
    decreases |items|
  {
    if items != [] {
      var item, rest, j := items[0], items[1..], i + |WrittenItem(items[0])|;
      assert items == [item] + rest;
      WrittenItemsSplit(stream, i, item, rest);
      ItemReadsBack(rules, stream, i, item, srv, seen);
      ItemThenRest(rules, stream, i, item, rest, srv, seen, j);
      var m := ItemMeaning(rules, item, srv, seen);
      if m.Some? { ServerReadsBack(rules, stream, j, rest, m.value.0, m.value.1); }
    }
  }

  lemma ItemBeforeRest<L, S, H>(rules: Rules<L, S, H>, stream: seq<Token>, i: nat, item: ServerItem, rest: seq<ServerItem>,
                                srv: S, seen: set<string>, j: nat)
    requires i < |stream| && !stream[i].RBrace? && At(stream, i, WrittenItem(item)) && j == i + |WrittenItem(item)| <= |stream|
    requires ItemMeaning(rules, item, srv, seen).Some?
    requires ItemReads(ItemAt(rules, stream, i, srv, seen), ItemMeaning(rules, item, srv, seen), j)
    requires var m := ItemMeaning(rules, item, srv, seen).value;
             At(stream, j, WrittenItems(rest))
             && Reads(ServerFrom(rules, stream, j, m.0, m.1), ServerMeaning(rules, rest, m.0, m.1), j + |WrittenItems(rest)| - 1)
    ensures var items := [item] + rest;
            At(stream, i, WrittenItems(items))
            && Reads(ServerFrom(rules, stream, i, srv, seen), ServerMeaning(rules, items, srv, seen), i + |WrittenItems(items)| - 1)
  {
    ItemThenRest(rules, stream, i, item, rest, srv, seen, j);
    WrittenItemsSplit(stream, i, item, rest);
  }

  lemma {:induction false} ServerWasWritten<L, S, H>(rules: Rules<L, S, H>, stream: seq<Token>, i: nat, srv: S, seen: set<string>)
    returns (items: seq<ServerItem>)
    requires i <= |stream| && ServerFrom(rules, stream, i, srv, seen).Some?
    ensures At(stream, i, WrittenItems(items))
    ensures Reads(ServerFrom(rules, stream, i, srv, seen), ServerMeaning(rules, items, srv, seen), i + |WrittenItems(items)| - 1)
    decreases |stream| - i
  {
    if stream[i].RBrace? {
      items := [];
    } else {
      var item := ItemWasWritten(rules, stream, i, srv, seen);
      var m, j := ItemMeaning(rules, item, srv, seen).value, i + |WrittenItem(item)|;
      ItemThenRest(rules, stream, i, item, [], srv, seen, j);
      var rest := ServerWasWritten(rules, stream, j, m.0, m.1);
      items := [item] + rest;
      ItemBeforeRest(rules, stream, i, item, rest, srv, seen, j);
    }
  }

  lemma HostReadsBack<L, S, H>(rules: Rules<L, S, H>, stream: seq<Token>, i: nat, items: seq<ServerItem>, http: H)
    requires At(stream, i, WrittenPart(Host(items)))
    ensures i < |stream| && stream[i] == Context("server")
    ensures Reads(ServerAt(rules, stream, i, http), HostMeaning(rules, items, http), i + |WrittenPart(Host(items))|)
  {
    AtTwo(stream, i, Context("server"), LBrace, WrittenItems(items));
    ServerReadsBack(rules, stream, i + 2, items, rules.newServer(http), {});
  }

  lemma HostWasWritten<L, S, H>(rules: Rules<L, S, H>, stream: seq<Token>, i: nat, http: H) returns (items: seq<ServerItem>)
    requires i < |stream| && stream[i] == Context("server") && ServerAt(rules, stream, i, http).Some?
    ensures At(stream, i, WrittenPart(Host(items)))
            && Reads(ServerAt(rules, stream, i, http), HostMeaning(rules, items, http), i + |WrittenPart(Host(items))|)
  {
    items := ServerWasWritten(rules, stream, i + 2, rules.newServer(http), {});
    AtTwo(stream, i, Context("server"), LBrace, WrittenItems(items));
  }

  // -------------------------------------------------------------------- http

  lemma PartReadsBack<L, S, H>(rules: Rules<L, S, H>, stream: seq<Token>, i: nat, part: HttpItem, http: H)
    requires At(stream, i, WrittenPart(part))
    ensures i < |stream| && !stream[i].RBrace?
    ensures Reads(PartAt(rules, stream, i, http), PartMeaning(rules, part, http), i + |WrittenPart(part)|)
  {
    match part
    case Common(s) => WrittenIsConsumed(stream, i, s);
    case Host(items) => HostReadsBack(rules, stream, i, items, http);
  }

  lemma PartWasWritten<L, S, H>(rules: Rules<L, S, H>, stream: seq<Token>, i: nat, http: H) returns (part: HttpItem)
    requires i < |stream| && PartAt(rules, stream, i, http).Some?
    ensures At(stream, i, WrittenPart(part))
            && Reads(PartAt(rules, stream, i, http), PartMeaning(rules, part, http), i + |WrittenPart(part)|)
  {
    if stream[i] == Context("server") {
      var items := HostWasWritten(rules, stream, i, http);
      part := Host(items);
    } else {
      ConsumedIsWritten(stream, i);
      part := Common(Statement(stream[i].name, Consumed(stream, i).value.0));
    }
  }

  lemma WrittenPartsSplit(stream: seq<Token>, i: nat, part: HttpItem, rest: seq<HttpItem>)
    ensures var w := WrittenPart(part);
            && (At(stream, i, WrittenParts([part] + rest)) <==> At(stream, i, w) && At(stream, i + |w|, WrittenParts(rest)))
            && |WrittenParts([part] + rest)| == |w| + |WrittenParts(rest)|
  {
    var w, tail := WrittenPart(part), WrittenParts(rest);
    assert WrittenParts([part] + rest) == w + tail by { assert ([part] + rest)[1..] == rest; }
    AtSplits(stream, i, w, tail);
  }

  lemma PartThenRest<L, S, H>(rules: Rules<L, S, H>, stream: seq<Token>, i: nat, part: HttpItem, rest: seq<HttpItem>, http: H, j: nat)
    requires i < |stream| && !stream[i].RBrace?
    requires Reads(PartAt(rules, stream, i, http), PartMeaning(rules, part, http), j)
    ensures var m, whole := PartMeaning(rules, part, http), HttpMeaning(rules, [part] + rest, http);
            if m.None? then HttpFrom(rules, stream, i, http).None? && whole.None?
            else
              && j <= |stream| && HttpFrom(rules, stream, i, http) == HttpFrom(rules, stream, j, m.value)
              && whole == HttpMeaning(rules, rest, m.value)
  {
    assert ([part] + rest)[1..] == rest;
  }

  lemma {:induction false} PartsReadBack<L, S, H>(rules: Rules<L, S, H>, stream: seq<Token>, i: nat, parts: seq<HttpItem>, http: H)
    requires At(stream, i, WrittenParts(parts))
    ensures Reads(HttpFrom(rules, stream, i, http), HttpMeaning(rules, parts, http), i + |WrittenParts(parts)|)
    decreases |parts|
  {
    if parts != [] {
      var part, rest, j := parts[0], parts[1..], i + |WrittenPart(parts[0])|;
      assert parts == [part] + rest;
      WrittenPartsSplit(stream, i, part, rest);
      PartReadsBack(rules, stream, i, part, http);
      PartThenRest(rules, stream, i, part, rest, http, j);
      var m := PartMeaning(rules, part, http);
      if m.Some? { PartsReadBack(rules, stream, j, rest, m.value); }
    }
  }

  lemma {:induction false} PartsWereWritten<L, S, H>(rules: Rules<L, S, H>, stream: seq<Token>, i: nat, http: H)
    returns (parts: seq<HttpItem>)
    requires i <= |stream| && HttpFrom(rules, stream, i, http).Some?
    ensures At(stream, i, WrittenParts(parts))
    ensures Reads(HttpFrom(rules, stream, i, http), HttpMeaning(rules, parts, http), i + |WrittenParts(parts)|)
    decreases |stream| - i
  {
    if stream[i].RBrace? {
      parts := [];
    } else {
      var part := PartWasWritten(rules, stream, i, http);
      var m, j := PartMeaning(rules, part, http).value, i + |WrittenPart(part)|;
      PartThenRest(rules, stream, i, part, [], http, j);
      var rest := PartsWereWritten(rules, stream, j, m);
      parts := [part] + rest;
      PartThenRest(rules, stream, i, part, rest, http, j);
      WrittenPartsSplit(stream, i, part, rest);
    }
  }

  lemma HttpWasWritten<L, S, H>(rules: Rules<L, S, H>, stream: seq<Token>, i: nat, http: H, h: H, j: nat) returns (parts: seq<HttpItem>)
    requires i < |stream| && stream[i] == Context("http") && HttpAt(rules, stream, i, http) == Some((h, j))
    ensures At(stream, i, WrittenHttp(parts)) && j == i + |WrittenHttp(parts)| && HttpMeaning(rules, parts, http) == Some(h)
  {
    parts := PartsWereWritten(rules, stream, i + 2, http);
    AtTwo(stream, i, Context("http"), LBrace, WrittenParts(parts));
  }

  /** At its `http` token the parser accepts `h` and stops at `j` if and only if the tokens up to `j` are
      a written http block that means `h`. */
  lemma AcceptsExactlyHttpBlocks<L, S, H>(rules: Rules<L, S, H>, stream: seq<Token>, i: nat, http: H, h: H, j: nat)
    requires i < |stream| && stream[i] == Context("http")
    ensures HttpAt(rules, stream, i, http) == Some((h, j)) <==>
            exists parts :: At(stream, i, WrittenHttp(parts)) && j == i + |WrittenHttp(parts)| && HttpMeaning(rules, parts, http) == Some(h)
  {
    if HttpAt(rules, stream, i, http) == Some((h, j)) {
      var parts := HttpWasWritten(rules, stream, i, http, h, j);
    }
    forall parts | At(stream, i, WrittenHttp(parts)) && j == i + |WrittenHttp(parts)| && HttpMeaning(rules, parts, http) == Some(h)
      ensures HttpAt(rules, stream, i, http) == Some((h, j))
    {
      AtTwo(stream, i, Context("http"), LBrace, WrittenParts(parts));
      PartsReadBack(rules, stream, i + 2, parts, http);
    }
  }

  // --------------------------------------------------------------- the file

  lemma HttpIsRead<L, S, H>(rules: Rules<L, S, H>, stream: seq<Token>, parts: seq<HttpItem>, http: H)
    requires At(stream, 0, WrittenHttp(parts))
    ensures stream != [] && stream[0] == Context("http")
    ensures Reads(HttpAt(rules, stream, 0, http), HttpMeaning(rules, parts, http), |WrittenHttp(parts)|)
  {
    AtTwo(stream, 0, Context("http"), LBrace, WrittenParts(parts));
    PartsReadBack(rules, stream, 2, parts, http);
  }

  lemma OneBlock<L, S, H>(rules: Rules<L, S, H>, stream: seq<Token>, h: Option<H>, n: nat)
    requires n < |stream| && stream[n].End? && stream[0] == Context("http") && Reads(HttpAt(rules, stream, 0, rules.noHttp), h, n)
    ensures var block := BlocksFrom(rules, stream, 0, None); if h.None? then block.None? else block == Some(Some(h.value))
  {
    if h.Some? { assert BlocksFrom(rules, stream, n, h) == Some(h); }
  }

  /** A file that is one written http block is read as what the block means. */
  lemma HttpBlockIsRead<L, S, H>(rules: Rules<L, S, H>, parts: seq<HttpItem>)
    ensures var block := BlocksFrom(rules, WrittenHttp(parts) + [End], 0, None);
            var h := HttpMeaning(rules, parts, rules.noHttp);
            if h.None? then block.None? else block == Some(Some(h.value))
  {
    var w := WrittenHttp(parts);
    AtIsSlice(w + [End], 0, w);
    assert (w + [End])[0..0 + |w|] == w;
    HttpIsRead(rules, w + [End], parts, rules.noHttp);
    OneBlock(rules, w + [End], HttpMeaning(rules, parts, rules.noHttp), |w|);
  }

  /** Behind the http block it stays as it is. */
  lemma {:induction false} BlockStays<L, S, H>(rules: Rules<L, S, H>, stream: seq<Token>, i: nat, h: H)
    requires i <= |stream| && BlocksFrom(rules, stream, i, Some(h)).Some?
    ensures BlocksFrom(rules, stream, i, Some(h)) == Some(Some(h))
    decreases |stream| - i
  {
    if i < |stream| && !stream[i].End? { BlockStays(rules, stream, EventsAt(stream, i).value, h); }
  }

  /** The http block of a file was read somewhere in it. */
  lemma {:induction false} HttpBlockWasRead<L, S, H>(rules: Rules<L, S, H>, stream: seq<Token>, i: nat, h: H) returns (k: nat, j: nat)
    requires i <= |stream| && BlocksFrom(rules, stream, i, None) == Some(Some(h))
    ensures k < |stream| && stream[k] == Context("http") && HttpAt(rules, stream, k, rules.noHttp) == Some((h, j))
    ensures k < j <= |stream| && stream[j - 1].RBrace?
    decreases |stream| - i
  {
    if stream[i] == Context("events") {
      k, j := HttpBlockWasRead(rules, stream, EventsAt(stream, i).value, h);
    } else {
      var next := HttpAt(rules, stream, i, rules.noHttp).value;
      BlockStays(rules, stream, next.1, next.0);
      k, j := i, next.1;
    }
  }

  /** And written there. */
  lemma HttpBlockWasWritten<L, S, H>(rules: Rules<L, S, H>, stream: seq<Token>, h: H) returns (k: nat, j: nat, parts: seq<HttpItem>)
    requires BlocksFrom(rules, stream, 0, None) == Some(Some(h))
    ensures k < j <= |stream| && stream[k..j] == WrittenHttp(parts) && stream[j - 1].RBrace?
    ensures HttpMeaning(rules, parts, rules.noHttp) == Some(h)
  {
    k, j := HttpBlockWasRead(rules, stream, 0, h);
    parts := HttpWasWritten(rules, stream, k, rules.noHttp, h, j);
    AtIsSlice(stream, k, WrittenHttp(parts));
  }
}
