/** The block parsers of the configuration and what they accept: conf/parsing.cpp, conf/parserConf.cpp, conf/eventsConfig.cpp,
    conf/server_parser.cpp, conf/location_parser.cpp and conf/httpConfig.cpp.  Nested loops share one
    cursor; an error ends everything, so a result is an option. */
module ConfigParser {
  import opened Text
  import opened ConfigNumbers
  import opened ConfigSizes
  import opened ConfigGrammar
  import Routing

  const INT_MAX: int := 0x7FFF_FFFF
  const DEFAULT_LIMIT: int := 1048576
  const MAX_SERVERS: nat := 20

  method ConsumeValues(stream: seq<Token>, i: nat) returns (r: Option<(seq<string>, nat)>)
    requires i < |stream|
    ensures r == Consumed(stream, i)
  {
    var values: seq<string> := [];
    var j := i + 1;
    while j < |stream| && stream[j].Value?
      invariant i + 1 <= j <= |stream| && forall k :: i + 1 <= k < j ==> stream[k].Value?
      invariant values == Texts(stream, i + 1, j)
    {
      TextsOneMore(stream, i + 1, j);
      values := values + [stream[j].text];
      j := j + 1;
    }
    ValuesEndIs(stream, i + 1, j);
    if j >= |stream| || !stream[j].Semicolon? { return None; }
    r := Some((values, j + 1));
  }

  // ------------------------------------------------------------------ blocks

  datatype LocationBlock = LocationBlock(
    path: string, root: string, index: seq<string>, methods: seq<string>, autoindex: bool, cgiPaths: seq<string>,
    cgiExts: seq<string>, upload: string, limit: int, errors: map<int, string>, redirect: Option<(int, string)>)

  datatype ServerBlock = ServerBlock(
    host: string, port: int, timeout: int, root: string, index: seq<string>, name: string, limit: int,
    errors: map<int, string>, locations: seq<LocationBlock>)

  datatype HttpBlock = HttpBlock(limit: int, errors: map<int, string>, servers: seq<ServerBlock>)

  /** `parse_cl_mx_bd_sz`: -1, a number of bytes, or a number that did not fit. */
  ghost predicate Honest(size: string -> int) { forall s :: size(s) >= -1 || size(s) == LLONG_MIN }

  lemma ParsedSizesAreHonest(round: real -> real)
    ensures Honest(token => SizeOf(round, token))
  {
    var size := token => SizeOf(round, token);
    forall s ensures size(s) >= -1 || size(s) == LLONG_MIN { SizeOverflowsIff(round, s); }
  }

  function Limit(size: string -> int, values: seq<string>): Option<int>
  {
    if |values| != 1 then None
    else
      var n := size(values[0]);
      if n == -1 || n > INT_MAX then None else Some(n)
  }

  function AddPages(codes: seq<string>, path: string, pages: map<int, string>): Option<map<int, string>>
  {
    if codes == [] then Some(pages)
    else
      var code := Bounded(codes[0], 300, 599);
      if code.None? then None else AddPages(codes[1..], path, pages[code.value := path])
  }

  function ErrorPages(values: seq<string>, pages: map<int, string>): Option<map<int, string>>
  {
    if |values| < 2 then None else AddPages(values[..|values| - 1], values[|values| - 1], pages)
  }

  predicate Distinct(values: seq<string>)
  {
    forall i, j :: 0 <= i < j < |values| ==> values[i] != values[j]
  }

  predicate AllMethods(values: seq<string>)
  {
    forall i :: 0 <= i < |values| ==> values[i] == "GET" || values[i] == "POST" || values[i] == "DELETE"
  }

  // -------------------------------------------------------------- directives

  /** `parseDirective` of a location. */
  function SetLocation(size: string -> int, loc: LocationBlock, name: string, values: seq<string>): Option<LocationBlock>
  {
    if values == [] then None
    else if name == "index" then Some(loc.(index := values))
    else if name == "allowed_methods" then
      if AllMethods(values) && Distinct(values) then Some(loc.(methods := loc.methods + values)) else None
    else if name == "cgi_path" then Some(loc.(cgiPaths := values))
    else if name == "cgi_ext" then Some(loc.(cgiExts := values))
    else if name == "client_max_body_size" then
      var n := Limit(size, values);
      if n.None? then None else Some(loc.(limit := n.value))
    else if name == "error_page" then
      var pages := ErrorPages(values, loc.errors);
      if pages.None? then None else Some(loc.(errors := pages.value))
    else if name == "return" then
      if |values| != 2 then None
      else
        var code := Bounded(values[0], 300, 399);
        if code.None? then None else Some(loc.(redirect := Some((code.value, values[1]))))
    else if |values| != 1 then None
    else if name == "root" then Some(loc.(root := values[0]))
    else if name == "upload_path" then Some(loc.(upload := values[0]))
    else if name == "autoindex" && (values[0] == "on" || values[0] == "off") then Some(loc.(autoindex := values[0] == "on"))
    else None
  }

  function Listen(srv: ServerBlock, val: string): Option<ServerBlock>
  {
    var colon := Find(val, ':', 0);
    if colon < |val| then
      var host, port := val[..colon], Bounded(val[colon + 1..], 1, 65535);
      if port.None? then None
      else if host == "*" then Some(srv.(host := "0.0.0.0", port := port.value))
      else if host == "localhost" || ValidHost(host) then Some(srv.(host := host, port := port.value))
      else None
    else if LongOf(val).Some? then
      var port := Bounded(val, 1, 65535);
      if port.None? then None else Some(srv.(host := "0.0.0.0", port := port.value))
    else if ValidHost(val) then Some(srv.(host := val, port := 9090))
    else None
  }

  /** `parseDirective` of a server. */
  function SetServer(size: string -> int, srv: ServerBlock, name: string, values: seq<string>): Option<ServerBlock>
  {
    if values == [] then None
    else if name == "index" then
      if exists i :: 0 <= i < |values| && values[i] == "" then None else Some(srv.(index := srv.index + values))
    else if name == "server_name" then Some(srv.(name := values[0]))
    else if name == "client_max_body_size" then
      var n := Limit(size, values);
      if n.None? then None else Some(srv.(limit := n.value))
    else if name == "error_page" then
      var pages := ErrorPages(values, srv.errors);
      if pages.None? then None else Some(srv.(errors := pages.value))
    else if |values| != 1 then None
    else if name == "listen" then Listen(srv, values[0])
    else if name == "root" then Some(srv.(root := values[0]))
    else if name == "timeout" then
      var n := Bounded(values[0], 1, 3600);
      if n.None? then None else Some(srv.(timeout := n.value))
    else None
  }

  /** `parseDirective` of the http block. */
  function SetHttp(size: string -> int, http: HttpBlock, name: string, values: seq<string>): Option<HttpBlock>
  {
    if values == [] then None
    else if name == "client_max_body_size" then
      var n := Limit(size, values);
      if n.None? then None else Some(http.(limit := n.value))
    else if name == "error_page" then
      var pages := ErrorPages(values, http.errors);
      if pages.None? then None else Some(http.(errors := pages.value))
    else None
  }

  // --------------------------------------------------------- the end of a server

  predicate DistinctPaths(locs: seq<LocationBlock>)
  {
    forall i, j :: 0 <= i < j < |locs| ==>
      Routing.WithoutTrailingSlash(locs[i].path) != Routing.WithoutTrailingSlash(locs[j].path)
  }

  /** A name with an extension: a dot that is neither first nor last, counted from the right. */
  function LastDot(name: string): (r: int)
    ensures -1 <= r < |name|
  {
    if name == "" then -1 else if name[|name| - 1] == '.' then |name| - 1 else LastDot(name[..|name| - 1])
  }

  predicate GoodIndexes(names: seq<string>)
  {
    forall i :: 0 <= i < |names| ==> 0 < LastDot(names[i]) < |names[i]| - 1
  }

  /** What a location lacks at the end of its server it takes from the server. */
  function Filled(loc: LocationBlock, srv: ServerBlock): LocationBlock
    requires srv.index != []
  {
    loc.(root := if loc.root == "" then srv.root else loc.root,
         index := if loc.index == [] then [srv.index[0]] else loc.index,
         limit := if loc.limit == 0 then srv.limit else loc.limit,
         errors := if loc.errors == map[] then srv.errors else loc.errors)
  }

  function FilledAll(locs: seq<LocationBlock>, srv: ServerBlock): (r: seq<LocationBlock>)
    requires srv.index != []
    ensures |r| == |locs| && forall i :: 0 <= i < |r| ==> r[i] == Filled(locs[i], srv)
  {
    seq(|locs|, i requires 0 <= i < |locs| => Filled(locs[i], srv))
  }

  predicate LocationIndexesGood(loc: LocationBlock)
  {
    loc.redirect.Some? || (loc.cgiPaths != [] && |loc.cgiPaths| == |loc.cgiExts|) || GoodIndexes(loc.index)
  }

  predicate Complete(srv: ServerBlock)
  {
    && srv.port != -1 && srv.root != "" && srv.index != [] && GoodIndexes(srv.index) && srv.timeout > 0
    && (forall k :: 0 <= k < |srv.locations| ==> LocationIndexesGood(Filled(srv.locations[k], srv)))
    && DistinctPaths(srv.locations)
  }

  /** The checks behind the closing brace of a server, and the inheritance of its locations. */
  function Finished(srv: ServerBlock): (r: Option<ServerBlock>)
    ensures r.Some? <==> Complete(srv)
    ensures r.Some? ==> r.value == srv.(locations := FilledAll(srv.locations, srv))
  {
    if Complete(srv) then Some(srv.(locations := FilledAll(srv.locations, srv))) else None
  }

  // ------------------------------------------------------------------- rules

  const ONCE_IN_LOCATION: set<string> := {
    "allowed_methods", "root", "index", "autoindex", "cgi_path", "cgi_ext", "upload_path", "client_max_body_size", "return" }
  const ONCE_IN_SERVER: set<string> := {"listen", "root", "client_max_body_size", "timeout", "index"}

  function RulesOf(size: string -> int): Rules<LocationBlock, ServerBlock, HttpBlock>
  {
    Rules(ONCE_IN_LOCATION, ONCE_IN_SERVER,
          (b, n, v) => SetLocation(size, b, n, v), (b, n, v) => SetServer(size, b, n, v), (b, n, v) => SetHttp(size, b, n, v),
          (s, path) => NewLocation(s, path), (s, l) => WithLocation(s, l),
          h => NewServer(h), s => Finished(s), (h, s) => WithServer(h, s), NO_HTTP)
  }

  // --------------------------------------------------------------- locations

  /** A location starts with what its server has so far. */
  function NewLocation(srv: ServerBlock, path: string): LocationBlock
  {
    LocationBlock(path, srv.root, srv.index, [], false, [], [], "", srv.limit, srv.errors, None)
  }

  method IsLocationPath(path: string) returns (r: bool)
    ensures r == LocationPath(path)
  {
    if path == "" || path[0] != '/' { return false; }
    for k := 0 to |path|
      invariant forall l :: 0 <= l < k ==> PathChar(path[l])
    {
      if !PathChar(path[k]) { return false; }
    }
    r := true;
  }

  /** The loop over the directives of a location. */
  method ParseLocationBody(size: string -> int, stream: seq<Token>, start: nat, loc0: LocationBlock)
    returns (r: Option<(LocationBlock, nat)>)
    requires start <= |stream|
    ensures r == LocationFrom(RulesOf(size), stream, start, loc0, {})
  {
    var i, loc := start, loc0;
    var seen: set<string> := {};
    while i < |stream| && !stream[i].RBrace?
      invariant start <= i <= |stream|
      invariant LocationFrom(RulesOf(size), stream, i, loc, seen) == LocationFrom(RulesOf(size), stream, start, loc0, {})
      decreases |stream| - i
    {
      if !stream[i].Directive? { return None; }
      var name := stream[i].name;
      if name in ONCE_IN_LOCATION {
        if name in seen { return None; }
        seen := seen + {name};
      }
      var values := ConsumeValues(stream, i);
      if values.None? { return None; }
      var next := SetLocation(size, loc, name, values.value.0);
      if next.None? { return None; }
      loc, i := next.value, values.value.1;
    }
    if i >= |stream| { return None; }
    r := Some((loc, i + 1));
  }

  /** `parsLocation`: the path, the brace, the directives. */
  method ParseLocation(size: string -> int, stream: seq<Token>, i: nat, srv: ServerBlock) returns (r: Option<(LocationBlock, nat)>)
    requires i < |stream| && stream[i] == Context("location")
    ensures r == LocationAt(RulesOf(size), stream, i, srv)
  {
    var j := i;
    if stream[j] == Context("location") { j := j + 1; }
    if j >= |stream| || !stream[j].Value? { return None; }
    var path := stream[j].text;
    var ok := IsLocationPath(path);
    if !ok { return None; }
    j := j + 1;
    if j >= |stream| || !stream[j].LBrace? { return None; }
    r := ParseLocationBody(size, stream, j + 1, NewLocation(srv, path));
  }

  // ----------------------------------------------------------------- servers

  /** `verifying_path_in_locations_inside_server`. */
  method VerifyPaths(locs: seq<LocationBlock>) returns (r: bool)
    ensures r <==> DistinctPaths(locs)
  {
    var unique: set<string> := {};
    for i := 0 to |locs|
      invariant forall k :: 0 <= k < i ==> Routing.WithoutTrailingSlash(locs[k].path) in unique
      invariant forall p :: p in unique ==> exists k :: 0 <= k < i && Routing.WithoutTrailingSlash(locs[k].path) == p
      invariant forall k, l :: 0 <= k < l < i ==> Routing.WithoutTrailingSlash(locs[k].path) != Routing.WithoutTrailingSlash(locs[l].path)
    {
      var path := locs[i].path;
      if |path| > 1 && path[|path| - 1] == '/' { path := path[..|path| - 1]; }
      if path in unique {
        var k :| 0 <= k < i && Routing.WithoutTrailingSlash(locs[k].path) == path;
        return false;
      }
      unique := unique + {path};
    }
    r := true;
  }

  method FinishServer(srv: ServerBlock) returns (r: Option<ServerBlock>)
    ensures r == Finished(srv)
  {
    if srv.port == -1 || srv.root == "" || srv.index == [] || !GoodIndexes(srv.index) || srv.timeout <= 0 { return None; }
    var locs := FilledAll(srv.locations, srv);
    for k := 0 to |locs|
      invariant forall l :: 0 <= l < k ==> LocationIndexesGood(locs[l])
    {
      if !LocationIndexesGood(locs[k]) {
        assert !LocationIndexesGood(Filled(srv.locations[k], srv));
        return None;
      }
    }
    var distinct := VerifyPaths(locs);
    SamePaths(locs, srv.locations);
    if !distinct { return None; }
    r := Some(srv.(locations := locs));
  }

  lemma SamePaths(a: seq<LocationBlock>, b: seq<LocationBlock>)
    requires |a| == |b| && forall i :: 0 <= i < |a| ==> a[i].path == b[i].path
    ensures DistinctPaths(a) <==> DistinctPaths(b)
  {
  }

  function WithServer(http: HttpBlock, srv: ServerBlock): HttpBlock
  {
    http.(servers := http.servers + [srv])
  }

  function NewServer(http: HttpBlock): ServerBlock
  {
    ServerBlock("", -1, 0, "", [], "", http.limit, http.errors, [])
  }

  /** `check_for_allowed_methods`, then `addLocation`. */
  function WithLocation(srv: ServerBlock, loc: LocationBlock): ServerBlock
  {
    srv.(locations := srv.locations + [if loc.methods == [] then loc.(methods := ["GET"]) else loc])
  }

  method ParseServerBody(size: string -> int, stream: seq<Token>, start: nat, srv0: ServerBlock) returns (r: Option<(ServerBlock, nat)>)
    requires start <= |stream|
    ensures r == ServerFrom(RulesOf(size), stream, start, srv0, {})
  {
    var i, srv := start, srv0;
    var seen: set<string> := {};
    while i < |stream| && !stream[i].RBrace?
      invariant start <= i <= |stream|
      invariant ServerFrom(RulesOf(size), stream, i, srv, seen) == ServerFrom(RulesOf(size), stream, start, srv0, {})
      decreases |stream| - i
    {
      if stream[i] == Context("location") {
        var loc := ParseLocation(size, stream, i, srv);
        if loc.None? { return None; }
        var l := loc.value.0;
        if l.methods == [] { l := l.(methods := ["GET"]); }
        srv, i := srv.(locations := srv.locations + [l]), loc.value.1;
      } else if stream[i].Directive? {
        var name := stream[i].name;
        if name in ONCE_IN_SERVER {
          if name in seen { return None; }
          seen := seen + {name};
        }
        var values := ConsumeValues(stream, i);
        if values.None? { return None; }
        var next := SetServer(size, srv, name, values.value.0);
        if next.None? { return None; }
        srv, i := next.value, values.value.1;
      } else {
        return None;
      }
    }
    if i >= |stream| { return None; }
    r := Some((srv, i));
  }

  /** `parsServer`. */
  method ParseServer(size: string -> int, stream: seq<Token>, i: nat, http: HttpBlock) returns (r: Option<(ServerBlock, nat)>)
    requires i < |stream|
    ensures r == ServerAt(RulesOf(size), stream, i, http)
  {
    if i + 1 >= |stream| || !stream[i + 1].LBrace? { return None; }
    ghost var rules := RulesOf(size);
    assert rules.newServer(http) == NewServer(http);
    var body := ParseServerBody(size, stream, i + 2, NewServer(http));
    if body.None? { return None; }
    assert rules.finish(body.value.0) == Finished(body.value.0);
    var srv := FinishServer(body.value.0);
    if srv.None? { return None; }
    r := Some((srv.value, body.value.1 + 1));
  }

  // ---------------------------------------------------------- http and events

  /** One turn of the loop of `parsHTTP`. */
  method ParsePart(size: string -> int, stream: seq<Token>, i: nat, http: HttpBlock) returns (r: Option<(HttpBlock, nat)>)
    requires i < |stream|
    ensures r == PartAt(RulesOf(size), stream, i, http)
  {
    if stream[i] == Context("server") {
      var srv := ParseServer(size, stream, i, http);
      if srv.None? { return None; }
      r := Some((http.(servers := http.servers + [srv.value.0]), srv.value.1));
    } else if stream[i].Directive? {
      var values := ConsumeValues(stream, i);
      if values.None? { return None; }
      var next := SetHttp(size, http, stream[i].name, values.value.0);
      if next.None? { return None; }
      r := Some((next.value, values.value.1));
    } else {
      return None;
    }
  }

  /** `parsHTTP`. */
  method ParseHttp(size: string -> int, stream: seq<Token>, start: nat, http0: HttpBlock) returns (r: Option<(HttpBlock, nat)>)
    requires start < |stream|
    ensures r == HttpAt(RulesOf(size), stream, start, http0)
  {
    var i, http := start + 1, http0;
    if i >= |stream| || !stream[i].LBrace? { return None; }
    i := i + 1;
    ghost var rules := RulesOf(size);
    while i < |stream| && !stream[i].RBrace?
      invariant start < i <= |stream|
      invariant HttpFrom(rules, stream, i, http) == HttpAt(rules, stream, start, http0)
      decreases |stream| - i
    {
      var part := ParsePart(size, stream, i, http);
      if part.None? { return None; }
      http, i := part.value.0, part.value.1;
    }
    if i >= |stream| { return None; }
    r := Some((http, i + 1));
  }

  /** `parseEvents`. */
  method ParseEvents(stream: seq<Token>, start: nat) returns (r: Option<nat>)
    requires start < |stream|
    ensures r == EventsAt(stream, start)
  {
    var i := start + 1;
    if i >= |stream| || !stream[i].LBrace? { return None; }
    i := i + 1;
    while i < |stream| && !stream[i].RBrace?
      invariant start < i <= |stream|
      invariant EventsFrom(stream, i) == EventsAt(stream, start)
      decreases |stream| - i
    {
      if stream[i].LBrace? { return None; }
      if stream[i].Directive? {
        var values := ConsumeValues(stream, i);
        if values.None? { return None; }
        i := values.value.1;
      } else {
        i := i + 1;
      }
    }
    if i >= |stream| { return None; }
    r := Some(i + 1);
  }

  // ---------------------------------------------------------- final validation

  /** A limit of 0 stands for none of its own. */
  function ServerLimit(srv: ServerBlock, http: int): int
  {
    if srv.limit != 0 then srv.limit else if http > 0 then http else DEFAULT_LIMIT
  }

  function Inheriting(srv: ServerBlock, http: int): ServerBlock
  {
    var limit := ServerLimit(srv, http);
    srv.(limit := limit,
         locations := seq(|srv.locations|, i requires 0 <= i < |srv.locations| =>
           srv.locations[i].(limit := if srv.locations[i].limit == 0 then limit else srv.locations[i].limit)))
  }

  function InheritingAll(servers: seq<ServerBlock>, http: int): (r: seq<ServerBlock>)
    ensures |r| == |servers| && forall i :: 0 <= i < |r| ==> r[i] == Inheriting(servers[i], http)
  {
    seq(|servers|, i requires 0 <= i < |servers| => Inheriting(servers[i], http))
  }

  /** No two servers may share port and name. */
  predicate Apart(servers: seq<ServerBlock>)
  {
    forall i, j :: 0 <= i < j < |servers| ==> (servers[i].port, servers[i].name) != (servers[j].port, servers[j].name)
  }

  predicate AllSound(servers: seq<ServerBlock>, sound: ServerBlock -> bool)
  {
    forall i :: 0 <= i < |servers| ==> sound(servers[i])
  }

  /** The limits in `validate_final_config`; `sound` stands for its file system checks. */
  method ValidateFinal(servers: seq<ServerBlock>, http: int, sound: ServerBlock -> bool) returns (r: Option<seq<ServerBlock>>)
    ensures r.Some? <==> |servers| <= MAX_SERVERS && Apart(servers) && AllSound(servers, sound)
    ensures r.Some? ==> r.value == InheritingAll(servers, http)
  {
    if |servers| > MAX_SERVERS { return None; }
    var seen: set<(int, string)> := {};
    var done: seq<ServerBlock> := [];
    for i := 0 to |servers|
      invariant |done| == i && forall k :: 0 <= k < i ==> done[k] == Inheriting(servers[k], http) && sound(servers[k])
      invariant forall k :: 0 <= k < i ==> (servers[k].port, servers[k].name) in seen
      invariant forall id :: id in seen ==> exists k :: 0 <= k < i && (servers[k].port, servers[k].name) == id
      invariant forall k, l :: 0 <= k < l < i ==> (servers[k].port, servers[k].name) != (servers[l].port, servers[l].name)
    {
      var id := (servers[i].port, servers[i].name);
      if id in seen {
        ghost var k :| 0 <= k < i && (servers[k].port, servers[k].name) == id;
        return None;
      }
      if !sound(servers[i]) { return None; }
      seen := seen + {id};
      done := done + [Inheriting(servers[i], http)];
    }
    r := Some(done);
  }

  const NO_HTTP: HttpBlock := HttpBlock(0, map[], [])

  function HttpLimit(http: HttpBlock): int
  {
    if http.limit < 20000 then DEFAULT_LIMIT else http.limit
  }

  /** The http block is accepted in the end, as these servers. */
  predicate Yields(http: HttpBlock, sound: ServerBlock -> bool, servers: seq<ServerBlock>)
  {
    && 0 < |http.servers| <= MAX_SERVERS && Apart(http.servers) && AllSound(http.servers, sound)
    && servers == InheritingAll(http.servers, HttpLimit(http))
  }

  /** A token stream is a configuration of these servers. */
  predicate Configures(size: string -> int, stream: seq<Token>, sound: ServerBlock -> bool, servers: seq<ServerBlock>)
  {
    var block := BlocksFrom(RulesOf(size), stream, 0, None);
    block.Some? && block.value.Some? && Yields(block.value.value, sound, servers)
  }

  /** `parsing_lexems`. */
  method ParsingLexems(size: string -> int, stream: seq<Token>, sound: ServerBlock -> bool) returns (r: Option<seq<ServerBlock>>)
    ensures r.Some? ==> Configures(size, stream, sound, r.value)
    ensures r.None? ==> forall servers :: !Configures(size, stream, sound, servers)
  {
    var i, http, existHttp := 0, NO_HTTP, false;
    while i < |stream|
      invariant i <= |stream|
      invariant BlocksFrom(RulesOf(size), stream, i, if existHttp then Some(http) else None) == BlocksFrom(RulesOf(size), stream, 0, None)
      invariant !existHttp ==> http == NO_HTTP
      decreases |stream| - i
    {
      if stream[i] == Context("events") {
        var next := ParseEvents(stream, i);
        if next.None? { return None; }
        i := next.value;
      } else if stream[i] == Context("http") {
        if existHttp { return None; }
        existHttp := true;
        var block := ParseHttp(size, stream, i, http);
        if block.None? { return None; }
        http, i := block.value.0, block.value.1;
      } else if stream[i].End? {
        break;
      } else {
        return None;
      }
    }
    if !existHttp || http.servers == [] { return None; }
    if http.limit < 20000 { http := http.(limit := DEFAULT_LIMIT); }
    r := ValidateFinal(http.servers, http.limit, sound);
  }

  // --------------------------------------------------------- what is promised

  /** What the test on a written size lets through. */
  predicate InLimit(n: int) { 0 <= n <= INT_MAX || n == LLONG_MIN }

  predicate LocationsInLimit(locs: seq<LocationBlock>)
  {
    forall i :: 0 <= i < |locs| ==> InLimit(locs[i].limit) && LocationPath(locs[i].path)
  }

  /** What holds of a server while it is being read. */
  predicate Draft(srv: ServerBlock)
  {
    && InLimit(srv.limit) && LocationsInLimit(srv.locations)
    && (srv.port == -1 || 1 <= srv.port <= 65535) && 0 <= srv.timeout <= 3600
  }

  /** What holds of an accepted server. */
  predicate Accepted(srv: ServerBlock)
  {
    && Draft(srv) && srv.port != -1 && srv.root != "" && srv.index != [] && srv.timeout > 0
    && DistinctPaths(srv.locations)
    && forall i :: 0 <= i < |srv.locations| ==> srv.locations[i].root != ""
  }

  predicate AllAccepted(servers: seq<ServerBlock>)
  {
    forall i :: 0 <= i < |servers| ==> Accepted(servers[i])
  }

  /** Body limits as the request handling may rely on them. */
  predicate Usable(n: int) { 1 <= n <= INT_MAX }

  predicate AllUsable(srv: ServerBlock)
  {
    Usable(srv.limit) && forall i :: 0 <= i < |srv.locations| ==> Usable(srv.locations[i].limit)
  }

  predicate UsableOrLeast(n: int) { Usable(n) || n == LLONG_MIN }

  predicate Final(srv: ServerBlock)
  {
    && Accepted(srv) && UsableOrLeast(srv.limit)
    && forall i :: 0 <= i < |srv.locations| ==> UsableOrLeast(srv.locations[i].limit)
  }

  lemma SetLocationKeeps(size: string -> int, loc: LocationBlock, name: string, values: seq<string>)
    requires Honest(size) && InLimit(loc.limit) && SetLocation(size, loc, name, values).Some?
    ensures InLimit(SetLocation(size, loc, name, values).value.limit)
    ensures SetLocation(size, loc, name, values).value.path == loc.path
  {
  }

  lemma {:induction false} LocationKeeps(size: string -> int, stream: seq<Token>, i: nat, loc: LocationBlock, seen: set<string>)
    requires i <= |stream| && Honest(size) && InLimit(loc.limit) && LocationFrom(RulesOf(size), stream, i, loc, seen).Some?
    ensures var r := LocationFrom(RulesOf(size), stream, i, loc, seen).value.0; InLimit(r.limit) && r.path == loc.path
    decreases |stream| - i
  {
    if stream[i].Directive? {
      var values := Consumed(stream, i).value;
      SetLocationKeeps(size, loc, stream[i].name, values.0);
      LocationKeeps(size, stream, values.1, SetLocation(size, loc, stream[i].name, values.0).value,
                    Marked(seen, stream[i].name, ONCE_IN_LOCATION));
    }
  }

  lemma SetServerKeeps(size: string -> int, srv: ServerBlock, name: string, values: seq<string>)
    requires Honest(size) && Draft(srv) && SetServer(size, srv, name, values).Some?
    ensures Draft(SetServer(size, srv, name, values).value)
  {
  }

  lemma {:induction false} ServerKeepsDraft(size: string -> int, stream: seq<Token>, i: nat, srv: ServerBlock, seen: set<string>)
    requires i <= |stream| && Honest(size) && Draft(srv) && ServerFrom(RulesOf(size), stream, i, srv, seen).Some?
    ensures Draft(ServerFrom(RulesOf(size), stream, i, srv, seen).value.0)
    decreases |stream| - i
  {
    if stream[i] == Context("location") {
      LocationKeeps(size, stream, i + 3, NewLocation(srv, stream[i + 1].text), {});
      var loc := LocationAt(RulesOf(size), stream, i, srv).value;
      ServerKeepsDraft(size, stream, loc.1, WithLocation(srv, loc.0), seen);
    } else if stream[i].Directive? {
      var values := Consumed(stream, i).value;
      SetServerKeeps(size, srv, stream[i].name, values.0);
      ServerKeepsDraft(size, stream, values.1, SetServer(size, srv, stream[i].name, values.0).value,
                       Marked(seen, stream[i].name, ONCE_IN_SERVER));
    }
  }

  lemma FinishedIsAccepted(srv: ServerBlock)
    requires Draft(srv) && Finished(srv).Some?
    ensures Accepted(Finished(srv).value)
  {
    SamePaths(FilledAll(srv.locations, srv), srv.locations);
  }

  lemma ServerIsAccepted(size: string -> int, stream: seq<Token>, i: nat, http: HttpBlock)
    requires i < |stream| && Honest(size) && InLimit(http.limit) && ServerAt(RulesOf(size), stream, i, http).Some?
    ensures Accepted(ServerAt(RulesOf(size), stream, i, http).value.0)
  {
    ServerKeepsDraft(size, stream, i + 2, NewServer(http), {});
    FinishedIsAccepted(ServerFrom(RulesOf(size), stream, i + 2, NewServer(http), {}).value.0);
  }

  lemma {:induction false} HttpKeepsAccepted(size: string -> int, stream: seq<Token>, i: nat, http: HttpBlock)
    requires i <= |stream| && Honest(size) && InLimit(http.limit) && AllAccepted(http.servers)
    requires HttpFrom(RulesOf(size), stream, i, http).Some?
    ensures var r := HttpFrom(RulesOf(size), stream, i, http).value.0; InLimit(r.limit) && AllAccepted(r.servers)
    decreases |stream| - i
  {
    if stream[i] == Context("server") {
      ServerIsAccepted(size, stream, i, http);
      var srv := ServerAt(RulesOf(size), stream, i, http).value;
      HttpKeepsAccepted(size, stream, srv.1, http.(servers := http.servers + [srv.0]));
    } else if stream[i].Directive? {
      var values := Consumed(stream, i).value;
      HttpKeepsAccepted(size, stream, values.1, SetHttp(size, http, stream[i].name, values.0).value);
    }
  }

  lemma {:induction false} BlocksAccepted(size: string -> int, stream: seq<Token>, i: nat, block: Option<HttpBlock>)
    requires i <= |stream| && Honest(size)
    requires block.Some? ==> InLimit(block.value.limit) && AllAccepted(block.value.servers)
    ensures var r := BlocksFrom(RulesOf(size), stream, i, block);
            r.Some? && r.value.Some? ==> InLimit(r.value.value.limit) && AllAccepted(r.value.value.servers)
    decreases |stream| - i
  {
    if i == |stream| || stream[i].End? {
    } else if stream[i] == Context("events") && EventsAt(stream, i).Some? {
      BlocksAccepted(size, stream, EventsAt(stream, i).value, block);
    } else if stream[i] == Context("http") && block.None? && HttpAt(RulesOf(size), stream, i, NO_HTTP).Some? {
      HttpKeepsAccepted(size, stream, i + 2, NO_HTTP);
      var next := HttpAt(RulesOf(size), stream, i, NO_HTTP).value;
      BlocksAccepted(size, stream, next.1, Some(next.0));
    }
  }

  lemma InheritingIsFinal(srv: ServerBlock, http: int)
    requires Accepted(srv) && InLimit(http)
    ensures Final(Inheriting(srv, http))
  {
    SamePaths(Inheriting(srv, http).locations, srv.locations);
  }

  /** Every configuration that is accepted has, in every server, distinct location paths, and limits that are
      usable or the least number. */
  lemma ConfiguredIsFinal(size: string -> int, stream: seq<Token>, sound: ServerBlock -> bool, servers: seq<ServerBlock>)
    requires Honest(size) && Configures(size, stream, sound, servers)
    ensures 0 < |servers| <= MAX_SERVERS && forall i :: 0 <= i < |servers| ==> Final(servers[i])
  {
    BlocksAccepted(size, stream, 0, None);
    var http := BlocksFrom(RulesOf(size), stream, 0, None).value.value;
    forall i | 0 <= i < |servers| ensures Final(servers[i]) {
      InheritingIsFinal(http.servers[i], HttpLimit(http));
    }
  }

  // ------------------------------------------------------ what routing is given

  /** `static_cast<size_t>`. */
  function AsSize(n: int): nat
    requires UsableOrLeast(n)
  {
    if n >= 0 then n else n + 0x1_0000_0000_0000_0000
  }

  function RouteOf(loc: LocationBlock): Routing.Location
    requires UsableOrLeast(loc.limit)
  {
    Routing.Location(loc.path, loc.root, AsSize(loc.limit),
                     if |loc.cgiPaths| == |loc.cgiExts| then set e | e in loc.cgiExts else {})
  }

  function ConfigOf(srv: ServerBlock): Routing.ServerConfig
    requires Final(srv)
  {
    Routing.ServerConfig(srv.name, srv.root, AsSize(srv.limit),
                         seq(|srv.locations|, i requires 0 <= i < |srv.locations| => RouteOf(srv.locations[i])))
  }

  ghost predicate LongestOf(best: Routing.Location, locs: seq<Routing.Location>, path: string)
  {
    best in locs && Routing.Serves(best, path) &&
    forall l :: l in locs && Routing.Serves(l, path) && l != best ==>
      |Routing.WithoutTrailingSlash(l.path)| < |Routing.WithoutTrailingSlash(best.path)|
  }

  /** The parser establishes what location matching needs, so that in an accepted configuration every
      path has one longest location; and what usable limits are for requests. */
  lemma AcceptedConfigurationRoutesUniquely(srv: ServerBlock, path: string)
    requires Final(srv)
    ensures Routing.DistinctPaths(ConfigOf(srv).locations)
    ensures var m := Routing.Match(ConfigOf(srv), path);
            && (m.Some? ==> LongestOf(m.value, ConfigOf(srv).locations, path))
            && (AllUsable(srv) ==> 1 <= ConfigOf(srv).maxBody <= INT_MAX && (m.Some? ==> 1 <= m.value.clientMaxBodySize <= INT_MAX))
  {
    var c := ConfigOf(srv);
    forall i, j | 0 <= i < j < |c.locations|
      ensures Routing.WithoutTrailingSlash(c.locations[i].path) != Routing.WithoutTrailingSlash(c.locations[j].path)
    {
      assert c.locations[i].path == srv.locations[i].path && c.locations[j].path == srv.locations[j].path;
    }
    Routing.MatchIsUniqueLongest(c, path);
  }
}
