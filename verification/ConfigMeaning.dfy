/** What an accepted configuration means: what becomes of every directive, in terms of the statements that were
    written and of where they stand. */
module ConfigMeaning {
  import opened Text
  import opened ConfigGrammar
  import opened ConfigParser
  import opened ConfigNumbers

  // -------------------------------------------------------- what was written

  /** The values of the last statement of this name; `now` when there is none. */
  function Latest(body: seq<Statement>, name: string, now: seq<string>): seq<string>
    decreases |body|
  {
    if body == [] then now else Latest(body[1..], name, if body[0].name == name then body[0].values else now)
  }

  /** No statement is without values. */
  ghost predicate AllGiven(body: seq<Statement>) { forall i :: 0 <= i < |body| ==> body[i].values != [] }

  lemma {:induction false} LatestOr(body: seq<Statement>, name: string, now: seq<string>)
    requires AllGiven(body)
    ensures Latest(body, name, now) == if Latest(body, name, []) == [] then now else Latest(body, name, [])
    decreases |body|
  {
    if body != [] {
      var rest := body[1..];
      assert body[0].values != [] && forall i :: 0 <= i < |rest| ==> rest[i] == body[i + 1];
      LatestOr(rest, name, if body[0].name == name then body[0].values else now);
      LatestOr(rest, name, if body[0].name == name then body[0].values else []);
    }
  }

  /** The last value is the page, the others are the codes it is for. */
  predicate IsPageFor(s: Statement, code: int)
  {
    s.name == "error_page" && exists i :: 0 <= i < |s.values| - 1 && Bounded(s.values[i], 300, 599) == Some(code)
  }

  function PageAfterOne(s: Statement, code: int, now: Option<string>): Option<string>
  {
    if IsPageFor(s, code) then Some(s.values[|s.values| - 1]) else now
  }

  /** The page for a code of the last statement that gives one; `now` when there is none. */
  function PageAfter(body: seq<Statement>, code: int, now: Option<string>): Option<string>
    decreases |body|
  {
    if body == [] then now else PageAfter(body[1..], code, PageAfterOne(body[0], code, now))
  }

  predicate HasPages(body: seq<Statement>)
  {
    body != [] && (body[0].name == "error_page" || HasPages(body[1..]))
  }

  function Lookup(pages: map<int, string>, code: int): Option<string>
  {
    if code in pages then Some(pages[code]) else None
  }

  lemma {:induction false} AddedPages(codes: seq<string>, path: string, pages: map<int, string>, code: int)
    requires AddPages(codes, path, pages).Some?
    ensures Lookup(AddPages(codes, path, pages).value, code) ==
            if exists i :: 0 <= i < |codes| && Bounded(codes[i], 300, 599) == Some(code) then Some(path) else Lookup(pages, code)
    decreases |codes|
  {
    if codes != [] {
      var first := Bounded(codes[0], 300, 599);
      AddedPages(codes[1..], path, pages[first.value := path], code);
      assert forall i :: 1 <= i < |codes| ==> codes[i] == codes[1..][i - 1];
    }
  }

  lemma {:induction false} SomeAdded(codes: seq<string>, path: string, pages: map<int, string>)
    requires AddPages(codes, path, pages).Some? && (codes != [] || pages != map[])
    ensures AddPages(codes, path, pages).value != map[]
    decreases |codes|
  {
    if codes != [] {
      var more := pages[Bounded(codes[0], 300, 599).value := path];
      assert Bounded(codes[0], 300, 599).value in more;
      SomeAdded(codes[1..], path, more);
    }
  }

  lemma PagesAfterOne(s: Statement, pages: map<int, string>, code: int)
    requires s.name == "error_page" && ErrorPages(s.values, pages).Some?
    ensures Lookup(ErrorPages(s.values, pages).value, code) == PageAfterOne(s, code, Lookup(pages, code))
    ensures ErrorPages(s.values, pages).value != map[]
  {
    var n := |s.values| - 1;
    SomeAdded(s.values[..n], s.values[n], pages);
    AddedPages(s.values[..n], s.values[n], pages, code);
    assert forall i :: 0 <= i < n ==> s.values[..n][i] == s.values[i];
  }

  function OnOff(b: bool): string { if b then "on" else "off" }

  // --------------------------------------------------------------- locations

  /** What a redirection says. */
  predicate Redirects(values: seq<string>, redirect: Option<(int, string)>)
  {
    |values| == 2 && Bounded(values[0], 300, 399).Some? && redirect == Some((Bounded(values[0], 300, 399).value, values[1]))
  }

  /** The location `b` is `a` changed by these statements: each directive has what its last statement says. */
  ghost predicate Follows(size: string -> int, a: LocationBlock, body: seq<Statement>, b: LocationBlock)
  {
    && AllGiven(body) && b.path == a.path
    && Latest(body, "root", [a.root]) == [b.root]
    && Latest(body, "upload_path", [a.upload]) == [b.upload]
    && Latest(body, "index", a.index) == b.index
    && Latest(body, "cgi_path", a.cgiPaths) == b.cgiPaths
    && Latest(body, "cgi_ext", a.cgiExts) == b.cgiExts
    && Latest(body, "allowed_methods", a.methods) == b.methods
    && Latest(body, "autoindex", [OnOff(a.autoindex)]) == [OnOff(b.autoindex)]
    && RedirectFollows(Latest(body, "return", []), a.redirect, b.redirect)
    && LimitFollows(size, Latest(body, "client_max_body_size", []), a.limit, b.limit)
    && PagesFollow(body, a.errors, b.errors)
  }

  /** Each code has the page of the last statement that gives one. */
  ghost predicate PagesFollow(body: seq<Statement>, a: map<int, string>, b: map<int, string>)
  {
    && (b == map[] <==> a == map[] && !HasPages(body))
    && forall code :: Lookup(b, code) == PageAfter(body, code, Lookup(a, code))
  }

  ghost predicate PagesFollowOne(s: Statement, a: map<int, string>, b: map<int, string>)
  {
    && (b == map[] <==> a == map[] && s.name != "error_page")
    && forall code :: Lookup(b, code) == PageAfterOne(s, code, Lookup(a, code))
  }

  lemma PagesFollowThen(s: Statement, rest: seq<Statement>, a: map<int, string>, m: map<int, string>, b: map<int, string>)
    requires PagesFollowOne(s, a, m) && PagesFollow(rest, m, b)
    ensures PagesFollow([s] + rest, a, b)
  {
    assert ([s] + rest)[1..] == rest;
    forall code ensures Lookup(b, code) == PageAfter([s] + rest, code, Lookup(a, code)) {
      assert Lookup(m, code) == PageAfterOne(s, code, Lookup(a, code));
    }
  }

  predicate RedirectFollows(values: seq<string>, a: Option<(int, string)>, b: Option<(int, string)>)
  {
    if values == [] then b == a else Redirects(values, b)
  }

  predicate LimitFollows(size: string -> int, values: seq<string>, a: int, b: int)
  {
    if values == [] then b == a else |values| == 1 && b == size(values[0])
  }

  /** One statement: what it sets, and that it leaves the rest. */
  ghost predicate FollowsOne(size: string -> int, a: LocationBlock, s: Statement, b: LocationBlock)
  {
    && s.values != [] && b.path == a.path
    && (if s.name == "root" then s.values == [b.root] else b.root == a.root)
    && (if s.name == "upload_path" then s.values == [b.upload] else b.upload == a.upload)
    && (if s.name == "index" then b.index == s.values else b.index == a.index)
    && (if s.name == "cgi_path" then b.cgiPaths == s.values else b.cgiPaths == a.cgiPaths)
    && (if s.name == "cgi_ext" then b.cgiExts == s.values else b.cgiExts == a.cgiExts)
    && (if s.name == "allowed_methods" then b.methods == a.methods + s.values else b.methods == a.methods)
    && (if s.name == "autoindex" then s.values == [OnOff(b.autoindex)] else b.autoindex == a.autoindex)
    && (if s.name == "return" then Redirects(s.values, b.redirect) else b.redirect == a.redirect)
    && (if s.name == "client_max_body_size" then |s.values| == 1 && b.limit == size(s.values[0]) else b.limit == a.limit)
    && PagesFollowOne(s, a.errors, b.errors)
  }

  lemma StatementFollows(size: string -> int, a: LocationBlock, s: Statement)
    requires SetLocation(size, a, s.name, s.values).Some?
    ensures FollowsOne(size, a, s, SetLocation(size, a, s.name, s.values).value)
  {
    var b := SetLocation(size, a, s.name, s.values).value;
    PagesAreSet(size, a, s);
  }

  lemma PagesAreSet(size: string -> int, a: LocationBlock, s: Statement)
    requires SetLocation(size, a, s.name, s.values).Some?
    ensures PagesFollowOne(s, a.errors, SetLocation(size, a, s.name, s.values).value.errors)
  {
    var b := SetLocation(size, a, s.name, s.values).value;
    forall code ensures Lookup(b.errors, code) == PageAfterOne(s, code, Lookup(a.errors, code)) {
      if s.name == "error_page" { PagesAfterOne(s, a.errors, code); }
    }
    if s.name == "error_page" { PagesAfterOne(s, a.errors, 0); }
  }

  lemma LatestFirst(s: Statement, rest: seq<Statement>, name: string, now: seq<string>)
    ensures Latest([s] + rest, name, now) == Latest(rest, name, if s.name == name then s.values else now)
  {
    assert ([s] + rest)[1..] == rest;
  }

  lemma FollowsThen(size: string -> int, a: LocationBlock, s: Statement, m: LocationBlock, rest: seq<Statement>, b: LocationBlock)
    requires FollowsOne(size, a, s, m) && Follows(size, m, rest, b) && (s.name == "allowed_methods" ==> a.methods == [])
    ensures Follows(size, a, [s] + rest, b)
  {
    LatestFirst(s, rest, "root", [a.root]);
    LatestFirst(s, rest, "upload_path", [a.upload]);
    LatestFirst(s, rest, "index", a.index);
    LatestFirst(s, rest, "cgi_path", a.cgiPaths);
    LatestFirst(s, rest, "cgi_ext", a.cgiExts);
    LatestFirst(s, rest, "allowed_methods", a.methods);
    LatestFirst(s, rest, "autoindex", [OnOff(a.autoindex)]);
    LatestFirst(s, rest, "return", []);
    LatestFirst(s, rest, "client_max_body_size", []);
    LatestOr(rest, "return", s.values);
    LatestOr(rest, "client_max_body_size", s.values);
    PagesFollowThen(s, rest, a.errors, m.errors, b.errors);
    assert [] + s.values == s.values;
  }

  lemma NothingFollows(size: string -> int, a: LocationBlock)
    ensures Follows(size, a, [], a)
  {
  }

  /** Every accepted location is its first state changed by its statements. */
  lemma {:induction false} LocationFollows(size: string -> int, body: seq<Statement>, a: LocationBlock, seen: set<string>)
    requires LocationMeaning(RulesOf(size), body, a, seen).Some? && ("allowed_methods" in seen || a.methods == [])
    ensures Follows(size, a, body, LocationMeaning(RulesOf(size), body, a, seen).value)
    decreases |body|
  {
    if body == [] {
      NothingFollows(size, a);
    } else {
      var s, rest := body[0], body[1..];
      StatementFollows(size, a, s);
      var m := SetLocation(size, a, s.name, s.values).value;
      LocationFollows(size, rest, m, Marked(seen, s.name, ONCE_IN_LOCATION));
      FollowsThen(size, a, s, m, rest, LocationMeaning(RulesOf(size), body, a, seen).value);
      assert body == [s] + rest;
    }
  }

  // ------------------------------------------------------------------ servers

  /** A server that listens to `val` has this address and port. */
  predicate Listens(val: string, host: string, port: int)
  {
    if ':' in val then
      var left, right := val[..Find(val, ':', 0)], val[Find(val, ':', 0) + 1..];
      && Bounded(right, 1, 65535) == Some(port)
      && (if left == "*" then host == "0.0.0.0" else (left == "localhost" || ValidHost(left)) && host == left)
    else if LongOf(val).Some? then Bounded(val, 1, 65535) == Some(port) && host == "0.0.0.0"
    else ValidHost(val) && host == val && port == 9090
  }

  lemma ListenIff(srv: ServerBlock, val: string, host: string, port: int)
    ensures Listen(srv, val) == Some(srv.(host := host, port := port)) <==> Listens(val, host, port)
  {
  }

  lemma AddressAndPort(host: string, port: string)
    requires ':' !in host
    ensures var val := host + ":" + port;
            ':' in val && val[..Find(val, ':', 0)] == host && val[Find(val, ':', 0) + 1..] == port
  {
    var val := host + ":" + port;
    assert val[|host|] == ':' && forall j :: 0 <= j < |host| ==> val[j] == host[j];
    assert Find(val, ':', 0) == |host|;
  }

  /** Address and port as they are written. */
  lemma ListensToBoth(host: string, port: string)
    requires ':' !in host && (host == "*" || host == "localhost" || ValidHost(host)) && Bounded(port, 1, 65535).Some?
    ensures Listens(host + ":" + port, if host == "*" then "0.0.0.0" else host, Bounded(port, 1, 65535).value)
  {
    AddressAndPort(host, port);
  }

  function SettingsOf(items: seq<ServerItem>): seq<Statement>
  {
    if items == [] then []
    else (if items[0].Setting? then [items[0].statement] else []) + SettingsOf(items[1..])
  }

  function PlacesIn(items: seq<ServerItem>): nat
  {
    if items == [] then 0 else (if items[0].Place? then 1 else 0) + PlacesIn(items[1..])
  }

  predicate ListenFollows(values: seq<string>, a: ServerBlock, b: ServerBlock)
  {
    if values == [] then b.host == a.host && b.port == a.port else |values| == 1 && Listens(values[0], b.host, b.port)
  }

  predicate TimeoutFollows(values: seq<string>, a: int, b: int)
  {
    if values == [] then b == a else |values| == 1 && Bounded(values[0], 1, 3600) == Some(b)
  }

  predicate NameFollows(values: seq<string>, a: string, b: string) { b == if values == [] then a else values[0] }

  /** The server `b` is `a` changed by these statements. */
  ghost predicate ServerFollows(size: string -> int, a: ServerBlock, body: seq<Statement>, b: ServerBlock)
  {
    && AllGiven(body)
    && ListenFollows(Latest(body, "listen", []), a, b)
    && Latest(body, "root", [a.root]) == [b.root]
    && Latest(body, "index", a.index) == b.index
    && NameFollows(Latest(body, "server_name", []), a.name, b.name)
    && TimeoutFollows(Latest(body, "timeout", []), a.timeout, b.timeout)
    && LimitFollows(size, Latest(body, "client_max_body_size", []), a.limit, b.limit)
    && PagesFollow(body, a.errors, b.errors)
  }

  ghost predicate ServerFollowsOne(size: string -> int, a: ServerBlock, s: Statement, b: ServerBlock)
  {
    && s.values != [] && b.locations == a.locations
    && (if s.name == "listen" then |s.values| == 1 && Listens(s.values[0], b.host, b.port) else b.host == a.host && b.port == a.port)
    && (if s.name == "root" then s.values == [b.root] else b.root == a.root)
    && (if s.name == "index" then b.index == a.index + s.values else b.index == a.index)
    && (if s.name == "server_name" then b.name == s.values[0] else b.name == a.name)
    && (if s.name == "timeout" then |s.values| == 1 && Bounded(s.values[0], 1, 3600) == Some(b.timeout) else b.timeout == a.timeout)
    && (if s.name == "client_max_body_size" then |s.values| == 1 && b.limit == size(s.values[0]) else b.limit == a.limit)
    && PagesFollowOne(s, a.errors, b.errors)
  }

  lemma ListenSets(srv: ServerBlock, val: string)
    requires Listen(srv, val).Some?
    ensures var b := Listen(srv, val).value; b == srv.(host := b.host, port := b.port) && Listens(val, b.host, b.port)
  {
  }

  lemma ServerStatementFollows(size: string -> int, a: ServerBlock, s: Statement)
    requires SetServer(size, a, s.name, s.values).Some?
    ensures ServerFollowsOne(size, a, s, SetServer(size, a, s.name, s.values).value)
  {
    var b := SetServer(size, a, s.name, s.values).value;
    if s.name == "listen" { ListenSets(a, s.values[0]); }
    forall code ensures Lookup(b.errors, code) == PageAfterOne(s, code, Lookup(a.errors, code)) {
      if s.name == "error_page" { PagesAfterOne(s, a.errors, code); }
    }
    if s.name == "error_page" { PagesAfterOne(s, a.errors, 0); }
  }

  lemma ServerFollowsThen(size: string -> int, a: ServerBlock, s: Statement, m: ServerBlock, rest: seq<Statement>, b: ServerBlock)
    requires ServerFollowsOne(size, a, s, m) && ServerFollows(size, m, rest, b) && (s.name == "index" ==> a.index == [])
    ensures ServerFollows(size, a, [s] + rest, b)
  {
    LatestFirst(s, rest, "listen", []);
    LatestFirst(s, rest, "root", [a.root]);
    LatestFirst(s, rest, "index", a.index);
    LatestFirst(s, rest, "server_name", []);
    LatestFirst(s, rest, "timeout", []);
    LatestFirst(s, rest, "client_max_body_size", []);
    LatestOr(rest, "listen", s.values);
    LatestOr(rest, "server_name", s.values);
    LatestOr(rest, "timeout", s.values);
    LatestOr(rest, "client_max_body_size", s.values);
    PagesFollowThen(s, rest, a.errors, m.errors, b.errors);
    assert [] + s.values == s.values;
  }

  lemma NothingServerFollows(size: string -> int, a: ServerBlock)
    ensures ServerFollows(size, a, [], a)
  {
  }

  /** The server where the item at `p` stands. */
  ghost predicate StandsAt(size: string -> int, items: seq<ServerItem>, a: ServerBlock, seen: set<string>, p: nat, m: ServerBlock, marked: set<string>)
  {
    && p <= |items| && ServerFollows(size, a, SettingsOf(items[..p]), m)
    && ServerMeaning(RulesOf(size), items[p..], m, marked) == ServerMeaning(RulesOf(size), items, a, seen)
    && a.locations <= m.locations && |m.locations| == |a.locations| + PlacesIn(items[..p])
    && ("index" in marked || m.index == [])
  }

  lemma SettingFirst(s: Statement, rest: seq<ServerItem>)
    ensures SettingsOf([Setting(s)] + rest) == [s] + SettingsOf(rest) && PlacesIn([Setting(s)] + rest) == PlacesIn(rest)
  {
    assert ([Setting(s)] + rest)[1..] == rest;
  }

  lemma PlaceFirst(path: string, body: seq<Statement>, rest: seq<ServerItem>)
    ensures SettingsOf([Place(path, body)] + rest) == SettingsOf(rest) && PlacesIn([Place(path, body)] + rest) == 1 + PlacesIn(rest)
  {
    assert ([Place(path, body)] + rest)[1..] == rest;
    assert [] + SettingsOf(rest) == SettingsOf(rest);
  }

  lemma AtTheStart(size: string -> int, items: seq<ServerItem>, a: ServerBlock, seen: set<string>)
    requires "index" in seen || a.index == []
    ensures StandsAt(size, items, a, seen, 0, a, seen)
  {
    NothingServerFollows(size, a);
    assert items[0..] == items && items[..0] == [];
  }

  lemma ThenSetting(size: string -> int, items: seq<ServerItem>, a: ServerBlock, seen: set<string>, p: nat,
                    s: Statement, b: ServerBlock, next: set<string>, m: ServerBlock, marked: set<string>)
    requires 0 < p <= |items| && items[0] == Setting(s) && ItemMeaning(RulesOf(size), items[0], a, seen) == Some((b, next))
    requires ("index" in seen || a.index == []) && StandsAt(size, items[1..], b, next, p - 1, m, marked)
    ensures StandsAt(size, items, a, seen, p, m, marked)
  {
    var rest := items[1..][..p - 1];
    assert items[..p] == [items[0]] + rest && items[1..][p - 1..] == items[p..];
    SettingFirst(s, rest);
    ServerStatementFollows(size, a, s);
    ServerFollowsThen(size, a, s, b, SettingsOf(rest), m);
  }

  lemma ThenPlace(size: string -> int, items: seq<ServerItem>, a: ServerBlock, seen: set<string>, p: nat,
                  path: string, body: seq<Statement>, b: ServerBlock, next: set<string>, m: ServerBlock, marked: set<string>)
    requires 0 < p <= |items| && items[0] == Place(path, body) && ItemMeaning(RulesOf(size), items[0], a, seen) == Some((b, next))
    requires StandsAt(size, items[1..], b, next, p - 1, m, marked)
    ensures StandsAt(size, items, a, seen, p, m, marked)
  {
    var rest := items[1..][..p - 1];
    assert items[..p] == [items[0]] + rest && items[1..][p - 1..] == items[p..];
    PlaceFirst(path, body, rest);
    var loc := PlaceMeaning(RulesOf(size), path, body, a).value;
    LocationsOnly(size, a, loc, SettingsOf(rest), m);
  }

  lemma LocationsOnly(size: string -> int, a: ServerBlock, loc: LocationBlock, body: seq<Statement>, m: ServerBlock)
    requires ServerFollows(size, WithLocation(a, loc), body, m)
    ensures ServerFollows(size, a, body, m)
  {
  }

  lemma IndexOnce(size: string -> int, a: ServerBlock, s: Statement, seen: set<string>)
    requires SetServer(size, a, s.name, s.values).Some? && ("index" in seen || a.index == [])
    ensures "index" in Marked(seen, s.name, ONCE_IN_SERVER) || SetServer(size, a, s.name, s.values).value.index == []
  {
    ServerStatementFollows(size, a, s);
  }

  lemma OneItemMeans(size: string -> int, items: seq<ServerItem>, a: ServerBlock, seen: set<string>)
    requires items != [] && ServerMeaning(RulesOf(size), items, a, seen).Some?
    ensures var m := ItemMeaning(RulesOf(size), items[0], a, seen);
            && m.Some? && ServerMeaning(RulesOf(size), items[1..], m.value.0, m.value.1) == ServerMeaning(RulesOf(size), items, a, seen)
            && (items[0].Setting? ==>
                  var s := items[0].statement;
                  SetServer(size, a, s.name, s.values) == Some(m.value.0) && m.value.1 == Marked(seen, s.name, ONCE_IN_SERVER))
            && (items[0].Place? ==>
                  var loc := PlaceMeaning(RulesOf(size), items[0].path, items[0].body, a);
                  loc.Some? && m.value == (WithLocation(a, loc.value), seen))
  {
  }

  lemma KeepsIndex(size: string -> int, items: seq<ServerItem>, a: ServerBlock, seen: set<string>)
    requires items != [] && ServerMeaning(RulesOf(size), items, a, seen).Some? && ("index" in seen || a.index == [])
    ensures var m := ItemMeaning(RulesOf(size), items[0], a, seen); m.Some? && ("index" in m.value.1 || m.value.0.index == [])
  {
    OneItemMeans(size, items, a, seen);
    if items[0].Setting? { IndexOnce(size, a, items[0].statement, seen); }
  }

  lemma ThenItem(size: string -> int, items: seq<ServerItem>, a: ServerBlock, seen: set<string>, p: nat, m: ServerBlock, marked: set<string>)
    requires 0 < p <= |items| && ItemMeaning(RulesOf(size), items[0], a, seen).Some? && ("index" in seen || a.index == [])
    requires var next := ItemMeaning(RulesOf(size), items[0], a, seen).value; StandsAt(size, items[1..], next.0, next.1, p - 1, m, marked)
    ensures StandsAt(size, items, a, seen, p, m, marked)
  {
    var next := ItemMeaning(RulesOf(size), items[0], a, seen).value;
    match items[0]
    case Setting(s) => ThenSetting(size, items, a, seen, p, s, next.0, next.1, m, marked);
    case Place(path, body) => ThenPlace(size, items, a, seen, p, path, body, next.0, next.1, m, marked);
  }

  lemma {:induction false} ReachesItem(size: string -> int, items: seq<ServerItem>, a: ServerBlock, seen: set<string>, p: nat)
    returns (m: ServerBlock, marked: set<string>)
    requires ServerMeaning(RulesOf(size), items, a, seen).Some? && p <= |items| && ("index" in seen || a.index == [])
    ensures StandsAt(size, items, a, seen, p, m, marked)
    decreases p
  {
    if p == 0 {
      m, marked := a, seen;
      AtTheStart(size, items, a, seen);
    } else {
      OneItemMeans(size, items, a, seen);
      KeepsIndex(size, items, a, seen);
      var next := ItemMeaning(RulesOf(size), items[0], a, seen).value;
      m, marked := ReachesItem(size, items[1..], next.0, next.1, p - 1);
      ThenItem(size, items, a, seen, p, m, marked);
    }
  }

  // ------------------------------------------------------- the end of a server

  /** `l` with what it has when it joins its server. */
  function Joined(l: LocationBlock): LocationBlock { if l.methods == [] then l.(methods := ["GET"]) else l }

  /** A location as it was read: changed by its statements from what its server had where it stands. */
  lemma PlaceIs(size: string -> int, items: seq<ServerItem>, a: ServerBlock, p: nat, srv: ServerBlock)
    returns (m: ServerBlock, l: LocationBlock)
    requires ServerMeaning(RulesOf(size), items, a, {}) == Some(srv) && p < |items| && items[p].Place? && a.index == []
    ensures ServerFollows(size, a, SettingsOf(items[..p]), m) && Follows(size, NewLocation(m, items[p].path), items[p].body, l)
    ensures var k := |a.locations| + PlacesIn(items[..p]); k < |srv.locations| && srv.locations[k] == Joined(l)
  {
    var marked;
    m, marked := ReachesItem(size, items, a, {}, p);
    var path, body, rest := items[p].path, items[p].body, items[p..];
    assert rest[0] == items[p];
    OneItemMeans(size, rest, m, marked);
    l := PlaceMeaning(RulesOf(size), path, body, m).value;
    LocationFollows(size, body, NewLocation(m, path), {});
    var last, all := ReachesItem(size, rest[1..], WithLocation(m, l), marked, |rest| - 1);
    assert rest[1..][|rest| - 1..] == [] && rest[1..][..|rest| - 1] == rest[1..];
  }

  lemma WholeServerFollows(size: string -> int, items: seq<ServerItem>, a: ServerBlock, srv: ServerBlock)
    requires ServerMeaning(RulesOf(size), items, a, {}) == Some(srv) && a.index == []
    ensures ServerFollows(size, a, SettingsOf(items), srv) && |srv.locations| == |a.locations| + PlacesIn(items)
  {
    var m, marked := ReachesItem(size, items, a, {}, |items|);
    assert items[|items|..] == [] && items[..|items|] == items;
  }

  // Directives that a server may have once.

  function Count(body: seq<Statement>, name: string): nat
  {
    if body == [] then 0 else (if body[0].name == name then 1 else 0) + Count(body[1..], name)
  }

  lemma {:induction false} CountOnce(size: string -> int, items: seq<ServerItem>, a: ServerBlock, seen: set<string>, name: string)
    requires ServerMeaning(RulesOf(size), items, a, seen).Some? && name in ONCE_IN_SERVER
    ensures Count(SettingsOf(items), name) <= if name in seen then 0 else 1
    decreases |items|
  {
    if items != [] {
      var next, rest := ItemMeaning(RulesOf(size), items[0], a, seen).value, items[1..];
      assert items == [items[0]] + rest;
      CountOnce(size, rest, next.0, next.1, name);
      match items[0]
      case Setting(s) =>
        SettingFirst(s, rest);
        assert ([s] + SettingsOf(rest))[1..] == SettingsOf(rest);
      case Place(path, body) => PlaceFirst(path, body, rest);
    }
  }

  lemma {:induction false} LatestOfBoth(x: seq<Statement>, y: seq<Statement>, name: string, now: seq<string>)
    ensures Latest(x + y, name, now) == Latest(y, name, Latest(x, name, now)) && Count(x + y, name) == Count(x, name) + Count(y, name)
    decreases |x|
  {
    if x == [] {
      assert x + y == y;
    } else {
      assert (x + y)[1..] == x[1..] + y;
      LatestOfBoth(x[1..], y, name, if x[0].name == name then x[0].values else now);
    }
  }

  lemma {:induction false} LatestOfNone(x: seq<Statement>, name: string, now: seq<string>)
    requires Count(x, name) == 0
    ensures Latest(x, name, now) == now
    decreases |x|
  {
    if x != [] { LatestOfNone(x[1..], name, now); }
  }

  lemma {:induction false} SettingsOfBoth(items: seq<ServerItem>, p: nat)
    requires p <= |items|
    ensures SettingsOf(items) == SettingsOf(items[..p]) + SettingsOf(items[p..])
    decreases p
  {
    if p > 0 {
      assert items[..p][1..] == items[1..][..p - 1] && items[1..][p - 1..] == items[p..];
      SettingsOfBoth(items[1..], p - 1);
    }
  }

  /** What was written before is all that is written. */
  lemma BeforeIsAll(size: string -> int, items: seq<ServerItem>, a: ServerBlock, p: nat, name: string)
    requires ServerMeaning(RulesOf(size), items, a, {}).Some? && p <= |items| && name in ONCE_IN_SERVER
    requires Latest(SettingsOf(items[..p]), name, []) != []
    ensures Latest(SettingsOf(items), name, []) == Latest(SettingsOf(items[..p]), name, [])
  {
    var before, after := SettingsOf(items[..p]), SettingsOf(items[p..]);
    CountOnce(size, items, a, {}, name);
    SettingsOfBoth(items, p);
    LatestOfBoth(before, after, name, []);
    if Count(before, name) == 0 { LatestOfNone(before, name, []); }
    LatestOfNone(after, name, Latest(before, name, []));
  }

  // What a location ends up with.

  /** Its own root, or that of its server, wherever the two are written. */
  predicate RootIs(own: seq<string>, all: seq<string>, root: string)
  {
    if own == [] || own[0] == "" then all == [root] else own == [root]
  }

  /** Its own index names; those of its server if they are written before it; if behind it, the first of them. */
  predicate IndexIs(own: seq<string>, before: seq<string>, all: seq<string>, index: seq<string>)
  {
    if own != [] then index == own else if before != [] then index == all else all != [] && index == [all[0]]
  }

  /** Its own error pages over those in force where it stands; if there are none at all, those of its server. */
  ghost predicate PagesAre(body: seq<Statement>, before: seq<Statement>, all: seq<Statement>, http: map<int, string>, errors: map<int, string>)
  {
    if http == map[] && !HasPages(before) && !HasPages(body)
    then forall code :: Lookup(errors, code) == PageAfter(all, code, Lookup(http, code))
    else forall code :: Lookup(errors, code) == PageAfter(body, code, PageAfter(before, code, Lookup(http, code)))
  }

  /** Its own size, or the one in force where it stands; for 0, the one of its server. */
  predicate LimitIs(size: string -> int, own: seq<string>, before: seq<string>, all: seq<string>, http: int, limit: int)
  {
    var n := if own != [] then size(own[0]) else if before != [] then size(before[0]) else http;
    limit == if n != 0 then n else if all != [] then size(all[0]) else http
  }

  /** Directives that only locations have. */
  predicate OwnAre(body: seq<Statement>, l: LocationBlock)
  {
    && l.cgiPaths == Latest(body, "cgi_path", []) && l.cgiExts == Latest(body, "cgi_ext", [])
    && l.methods == Latest(body, "allowed_methods", ["GET"])
    && Latest(body, "upload_path", [""]) == [l.upload] && Latest(body, "autoindex", ["off"]) == [OnOff(l.autoindex)]
    && RedirectFollows(Latest(body, "return", []), None, l.redirect)
  }

  ghost predicate LocationIs(size: string -> int, items: seq<ServerItem>, http: HttpBlock, p: nat, l: LocationBlock)
    requires p < |items| && items[p].Place?
  {
    var body, before, all := items[p].body, SettingsOf(items[..p]), SettingsOf(items);
    && l.path == items[p].path && OwnAre(body, l)
    && RootIs(Latest(body, "root", []), Latest(all, "root", []), l.root)
    && IndexIs(Latest(body, "index", []), Latest(before, "index", []), Latest(all, "index", []), l.index)
    && PagesAre(body, before, all, http.errors, l.errors)
    && LimitIs(size, Latest(body, "client_max_body_size", []), Latest(before, "client_max_body_size", []),
               Latest(all, "client_max_body_size", []), http.limit, l.limit)
  }

  lemma OwnOf(size: string -> int, m: ServerBlock, path: string, body: seq<Statement>, l: LocationBlock)
    requires Follows(size, NewLocation(m, path), body, l)
    ensures OwnAre(body, Joined(l))
  {
    LatestOr(body, "allowed_methods", ["GET"]);
  }

  lemma RootOf(own: seq<string>, before: seq<string>, all: seq<string>, body: seq<Statement>, m: ServerBlock, loc: LocationBlock, srv: ServerBlock)
    requires AllGiven(body) && own == Latest(body, "root", []) && Latest(body, "root", [m.root]) == [loc.root]
    requires (if before == [] then [""] else before) == [m.root] && (if all == [] then [""] else all) == [srv.root]
    requires (before != [] ==> all == before) && srv.root != ""
    ensures RootIs(own, all, if loc.root == "" then srv.root else loc.root)
  {
    LatestOr(body, "root", [m.root]);
  }

  lemma IndexOf(own: seq<string>, before: seq<string>, all: seq<string>, body: seq<Statement>, index: seq<string>)
    requires AllGiven(body) && own == Latest(body, "index", []) && Latest(body, "index", before) == index
    requires (before != [] ==> all == before) && all != []
    ensures IndexIs(own, before, all, if index == [] then [all[0]] else index)
  {
    LatestOr(body, "index", before);
  }

  lemma PagesOf(body: seq<Statement>, before: seq<Statement>, all: seq<Statement>, http: map<int, string>,
                m: map<int, string>, loc: map<int, string>, srv: map<int, string>)
    requires PagesFollow(before, http, m) && PagesFollow(body, m, loc) && PagesFollow(all, http, srv)
    ensures PagesAre(body, before, all, http, if loc == map[] then srv else loc)
  {
    if loc != map[] {
      forall code ensures Lookup(loc, code) == PageAfter(body, code, PageAfter(before, code, Lookup(http, code))) {
        assert Lookup(m, code) == PageAfter(before, code, Lookup(http, code));
      }
    }
  }

  /** What a server has of the things its locations inherit. */
  ghost predicate Stands(size: string -> int, http: HttpBlock, body: seq<Statement>, m: ServerBlock)
  {
    && LimitFollows(size, Latest(body, "client_max_body_size", []), http.limit, m.limit)
    && (if Latest(body, "root", []) == [] then [""] else Latest(body, "root", [])) == [m.root]
    && m.index == Latest(body, "index", []) && PagesFollow(body, http.errors, m.errors)
  }

  lemma StartFollows(size: string -> int, http: HttpBlock, body: seq<Statement>, m: ServerBlock)
    requires ServerFollows(size, NewServer(http), body, m)
    ensures Stands(size, http, body, m)
  {
    LatestOr(body, "root", [""]);
  }

  /** A location before its server ends. */
  ghost predicate Made(size: string -> int, m: ServerBlock, path: string, body: seq<Statement>, l: LocationBlock)
  {
    && LimitFollows(size, Latest(body, "client_max_body_size", []), m.limit, l.limit)
    && AllGiven(body) && l.path == path && OwnAre(body, Joined(l))
    && Latest(body, "root", [m.root]) == [l.root] && Latest(body, "index", m.index) == l.index && PagesFollow(body, m.errors, l.errors)
  }

  lemma NewFollows(size: string -> int, m: ServerBlock, path: string, body: seq<Statement>, l: LocationBlock)
    requires Follows(size, NewLocation(m, path), body, l)
    ensures Made(size, m, path, body, l)
  {
    OwnOf(size, m, path, body, l);
  }

  lemma PlaceStands(size: string -> int, items: seq<ServerItem>, http: HttpBlock, p: nat, srv: ServerBlock)
    returns (m: ServerBlock, l: LocationBlock)
    requires ServerMeaning(RulesOf(size), items, NewServer(http), {}) == Some(srv) && p < |items| && items[p].Place?
    ensures Stands(size, http, SettingsOf(items[..p]), m) && Made(size, m, items[p].path, items[p].body, l)
    ensures PlacesIn(items[..p]) < |srv.locations| && srv.locations[PlacesIn(items[..p])] == Joined(l)
  {
    m, l := PlaceIs(size, items, NewServer(http), p, srv);
    StartFollows(size, http, SettingsOf(items[..p]), m);
    NewFollows(size, m, items[p].path, items[p].body, l);
  }

  /** Root and index of the location `loc`, read where the server was `m`, at the end of the server. */
  lemma FilledRootAndIndex(size: string -> int, items: seq<ServerItem>, http: HttpBlock, p: nat, body: seq<Statement>,
                           m: ServerBlock, l: LocationBlock, srv: ServerBlock)
    requires p < |items| && srv.root != "" && srv.index != [] && ServerMeaning(RulesOf(size), items, NewServer(http), {}).Some?
    requires Stands(size, http, SettingsOf(items[..p]), m) && Stands(size, http, SettingsOf(items), srv)
    requires AllGiven(body) && Latest(body, "root", [m.root]) == [l.root] && Latest(body, "index", m.index) == l.index
    ensures RootIs(Latest(body, "root", []), Latest(SettingsOf(items), "root", []), if l.root == "" then srv.root else l.root)
    ensures IndexIs(Latest(body, "index", []), Latest(SettingsOf(items[..p]), "index", []), Latest(SettingsOf(items), "index", []),
                    if l.index == [] then [srv.index[0]] else l.index)
  {
    var before, all := SettingsOf(items[..p]), SettingsOf(items);
    if Latest(before, "root", []) != [] { BeforeIsAll(size, items, NewServer(http), p, "root"); }
    if Latest(before, "index", []) != [] { BeforeIsAll(size, items, NewServer(http), p, "index"); }
    RootOf(Latest(body, "root", []), Latest(before, "root", []), Latest(all, "root", []), body, m, l, srv);
    IndexOf(Latest(body, "index", []), Latest(before, "index", []), Latest(all, "index", []), body, l.index);
  }

  lemma FilledHas(size: string -> int, items: seq<ServerItem>, http: HttpBlock, p: nat, l: LocationBlock, srv: ServerBlock)
    requires p < |items| && items[p].Place? && srv.index != [] && l.path == items[p].path && OwnAre(items[p].body, l)
    requires RootIs(Latest(items[p].body, "root", []), Latest(SettingsOf(items), "root", []), if l.root == "" then srv.root else l.root)
    requires IndexIs(Latest(items[p].body, "index", []), Latest(SettingsOf(items[..p]), "index", []), Latest(SettingsOf(items), "index", []),
                     if l.index == [] then [srv.index[0]] else l.index)
    requires PagesAre(items[p].body, SettingsOf(items[..p]), SettingsOf(items), http.errors, if l.errors == map[] then srv.errors else l.errors)
    requires LimitIs(size, Latest(items[p].body, "client_max_body_size", []), Latest(SettingsOf(items[..p]), "client_max_body_size", []),
                     Latest(SettingsOf(items), "client_max_body_size", []), http.limit, if l.limit == 0 then srv.limit else l.limit)
    ensures LocationIs(size, items, http, p, Filled(l, srv))
  {
  }

  lemma FilledIs(size: string -> int, items: seq<ServerItem>, http: HttpBlock, p: nat, m: ServerBlock, l: LocationBlock,
                 joined: LocationBlock, srv: ServerBlock)
    requires p < |items| && items[p].Place? && srv.root != "" && srv.index != []
    requires ServerMeaning(RulesOf(size), items, NewServer(http), {}).Some?
    requires Stands(size, http, SettingsOf(items[..p]), m) && Stands(size, http, SettingsOf(items), srv)
    requires Made(size, m, items[p].path, items[p].body, l) && joined == Joined(l)
    ensures LocationIs(size, items, http, p, Filled(joined, srv))
  {
    FilledRootAndIndex(size, items, http, p, items[p].body, m, l, srv);
    PagesOf(items[p].body, SettingsOf(items[..p]), SettingsOf(items), http.errors, m.errors, l.errors, srv.errors);
    FilledHas(size, items, http, p, joined, srv);
  }

  lemma FinishedFollows(size: string -> int, items: seq<ServerItem>, http: HttpBlock, srv: ServerBlock)
    requires ServerMeaning(RulesOf(size), items, NewServer(http), {}) == Some(srv) && Finished(srv).Some?
    ensures srv.root != "" && srv.index != [] && Stands(size, http, SettingsOf(items), srv)
    ensures ServerFollows(size, NewServer(http), SettingsOf(items), Finished(srv).value) && |srv.locations| == PlacesIn(items)
  {
    WholeServerFollows(size, items, NewServer(http), srv);
    StartFollows(size, http, SettingsOf(items), srv);
  }

  lemma PlaceMeans(size: string -> int, items: seq<ServerItem>, http: HttpBlock, srv: ServerBlock, p: nat)
    requires ServerMeaning(RulesOf(size), items, NewServer(http), {}) == Some(srv) && p < |items| && items[p].Place?
    requires srv.root != "" && srv.index != [] && Stands(size, http, SettingsOf(items), srv)
    ensures var k := PlacesIn(items[..p]); k < |srv.locations| && LocationIs(size, items, http, p, Filled(srv.locations[k], srv))
  {
    var m, l := PlaceStands(size, items, http, p, srv);
    FilledIs(size, items, http, p, m, l, srv.locations[PlacesIn(items[..p])], srv);
  }

  /** What every block that is accepted means: the server has what its directives say, and every location its
      own, or what it inherits. */
  lemma HostMeans(size: string -> int, items: seq<ServerItem>, http: HttpBlock, t: ServerBlock)
    requires HostMeaning(RulesOf(size), items, http) == Some(t)
    ensures ServerFollows(size, NewServer(http), SettingsOf(items), t) && |t.locations| == PlacesIn(items)
    ensures forall p :: 0 <= p < |items| && items[p].Place? ==> PlacedIs(size, items, http, p, t)
  {
    var srv := ServerMeaning(RulesOf(size), items, NewServer(http), {}).value;
    FinishedFollows(size, items, http, srv);
    forall p | 0 <= p < |items| && items[p].Place? ensures PlacedIs(size, items, http, p, t) { FilledMeans(size, items, http, srv, t, p); }
  }

  /** The location at `p` ends up as it should. */
  ghost predicate PlacedIs(size: string -> int, items: seq<ServerItem>, http: HttpBlock, p: nat, t: ServerBlock)
    requires p < |items| && items[p].Place?
  {
    PlacesIn(items[..p]) < |t.locations| && LocationIs(size, items, http, p, t.locations[PlacesIn(items[..p])])
  }

  lemma FilledMeans(size: string -> int, items: seq<ServerItem>, http: HttpBlock, srv: ServerBlock, t: ServerBlock, p: nat)
    requires ServerMeaning(RulesOf(size), items, NewServer(http), {}) == Some(srv) && Finished(srv) == Some(t)
    requires p < |items| && items[p].Place? && srv.root != "" && srv.index != [] && Stands(size, http, SettingsOf(items), srv)
    ensures PlacedIs(size, items, http, p, t)
  {
    PlaceMeans(size, items, http, srv, p);
  }

  // ----------------------------------------------------------- the http block

  function CommonsOf(parts: seq<HttpItem>): seq<Statement>
  {
    if parts == [] then [] else (if parts[0].Common? then [parts[0].statement] else []) + CommonsOf(parts[1..])
  }

  function HostsIn(parts: seq<HttpItem>): nat
  {
    if parts == [] then 0 else (if parts[0].Host? then 1 else 0) + HostsIn(parts[1..])
  }

  ghost predicate HttpFollows(size: string -> int, a: HttpBlock, body: seq<Statement>, m: HttpBlock)
  {
    && AllGiven(body) && LimitFollows(size, Latest(body, "client_max_body_size", []), a.limit, m.limit)
    && PagesFollow(body, a.errors, m.errors)
  }

  lemma HttpStatementFollows(size: string -> int, a: HttpBlock, s: Statement)
    requires SetHttp(size, a, s.name, s.values).Some?
    ensures var b := SetHttp(size, a, s.name, s.values).value;
            && s.values != [] && b.servers == a.servers && PagesFollowOne(s, a.errors, b.errors)
            && (if s.name == "client_max_body_size" then |s.values| == 1 && b.limit == size(s.values[0]) else b.limit == a.limit)
  {
    var b := SetHttp(size, a, s.name, s.values).value;
    forall code ensures Lookup(b.errors, code) == PageAfterOne(s, code, Lookup(a.errors, code)) {
      if s.name == "error_page" { PagesAfterOne(s, a.errors, code); }
    }
    if s.name == "error_page" { PagesAfterOne(s, a.errors, 0); }
  }

  lemma HttpFollowsThen(size: string -> int, a: HttpBlock, s: Statement, m: HttpBlock, rest: seq<Statement>, b: HttpBlock)
    requires SetHttp(size, a, s.name, s.values) == Some(m) && HttpFollows(size, m, rest, b)
    ensures HttpFollows(size, a, [s] + rest, b)
  {
    HttpStatementFollows(size, a, s);
    LatestFirst(s, rest, "client_max_body_size", []);
    LatestOr(rest, "client_max_body_size", s.values);
    PagesFollowThen(s, rest, a.errors, m.errors, b.errors);
  }

  lemma {:induction false} ServersStay(size: string -> int, parts: seq<HttpItem>, a: HttpBlock)
    requires HttpMeaning(RulesOf(size), parts, a).Some?
    ensures a.servers <= HttpMeaning(RulesOf(size), parts, a).value.servers
    decreases |parts|
  {
    if parts != [] {
      var m := PartMeaning(RulesOf(size), parts[0], a).value;
      if parts[0].Common? { HttpStatementFollows(size, a, parts[0].statement); }
      ServersStay(size, parts[1..], m);
    }
  }

  lemma FirstPart(part: HttpItem, rest: seq<HttpItem>)
    ensures CommonsOf([part] + rest) == (if part.Common? then [part.statement] else []) + CommonsOf(rest)
    ensures HostsIn([part] + rest) == (if part.Host? then 1 else 0) + HostsIn(rest)
  {
    assert ([part] + rest)[1..] == rest;
  }

  /** The server at `p` means what its block does where it stands, with the http block `m` in force there. */
  ghost predicate Hosted(size: string -> int, parts: seq<HttpItem>, a: HttpBlock, p: nat, m: HttpBlock, servers: seq<ServerBlock>)
    requires p < |parts| && parts[p].Host?
  {
    Serves(size, a, CommonsOf(parts[..p]), |a.servers| + HostsIn(parts[..p]), parts[p].items, m, servers)
  }

  lemma HostedFirst(size: string -> int, parts: seq<HttpItem>, a: HttpBlock)
    requires HttpMeaning(RulesOf(size), parts, a).Some? && parts != [] && parts[0].Host?
    ensures Hosted(size, parts, a, 0, a, HttpMeaning(RulesOf(size), parts, a).value.servers)
  {
    ServersStay(size, parts[1..], PartMeaning(RulesOf(size), parts[0], a).value);
    assert parts[..0] == [];
  }

  lemma FirstOfParts(parts: seq<HttpItem>, p: nat)
    requires 0 < p <= |parts|
    ensures var rest := parts[1..][..p - 1];
            && CommonsOf(parts[..p]) == (if parts[0].Common? then [parts[0].statement] else []) + CommonsOf(rest)
            && HostsIn(parts[..p]) == (if parts[0].Host? then 1 else 0) + HostsIn(rest)
  {
    assert parts[..p] == [parts[0]] + parts[1..][..p - 1];
    FirstPart(parts[0], parts[1..][..p - 1]);
  }

  /** The server at `k` means what its block does behind these statements. */
  ghost predicate Serves(size: string -> int, a: HttpBlock, body: seq<Statement>, k: nat, items: seq<ServerItem>, m: HttpBlock,
                         servers: seq<ServerBlock>)
  {
    HttpFollows(size, a, body, m) && k < |servers| && HostMeaning(RulesOf(size), items, m) == Some(servers[k])
  }

  lemma HostedBefore(size: string -> int, part: HttpItem, a: HttpBlock, next: HttpBlock, rest: seq<Statement>, hosts: nat,
                     items: seq<ServerItem>, m: HttpBlock, servers: seq<ServerBlock>)
    requires PartMeaning(RulesOf(size), part, a) == Some(next) && Serves(size, next, rest, |next.servers| + hosts, items, m, servers)
    ensures Serves(size, a, (if part.Common? then [part.statement] else []) + rest,
                   |a.servers| + ((if part.Host? then 1 else 0) + hosts), items, m, servers)
  {
    PartThen(size, part, a, next, rest, m);
  }

  lemma HostedLater(size: string -> int, parts: seq<HttpItem>, a: HttpBlock, next: HttpBlock, p: nat, m: HttpBlock, servers: seq<ServerBlock>)
    requires 0 < p < |parts| && parts[p].Host? && PartMeaning(RulesOf(size), parts[0], a) == Some(next)
    requires Hosted(size, parts[1..], next, p - 1, m, servers)
    ensures Hosted(size, parts, a, p, m, servers)
  {
    FirstOfParts(parts, p);
    HostedBefore(size, parts[0], a, next, CommonsOf(parts[1..][..p - 1]), HostsIn(parts[1..][..p - 1]), parts[p].items, m, servers);
  }

  /** Every server of an accepted http block. */
  lemma {:induction false} HostsMean(size: string -> int, parts: seq<HttpItem>, a: HttpBlock, p: nat) returns (m: HttpBlock)
    requires HttpMeaning(RulesOf(size), parts, a).Some? && p < |parts| && parts[p].Host?
    ensures Hosted(size, parts, a, p, m, HttpMeaning(RulesOf(size), parts, a).value.servers)
    decreases p
  {
    if p == 0 {
      m := a;
      HostedFirst(size, parts, a);
    } else {
      var next := PartMeaning(RulesOf(size), parts[0], a).value;
      m := HostsMean(size, parts[1..], next, p - 1);
      HostedLater(size, parts, a, next, p, m, HttpMeaning(RulesOf(size), parts, a).value.servers);
    }
  }

  lemma PartThen(size: string -> int, part: HttpItem, a: HttpBlock, next: HttpBlock, rest: seq<Statement>, m: HttpBlock)
    requires PartMeaning(RulesOf(size), part, a) == Some(next) && HttpFollows(size, next, rest, m)
    ensures HttpFollows(size, a, (if part.Common? then [part.statement] else []) + rest, m)
    ensures |next.servers| == |a.servers| + if part.Host? then 1 else 0
  {
    match part
    case Common(s) =>
      HttpStatementFollows(size, a, s);
      HttpFollowsThen(size, a, s, next, rest, m);
    case Host(items) => assert [] + rest == rest;
  }

  // ---------------------------------------------------- which statements are taken

  predicate TakesPages(values: seq<string>)
  {
    |values| >= 2 && forall i :: 0 <= i < |values| - 1 ==> Bounded(values[i], 300, 599).Some?
  }

  lemma {:induction false} PagesAddedIff(codes: seq<string>, path: string, pages: map<int, string>)
    ensures AddPages(codes, path, pages).Some? <==> forall i :: 0 <= i < |codes| ==> Bounded(codes[i], 300, 599).Some?
    decreases |codes|
  {
    if codes != [] {
      var first := Bounded(codes[0], 300, 599);
      if first.Some? { PagesAddedIff(codes[1..], path, pages[first.value := path]); }
      assert forall i :: 1 <= i < |codes| ==> codes[i] == codes[1..][i - 1];
    }
  }

  lemma PagesTakenIff(values: seq<string>, pages: map<int, string>)
    ensures ErrorPages(values, pages).Some? <==> TakesPages(values)
  {
    if |values| >= 2 {
      var n := |values| - 1;
      PagesAddedIff(values[..n], values[n], pages);
      assert forall i :: 0 <= i < n ==> values[..n][i] == values[i];
    }
  }

  predicate TakesSize(size: string -> int, values: seq<string>) { |values| == 1 && size(values[0]) != -1 && size(values[0]) <= INT_MAX }

  predicate LocationTakes(size: string -> int, s: Statement)
  {
    s.values != [] &&
    (|| s.name == "index" || s.name == "cgi_path" || s.name == "cgi_ext"
     || ((s.name == "root" || s.name == "upload_path") && |s.values| == 1)
     || (s.name == "autoindex" && (s.values == ["on"] || s.values == ["off"]))
     || (s.name == "allowed_methods" && AllMethods(s.values) && Distinct(s.values))
     || (s.name == "return" && |s.values| == 2 && Bounded(s.values[0], 300, 399).Some?)
     || (s.name == "error_page" && TakesPages(s.values))
     || (s.name == "client_max_body_size" && TakesSize(size, s.values)))
  }

  /** Whether a location takes a statement does not depend on what was written before. */
  lemma LocationTakesIff(size: string -> int, loc: LocationBlock, s: Statement)
    ensures SetLocation(size, loc, s.name, s.values).Some? <==> LocationTakes(size, s)
  {
    PagesTakenIff(s.values, loc.errors);
    if |s.values| == 1 { assert s.values == [s.values[0]]; }
  }

  ghost predicate ServerTakes(size: string -> int, s: Statement)
  {
    s.values != [] &&
    (|| s.name == "server_name"
     || (s.name == "index" && forall i :: 0 <= i < |s.values| ==> s.values[i] != "")
     || (s.name == "root" && |s.values| == 1)
     || (s.name == "listen" && |s.values| == 1 && exists host, port :: Listens(s.values[0], host, port))
     || (s.name == "timeout" && |s.values| == 1 && Bounded(s.values[0], 1, 3600).Some?)
     || (s.name == "error_page" && TakesPages(s.values))
     || (s.name == "client_max_body_size" && TakesSize(size, s.values)))
  }

  lemma ListenTakenIff(srv: ServerBlock, val: string)
    ensures Listen(srv, val).Some? <==> exists host, port :: Listens(val, host, port)
  {
    if Listen(srv, val).Some? { ListenSets(srv, val); }
    if host, port :| Listens(val, host, port) { ListenIff(srv, val, host, port); }
  }

  /** Nor does whether a server takes one. */
  lemma ServerTakesIff(size: string -> int, srv: ServerBlock, s: Statement)
    ensures SetServer(size, srv, s.name, s.values).Some? <==> ServerTakes(size, s)
  {
    PagesTakenIff(s.values, srv.errors);
    if s.values != [] { ListenTakenIff(srv, s.values[0]); }
  }

  // -------------------------------------------------------- limits in the end

  /** A limit of 0 is none: in the end the server's holds, then that of the http block if it is 20000 or more,
      then one megabyte. */
  lemma LimitsInTheEnd(http: HttpBlock, sound: ServerBlock -> bool, servers: seq<ServerBlock>, k: nat, j: nat)
    requires Yields(http, sound, servers) && k < |http.servers| && j < |http.servers[k].locations|
    ensures k < |servers| && j < |servers[k].locations|
    ensures var was, last := http.servers[k], if http.limit >= 20000 then http.limit else 1048576;
            && servers[k].limit == (if was.limit != 0 then was.limit else last)
            && servers[k].locations[j] == was.locations[j].(limit := if was.locations[j].limit != 0 then was.locations[j].limit else servers[k].limit)
  {
  }
}
