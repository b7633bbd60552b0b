/** Which body limits an accepted configuration ends up with: exactly when all of them are usable, in terms of the
    sizes that were written. */
module ConfigLimits {
  import opened Text
  import opened ConfigSizes
  import opened ConfigGrammar
  import opened ConfigParser
  import opened ConfigText
  import ConfigNumbers
  import Headers

  const SIZE := "client_max_body_size"

  // ------------------------------------------------------------ governing sizes

  /** The size in force behind a statement, if any was written so far. */
  function InForce(s: Statement, now: Option<string>): Option<string>
  {
    if s.name == SIZE && s.values != [] then Some(s.values[0]) else now
  }

  function InForceAfter(body: seq<Statement>, now: Option<string>): Option<string>
  {
    if body == [] then now else InForceAfter(body[1..], InForce(body[0], now))
  }

  function Only(now: Option<string>): set<string> { if now.None? then {} else {now.value} }

  /** The sizes that govern a server or one of its locations: a location has its own, or what was in force
      where it stands; the server has the last. */
  function InServer(items: seq<ServerItem>, now: Option<string>): set<string>
  {
    if items == [] then Only(now)
    else
      match items[0]
      case Setting(s) => InServer(items[1..], InForce(s, now))
      case Place(_, body) => Only(InForceAfter(body, now)) + InServer(items[1..], now)
  }

  /** A server starts with what is in force in the http block where it stands. */
  function Governing(parts: seq<HttpItem>, now: Option<string>): set<string>
  {
    if parts == [] then {}
    else
      match parts[0]
      case Common(s) => Governing(parts[1..], InForce(s, now))
      case Host(items) => InServer(items, now) + Governing(parts[1..], now)
  }

  // ------------------------------------------------------------------- proofs

  /** A limit is the size in force, or 0 when there is none. */
  ghost predicate Is(size: string -> int, limit: int, now: Option<string>)
  {
    limit == (if now.None? then 0 else size(now.value))
  }

  ghost predicate SomeLeast(size: string -> int, tokens: set<string>) { exists t :: t in tokens && size(t) == LLONG_MIN }

  ghost predicate LeastPlace(srv: ServerBlock)
  {
    exists i :: 0 <= i < |srv.locations| && srv.locations[i].limit == LLONG_MIN
  }

  lemma SomeLeastOfTwo(size: string -> int, a: set<string>, b: set<string>)
    ensures SomeLeast(size, a + b) <==> SomeLeast(size, a) || SomeLeast(size, b)
  {
    if t :| t in a && size(t) == LLONG_MIN { assert t in a + b; }
    if t :| t in b && size(t) == LLONG_MIN { assert t in a + b; }
  }

  lemma LeastIs(size: string -> int, limit: int, now: Option<string>)
    requires Is(size, limit, now)
    ensures SomeLeast(size, Only(now)) <==> limit == LLONG_MIN
  {
    if now.Some? { assert now.value in Only(now); }
  }

  lemma SetLocationIs(size: string -> int, loc: LocationBlock, s: Statement, now: Option<string>)
    requires Is(size, loc.limit, now) && SetLocation(size, loc, s.name, s.values).Some?
    ensures Is(size, SetLocation(size, loc, s.name, s.values).value.limit, InForce(s, now))
  {
  }

  lemma {:induction false} LocationIs(size: string -> int, body: seq<Statement>, loc: LocationBlock, seen: set<string>, now: Option<string>)
    requires Is(size, loc.limit, now) && LocationMeaning(RulesOf(size), body, loc, seen).Some?
    ensures Is(size, LocationMeaning(RulesOf(size), body, loc, seen).value.limit, InForceAfter(body, now))
    decreases |body|
  {
    if body != [] {
      var s := body[0];
      SetLocationIs(size, loc, s, now);
      LocationIs(size, body[1..], SetLocation(size, loc, s.name, s.values).value, Marked(seen, s.name, ONCE_IN_LOCATION), InForce(s, now));
    }
  }

  lemma SetServerIs(size: string -> int, srv: ServerBlock, s: Statement, now: Option<string>)
    requires Is(size, srv.limit, now) && SetServer(size, srv, s.name, s.values).Some?
    ensures var t := SetServer(size, srv, s.name, s.values).value; Is(size, t.limit, InForce(s, now)) && t.locations == srv.locations
  {
  }

  lemma WithLocationIs(srv: ServerBlock, loc: LocationBlock)
    ensures var t := WithLocation(srv, loc); t.limit == srv.limit && (LeastPlace(t) <==> LeastPlace(srv) || loc.limit == LLONG_MIN)
  {
    var t := WithLocation(srv, loc);
    var n := |srv.locations|;
    assert t.locations[n].limit == loc.limit && forall i :: 0 <= i < n ==> t.locations[i] == srv.locations[i];
    if LeastPlace(srv) {
      var i :| 0 <= i < n && srv.locations[i].limit == LLONG_MIN;
      assert t.locations[i].limit == LLONG_MIN;
    }
  }

  lemma ItemIs(size: string -> int, item: ServerItem, rest: seq<ServerItem>, srv: ServerBlock, seen: set<string>, now: Option<string>)
    returns (next: Option<string>)
    requires Is(size, srv.limit, now) && ItemMeaning(RulesOf(size), item, srv, seen).Some?
    ensures var t := ItemMeaning(RulesOf(size), item, srv, seen).value.0;
            && Is(size, t.limit, next)
            && (LeastPlace(t) || SomeLeast(size, InServer(rest, next)) <==>
                LeastPlace(srv) || SomeLeast(size, InServer([item] + rest, now)))
  {
    assert ([item] + rest)[1..] == rest;
    match item
    case Setting(s) =>
      SetServerIs(size, srv, s, now);
      next := InForce(s, now);
    case Place(path, body) =>
      LocationIs(size, body, NewLocation(srv, path), {}, now);
      var loc := LocationMeaning(RulesOf(size), body, NewLocation(srv, path), {}).value;
      WithLocationIs(srv, loc);
      LeastIs(size, loc.limit, InForceAfter(body, now));
      SomeLeastOfTwo(size, Only(InForceAfter(body, now)), InServer(rest, now));
      next := now;
  }

  lemma {:induction false} ServerIs(size: string -> int, items: seq<ServerItem>, srv: ServerBlock, seen: set<string>, now: Option<string>)
    requires Is(size, srv.limit, now) && ServerMeaning(RulesOf(size), items, srv, seen).Some?
    ensures var t := ServerMeaning(RulesOf(size), items, srv, seen).value;
            t.limit == LLONG_MIN || LeastPlace(t) <==> LeastPlace(srv) || SomeLeast(size, InServer(items, now))
    decreases |items|
  {
    if items == [] {
      LeastIs(size, srv.limit, now);
    } else {
      assert items == [items[0]] + items[1..];
      var next := ItemIs(size, items[0], items[1..], srv, seen, now);
      var m := ItemMeaning(RulesOf(size), items[0], srv, seen).value;
      ServerIs(size, items[1..], m.0, m.1, next);
    }
  }

  /** The server as it was finished: what its locations lack they take from it. */
  ghost predicate LeastLimit(srv: ServerBlock) { srv.limit == LLONG_MIN || LeastPlace(srv) }

  lemma FinishedIs(srv: ServerBlock)
    requires Finished(srv).Some?
    ensures LeastLimit(Finished(srv).value) <==> LeastLimit(srv)
  {
    var t := Finished(srv).value;
    if LeastPlace(srv) {
      var i :| 0 <= i < |srv.locations| && srv.locations[i].limit == LLONG_MIN;
      assert t.locations[i].limit == LLONG_MIN;
    }
    if LeastPlace(t) && t.limit != LLONG_MIN {
      var i :| 0 <= i < |t.locations| && t.locations[i].limit == LLONG_MIN;
      assert srv.locations[i].limit == LLONG_MIN;
    }
  }

  ghost predicate SomeServerLeast(http: HttpBlock)
  {
    exists i :: 0 <= i < |http.servers| && LeastLimit(http.servers[i])
  }

  lemma WithServerIs(http: HttpBlock, srv: ServerBlock)
    ensures var t := WithServer(http, srv);
            t.limit == http.limit && (SomeServerLeast(t) <==> SomeServerLeast(http) || LeastLimit(srv))
  {
    var t := WithServer(http, srv);
    var n := |http.servers|;
    assert t.servers[n] == srv && forall i :: 0 <= i < n ==> t.servers[i] == http.servers[i];
    if SomeServerLeast(http) {
      var i :| 0 <= i < n && LeastLimit(http.servers[i]);
      assert LeastLimit(t.servers[i]);
    }
    if LeastLimit(srv) { assert LeastLimit(t.servers[n]); }
  }

  lemma SetHttpIs(size: string -> int, http: HttpBlock, s: Statement, now: Option<string>)
    requires Is(size, http.limit, now) && SetHttp(size, http, s.name, s.values).Some?
    ensures var t := SetHttp(size, http, s.name, s.values).value; Is(size, t.limit, InForce(s, now)) && t.servers == http.servers
  {
  }

  lemma PartIs(size: string -> int, part: HttpItem, rest: seq<HttpItem>, http: HttpBlock, now: Option<string>) returns (next: Option<string>)
    requires Is(size, http.limit, now) && PartMeaning(RulesOf(size), part, http).Some?
    ensures var t := PartMeaning(RulesOf(size), part, http).value;
            && Is(size, t.limit, next)
            && (SomeServerLeast(t) || SomeLeast(size, Governing(rest, next)) <==>
                SomeServerLeast(http) || SomeLeast(size, Governing([part] + rest, now)))
  {
    assert ([part] + rest)[1..] == rest;
    match part
    case Common(s) =>
      SetHttpIs(size, http, s, now);
      next := InForce(s, now);
    case Host(items) =>
      HostIs(size, items, http, now);
      WithServerIs(http, HostMeaning(RulesOf(size), items, http).value);
      SomeLeastOfTwo(size, InServer(items, now), Governing(rest, now));
      next := now;
  }

  lemma HostIs(size: string -> int, items: seq<ServerItem>, http: HttpBlock, now: Option<string>)
    requires Is(size, http.limit, now) && HostMeaning(RulesOf(size), items, http).Some?
    ensures LeastLimit(HostMeaning(RulesOf(size), items, http).value) <==> SomeLeast(size, InServer(items, now))
  {
    ServerIs(size, items, NewServer(http), {}, now);
    FinishedIs(ServerMeaning(RulesOf(size), items, NewServer(http), {}).value);
  }

  lemma {:induction false} HttpIs(size: string -> int, parts: seq<HttpItem>, http: HttpBlock, now: Option<string>)
    requires Is(size, http.limit, now) && HttpMeaning(RulesOf(size), parts, http).Some?
    ensures SomeServerLeast(HttpMeaning(RulesOf(size), parts, http).value) <==>
            SomeServerLeast(http) || SomeLeast(size, Governing(parts, now))
    decreases |parts|
  {
    if parts != [] {
      assert parts == [parts[0]] + parts[1..];
      var next := PartIs(size, parts[0], parts[1..], http, now);
      HttpIs(size, parts[1..], PartMeaning(RulesOf(size), parts[0], http).value, next);
    }
  }

  lemma InheritingIs(srv: ServerBlock, http: int)
    requires Accepted(srv) && 0 < http <= INT_MAX
    ensures AllUsable(Inheriting(srv, http)) <==> !LeastLimit(srv)
  {
    var t := Inheriting(srv, http);
    if LeastPlace(srv) {
      var i :| 0 <= i < |srv.locations| && srv.locations[i].limit == LLONG_MIN;
      assert t.locations[i].limit == LLONG_MIN;
    }
  }

  ghost predicate EveryLimitUsable(servers: seq<ServerBlock>)
  {
    forall i :: 0 <= i < |servers| ==> AllUsable(servers[i])
  }

  lemma AcceptedHttp(size: string -> int, parts: seq<HttpItem>)
    requires Honest(size) && HttpMeaning(RulesOf(size), parts, NO_HTTP).Some?
    ensures var h := HttpMeaning(RulesOf(size), parts, NO_HTTP).value; InLimit(h.limit) && AllAccepted(h.servers)
  {
    HttpBlockIsRead(RulesOf(size), parts);
    BlocksAccepted(size, WrittenHttp(parts) + [End], 0, None);
  }

  /** All limits of the servers that a list of blocks means are usable if and only if none of the sizes
      that govern a server or a location is read as the least number. */
  lemma LimitsAreUsableIff(size: string -> int, parts: seq<HttpItem>, sound: ServerBlock -> bool, servers: seq<ServerBlock>)
    requires Honest(size) && Means(size, parts, sound, servers)
    ensures EveryLimitUsable(servers) <==> forall t :: t in Governing(parts, None) ==> size(t) != LLONG_MIN
  {
    AcceptedHttp(size, parts);
    HttpIs(size, parts, NO_HTTP, None);
    var http := HttpMeaning(RulesOf(size), parts, NO_HTTP).value;
    forall i | 0 <= i < |servers| ensures AllUsable(servers[i]) <==> !LeastLimit(http.servers[i]) {
      InheritingIs(http.servers[i], HttpLimit(http));
    }
  }

  /** For the parser of sizes that the server has: none of them times its unit is 2^63. */
  lemma AcceptedLimitsAreUsableIff(round: real -> real, parts: seq<HttpItem>, sound: ServerBlock -> bool, servers: seq<ServerBlock>)
    requires Means(token => SizeOf(round, token), parts, sound, servers)
    ensures EveryLimitUsable(servers) <==> forall t :: t in Governing(parts, None) ==> !Overflows(round, t)
  {
    var size := token => SizeOf(round, token);
    ParsedSizesAreHonest(round);
    LimitsAreUsableIff(size, parts, sound, servers);
    forall t ensures size(t) == LLONG_MIN <==> Overflows(round, t) { SizeOverflowsIff(round, t); }
  }

  /** And the lengths of requests to an accepted server are understood as written exactly when its limit is
      usable: otherwise the limit is 2^63. */
  lemma LengthsAreExactIffUsable(srv: ServerBlock)
    requires Final(srv)
    ensures (forall s :: s != "" && Headers.Decimal(s) ==>
               Headers.ContentLength(s, ConfigOf(srv).maxBody) == Headers.ExactLength(s, ConfigOf(srv).maxBody)) <==> Usable(srv.limit)
  {
    Headers.LengthsAreExactIff(ConfigOf(srv).maxBody);
  }

  // ------------------------------------------------------------- one such file

  /** One server with a listener, a root, an index, a timeout, and this size. */
  function OneServer(token: string): seq<ServerItem>
  {
    [Setting(Statement("listen", ["8"])), Setting(Statement("root", ["/"])), Setting(Statement("index", ["i.h"])),
     Setting(Statement("timeout", ["1"])), Setting(Statement(SIZE, [token]))]
  }

  function Configured(limit: int): ServerBlock
  {
    ServerBlock("0.0.0.0", 8, 1, "/", ["i.h"], "", limit, map[], [])
  }

  lemma DigitIs(c: char)
    requires '0' <= c <= '9'
    ensures ConfigNumbers.LongOf([c]) == Some(c as int - '0' as int)
  {
    assert [c][..0] == "" && Headers.DecimalValue([c]) == c as int - '0' as int;
    ConfigNumbers.LongIsExact([c]);
  }

  lemma StatementIs(size: string -> int, items: seq<ServerItem>, s: Statement, srv: ServerBlock, seen: set<string>, next: ServerBlock)
    requires items != [] && items[0] == Setting(s) && s.name !in seen && SetServer(size, srv, s.name, s.values) == Some(next)
    ensures ServerMeaning(RulesOf(size), items, srv, seen) ==
            ServerMeaning(RulesOf(size), items[1..], next, Marked(seen, s.name, ONCE_IN_SERVER))
  {
  }

  lemma PortIs(size: string -> int, srv: ServerBlock)
    ensures SetServer(size, srv, "listen", ["8"]) == Some(srv.(host := "0.0.0.0", port := 8))
  {
    DigitIs('8');
    assert "8" == ['8'];
  }

  lemma TimeoutIs(size: string -> int, srv: ServerBlock)
    ensures SetServer(size, srv, "timeout", ["1"]) == Some(srv.(timeout := 1))
  {
    DigitIs('1');
    assert "1" == ['1'];
  }

  lemma IndexIs(size: string -> int, srv: ServerBlock)
    requires srv.index == []
    ensures SetServer(size, srv, "index", ["i.h"]) == Some(srv.(index := ["i.h"]))
  {
    assert [] + ["i.h"] == ["i.h"];
  }

  lemma LastTwoMean(size: string -> int, items: seq<ServerItem>, token: string, srv: ServerBlock, seen: set<string>)
    requires size(token) == LLONG_MIN && seen !! {"timeout", SIZE}
    requires items == [Setting(Statement("timeout", ["1"])), Setting(Statement(SIZE, [token]))]
    ensures ServerMeaning(RulesOf(size), items, srv, seen) == Some(srv.(timeout := 1, limit := LLONG_MIN))
  {
    TimeoutIs(size, srv);
    StatementIs(size, items, Statement("timeout", ["1"]), srv, seen, srv.(timeout := 1));
    StatementIs(size, items[1..], Statement(SIZE, [token]), srv.(timeout := 1), Marked(seen, "timeout", ONCE_IN_SERVER),
                srv.(timeout := 1, limit := LLONG_MIN));
    assert items[1..][1..] == [];
  }

  lemma MiddleTwoMean(size: string -> int, items: seq<ServerItem>, srv: ServerBlock, seen: set<string>)
    requires |items| > 2 && items[0] == Setting(Statement("root", ["/"])) && items[1] == Setting(Statement("index", ["i.h"]))
    requires seen !! {"root", "index"} && srv.index == []
    ensures ServerMeaning(RulesOf(size), items, srv, seen) ==
            ServerMeaning(RulesOf(size), items[2..], srv.(root := "/", index := ["i.h"]), seen + {"root"} + {"index"})
  {
    IndexIs(size, srv.(root := "/"));
    StatementIs(size, items, Statement("root", ["/"]), srv, seen, srv.(root := "/"));
    StatementIs(size, items[1..], Statement("index", ["i.h"]), srv.(root := "/"), seen + {"root"}, srv.(root := "/", index := ["i.h"]));
    assert items[1..][1..] == items[2..];
  }

  lemma ServerMeans(size: string -> int, token: string)
    requires size(token) == LLONG_MIN
    ensures ServerMeaning(RulesOf(size), OneServer(token), NewServer(NO_HTTP), {}) == Some(Configured(LLONG_MIN))
  {
    var items, a, b := OneServer(token), NewServer(NO_HTTP), NewServer(NO_HTTP).(host := "0.0.0.0", port := 8);
    var seen := Marked({}, "listen", ONCE_IN_SERVER);
    PortIs(size, a);
    StatementIs(size, items, Statement("listen", ["8"]), a, {}, b);
    MiddleTwoMean(size, items[1..], b, seen);
    LastTwoMean(size, items[1..][2..], token, b.(root := "/", index := ["i.h"]), seen + {"root"} + {"index"});
  }

  lemma ServerIsComplete(limit: int)
    ensures Finished(Configured(limit)) == Some(Configured(limit))
  {
    var srv := Configured(limit);
    assert LastDot("i.h") == 1 by { assert "i.h"[..2] == "i."; }
    assert FilledAll(srv.locations, srv) == [];
  }

  /** With a size that is read as the least number the server is accepted, and has that limit. */
  lemma LeastLimitIsAccepted(size: string -> int, token: string)
    requires size(token) == LLONG_MIN
    ensures Means(size, [Host(OneServer(token))], _ => true, [Configured(LLONG_MIN)])
  {
    var srv := Configured(LLONG_MIN);
    ServerMeans(size, token);
    ServerIsComplete(LLONG_MIN);
    var parts := [Host(OneServer(token))];
    assert parts[1..] == [] && [] + [srv] == [srv];
    assert HttpMeaning(RulesOf(size), parts, NO_HTTP) == Some(WithServer(NO_HTTP, srv));
    assert Inheriting(srv, DEFAULT_LIMIT) == srv;
    assert InheritingAll([srv], DEFAULT_LIMIT) == [srv];
  }

  /** So 8589934592G is accepted by the server's own parser of sizes. */
  lemma HugeSizeIsAccepted(round: real -> real, token: string)
    requires KeepsIntegers(round)
    requires token == "" + ['8'] + ['5'] + ['8'] + ['9'] + ['9'] + ['3'] + ['4'] + ['5'] + ['9'] + ['2'] + ['G']
    ensures Means(t => SizeOf(round, t), [Host(OneServer(token))], _ => true, [Configured(LLONG_MIN)])
    ensures !EveryLimitUsable([Configured(LLONG_MIN)])
  {
    HugeSizeIsNegative(round, token);
    LeastLimitIsAccepted(t => SizeOf(round, t), token);
    assert !AllUsable([Configured(LLONG_MIN)][0]);
  }
}
