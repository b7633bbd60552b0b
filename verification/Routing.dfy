/** conf/serverConfig.cpp: choosing the location that serves a request path. */
module Routing {
  import opened Text

  const SIZE_MAX: nat := 0xFFFF_FFFF_FFFF_FFFF

  /** The values of `size_t`. */
  type SizeT = x: int | 0 <= x <= 0xFFFF_FFFF_FFFF_FFFF

  /** The parts of a location and of a server block that request handling consults. */
  datatype Location = Location(path: string, root: string, clientMaxBodySize: SizeT, cgiExtensions: set<string>)

  datatype ServerConfig = ServerConfig(serverName: string, root: string, maxBody: SizeT, locations: seq<Location>)

  function WithoutTrailingSlash(path: string): string
  {
    if |path| > 1 && path[|path| - 1] == '/' then path[..|path| - 1] else path
  }

  /** The segment-boundary test.  The last conjunct reads one character past the location
      path; it is in range because an equal path was accepted before it. */
  predicate Serves(loc: Location, path: string)
  {
    loc.path != "" &&
    var l := WithoutTrailingSlash(loc.path);
    var r := WithoutTrailingSlash(path);
    r == l || (l <= r && r[|l|] == '/')
  }

  /** What the scan has settled on after the first `n` locations; -1 for none. */
  function BestOf(locs: seq<Location>, path: string, n: nat): (best: int)
    requires n <= |locs|
    ensures -1 <= best < n
  {
    if n == 0 then -1
    else
      var best := BestOf(locs, path, n - 1);
      var bestLen := if best < 0 then 0 else |locs[best].path|;
      if Serves(locs[n - 1], path) && |locs[n - 1].path| > bestLen then n - 1 else best
  }

  function Match(server: ServerConfig, path: string): Option<Location>
  {
    var best := BestOf(server.locations, path, |server.locations|);
    if best < 0 then None else Some(server.locations[best])
  }

  method MatchLocation(server: ServerConfig, path: string) returns (r: Option<Location>)
    ensures r == Match(server, path)
  {
    var best, bestLen := -1, 0;
    for i := 0 to |server.locations|
      invariant best == BestOf(server.locations, path, i)
      invariant bestLen == if best < 0 then 0 else |server.locations[best].path|
    {
      var loc := server.locations[i];
      if |loc.path| == 0 { continue; }
      var serves := ServesPath(loc, path);
      if serves && |loc.path| > bestLen {
        best, bestLen := i, |loc.path|;
      }
    }
    r := if best < 0 then None else Some(server.locations[best]);
  }

  method ServesPath(loc: Location, path: string) returns (serves: bool)
    requires loc.path != ""
    ensures serves == Serves(loc, path)
  {
    var locPath, reqPath := loc.path, path;
    if |locPath| > 1 && locPath[|locPath| - 1] == '/' { locPath := locPath[..|locPath| - 1]; }
    if |reqPath| > 1 && reqPath[|reqPath| - 1] == '/' { reqPath := reqPath[..|reqPath| - 1]; }
    serves := reqPath == locPath || (locPath <= reqPath && reqPath[|locPath|] == '/');
  }

  lemma {:induction false} BestIsLongest(locs: seq<Location>, path: string, n: nat)
    requires n <= |locs|
    ensures var best := BestOf(locs, path, n);
            && (best >= 0 ==> Serves(locs[best], path))
            && forall i :: 0 <= i < n && Serves(locs[i], path) ==> best >= 0 && |locs[i].path| <= |locs[best].path|
  {
    if n > 0 { BestIsLongest(locs, path, n - 1); }
  }

  /** What `verifying_path_in_locations_inside_server` establishes for every accepted server. */
  ghost predicate DistinctPaths(locs: seq<Location>)
  {
    forall i, j :: 0 <= i < j < |locs| ==>
      WithoutTrailingSlash(locs[i].path) != WithoutTrailingSlash(locs[j].path)
  }

  /** Of two locations serving the same path the one with the longer trimmed path also has
      the longer written path, so comparing written lengths is sound. */
  lemma LongerTrimmedIsLonger(a: Location, b: Location, path: string)
    requires Serves(a, path) && Serves(b, path)
    requires WithoutTrailingSlash(a.path) != WithoutTrailingSlash(b.path)
    ensures var l, m := WithoutTrailingSlash(a.path), WithoutTrailingSlash(b.path);
            |l| != |m| && (|l| < |m| <==> |a.path| < |b.path|)
  {
    var r := WithoutTrailingSlash(path);
    var l, m := WithoutTrailingSlash(a.path), WithoutTrailingSlash(b.path);
    assert l == r[..|l|] && m == r[..|m|];
    if |l| < |m| {
      assert m[|l|] == r[|l|] == '/';
    } else {
      assert |m| < |l|;
      assert l[|m|] == r[|m|] == '/';
    }
  }

  lemma NoneServesLonger(locs: seq<Location>, path: string, i: nat, k: nat)
    requires i < |locs| && k < |locs| && i != k && DistinctPaths(locs)
    requires Serves(locs[i], path) && Serves(locs[k], path) && |locs[i].path| <= |locs[k].path|
    ensures |WithoutTrailingSlash(locs[i].path)| < |WithoutTrailingSlash(locs[k].path)|
  {
    if i < k {
      assert WithoutTrailingSlash(locs[i].path) != WithoutTrailingSlash(locs[k].path);
    } else {
      assert WithoutTrailingSlash(locs[k].path) != WithoutTrailingSlash(locs[i].path);
    }
    LongerTrimmedIsLonger(locs[i], locs[k], path);
  }

  /** The answer is the one location that serves the path with the longest trimmed path. */
  lemma MatchIsUniqueLongest(server: ServerConfig, path: string)
    requires DistinctPaths(server.locations)
    ensures Match(server, path).None? <==> forall l :: l in server.locations ==> !Serves(l, path)
    ensures Match(server, path).Some? ==>
              var best := Match(server, path).value;
              best in server.locations && Serves(best, path) &&
              forall l :: l in server.locations && Serves(l, path) && l != best ==>
                |WithoutTrailingSlash(l.path)| < |WithoutTrailingSlash(best.path)|
  {
    var locs := server.locations;
    var k := BestOf(locs, path, |locs|);
    BestIsLongest(locs, path, |locs|);
    if k >= 0 {
      forall l | l in locs && Serves(l, path) && l != locs[k]
        ensures |WithoutTrailingSlash(l.path)| < |WithoutTrailingSlash(locs[k].path)|
      {
        var i :| 0 <= i < |locs| && locs[i] == l;
        NoneServesLonger(locs, path, i, k);
      }
    }
  }

  /** Writing the location blocks in another order changes nothing. */
  lemma OrderDoesNotMatter(server: ServerConfig, other: ServerConfig, path: string)
    requires DistinctPaths(server.locations) && DistinctPaths(other.locations)
    requires multiset(server.locations) == multiset(other.locations)
    ensures Match(server, path) == Match(other, path)
  {
    MatchIsUniqueLongest(server, path);
    MatchIsUniqueLongest(other, path);
    forall l ensures l in server.locations <==> l in other.locations {
      assert l in server.locations <==> l in multiset(server.locations);
      assert l in other.locations <==> l in multiset(other.locations);
    }
  }

  lemma TrailingSlashDoesNotMatter(server: ServerConfig, path: string)
    requires path != "" && (path[|path| - 1] == '/' ==> path == "/")
    ensures Match(server, path) == Match(server, path + "/")
  {
    assert WithoutTrailingSlash(path + "/") == path;
    SameTrimmedSameBest(server.locations, path, path + "/", |server.locations|);
  }

  lemma {:induction false} SameTrimmedSameBest(locs: seq<Location>, p: string, q: string, n: nat)
    requires n <= |locs|
    requires WithoutTrailingSlash(p) == WithoutTrailingSlash(q)
    ensures BestOf(locs, p, n) == BestOf(locs, q, n)
  {
    if n > 0 { SameTrimmedSameBest(locs, p, q, n - 1); }
  }

  /** A location `/` serves the request `/` and, on paths without `//`, nothing else. */
  lemma RootServesOnlyRoot(loc: Location, path: string)
    requires loc.path == "/"
    requires path != "" && (forall i :: 0 <= i < |path| - 1 ==> !(path[i] == '/' && path[i + 1] == '/'))
    ensures Serves(loc, path) <==> path == "/"
  {
    var r := WithoutTrailingSlash(path);
    if |path| > 1 {
      assert !(path[0] == '/' && path[0 + 1] == '/');
      assert r[0] == path[0];
      if |r| > 1 { assert r[1] == path[1]; } else { assert path[1] == '/'; }
    }
  }

  /** A location written without a slash at its end serves itself and whatever stands below it. */
  lemma ServesItselfAndBelow(loc: Location, path: string)
    requires loc.path != "" && loc.path[|loc.path| - 1] != '/'
    ensures Serves(loc, path) <==> path == loc.path || loc.path + "/" <= path
  {
    var l, r := loc.path, WithoutTrailingSlash(path);
    if l + "/" <= path {
      assert path[|l|] == '/';
      if r != path && |r| == |l| { assert r == path[..|l|] == l; }
    }
    if Serves(loc, path) && path != l {
      if r == l { assert path == l + "/"; } else { assert path[..|l|] == l && path[|l|] == '/'; }
    }
  }

  /** And with one it serves the same. */
  lemma WrittenSlashDoesNotMatter(loc: Location, path: string)
    requires loc.path != "" && loc.path[|loc.path| - 1] != '/'
    ensures Serves(loc.(path := loc.path + "/"), path) <==> Serves(loc, path)
  {
    assert WithoutTrailingSlash(loc.path + "/") == loc.path;
  }

  /** It serves the path, and no other that does is longer. */
  ghost predicate Longest(server: ServerConfig, path: string, l: Location)
  {
    && l in server.locations && Serves(l, path)
    && forall m :: m in server.locations && Serves(m, path) && m != l ==>
         |WithoutTrailingSlash(m.path)| < |WithoutTrailingSlash(l.path)|
  }

  /** Such a location is the answer, also when other paths collide. */
  lemma LongestIsMatched(server: ServerConfig, path: string, l: Location)
    requires Longest(server, path, l)
    ensures Match(server, path) == Some(l)
  {
    var locs := server.locations;
    var k := BestOf(locs, path, |locs|);
    BestIsLongest(locs, path, |locs|);
    var i :| 0 <= i < |locs| && locs[i] == l;
    if locs[k] != l { LongerTrimmedIsLonger(locs[k], l, path); }
  }
}
