/** Numbers and addresses in the configuration: `safe_strtol` of conf/httpConfig.cpp, `is_valid_octet` and
    `is_valid_host` of conf/server_parser.cpp. */
module ConfigNumbers {
  import opened Text
  import Headers

  const LONG_MAX: nat := 0x7FFF_FFFF_FFFF_FFFF

  // ------------------------------------------------------------ safe_strtol

  function LongFrom(s: string, i: nat, acc: nat): Option<nat>
    requires i <= |s| && Headers.Decimal(s) && acc <= LONG_MAX
    decreases |s| - i
  {
    if i == |s| then Some(acc)
    else
      var digit := s[i] as int - '0' as int;
      if acc > (LONG_MAX - digit) / 10 then None else LongFrom(s, i + 1, acc * 10 + digit)
  }

  function LongOf(s: string): Option<nat>
  {
    if s == "" || !Headers.Decimal(s) then None else LongFrom(s, 0, 0)
  }

  method SafeStrtol(s: string) returns (r: Option<nat>)
    ensures r == LongOf(s)
  {
    if s == "" { return None; }
    for i := 0 to |s|
      invariant forall k :: 0 <= k < i ==> '0' <= s[k] <= '9'
    {
      if !('0' <= s[i] <= '9') { return None; }
    }
    var result: nat := 0;
    for i := 0 to |s|
      invariant result <= LONG_MAX && LongFrom(s, i, result) == LongOf(s)
    {
      var digit := s[i] as int - '0' as int;
      if result > (LONG_MAX - digit) / 10 { return None; }
      result := result * 10 + digit;
    }
    r := Some(result);
  }

  lemma {:induction false} LongFromIs(s: string, i: nat, acc: nat)
    requires i <= |s| && Headers.Decimal(s) && acc == Headers.DecimalValue(s[..i]) <= LONG_MAX
    ensures LongFrom(s, i, acc) == if Headers.DecimalValue(s) <= LONG_MAX then Some(Headers.DecimalValue(s)) else None
    decreases |s| - i
  {
    if i == |s| {
      assert s[..i] == s;
    } else {
      var next := acc * 10 + (s[i] as int - '0' as int);
      assert s[..i + 1][..i] == s[..i];
      assert next == Headers.DecimalValue(s[..i + 1]);
      if next > LONG_MAX {
        Headers.DecimalGrows(s, i + 1, |s|);
        assert s[..|s|] == s;
      } else {
        LongFromIs(s, i + 1, next);
      }
    }
  }

  /** The guard before each digit is exact: digits are accepted just when their value fits in a `long`,
      and nothing overflows on the way. */
  lemma LongIsExact(s: string)
    ensures LongOf(s) == if s != "" && Headers.Decimal(s) && Headers.DecimalValue(s) <= LONG_MAX
                         then Some(Headers.DecimalValue(s)) else None
  {
    assert s[..0] == "";
    if s != "" && Headers.Decimal(s) { LongFromIs(s, 0, 0); }
  }

  /** `static_cast<int>` of a `long`: the low 32 bits. */
  function AsInt(n: nat): int
  {
    var m := n % 0x1_0000_0000;
    if m >= 0x8000_0000 then m - 0x1_0000_0000 else m
  }

  /** A number that must lie between `low` and `high` once it has become an `int`. */
  function Bounded(s: string, low: int, high: int): Option<int>
  {
    var n := LongOf(s);
    if n.None? || AsInt(n.value) < low || AsInt(n.value) > high then None else Some(AsInt(n.value))
  }

  /** The range check comes after the narrowing: a number is understood as written exactly when it is
      below 2^31; larger ones are taken modulo 2^32 and may slip through. */
  lemma BoundedIsExactIff(s: string, low: int, high: int)
    requires 0 < low <= high < 0x8000_0000 && Bounded(s, low, high).Some?
    ensures s != "" && Headers.Decimal(s) && Headers.DecimalValue(s) <= LONG_MAX
    ensures Bounded(s, low, high).value == Headers.DecimalValue(s) <==> Headers.DecimalValue(s) < 0x8000_0000
  {
    LongIsExact(s);
  }

  /** A number in range is always accepted. */
  lemma InRangeIsAccepted(s: string, low: int, high: int)
    requires s != "" && Headers.Decimal(s) && 0 < low <= Headers.DecimalValue(s) <= high < 0x8000_0000
    ensures Bounded(s, low, high) == Some(Headers.DecimalValue(s))
  {
    LongIsExact(s);
  }

  lemma OneMoreDigit(s: string, c: char, value: nat)
    requires Headers.Decimal(s) && Headers.DecimalValue(s) == value && '0' <= c <= '9'
    ensures Headers.Decimal(s + [c]) && Headers.DecimalValue(s + [c]) == value * 10 + (c as int - '0' as int)
  {
    assert (s + [c])[..|s|] == s;
  }

  /** An input that slips through: port 4294967377 is taken for port 81. */
  lemma HugePortIsAccepted(port: string)
    requires port == "" + ['4'] + ['2'] + ['9'] + ['4'] + ['9'] + ['6'] + ['7'] + ['3'] + ['7'] + ['7']
    ensures Bounded(port, 1, 65535) == Some(81)
  {
    OneMoreDigit("", '4', 0);
    OneMoreDigit("" + ['4'], '2', 4);
    var s := "" + ['4'] + ['2'];
    OneMoreDigit(s, '9', 42);
    OneMoreDigit(s + ['9'], '4', 429);
    OneMoreDigit(s + ['9'] + ['4'], '9', 4294);
    var t := s + ['9'] + ['4'] + ['9'];
    OneMoreDigit(t, '6', 42949);
    OneMoreDigit(t + ['6'], '7', 429496);
    OneMoreDigit(t + ['6'] + ['7'], '3', 4294967);
    OneMoreDigit(t + ['6'] + ['7'] + ['3'], '7', 42949673);
    OneMoreDigit(t + ['6'] + ['7'] + ['3'] + ['7'], '7', 429496737);
    LongIsExact(port);
  }

  // ------------------------------------------------------- IPv4 addresses

  /** `is_valid_octet`. */
  predicate ValidOctet(s: string)
  {
    && s != "" && |s| <= 3 && !(s[0] == '0' && |s| > 1) && Headers.Decimal(s)
    && LongOf(s).Some? && LongOf(s).value <= 255
  }

  method IsValidOctet(s: string) returns (r: bool)
    ensures r == ValidOctet(s)
  {
    if s == "" || |s| > 3 { return false; }
    if s[0] == '0' && |s| > 1 { return false; }
    for i := 0 to |s|
      invariant forall k :: 0 <= k < i ==> '0' <= s[k] <= '9'
    {
      if !('0' <= s[i] <= '9') { return false; }
    }
    var num := SafeStrtol(s);
    r := num.Some? && num.value <= 255;
  }

  /** The pieces between dots, empty ones too. */
  function Dotted(s: string, from: nat): (r: seq<string>)
    requires from <= |s|
    ensures r != []
    decreases |s| - from
  {
    var k := Find(s, '.', from);
    if k == |s| then [s[from..]] else [s[from..k]] + Dotted(s, k + 1)
  }

  predicate AllOctets(parts: seq<string>)
  {
    forall i :: 0 <= i < |parts| ==> ValidOctet(parts[i])
  }

  predicate ValidHost(host: string)
  {
    |Dotted(host, 0)| == 4 && AllOctets(Dotted(host, 0))
  }

  lemma DotIs(s: string, from: nat, k: nat)
    requires from <= k <= |s| && (k < |s| ==> s[k] == '.') && forall j :: from <= j < k ==> s[j] != '.'
    ensures Find(s, '.', from) == k
  {
  }

  lemma NextPart(host: string, parts: seq<string>, prev: nat, i: nat)
    requires prev <= i <= |host| && (i < |host| ==> host[i] == '.') && forall j :: prev <= j < i ==> host[j] != '.'
    requires parts + Dotted(host, prev) == Dotted(host, 0)
    ensures |Dotted(host, 0)| > |parts| && Dotted(host, 0)[|parts|] == host[prev..i]
    ensures if i < |host| then parts + [host[prev..i]] + Dotted(host, i + 1) == Dotted(host, 0)
            else parts + [host[prev..i]] == Dotted(host, 0)
  {
    DotIs(host, prev, i);
    if i == |host| { assert host[prev..] == host[prev..i]; }
  }

  lemma TooMany(host: string, parts: seq<string>, next: nat)
    requires next <= |host| && parts + Dotted(host, next) == Dotted(host, 0) && |parts| > 3
    ensures !ValidHost(host)
  {
  }

  lemma BadPart(host: string, k: nat)
    requires k < |Dotted(host, 0)| && !ValidOctet(Dotted(host, 0)[k])
    ensures !ValidHost(host)
  {
  }

  lemma AllGood(host: string, parts: seq<string>, last: string)
    requires AllOctets(parts) && Dotted(host, 0) == parts + [last] && ValidOctet(last)
    ensures ValidHost(host) <==> |parts| == 3
  {
  }

  method IsValidHost(host: string) returns (r: bool)
    ensures r == ValidHost(host)
  {
    if host == "" {
      assert Dotted(host, 0) == [""];
      return false;
    }
    var prev, dots := 0, 0;
    ghost var parts: seq<string> := [];
    for i := 0 to |host|
      invariant 0 <= prev <= i && dots == |parts| <= 3
      invariant forall j :: prev <= j < i ==> host[j] != '.'
      invariant AllOctets(parts) && parts + Dotted(host, prev) == Dotted(host, 0)
    {
      if host[i] == '.' {
        NextPart(host, parts, prev, i);
        var octet := IsValidOctet(host[prev..i]);
        if !octet {
          BadPart(host, dots);
          return false;
        }
        parts := parts + [host[prev..i]];
        dots := dots + 1;
        prev := i + 1;
        if dots > 3 {
          TooMany(host, parts, prev);
          return false;
        }
      }
    }
    NextPart(host, parts, prev, |host|);
    assert host[prev..] == host[prev..|host|];
    var last := IsValidOctet(host[prev..]);
    if last { AllGood(host, parts, host[prev..]); } else { BadPart(host, dots); }
    r := last && dots == 3;
  }

  lemma OctetHasNoDot(s: string)
    requires ValidOctet(s)
    ensures '.' !in s
  {
  }

  lemma DottedPiece(s: string, from: nat, piece: string)
    requires from + |piece| < |s| && s[from..from + |piece|] == piece && s[from + |piece|] == '.' && '.' !in piece
    ensures Dotted(s, from) == [piece] + Dotted(s, from + |piece| + 1)
  {
    assert forall j :: from <= j < from + |piece| ==> s[j] == piece[j - from];
    DotIs(s, from, from + |piece|);
  }

  lemma LastPiece(s: string, from: nat, piece: string)
    requires from <= |s| && s[from..] == piece && '.' !in piece
    ensures Dotted(s, from) == [piece]
  {
    assert forall j :: from <= j < |s| ==> s[j] == piece[j - from];
    DotIs(s, from, |s|);
  }

  lemma DotAt(s: string, i: nat)
    requires i < |s| && s[i..i + 1] == "."
    ensures s[i] == '.'
  {
    assert s[i..i + 1][0] == s[i];
  }

  /** A piece and the dot behind it, off the rest of a string. */
  lemma PeelPiece(s: string, from: nat, piece: string, dotted: string, rest: string)
    requires from <= |s| && s[from..] == piece + dotted && dotted == "." + rest && '.' !in piece
    ensures var next := from + |piece| + 1;
            next <= |s| && s[next..] == rest && Dotted(s, from) == [piece] + Dotted(s, next)
  {
    Peel(s, from, piece, dotted);
    Peel(s, from + |piece|, ".", rest);
    DotAt(s, from + |piece|);
    DottedPiece(s, from, piece);
  }

  function Joined(parts: seq<string>): string
  {
    if parts == [] then "" else if |parts| == 1 then parts[0] else parts[0] + ("." + Joined(parts[1..]))
  }

  lemma OnePart(s: string, from: nat, parts: seq<string>)
    requires |parts| == 1 && from <= |s| && s[from..] == Joined(parts) && '.' !in parts[0]
    ensures Dotted(s, from) == parts
  {
    LastPiece(s, from, parts[0]);
    assert [parts[0]] == parts;
  }

  lemma FirstPart(s: string, from: nat, parts: seq<string>)
    requires |parts| > 1 && from <= |s| && s[from..] == Joined(parts) && '.' !in parts[0]
    ensures var next := from + |parts[0]| + 1;
            next <= |s| && s[next..] == Joined(parts[1..]) && Dotted(s, from) == [parts[0]] + Dotted(s, next)
  {
    PeelPiece(s, from, parts[0], "." + Joined(parts[1..]), Joined(parts[1..]));
  }

  lemma HeadAndTail(parts: seq<string>)
    requires parts != []
    ensures [parts[0]] + parts[1..] == parts
  {
  }

  lemma {:induction false} JoinedSplits(s: string, from: nat, parts: seq<string>)
    requires from <= |s| && parts != [] && s[from..] == Joined(parts)
    requires forall i :: 0 <= i < |parts| ==> '.' !in parts[i]
    ensures Dotted(s, from) == parts
    decreases |parts|
  {
    if |parts| == 1 {
      OnePart(s, from, parts);
    } else {
      FirstPart(s, from, parts);
      HeadAndTail(parts);
      JoinedSplits(s, from + |parts[0]| + 1, parts[1..]);
    }
  }

  lemma {:induction false} SplitRejoins(s: string, from: nat)
    requires from <= |s|
    ensures Joined(Dotted(s, from)) == s[from..]
    decreases |s| - from
  {
    var k := Find(s, '.', from);
    if k < |s| {
      SplitRejoins(s, k + 1);
      assert ([s[from..k]] + Dotted(s, k + 1))[1..] == Dotted(s, k + 1);
      assert s[from..] == s[from..k] + ("." + s[k + 1..]);
    }
  }

  /** A valid host is four octets with dots between them, and four such octets are a valid host. */
  lemma HostIsFourOctets(host: string, parts: seq<string>)
    ensures ValidHost(host) && parts == Dotted(host, 0) <==> |parts| == 4 && AllOctets(parts) && host == Joined(parts)
  {
    assert host[0..] == host;
    SplitRejoins(host, 0);
    if |parts| == 4 && AllOctets(parts) && host == Joined(parts) {
      forall i | 0 <= i < 4 ensures '.' !in parts[i] { OctetHasNoDot(parts[i]); }
      JoinedSplits(host, 0, parts);
    }
  }
}
