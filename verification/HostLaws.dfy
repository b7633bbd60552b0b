/** Which Host values are accepted, and what is made of them: a name or an address in brackets, and a port. */
module HostLaws {
  import opened Text
  import opened Host
  import Headers

  // -------------------------------------------------------------- reference

  /** No two dots in a row, at or behind `from`. */
  predicate SingleDots(s: string, from: nat, to: nat)
  {
    from <= to <= |s| && forall i :: from <= i < to && 0 < i && s[i] == '.' ==> s[i - 1] != '.'
  }

  predicate NameChars(s: string, from: nat, to: nat) { from <= to <= |s| && forall i :: from <= i < to ==> HostChar(s[i]) }

  predicate AddressChars(s: string, from: nat, to: nat)
  {
    from <= to <= |s| && forall i :: from <= i < to ==> HostChar(s[i]) || s[i] == ':'
  }

  /** The port behind a colon: digits that say at most 65535; none are 0. */
  predicate IsPort(s: string) { Headers.Decimal(s) && Headers.DecimalValue(s) <= 65535 }

  predicate HasUpper(s: string, from: nat, to: nat) { from <= to <= |s| && exists i :: from <= i < to && Upper(s[i]) }

  // ------------------------------------------------------------------- ports

  lemma PortStep(x: Scan, c: char)
    requires x.st == Port && x.port <= 65535
    ensures StepPort(x, c) ==
            if '0' <= c <= '9' && x.port * 10 + (c as int - '0' as int) <= 65535 then Some(x.(port := x.port * 10 + (c as int - '0' as int)))
            else None
  {
  }

  lemma DigitMore(s: string, p: nat, i: nat)
    requires p <= i < |s| && Headers.Decimal(s[p..i]) && '0' <= s[i] <= '9'
    ensures Headers.Decimal(s[p..i + 1])
    ensures Headers.DecimalValue(s[p..i + 1]) == Headers.DecimalValue(s[p..i]) * 10 + (s[i] as int - '0' as int)
  {
    var t := s[p..i + 1];
    assert |t| - 1 == i - p && t[i - p] == s[i];
    assert t[..i - p] == s[p..i];
    forall j | 0 <= j < |t| ensures '0' <= t[j] <= '9' { assert j < i - p ==> t[j] == s[p..i][j]; }
  }

  lemma ValueGrows(s: string, p: nat, i: nat)
    requires p <= i <= |s| && Headers.Decimal(s[p..])
    ensures Headers.DecimalValue(s[p..i]) <= Headers.DecimalValue(s[p..])
  {
    Headers.DecimalGrows(s[p..], i - p, |s| - p);
    assert s[p..][..i - p] == s[p..i] && s[p..][..|s| - p] == s[p..];
  }

  /** The port is read exactly when it is one. */
  lemma {:induction false} PortRuns(s: string, x: Scan, p: nat, i: nat)
    requires p <= i <= |s| && x.st == Port && Headers.Decimal(s[p..i]) && x.port == Headers.DecimalValue(s[p..i]) <= 65535
    ensures Run(s, x, i) == if IsPort(s[p..]) then Some(x.(port := Headers.DecimalValue(s[p..]))) else None
    decreases |s| - i
  {
    if i == |s| {
      assert s[p..i] == s[p..];
    } else {
      PortStep(x, s[i]);
      assert s[p..][i - p] == s[i];
      if '0' <= s[i] <= '9' {
        DigitMore(s, p, i);
        if Headers.DecimalValue(s[p..i + 1]) <= 65535 {
          PortRuns(s, x.(port := Headers.DecimalValue(s[p..i + 1])), p, i + 1);
        } else if Headers.Decimal(s[p..]) {
          ValueGrows(s, p, i + 1);
        }
      }
    }
  }

  // ------------------------------------------------------------------- names

  /** The dot that was seen last stands right before `i`, or not. */
  ghost predicate Dotted(s: string, x: Scan, i: nat)
  {
    i <= |s| && (x.dotPos == i - 1 <==> 0 < i && s[i - 1] == '.') && (x.dotPos < i || x.dotPos == |s|)
  }

  lemma NameStep(s: string, x: Scan, i: nat)
    requires i < |s| && x.st == InHost && s[i] != ':' && Dotted(s, x, i)
    ensures var y := Step(x, s[i], i);
            && (y.Some? <==> HostChar(s[i]) && (s[i] == '.' && 0 < i ==> s[i - 1] != '.'))
            && (y.Some? ==> y.value.st == InHost && y.value.hostLen == x.hostLen && y.value.port == x.port
                            && y.value.needLc == (x.needLc || Upper(s[i])) && Dotted(s, y.value, i + 1))
  {
  }

  ghost predicate GoodName(s: string, from: nat, to: nat) { NameChars(s, from, to) && SingleDots(s, from, to) }

  /** The scan at the end of a value whose name ends at `k`. */
  ghost predicate EndsAs(s: string, f: Scan, k: nat, upper: bool)
  {
    k <= |s| && f.hostLen == k && f.needLc == upper && (f.st == IpLiteral ==> false)
    && f.port == if k == |s| then 0 else Headers.DecimalValue(s[k + 1..])
  }

  predicate Followed(s: string, k: nat) { k == |s| || (k < |s| && s[k] == ':' && IsPort(s[k + 1..])) }

  lemma ColonThenPort(s: string, x: Scan, k: nat)
    requires k < |s| && s[k] == ':' && x.port == 0
    ensures var z := Run(s, x.(hostLen := k, st := Port), k + 1);
            (z.Some? <==> IsPort(s[k + 1..])) && (z.Some? ==> EndsAs(s, z.value, k, x.needLc) && z.value.st == Port)
  {
    assert s[k + 1..k + 1] == "";
    PortRuns(s, x.(hostLen := k, st := Port), k + 1, k + 1);
  }

  /** A name is scanned to its end exactly when it is well-formed, and a port follows or nothing. */
  lemma {:induction false} NameRuns(s: string, x: Scan, i: nat, k: nat)
    requires i <= k <= |s| && x.st == InHost && x.hostLen == |s| && x.port == 0 && Dotted(s, x, i)
    requires (forall j :: i <= j < k ==> s[j] != ':') && (k < |s| ==> s[k] == ':')
    ensures Run(s, x, i).Some? <==> GoodName(s, i, k) && Followed(s, k)
    ensures Run(s, x, i).Some? ==> EndsAs(s, Run(s, x, i).value, k, x.needLc || HasUpper(s, i, k))
    decreases k - i
  {
    if i == k {
      if k < |s| { ColonThenPort(s, x, k); }
    } else {
      NameStep(s, x, i);
      var y := Step(x, s[i], i);
      if y.Some? {
        NameRuns(s, y.value, i + 1, k);
        UpperFirst(s, i, k);
      }
    }
  }

  lemma UpperFirst(s: string, i: nat, k: nat)
    requires i < k <= |s|
    ensures HasUpper(s, i, k) <==> Upper(s[i]) || HasUpper(s, i + 1, k)
  {
  }

  // ------------------------------------------------------ addresses in brackets

  lemma AddressStep(s: string, x: Scan, i: nat)
    requires i < |s| && x.st == IpLiteral && s[i] != ']' && Dotted(s, x, i)
    ensures var y := Step(x, s[i], i);
            && (y.Some? <==> (HostChar(s[i]) || s[i] == ':') && (s[i] == '.' && 0 < i ==> s[i - 1] != '.'))
            && (y.Some? ==> y.value.st == IpLiteral && y.value.hostLen == x.hostLen && y.value.port == x.port
                            && y.value.needLc == (x.needLc || Upper(s[i])) && Dotted(s, y.value, i + 1))
  {
  }

  ghost predicate GoodAddress(s: string, from: nat, to: nat) { AddressChars(s, from, to) && SingleDots(s, from, to) }

  /** What stands in brackets is scanned to the closing one; without it the scan ends in the brackets. */
  lemma {:induction false} AddressRuns(s: string, x: Scan, i: nat, k: nat)
    requires i <= k <= |s| && x.st == IpLiteral && x.hostLen == |s| && x.port == 0 && Dotted(s, x, i)
    requires (forall j :: i <= j < k ==> s[j] != ']') && (k < |s| ==> s[k] == ']')
    ensures k == |s| && Run(s, x, i).Some? ==> Run(s, x, i).value.st == IpLiteral
    ensures k < |s| ==> (Run(s, x, i).Some? <==> GoodAddress(s, i, k) && Followed(s, k + 1))
    ensures k < |s| && Run(s, x, i).Some? ==> EndsAs(s, Run(s, x, i).value, k + 1, x.needLc || HasUpper(s, i, k))
    decreases k - i
  {
    if i < k {
      AddressStep(s, x, i);
      var y := Step(x, s[i], i);
      if y.Some? {
        AddressRuns(s, y.value, i + 1, k);
        UpperFirst(s, i, k);
      }
    } else if k < |s| {
      BracketCloses(s, x, k);
    }
  }

  lemma BracketCloses(s: string, x: Scan, k: nat)
    requires k < |s| && s[k] == ']' && x.st == IpLiteral && x.port == 0
    ensures Run(s, x, k).Some? <==> Followed(s, k + 1)
    ensures Run(s, x, k).Some? ==> EndsAs(s, Run(s, x, k).value, k + 1, x.needLc)
  {
    var y := x.(hostLen := k + 1, st := IpLiteralEnd);
    assert Step(x, s[k], k) == Some(y);
    if k + 1 < |s| && s[k + 1] == ':' {
      assert Step(y, s[k + 1], k + 1) == Some(y.(st := Port));
      ColonThenPort(s, x, k + 1);
    }
  }

  // -------------------------------------------------------------- conclusion

  function PortOf(s: string, k: nat): nat
    requires k <= |s|
  {
    if k == |s| then 0 else Headers.DecimalValue(s[k + 1..])
  }

  /** A name without the dot at its end. */
  function Dotless(name: string): string
  {
    if name != "" && name[|name| - 1] == '.' then name[..|name| - 1] else name
  }

  /** The host in small letters, and its port: an address in brackets, or a name that is more than a dot. */
  ghost predicate Denotes(s: string, host: string, port: nat)
  {
    s != "" &&
    if s[0] == '[' then
      var k := Find(s, ']', 1);
      && k < |s| && GoodAddress(s, 1, k) && Followed(s, k + 1)
      && host == Lowered(s[..k + 1]) && port == PortOf(s, k + 1)
    else
      var k := Find(s, ':', 0);
      && GoodName(s, 0, k) && Followed(s, k) && Dotless(s[..k]) != ""
      && host == Lowered(Dotless(s[..k])) && port == PortOf(s, k)
  }

  lemma LoweredAlready(s: string, n: nat)
    requires n <= |s| && forall i :: 0 <= i < n ==> !Upper(s[i])
    ensures Lowered(s[..n]) == s[..n]
  {
  }

  lemma NoUpper(s: string, from: nat, to: nat)
    requires from <= to <= |s| && !HasUpper(s, from, to)
    ensures forall i :: from <= i < to ==> !Upper(s[i])
  {
  }

  lemma AddressDenotes(s: string, host: string, port: nat)
    requires s != "" && s[0] == '['
    ensures Validated(s) == Some((host, port)) <==> Denotes(s, host, port)
  {
    var k, x := Find(s, ']', 1), Fresh(s).(st := IpLiteral);
    assert Run(s, Fresh(s), 0) == Run(s, x, 1);
    AddressRuns(s, x, 1, k);
    if k < |s| && Run(s, x, 1).Some? {
      var f := Run(s, x, 1).value;
      assert HostEnd(s, f) == k + 1;
      if !f.needLc {
        NoUpper(s, 1, k);
        LoweredAlready(s, k + 1);
      }
    }
  }

  lemma NameDenotes(s: string, host: string, port: nat)
    requires s != "" && s[0] != '['
    ensures Validated(s) == Some((host, port)) <==> Denotes(s, host, port)
  {
    var k, x := Find(s, ':', 0), Fresh(s).(st := InHost);
    assert Run(s, Fresh(s), 0) == Run(s, x, 0);
    NameRuns(s, x, 0, k);
    if Run(s, x, 0).Some? {
      var f := Run(s, x, 0).value;
      assert Dotless(s[..k]) == s[..HostEnd(s, f)];
      if !f.needLc {
        NoUpper(s, 0, k);
        LoweredAlready(s, HostEnd(s, f));
      }
    }
  }

  /** Exactly these values are accepted, and this is what is made of them. */
  lemma ValidatedIff(s: string, host: string, port: nat)
    ensures Validated(s) == Some((host, port)) <==> Denotes(s, host, port)
  {
    if s != "" {
      if s[0] == '[' { AddressDenotes(s, host, port); } else { NameDenotes(s, host, port); }
    }
  }
}
