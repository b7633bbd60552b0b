/** `validate_host` of src/HttpParser.cpp: checking and normalising the Host header. */
module Host {
  import opened Text

  datatype HostState = HostStart | InHost | IpLiteral | IpLiteralEnd | Port

  datatype Scan = Scan(st: HostState, hostLen: nat, dotPos: int, port: nat, needLc: bool)

  predicate HostChar(ch: char)
  {
    'a' <= ch <= 'z' || 'A' <= ch <= 'Z' || '0' <= ch <= '9'
    || ch == '-' || ch == '.' || ch == '_' || ch == '~'
    || ch == '!' || ch == '$' || ch == '&' || ch == '\'' || ch == '(' || ch == ')'
    || ch == '*' || ch == '+' || ch == ',' || ch == ';' || ch == '=' || ch == '%'
  }

  predicate Upper(ch: char) { 'A' <= ch <= 'Z' }

  function Dot(x: Scan, i: nat): Option<Scan>
  {
    if x.dotPos == i - 1 then None else Some(x.(dotPos := i))
  }

  function StepInHost(x: Scan, ch: char, i: nat): Option<Scan>
  {
    if Upper(ch) then Some(x.(needLc := true))
    else if ch == ':' then Some(x.(hostLen := i, st := Port))
    else if ch == '.' then Dot(x, i)
    else if HostChar(ch) then Some(x)
    else None
  }

  function StepIpLiteral(x: Scan, ch: char, i: nat): Option<Scan>
  {
    if Upper(ch) then Some(x.(needLc := true))
    else if ch == ':' then Some(x)
    else if ch == '.' then Dot(x, i)
    else if ch == ']' then Some(x.(hostLen := i + 1, st := IpLiteralEnd))
    else if HostChar(ch) then Some(x)
    else None
  }

  /** The port accumulator stops before it can exceed 65535. */
  function StepPort(x: Scan, ch: char): Option<Scan>
  {
    if !('0' <= ch <= '9') then None
    else
      var d := ch as int - '0' as int;
      if x.port > 6553 || (x.port == 6553 && d > 5) then None else Some(x.(port := x.port * 10 + d))
  }

  function Step(x: Scan, ch: char, i: nat): Option<Scan>
  {
    match x.st
    case HostStart => if ch == '[' then Some(x.(st := IpLiteral)) else StepInHost(x.(st := InHost), ch, i)
    case InHost => StepInHost(x, ch, i)
    case IpLiteral => StepIpLiteral(x, ch, i)
    case IpLiteralEnd => if ch == ':' then Some(x.(st := Port)) else None
    case Port => StepPort(x, ch)
  }

  function Run(s: string, x: Scan, i: nat): Option<Scan>
    requires i <= |s|
    decreases |s| - i
  {
    if i == |s| then Some(x)
    else
      var y := Step(x, s[i], i);
      if y.None? then None else Run(s, y.value, i + 1)
  }

  function Fresh(s: string): Scan { Scan(HostStart, |s|, |s|, 0, false) }

  /** Length of the host part without its root dot. */
  function HostEnd(s: string, x: Scan): nat
  {
    if 0 < x.hostLen <= |s| && s[x.hostLen - 1] == '.' then x.hostLen - 1 else x.hostLen
  }

  /** The normalised host and the port; None for a malformed value. */
  function Validated(s: string): Option<(string, nat)>
  {
    var f := Run(s, Fresh(s), 0);
    if s == "" || f.None? || f.value.st == IpLiteral || HostEnd(s, f.value) == 0 then None
    else
      LengthInRange(s, Fresh(s), 0);
      var host := s[..HostEnd(s, f.value)];
      Some((if f.value.needLc then Lowered(host) else host, f.value.port))
  }

  lemma {:induction false} LengthInRange(s: string, x: Scan, i: nat)
    requires i <= |s| && x.hostLen <= |s|
    ensures Run(s, x, i).Some? ==> Run(s, x, i).value.hostLen <= |s|
    decreases |s| - i
  {
    if i < |s| && Step(x, s[i], i).Some? { LengthInRange(s, Step(x, s[i], i).value, i + 1); }
  }

  lemma {:induction false} PortInRange(s: string, x: Scan, i: nat)
    requires i <= |s| && x.port <= 65535
    ensures Run(s, x, i).Some? ==> Run(s, x, i).value.port <= 65535
    decreases |s| - i
  {
    if i < |s| && Step(x, s[i], i).Some? { PortInRange(s, Step(x, s[i], i).value, i + 1); }
  }

  /** The loop of `validate_host`; None stands for a false return. */
  method ValidateHost(hostValue: string) returns (r: Option<(string, nat)>)
    ensures r == Validated(hostValue)
    ensures r.Some? ==> r.value.1 <= 65535
  {
    if |hostValue| == 0 { return None; }
    var x := Fresh(hostValue);
    for i := 0 to |hostValue|
      invariant Run(hostValue, Fresh(hostValue), 0) == Run(hostValue, x, i)
    {
      var y := Step(x, hostValue[i], i);
      if y.None? { return None; }
      x := y.value;
    }
    LengthInRange(hostValue, Fresh(hostValue), 0);
    PortInRange(hostValue, Fresh(hostValue), 0);
    if x.st == IpLiteral { return None; }
    var hostLen := x.hostLen;
    if hostLen > 0 && hostValue[hostLen - 1] == '.' { hostLen := hostLen - 1; }
    if hostLen == 0 { return None; }
    var normalized := hostValue[..hostLen];
    if x.needLc { normalized := StrToLower(normalized); }
    r := Some((normalized, x.port));
  }

  // ------------------------------------------------------------ fixed point

  ghost predicate Naming(x: Scan)
  {
    x.st == HostStart || x.st == InHost || x.st == IpLiteral
  }

  /** Past the host part its length is settled; an upper-case letter is never forgotten. */
  lemma {:induction false} TailKeepsLength(s: string, x: Scan, i: nat)
    requires i <= |s| && Run(s, x, i).Some?
    ensures var f := Run(s, x, i).value;
            && (!Naming(x) ==> f.hostLen == x.hostLen && f.needLc == x.needLc && !Naming(f))
            && (x.needLc ==> f.needLc)
            && (x.st == IpLiteral && f.st != IpLiteral ==> i < f.hostLen <= |s| && s[f.hostLen - 1] == ']')
            && (x.st == InHost ==> f.hostLen == x.hostLen || f.hostLen >= i)
            && (x.st == InHost ==> f.st != IpLiteral)
    decreases |s| - i
  {
    if i < |s| { TailKeepsLength(s, Step(x, s[i], i).value, i + 1); }
  }

  /** An accepted host has no two dots in a row. */
  lemma {:induction false} NoDoubleDot(s: string, x: Scan, i: nat, k: nat)
    requires i <= |s| && Naming(x) && Run(s, x, i).Some?
    requires i > 0 && s[i - 1] == '.' ==> x.dotPos == i - 1
    requires i <= k < |s| && 0 < k < Run(s, x, i).value.hostLen && s[k] == '.'
    ensures s[k - 1] != '.'
    decreases |s| - i
  {
    var y := Step(x, s[i], i).value;
    if i < k {
      if Naming(y) {
        NoDoubleDot(s, y, i + 1, k);
      } else {
        TailKeepsLength(s, y, i + 1);
      }
    }
  }

  /** `y` reads the normalised host `v` in step with `x` reading the original `s`. */
  ghost predicate InStep(s: string, x: Scan, v: string, y: Scan, i: nat)
  {
    && i <= |v| <= |s| && Naming(x) && x.hostLen == |s|
    && y == Scan(x.st, |v|, y.dotPos, 0, false)
    && (y.dotPos == i - 1 <==> x.dotPos == i - 1)
    && (i == 0 ==> y.dotPos != i - 1) && -1 < y.dotPos && (y.dotPos < i || y.dotPos == |v|)
    && -1 < x.dotPos && (x.dotPos < i || x.dotPos == |s|)
    && x.port == 0
  }

  lemma LowerKeepsClass(ch: char)
    ensures !Upper(Lower(ch))
    ensures Upper(ch) ==> 'a' <= Lower(ch) <= 'z' && HostChar(Lower(ch))
    ensures !Upper(ch) ==> Lower(ch) == ch
  {
  }

  lemma StepInStep(s: string, x: Scan, v: string, y: Scan, i: nat)
    requires InStep(s, x, v, y, i) && i < |v| && Step(x, s[i], i).Some?
    requires v[i] == Lower(s[i])
    ensures var z, w := Step(x, s[i], i).value, Step(y, v[i], i);
            && w.Some?
            && (Naming(z) ==> InStep(s, z, v, w.value, i + 1))
            && (!Naming(z) ==>
                  || (z.st == Port && z.hostLen == i)
                  || (z.st == IpLiteralEnd && z.hostLen == i + 1 && w.value == y.(st := IpLiteralEnd, hostLen := i + 1)))
  {
    LowerKeepsClass(s[i]);
  }

  lemma {:induction false} NormalisedIsAccepted(s: string, x: Scan, v: string, y: Scan, i: nat)
    requires InStep(s, x, v, y, i) && Run(s, x, i).Some?
    requires var f := Run(s, x, i).value;
             f.st != IpLiteral && HostEnd(s, f) == |v| && f.hostLen <= |s|
             && forall k :: 0 <= k < |v| ==> v[k] == if f.needLc then Lower(s[k]) else s[k]
    ensures var g := Run(v, y, i);
            g.Some? && g.value.st != IpLiteral && g.value.hostLen == |v| && g.value.port == 0 && !g.value.needLc
    decreases |s| - i
  {
    var f := Run(s, x, i).value;
    TailKeepsLength(s, x, i);
    if i < |v| {
      var z := Step(x, s[i], i).value;
      TailKeepsLength(s, z, i + 1);
      assert Upper(s[i]) ==> z.needLc;
      assert v[i] == Lower(s[i]);
      StepInStep(s, x, v, y, i);
      var w := Step(y, v[i], i).value;
      if Naming(z) {
        NormalisedIsAccepted(s, z, v, w, i + 1);
      }
    }
  }

  /** The stored Host is a fixed point: validating it again returns it, without a port. */
  lemma StoredHostIsFixedPoint(s: string)
    requires Validated(s).Some?
    ensures Validated(Validated(s).value.0) == Some((Validated(s).value.0, 0))
  {
    var f := Run(s, Fresh(s), 0).value;
    LengthInRange(s, Fresh(s), 0);
    var n := HostEnd(s, f);
    var v := Validated(s).value.0;
    NormalisedIsAccepted(s, Fresh(s), v, Fresh(v), 0);
    if s[n - 1] == '.' && n < f.hostLen { NoDoubleDot(s, Fresh(s), 0, n); }
    assert v[n - 1] == if f.needLc then Lower(s[n - 1]) else s[n - 1];
    assert v[n - 1] != '.';
    assert v[..|v|] == v;
  }
}
