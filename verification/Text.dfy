/** Byte strings and the small scanning helpers shared by the parsers.

    A `string` stands for a byte string: one `char` per byte.  Nothing proved here depends on
    a character being below 256, so every result covers all byte strings. */
module Text {
  datatype Option<+T> = None | Some(value: T)

  function Lower(c: char): char
  {
    if 'A' <= c <= 'Z' then (c as int + 32) as char else c
  }

  function Lowered(s: string): (r: string)
    ensures |r| == |s|
    ensures forall i :: 0 <= i < |s| ==> r[i] == Lower(s[i])
  {
    seq(|s|, i requires 0 <= i < |s| => Lower(s[i]))
  }

  method StrToLower(s: string) returns (r: string)
    ensures r == Lowered(s)
  {
    r := s;
    for i := 0 to |s|
      invariant |r| == |s|
      invariant forall k :: 0 <= k < i ==> r[k] == Lower(s[k])
      invariant forall k :: i <= k < |s| ==> r[k] == s[k]
    {
      r := r[i := Lower(r[i])];
    }
    assert r == Lowered(s);
  }

  predicate Blank(c: char) { c == ' ' || c == '\t' }

  /** First position at or after `i` that is not blank. */
  function BlankEnd(s: string, i: nat): (r: nat)
    requires i <= |s|
    ensures i <= r <= |s| && (r < |s| ==> !Blank(s[r]))
    ensures forall k :: i <= k < r ==> Blank(s[k])
    decreases |s| - i
  {
    if i < |s| && Blank(s[i]) then BlankEnd(s, i + 1) else i
  }

  /** End of s[from..stop] without its trailing blanks. */
  function BlankStart(s: string, from: nat, stop: nat): (r: nat)
    requires from <= stop <= |s|
    ensures from <= r <= stop && (r > from ==> !Blank(s[r - 1]))
    ensures forall k :: r <= k < stop ==> Blank(s[k])
    decreases stop
  {
    if stop > from && Blank(s[stop - 1]) then BlankStart(s, from, stop - 1) else stop
  }

  function Trimmed(s: string): string
  {
    s[BlankEnd(s, 0)..BlankStart(s, BlankEnd(s, 0), |s|)]
  }

  method StrTrim(s: string) returns (r: string)
    ensures r == Trimmed(s)
  {
    var start := 0;
    while start < |s| && Blank(s[start])
      invariant start <= |s|
      invariant BlankEnd(s, 0) == BlankEnd(s, start)
    {
      start := start + 1;
    }
    var end := |s|;
    while end > start && Blank(s[end - 1])
      invariant start <= end <= |s|
      invariant BlankStart(s, start, |s|) == BlankStart(s, start, end)
    {
      end := end - 1;
    }
    r := s[start..end];
  }

  /** Position of the first CR LF pair at or after `i`. */
  function Crlf(s: string, i: nat): (r: Option<nat>)
    ensures r.Some? ==> i <= r.value && r.value + 1 < |s| && s[r.value] == '\r' && s[r.value + 1] == '\n'
    ensures r.Some? ==> forall k :: i <= k < r.value ==> !(s[k] == '\r' && s[k + 1] == '\n')
    ensures r.None? ==> forall k :: i <= k < |s| - 1 ==> !(s[k] == '\r' && s[k + 1] == '\n')
    decreases |s| - i
  {
    if i + 1 >= |s| then None
    else if s[i] == '\r' && s[i + 1] == '\n' then Some(i)
    else Crlf(s, i + 1)
  }

  method FindCrlf(data: string) returns (r: Option<nat>)
    ensures r == Crlf(data, 0)
  {
    var i := 0;
    while i + 1 < |data|
      invariant Crlf(data, 0) == Crlf(data, i)
    {
      if data[i] == '\r' && data[i + 1] == '\n' { return Some(i); }
      i := i + 1;
    }
    return None;
  }

  /** The first CR LF is determined by the leftmost pair alone. */
  lemma CrlfIs(s: string, k: nat)
    requires k + 1 < |s| && s[k] == '\r' && s[k + 1] == '\n'
    requires forall j :: 0 <= j < k ==> !(s[j] == '\r' && s[j + 1] == '\n')
    ensures Crlf(s, 0) == Some(k)
  {
  }

  /** A CR LF that has arrived stays the first one whatever arrives after it. */
  lemma CrlfStable(s: string, t: string)
    requires Crlf(s, 0).Some?
    ensures Crlf(s + t, 0) == Crlf(s, 0)
  {
    CrlfIs(s + t, Crlf(s, 0).value);
  }

  /** Position of the first `c` at or after `i`, or |s|. */
  function Find(s: string, c: char, i: nat): (r: nat)
    requires i <= |s|
    ensures i <= r <= |s|
    ensures forall k :: i <= k < r ==> s[k] != c
    ensures r < |s| ==> s[r] == c
    decreases |s| - i
  {
    if i == |s| || s[i] == c then i else Find(s, c, i + 1)
  }

  predicate OccursAt(s: string, pattern: string, i: nat)
  {
    i + |pattern| <= |s| && s[i..i + |pattern|] == pattern
  }

  /** The leftmost occurrence of `pattern` at or after `i`. */
  function Seek(s: string, pattern: string, i: nat): (r: Option<nat>)
    ensures r.Some? ==> i <= r.value && OccursAt(s, pattern, r.value)
    ensures forall k :: i <= k && (r.Some? ==> k < r.value) ==> !OccursAt(s, pattern, k)
    decreases |s| - i
  {
    if i + |pattern| > |s| then None
    else if OccursAt(s, pattern, i) then Some(i)
    else Seek(s, pattern, i + 1)
  }

  lemma SeekIs(s: string, pattern: string, i: nat, k: nat)
    requires i <= k && OccursAt(s, pattern, k)
    requires forall j :: i <= j < k ==> !OccursAt(s, pattern, j)
    ensures Seek(s, pattern, i) == Some(k)
  {
  }

  lemma OccursBefore(s: string, t: string, pattern: string, i: nat)
    ensures OccursAt(s, pattern, i) ==> OccursAt(s + t, pattern, i)
    ensures OccursAt(s + t, pattern, i) && i + |pattern| <= |s| ==> OccursAt(s, pattern, i)
  {
    if i + |pattern| <= |s| { assert (s + t)[i..i + |pattern|] == s[i..i + |pattern|]; }
  }

  /** An occurrence that is there stays the leftmost whatever arrives behind it. */
  lemma SeekStable(s: string, t: string, pattern: string)
    requires Seek(s, pattern, 0).Some?
    ensures Seek(s + t, pattern, 0) == Seek(s, pattern, 0)
  {
    var k := Seek(s, pattern, 0).value;
    OccursBefore(s, t, pattern, k);
    forall j | 0 <= j < k ensures !OccursAt(s + t, pattern, j) { OccursBefore(s, t, pattern, j); }
    SeekIs(s + t, pattern, 0, k);
  }

  /** Taking the next piece of a string off the rest of it. */
  lemma Peel(s: string, n: nat, piece: string, rest: string)
    requires n <= |s| && s[n..] == piece + rest
    ensures n + |piece| <= |s| && s[n..n + |piece|] == piece && s[n + |piece|..] == rest
  {
    assert s[n..][..|piece|] == piece && s[n..][|piece|..] == rest;
  }
}
