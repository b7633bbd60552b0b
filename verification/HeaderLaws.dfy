/** What header lines say: names whatever their case, values without the blanks around them, and which blocks of
    lines are read to their end, with what result. */
module HeaderLaws {
  import opened Text
  import opened Headers

  const CAPITALS := "ABCDEFGHIJKLMNOPQRSTUVWXYZ"
  const SMALLS := "abcdefghijklmnopqrstuvwxyz"

  lemma Places(k: nat)
    requires k < 26
    ensures CAPITALS[k] as int == 'A' as int + k && SMALLS[k] as int == 'a' as int + k
  {
  }

  /** Capitals become the small letters in their places. */
  lemma LowerOfCapital(k: nat)
    requires k < 26
    ensures Lower(CAPITALS[k]) == SMALLS[k]
  {
    Places(k);
  }

  /** Nothing else changes. */
  lemma LowerOfOther(c: char)
    requires c !in CAPITALS
    ensures Lower(c) == c
  {
    if 'A' <= c <= 'Z' { Places(c as int - 'A' as int); }
  }

  predicate AllBlank(s: string) { forall i :: 0 <= i < |s| ==> s[i] == ' ' || s[i] == '\t' }

  predicate Solid(c: char) { c != ' ' && c != '\t' }

  /** Neither end is blank. */
  predicate Trim(s: string) { s != "" ==> Solid(s[0]) && Solid(s[|s| - 1]) }

  /** What is left of a text is what stands between the blanks around it. */
  lemma TrimmedIs(before: string, core: string, after: string)
    requires AllBlank(before) && Trim(core) && AllBlank(after)
    ensures Trimmed(before + core + after) == core
  {
    var s := before + core + after;
    if core == "" {
      BlankRest(s, 0);
      assert AllBlank(s);
    } else {
      assert s[|before|] == core[0];
      BlanksPassed(s, 0, |before|);
      assert s[|before| + |core| - 1] == core[|core| - 1];
      BlanksDropped(s, |before|, |before| + |core|, |s|);
      assert s[|before|..|before| + |core|] == core;
    }
  }

  lemma {:induction false} BlanksPassed(s: string, i: nat, k: nat)
    requires i <= k <= |s| && (k < |s| ==> !Blank(s[k])) && forall j :: i <= j < k ==> Blank(s[j])
    ensures BlankEnd(s, i) == k
    decreases k - i
  {
    if i < k { BlanksPassed(s, i + 1, k); }
  }

  lemma BlankRest(s: string, i: nat)
    requires i <= |s| && AllBlank(s)
    ensures BlankEnd(s, i) == |s|
  {
    BlanksPassed(s, i, |s|);
  }

  lemma {:induction false} BlanksDropped(s: string, start: nat, k: nat, stop: nat)
    requires start < k <= stop <= |s| && !Blank(s[k - 1]) && forall j :: k <= j < stop ==> Blank(s[j])
    ensures BlankStart(s, start, stop) == k
    decreases stop
  {
    if k < stop { BlanksDropped(s, start, k, stop - 1); }
  }

  lemma InThree(s: string, i: nat, k: nat)
    requires i <= k <= |s|
    ensures s == s[..i] + s[i..k] + s[k..]
  {
  }

  lemma Parts(s: string) returns (before: string, after: string)
    ensures AllBlank(before) && AllBlank(after) && s == before + Trimmed(s) + after && Trim(Trimmed(s))
  {
    var i, k := BlankEnd(s, 0), BlankStart(s, BlankEnd(s, 0), |s|);
    before, after := s[..i], s[k..];
    InThree(s, i, k);
  }

  /** Blanks in front make no difference. */
  lemma BlankInFront(blanks: string, s: string)
    requires AllBlank(blanks)
    ensures Trimmed(blanks + s) == Trimmed(s)
  {
    var before, after := Parts(s);
    BlankTrimmed(blanks, before, Trimmed(s), after);
  }

  lemma BlankTrimmed(blanks: string, before: string, core: string, after: string)
    requires AllBlank(blanks) && AllBlank(before) && Trim(core) && AllBlank(after)
    ensures Trimmed(blanks + (before + core + after)) == core
  {
    TrimmedIs(blanks + before, core, after);
    assert blanks + (before + core + after) == (blanks + before) + core + after;
  }

  /** A field as it is written is read as its name, whatever its case, and its value, whatever blanks surround
      the two. */
  lemma FieldReads(name: string, value: string, b: string, c: string, d: string, e: string)
    requires ':' !in name && Trim(name) && Trim(value) && AllBlank(b) && AllBlank(c) && AllBlank(d) && AllBlank(e)
    ensures var line := (b + name + c) + ":" + (d + value + e); NameOf(line) == Lowered(name) && ValueOf(line) == value
  {
    TrimmedIs(b, name, c);
    TrimmedIs(d, value, e);
    SplitAtColon(b + name + c, d + value + e);
  }

  /** As this server writes fields. */
  function Field(name: string, value: string): string { name + ": " + value }

  lemma FieldText(name: string, value: string)
    ensures Field(name, value) == name + ":" + (" " + value) && "" + name + "" == name
  {
  }

  lemma FieldIs(name: string, value: string)
    requires ':' !in name && Trim(name)
    ensures NameOf(Field(name, value)) == Lowered(name) && ValueOf(Field(name, value)) == Trimmed(value)
  {
    SplitAtColon(name, " " + value);
    FieldText(name, value);
    TrimmedIs("", name, "");
    BlankInFront(" ", value);
  }

  lemma SplitAtColon(left: string, right: string)
    requires ':' !in left
    ensures var line := left + ":" + right;
            Find(line, ':', 0) == |left| && NameOf(line) == Lowered(Trimmed(left)) && ValueOf(line) == Trimmed(right)
  {
    var line := left + ":" + right;
    assert line[|left|] == ':' && line[..|left|] == left && line[|left| + 1..] == right;
    forall j | 0 <= j < |left| ensures line[j] != ':' { assert line[j] == left[j]; }
    FirstFound(line, |left|);
  }

  lemma FirstFound(s: string, k: nat)
    requires k < |s| && s[k] == ':' && forall j :: 0 <= j < k ==> s[j] != ':'
    ensures Find(s, ':', 0) == k
  {
  }

  // ------------------------------------------------------------ whole blocks

  /** Lines that are not empty and have no line feed of their own. */
  ghost predicate WholeLines(lines: seq<string>)
  {
    forall i :: 0 <= i < |lines| ==> lines[i] != "" && '\n' !in lines[i]
  }

  lemma LineIsWhole(line: string)
    requires '\n' !in line
    ensures Crlf(line + "\r\n", 0) == Some(|line|)
  {
    var s := line + "\r\n";
    assert forall j :: 0 <= j < |line| ==> s[j] == line[j] && s[j] != '\n';
    assert s[|line|] == '\r';
    CrlfIs(s, |line|);
  }

  lemma EmptyLineEnds(headers: HeaderMap, rest: string)
    ensures Collect(headers, "\r\n" + rest) == Ended(headers, rest)
  {
    CrlfIs("\r\n" + rest, 0);
    assert ("\r\n" + rest)[2..] == rest;
  }

  lemma LineComesFirst(headers: HeaderMap, lines: seq<string>, rest: string)
    requires lines != [] && lines[0] != "" && '\n' !in lines[0]
    ensures var b, added := Collect(headers, TextOf(lines) + ("\r\n" + rest)), AddLine(headers, lines[0]);
            if |lines[0]| > MAX_LINE || added.Rejected? then b.Broken?
            else b == Collect(added.headers, TextOf(lines[1..]) + ("\r\n" + rest))
  {
    var line, more := lines[0], TextOf(lines[1..]) + ("\r\n" + rest);
    LineIsWhole(line);
    assert TextOf(lines) + ("\r\n" + rest) == line + "\r\n" + more;
    CollectsLine(headers, line, more);
  }

  /** A block of lines is read to its end if and only if none is too long and each can be stored. */
  lemma {:induction false} CollectEndsIff(headers: HeaderMap, lines: seq<string>, rest: string)
    requires WholeLines(lines)
    ensures var b, added := Collect(headers, TextOf(lines) + ("\r\n" + rest)), AddAll(headers, lines);
            && (b.Ended? <==> added.Stored? && forall i :: 0 <= i < |lines| ==> |lines[i]| <= MAX_LINE)
            && (b.Ended? ==> b == Ended(added.headers, rest))
    decreases |lines|
  {
    if lines == [] {
      EmptyLineEnds(headers, rest);
      assert TextOf(lines) + ("\r\n" + rest) == "\r\n" + rest;
    } else {
      var line, others := lines[0], lines[1..];
      LineComesFirst(headers, lines, rest);
      assert WholeLines(others);
      if AddLine(headers, line).Stored? { CollectEndsIff(AddLine(headers, line).headers, others, rest); }
      assert forall i :: 0 < i < |lines| ==> lines[i] == others[i - 1];
    }
  }

  lemma OneLineMore(headers: HeaderMap, line: string, others: seq<string>, lines: seq<string>)
    requires lines == [line] + others && AddLine(headers, line).Stored?
    requires AddAll(AddLine(headers, line).headers, others).Stored?
    requires Folds(AddLine(headers, line).headers, others, AddAll(AddLine(headers, line).headers, others).headers)
    ensures AddAll(headers, lines).Stored? && Folds(headers, lines, AddAll(headers, lines).headers)
  {
    FoldsCons(headers, line, others, AddAll(AddLine(headers, line).headers, others).headers);
    assert lines[1..] == others;
  }

  lemma {:induction false} StoredFolds(headers: HeaderMap, lines: seq<string>)
    requires AddAll(headers, lines).Stored?
    ensures Folds(headers, lines, AddAll(headers, lines).headers)
    decreases |lines|
  {
    if lines == [] {
      FoldsNone(headers);
    } else {
      var line, others := lines[0], lines[1..];
      StoredFolds(AddLine(headers, line).headers, others);
      OneLineMore(headers, line, others, lines);
    }
  }

  /** Into an empty map: names, none of the singletons twice, at most a hundred names, no line too long. */
  ghost predicate Readable(lines: seq<string>)
  {
    && (forall i :: 0 <= i < |lines| ==> HasName(lines[i]) && |lines[i]| <= MAX_LINE)
    && (forall name :: name in SINGLETON_HEADERS ==> |ValuesFor(lines, name)| <= 1)
    && |NamesIn(lines)| <= MAX_HEADERS
  }

  /** What a map that was read from lines says. */
  ghost predicate Says(result: HeaderMap, lines: seq<string>)
  {
    && (forall name :: name in result <==> ValuesFor(lines, name) != [])
    && (forall name :: name in result ==> result[name] == CommaJoined(ValuesFor(lines, name)))
  }

  lemma IntoNothing(lines: seq<string>, name: string)
    ensures AllFor(map[], lines, name) == ValuesFor(lines, name)
  {
  }

  lemma AllNamed(lines: seq<string>)
    ensures (forall line :: line in lines ==> HasName(line)) <==> forall i :: 0 <= i < |lines| ==> HasName(lines[i])
  {
  }

  lemma OnceEach(lines: seq<string>)
    ensures (forall name :: name in SINGLETON_HEADERS ==> |ValuesFor(lines, name)| <= 1) <==>
            forall name :: name in SINGLETON_HEADERS ==> |AllFor(map[], lines, name)| <= 1
  {
    forall name ensures AllFor(map[], lines, name) == ValuesFor(lines, name) { IntoNothing(lines, name); }
  }

  lemma ReadableIsAcceptable(lines: seq<string>)
    ensures Readable(lines) <==> Acceptable(map[], lines) && forall i :: 0 <= i < |lines| ==> |lines[i]| <= MAX_LINE
  {
    var none: HeaderMap := map[];
    assert none.Keys + NamesIn(lines) == NamesIn(lines);
    AllNamed(lines);
    OnceEach(lines);
  }

  lemma FoldsSays(lines: seq<string>, result: HeaderMap)
    requires Folds(map[], lines, result)
    ensures Says(result, lines)
  {
    forall name ensures AllFor(map[], lines, name) == ValuesFor(lines, name) { IntoNothing(lines, name); }
  }

  /** The block is read to its end exactly when its lines are readable, and then it says what they say. */
  lemma BlockIsReadIff(lines: seq<string>, rest: string)
    requires WholeLines(lines)
    ensures var b := Collect(map[], TextOf(lines) + ("\r\n" + rest));
            && (b.Ended? <==> Readable(lines))
            && (b.Ended? ==> b.rest == rest && Says(b.headers, lines))
  {
    CollectEndsIff(map[], lines, rest);
    AcceptedIff(map[], lines);
    ReadableIsAcceptable(lines);
    if AddAll(map[], lines).Stored? {
      StoredFolds(map[], lines);
      FoldsSays(lines, AddAll(map[], lines).headers);
    }
  }
}
