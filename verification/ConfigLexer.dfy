/** The text passes of the configuration front end, conf/parsing.cpp: from the file to its tokens. */
module ConfigLexer {
  import opened Text

  predicate Space(c: char) { c == ' ' || '\t' <= c <= '\r' }

  predicate Special(c: char) { c == '{' || c == '}' || c == ';' }

  predicate Quote(c: char) { c == '\'' || c == '"' }

  // ------------------------------------------------------------- the passes

  /** `insert_space`. */
  function Spaced(s: string): string
  {
    if s == "" then "" else (if Special(s[0]) then " " + [s[0]] + " " else [s[0]]) + Spaced(s[1..])
  }

  function Prepended(x: string, r: Option<string>): Option<string>
  {
    if r.None? then None else Some(x + r.value)
  }

  /** `remove_comments`: a `#` at the start of a token hides the rest of its line, quotes included;
      elsewhere a quote is an error.  `starts` says that a token may start here. */
  function Stripped(s: string, starts: bool): Option<string>
    decreases |s|
  {
    if s == "" then Some("")
    else if Quote(s[0]) then None
    else if s[0] == '#' && starts then
      var k := Find(s, '\n', 1);
      if k == |s| then Some("") else Prepended("\n", Stripped(s[k + 1..], true))
    else Prepended([s[0]], Stripped(s[1..], Space(s[0])))
  }

  /** First position at or after `i` that is not white space. */
  function SpaceEnd(s: string, i: nat): (r: nat)
    requires i <= |s|
    ensures i <= r <= |s| && (r < |s| ==> !Space(s[r])) && (i < |s| && Space(s[i]) ==> r > i)
    ensures forall k :: i <= k < r ==> Space(s[k])
    decreases |s| - i
  {
    if i < |s| && Space(s[i]) then SpaceEnd(s, i + 1) else i
  }

  /** `refactoring_buffer`: each run of white space becomes one blank, and none is left at the ends. */
  function Squeezed(s: string): string
    decreases |s|
  {
    if s == "" then ""
    else if Space(s[0]) then " " + Squeezed(s[SpaceEnd(s, 0)..])
    else [s[0]] + Squeezed(s[1..])
  }

  function Refactored(s: string): string
  {
    var t := Squeezed(s);
    var u := if t != "" && t[|t| - 1] == ' ' then t[..|t| - 1] else t;
    if u != "" && u[0] == ' ' then u[1..] else u
  }

  /** The non-empty pieces between separators; `word` is the piece being read. */
  function Words(separates: char -> bool, s: string, word: string): seq<string>
    decreases |s|
  {
    if s == "" then (if word == "" then [] else [word])
    else if separates(s[0]) then (if word == "" then [] else [word]) + Words(separates, s[1..], "")
    else Words(separates, s[1..], word + [s[0]])
  }

  predicate IsBlank(c: char) { c == ' ' }

  /** `storing_in_vec`. */
  function Split(s: string): seq<string> { Words(IsBlank, s, "") }

  /** All passes; none when a quote was found. */
  function Tokens(s: string): Option<seq<string>>
  {
    match Stripped(Spaced(s), true)
    case None => None
    case Some(t) => Some(Split(Refactored(t)))
  }

  // -------------------------------------------------------------- the loops

  lemma SpacedOneMore(s: string, i: nat)
    requires i < |s|
    ensures Spaced(s[i..]) == (if Special(s[i]) then " " + [s[i]] + " " else [s[i]]) + Spaced(s[i + 1..])
  {
    assert s[i..][1..] == s[i + 1..];
  }

  lemma Regrow(out: string, special: bool, c: char, rest: string)
    ensures out + ((if special then " " + [c] + " " else [c]) + rest) == (if special then out + " " + [c] + " " else out + [c]) + rest
  {
  }

  method InsertSpace(s: string) returns (out: string)
    ensures out == Spaced(s)
  {
    out := "";
    assert s[0..] == s;
    for i := 0 to |s|
      invariant out + Spaced(s[i..]) == Spaced(s)
    {
      SpacedOneMore(s, i);
      Regrow(out, Special(s[i]), s[i], Spaced(s[i + 1..]));
      if s[i] == '{' || s[i] == '}' || s[i] == ';' {
        out := out + " " + [s[i]] + " ";
      } else {
        out := out + [s[i]];
      }
    }
    assert s[|s|..] == "";
  }

  /** Whether a token may start at `i`. */
  predicate Fresh(s: string, i: nat)
    requires i <= |s|
  {
    i == 0 || Space(s[i - 1])
  }

  lemma FindFrom(s: string, i: nat, k: nat)
    requires i < k <= |s| && (k < |s| ==> s[k] == '\n') && forall j :: i < j < k ==> s[j] != '\n'
    ensures Find(s[i..], '\n', 1) == k - i
  {
    FindIs(s[i..], 1, k - i);
  }

  lemma FindIs(s: string, i: nat, k: nat)
    requires i <= k <= |s| && (k < |s| ==> s[k] == '\n') && forall j :: i <= j < k ==> s[j] != '\n'
    ensures Find(s, '\n', i) == k
  {
  }

  lemma PrependedTwice(x: string, y: string, r: Option<string>)
    ensures Prepended(x, Prepended(y, r)) == Prepended(x + y, r)
  {
    if r.Some? { assert x + (y + r.value) == (x + y) + r.value; }
  }

  lemma StrippedComment(s: string, i: nat, k: nat)
    requires i < k <= |s| && s[i] == '#' && Fresh(s, i)
    requires (k < |s| ==> s[k] == '\n') && forall j :: i < j < k ==> s[j] != '\n'
    ensures Stripped(s[i..], Fresh(s, i)) == if k == |s| then Some("") else Prepended("\n", Stripped(s[k + 1..], true))
  {
    FindFrom(s, i, k);
    if k < |s| { assert s[i..][k - i + 1..] == s[k + 1..]; }
  }

  lemma StrippedKept(s: string, i: nat)
    requires i < |s| && !Quote(s[i]) && !(s[i] == '#' && Fresh(s, i))
    ensures Stripped(s[i..], Fresh(s, i)) == Prepended([s[i]], Stripped(s[i + 1..], Fresh(s, i + 1)))
  {
    assert s[i..][1..] == s[i + 1..];
  }

  method RemoveComments(s: string) returns (r: Option<string>)
    ensures r == Stripped(s, true)
  {
    var out, i := "", 0;
    assert s[0..] == s;
    StartsEmpty(Stripped(s, true));
    while i < |s|
      invariant i <= |s| && Prepended(out, Stripped(s[i..], Fresh(s, i))) == Stripped(s, true)
    {
      if s[i] == '\'' || s[i] == '"' { return None; }
      if s[i] == '#' && (i == 0 || Space(s[i - 1])) {
        ghost var hash := i;
        i := i + 1;
        while i < |s| && s[i] != '\n'
          invariant hash < i <= |s| && forall j :: hash < j < i ==> s[j] != '\n'
        {
          i := i + 1;
        }
        StrippedComment(s, hash, i);
        if i >= |s| {
          EndsEmpty(out);
          return Some(out);
        }
        PrependedTwice(out, "\n", Stripped(s[i + 1..], true));
      } else {
        StrippedKept(s, i);
        PrependedTwice(out, [s[i]], Stripped(s[i + 1..], Fresh(s, i + 1)));
      }
      out := out + [s[i]];
      i := i + 1;
    }
    assert s[|s|..] == "";
    EndsEmpty(out);
    r := Some(out);
  }

  lemma EndsEmpty(out: string)
    ensures Prepended(out, Some("")) == Some(out)
  {
    assert out + "" == out;
  }

  lemma StartsEmpty(r: Option<string>)
    ensures Prepended("", r) == r
  {
    if r.Some? { assert "" + r.value == r.value; }
  }

  lemma SpaceEndFrom(s: string, i: nat, k: nat)
    requires i <= k <= |s| && (k < |s| ==> !Space(s[k])) && forall j :: i <= j < k ==> Space(s[j])
    ensures SpaceEnd(s[i..], 0) == k - i
  {
    SpaceEndIs(s[i..], 0, k - i);
  }

  lemma SpaceEndIs(s: string, i: nat, k: nat)
    requires i <= k <= |s| && (k < |s| ==> !Space(s[k])) && forall j :: i <= j < k ==> Space(s[j])
    ensures SpaceEnd(s, i) == k
  {
  }

  lemma SqueezedRun(s: string, i: nat, k: nat)
    requires i < k <= |s| && (k < |s| ==> !Space(s[k])) && forall j :: i <= j < k ==> Space(s[j])
    ensures Squeezed(s[i..]) == " " + Squeezed(s[k..])
  {
    SpaceEndFrom(s, i, k);
    assert s[i..][k - i..] == s[k..];
  }

  method SkipSpace(s: string, i: nat) returns (k: nat)
    requires i < |s| && Space(s[i])
    ensures i < k <= |s| && Squeezed(s[i..]) == " " + Squeezed(s[k..])
  {
    k := i;
    while k < |s| && Space(s[k])
      invariant i <= k <= |s| && forall j :: i <= j < k ==> Space(s[j])
    {
      k := k + 1;
    }
    SqueezedRun(s, i, k);
  }

  lemma SqueezedKept(s: string, i: nat)
    requires i < |s| && !Space(s[i])
    ensures Squeezed(s[i..]) == [s[i]] + Squeezed(s[i + 1..])
  {
    assert s[i..][1..] == s[i + 1..];
  }

  lemma Grown(out: string, piece: string, rest: string)
    ensures out + (piece + rest) == (out + piece) + rest
  {
  }

  method Squeeze(s: string) returns (out: string)
    ensures out == Squeezed(s)
  {
    out := "";
    var i := 0;
    assert s[0..] == s;
    while i < |s|
      invariant i <= |s| && out + Squeezed(s[i..]) == Squeezed(s)
      decreases |s| - i
    {
      if Space(s[i]) {
        var k := SkipSpace(s, i);
        Grown(out, " ", Squeezed(s[k..]));
        out := out + " ";
        i := k;
      } else {
        SqueezedKept(s, i);
        Grown(out, [s[i]], Squeezed(s[i + 1..]));
        out := out + [s[i]];
        i := i + 1;
      }
    }
    assert s[|s|..] == "" && out + "" == out;
  }

  method RefactorBuffer(s: string) returns (r: string)
    ensures r == Refactored(s)
  {
    r := Squeeze(s);
    if |r| > 0 && r[|r| - 1] == ' ' { r := r[..|r| - 1]; }
    if |r| > 0 && r[0] == ' ' { r := r[1..]; }
  }

  /** The `getline` loop. */
  method StoreInVec(s: string) returns (tokens: seq<string>)
    ensures tokens == Split(s)
  {
    tokens := [];
    var tmp := "";
    assert s[0..] == s;
    for i := 0 to |s|
      invariant tokens + Words(IsBlank, s[i..], tmp) == Split(s)
    {
      assert s[i..][1..] == s[i + 1..];
      if s[i] == ' ' {
        if tmp != "" { tokens := tokens + [tmp]; }
        tmp := "";
      } else {
        tmp := tmp + [s[i]];
      }
    }
    if tmp != "" { tokens := tokens + [tmp]; }
  }

  method Tokenize(s: string) returns (r: Option<seq<string>>)
    ensures r == Tokens(s)
  {
    var spaced := InsertSpace(s);
    var stripped := RemoveComments(spaced);
    if stripped.None? { return None; }
    var buff := RefactorBuffer(stripped.value);
    var tokens := StoreInVec(buff);
    r := Some(tokens);
  }

  // --------------------------------------- splitting is splitting at white space

  /** The tokens of a text without the intermediate form: its maximal runs of other characters. */
  function Runs(s: string): seq<string> { Words(Space, s, "") }

  lemma DropTwice(s: string, m: nat, n: nat)
    requires m + n <= |s|
    ensures s[m..][n..] == s[m + n..]
  {
  }

  lemma NothingBefore(rest: seq<string>)
    ensures [] + rest == rest
  {
  }

  lemma {:induction false} RunOfSpace(s: string, word: string)
    requires s != "" && Space(s[0])
    ensures Words(Space, s, word) == (if word == "" then [] else [word]) + Runs(s[SpaceEnd(s, 0)..])
    decreases |s|
  {
    if |s| == 1 {
      assert s[1..] == "" && SpaceEnd(s, 1) == 1;
    } else if Space(s[1]) {
      RunOfSpace(s[1..], "");
      SpaceEndFrom(s, 1, SpaceEnd(s, 0));
      DropTwice(s, 1, SpaceEnd(s, 0) - 1);
      NothingBefore(Runs(s[SpaceEnd(s, 0)..]));
    } else {
      assert SpaceEnd(s, 0) == 1;
    }
  }

  lemma {:induction false} SqueezingKeepsWords(s: string, word: string)
    ensures Words(IsBlank, Squeezed(s), word) == Words(Space, s, word)
    decreases |s|
  {
    if s != "" {
      if Space(s[0]) {
        var rest := s[SpaceEnd(s, 0)..];
        RunOfSpace(s, word);
        SqueezingKeepsWords(rest, "");
        assert (" " + Squeezed(rest))[1..] == Squeezed(rest);
      } else {
        SqueezingKeepsWords(s[1..], word + [s[0]]);
        assert ([s[0]] + Squeezed(s[1..]))[1..] == Squeezed(s[1..]);
      }
    }
  }

  lemma {:induction false} BlankAtEnd(s: string, word: string)
    requires s != "" && s[|s| - 1] == ' '
    ensures Words(IsBlank, s[..|s| - 1], word) == Words(IsBlank, s, word)
    decreases |s|
  {
    if |s| == 1 {
      assert s[1..] == "" && s[..0] == "";
    } else {
      assert s[1..][..|s| - 2] == s[..|s| - 1][1..];
      BlankAtEnd(s[1..], if IsBlank(s[0]) then "" else word + [s[0]]);
    }
  }

  lemma BlankAtStart(s: string)
    requires s != "" && s[0] == ' '
    ensures Split(s[1..]) == Split(s)
  {
    var none: seq<string> := [];
    assert none + Split(s[1..]) == Split(s[1..]);
  }

  lemma SplitRefactoredIsRuns(s: string)
    ensures Split(Refactored(s)) == Runs(s)
  {
    var t := Squeezed(s);
    SqueezingKeepsWords(s, "");
    var u := if t != "" && t[|t| - 1] == ' ' then t[..|t| - 1] else t;
    if t != "" && t[|t| - 1] == ' ' { BlankAtEnd(t, ""); }
    if u != "" && u[0] == ' ' { BlankAtStart(u); }
  }

  // ---------------------------------------------------------- what tokens are

  /** Braces and semicolons stand alone, and nothing looks like a comment, a quote or white space. */
  predicate Clean(t: string)
  {
    && t != "" && t[0] != '#' && (|t| == 1 || forall i :: 0 <= i < |t| ==> !Special(t[i]))
    && forall i :: 0 <= i < |t| ==> !Space(t[i]) && !Quote(t[i])
  }

  predicate AllClean(tokens: seq<string>)
  {
    tokens == [] || (Clean(tokens[0]) && AllClean(tokens[1..]))
  }

  /** No quotes and no comments. */
  predicate Bare(s: string, starts: bool)
  {
    s == "" || (!Quote(s[0]) && !(s[0] == '#' && starts) && Bare(s[1..], Space(s[0])))
  }

  /** Every brace and semicolon starts a token and is followed by a blank. */
  predicate Isolated(s: string, starts: bool)
  {
    s == "" || ((Special(s[0]) ==> starts && |s| > 1 && s[1] == ' ') && Isolated(s[1..], Space(s[0])))
  }

  lemma {:induction false} SpacedIsIsolated(s: string, starts: bool)
    ensures Isolated(Spaced(s), starts)
    decreases |s|
  {
    if s != "" {
      var rest := Spaced(s[1..]);
      if Special(s[0]) {
        var t := " " + [s[0]] + " " + rest;
        assert t[1..] == [s[0]] + " " + rest && t[1..][1..] == " " + rest && t[1..][1..][1..] == rest;
        SpacedIsIsolated(s[1..], true);
        assert Isolated(" " + rest, false);
        assert Isolated([s[0]] + " " + rest, true);
      } else {
        SpacedIsIsolated(s[1..], Space(s[0]));
        assert ([s[0]] + rest)[1..] == rest;
      }
    }
  }

  lemma {:induction false} IsolatedSuffix(s: string, starts: bool, n: nat)
    requires 0 < n <= |s| && Isolated(s, starts)
    ensures Isolated(s[n..], Space(s[n - 1]))
    decreases n
  {
    if n > 1 {
      IsolatedSuffix(s[1..], Space(s[0]), n - 1);
      assert s[1..][n - 1..] == s[n..];
    }
  }

  /** Taking comments out leaves no quote and no comment, and keeps braces and semicolons apart. */
  lemma {:induction false} StrippedIsBare(s: string, starts: bool)
    requires Isolated(s, starts) && Stripped(s, starts).Some?
    ensures Bare(Stripped(s, starts).value, starts) && Isolated(Stripped(s, starts).value, starts)
    decreases |s|
  {
    if s != "" {
      if s[0] == '#' && starts {
        var k := Find(s, '\n', 1);
        if k < |s| {
          IsolatedSuffix(s, starts, k + 1);
          StrippedIsBare(s[k + 1..], true);
          assert ("\n" + Stripped(s[k + 1..], true).value)[1..] == Stripped(s[k + 1..], true).value;
        }
      } else {
        var rest := Stripped(s[1..], Space(s[0]));
        StrippedIsBare(s[1..], Space(s[0]));
        assert ([s[0]] + rest.value)[1..] == rest.value;
        if Special(s[0]) { BlankStays(s[1..], Space(s[0])); }
      }
    }
  }

  lemma BlankStays(s: string, starts: bool)
    requires s != "" && s[0] == ' ' && Stripped(s, starts).Some?
    ensures Stripped(s, starts).value != "" && Stripped(s, starts).value[0] == ' '
  {
  }

  /** Part of a token: no brace, no semicolon. */
  predicate Plain(word: string)
  {
    word == "" || (word[0] != '#' && forall i :: 0 <= i < |word| ==> !Space(word[i]) && !Quote(word[i]) && !Special(word[i]))
  }

  lemma {:induction false} RunsAreClean(s: string, word: string)
    requires Bare(s, word == "") && Isolated(s, word == "") && Plain(word)
    ensures AllClean(Words(Space, s, word))
    decreases |s|
  {
    if s != "" {
      if Space(s[0]) {
        RunsAreClean(s[1..], "");
        FirstIsClean(word, Runs(s[1..]));
      } else if Special(s[0]) {
        assert s[1..][0] == ' ' && word + [s[0]] == [s[0]];
        RunsAreClean(s[1..][1..], "");
        FirstOf([s[0]], Runs(s[1..][1..]));
      } else {
        RunsAreClean(s[1..], word + [s[0]]);
      }
    }
  }

  lemma FirstIsClean(word: string, rest: seq<string>)
    requires Plain(word) && AllClean(rest)
    ensures AllClean((if word == "" then [] else [word]) + rest)
  {
    if word == "" { var none: seq<string> := []; assert none + rest == rest; } else { FirstOf(word, rest); }
  }

  lemma FirstOf(word: string, rest: seq<string>)
    requires Clean(word) && AllClean(rest)
    ensures AllClean([word] + rest)
  {
    assert ([word] + rest)[1..] == rest;
  }

  /** Every token of every file is clean. */
  lemma TokensAreClean(s: string)
    requires Tokens(s).Some?
    ensures AllClean(Tokens(s).value)
  {
    var t := Stripped(Spaced(s), true).value;
    SpacedIsIsolated(s, true);
    StrippedIsBare(Spaced(s), true);
    SplitRefactoredIsRuns(t);
    RunsAreClean(t, "");
  }

  // ---------------------------------------------------------- re-tokenising

  /** The tokens in a line, one blank between two. */
  function Line(tokens: seq<string>): string
  {
    if tokens == [] then "" else tokens[0] + " " + Line(tokens[1..])
  }

  lemma {:induction false} SpacedJoins(a: string, b: string)
    ensures Spaced(a + b) == Spaced(a) + Spaced(b)
    decreases |a|
  {
    if a == "" {
      assert a + b == b && "" + Spaced(b) == Spaced(b);
    } else {
      SpacedJoins(a[1..], b);
      assert (a + b)[1..] == a[1..] + b;
      var head := if Special(a[0]) then " " + [a[0]] + " " else [a[0]];
      Grown(head, Spaced(a[1..]), Spaced(b));
    }
  }

  lemma {:induction false} PlainIsUnchanged(t: string)
    requires forall i :: 0 <= i < |t| ==> !Special(t[i])
    ensures Spaced(t) == t
    decreases |t|
  {
    if t != "" {
      PlainIsUnchanged(t[1..]);
      assert [t[0]] + t[1..] == t;
    }
  }

  /** What the passes see of a clean token. */
  function Shown(t: string): string { if |t| == 1 && Special(t[0]) then " " + t + " " else t }

  lemma ShownIsSpaced(t: string)
    requires Clean(t)
    ensures Spaced(t) == Shown(t)
  {
    if |t| == 1 && Special(t[0]) {
      assert t[1..] == "" && Spaced(t[1..]) == "" && [t[0]] == t;
      assert " " + [t[0]] + " " + "" == " " + t + " ";
    } else {
      PlainIsUnchanged(t);
    }
  }

  /** A text that starts with a word: the word is split off. */
  lemma {:induction false} WordComesFirst(t: string, rest: string, word: string)
    requires forall i :: 0 <= i < |t| ==> !Space(t[i])
    ensures Words(Space, t + rest, word) == Words(Space, rest, word + t)
    decreases |t|
  {
    if t == "" {
      assert t + rest == rest && word + t == word;
    } else {
      assert (t + rest)[1..] == t[1..] + rest && (word + [t[0]]) + t[1..] == word + t;
      WordComesFirst(t[1..], rest, word + [t[0]]);
    }
  }

  lemma BlankSplits(rest: string, word: string)
    ensures Words(Space, " " + rest, word) == (if word == "" then [] else [word]) + Runs(rest)
  {
    assert (" " + rest)[1..] == rest;
  }

  lemma TokenThenBlank(t: string, rest: string)
    requires Clean(t)
    ensures Runs(Shown(t) + " " + rest) == [t] + Runs(rest)
  {
    if |t| == 1 && Special(t[0]) {
      var none: seq<string> := [];
      assert Shown(t) + " " + rest == " " + (t + (" " + (" " + rest)));
      BlankSplits(t + (" " + (" " + rest)), "");
      WordComesFirst(t, " " + (" " + rest), "");
      assert "" + t == t;
      BlankSplits(" " + rest, t);
      BlankSplits(rest, "");
      assert none + Runs(rest) == Runs(rest) && none + Runs(t + (" " + (" " + rest))) == Runs(t + (" " + (" " + rest)));
    } else {
      assert Shown(t) + " " + rest == t + (" " + rest) && "" + t == t;
      WordComesFirst(t, " " + rest, "");
      BlankSplits(rest, t);
    }
  }

  lemma {:induction false} BareStaysAsItIs(s: string, starts: bool)
    requires Bare(s, starts)
    ensures Stripped(s, starts) == Some(s)
    decreases |s|
  {
    if s != "" {
      BareStaysAsItIs(s[1..], Space(s[0]));
      assert [s[0]] + s[1..] == s;
    }
  }

  lemma {:induction false} BareJoins(t: string, rest: string, starts: bool)
    requires (forall i :: 0 <= i < |t| ==> !Space(t[i]) && !Quote(t[i])) && (starts && t != "" ==> t[0] != '#')
    requires rest != "" && rest[0] == ' ' && Bare(rest[1..], true)
    ensures Bare(t + rest, starts)
    decreases |t|
  {
    if t == "" {
      assert t + rest == rest;
    } else {
      assert (t + rest)[1..] == t[1..] + rest;
      BareJoins(t[1..], rest, false);
    }
  }

  lemma ShownIsBare(t: string, rest: string)
    requires Clean(t) && Bare(rest, true)
    ensures Bare(Shown(t) + " " + rest, true)
  {
    assert (" " + rest)[1..] == rest;
    if |t| == 1 && Special(t[0]) {
      var tail := t + (" " + (" " + rest));
      assert Shown(t) + " " + rest == " " + tail && (" " + tail)[1..] == tail;
      assert (" " + (" " + rest))[1..] == " " + rest;
      BareJoins(t, " " + (" " + rest), true);
    } else {
      assert Shown(t) + " " + rest == t + (" " + rest);
      BareJoins(t, " " + rest, true);
    }
  }

  lemma SpacedLine(t: string, rest: seq<string>)
    requires Clean(t)
    ensures Spaced(t + " " + Line(rest)) == Shown(t) + " " + Spaced(Line(rest))
  {
    SpacedJoins(t + " ", Line(rest));
    SpacedJoins(t, " ");
    ShownIsSpaced(t);
    assert Spaced(" ") == " " by { assert " "[1..] == ""; }
  }

  lemma {:induction false} LineOfCleanTokens(tokens: seq<string>)
    requires AllClean(tokens)
    ensures Bare(Spaced(Line(tokens)), true) && Runs(Spaced(Line(tokens))) == tokens
    decreases |tokens|
  {
    if tokens != [] {
      var t, rest := tokens[0], tokens[1..];
      LineOfCleanTokens(rest);
      SpacedLine(t, rest);
      ShownIsBare(t, Spaced(Line(rest)));
      TokenThenBlank(t, Spaced(Line(rest)));
      assert [t] + rest == tokens;
    }
  }

  /** Any list of clean tokens, written in a line, is read back as it is. */
  lemma CleanTokensReadBack(tokens: seq<string>)
    requires AllClean(tokens)
    ensures Tokens(Line(tokens)) == Some(tokens)
  {
    LineOfCleanTokens(tokens);
    BareStaysAsItIs(Spaced(Line(tokens)), true);
    SplitRefactoredIsRuns(Spaced(Line(tokens)));
  }

  /** So tokenising again the line of a file's tokens changes nothing. */
  lemma RetokenizingIsIdempotent(s: string)
    requires Tokens(s).Some?
    ensures Tokens(Line(Tokens(s).value)) == Tokens(s)
  {
    TokensAreClean(s);
    CleanTokensReadBack(Tokens(s).value);
  }
}
