/** What comments and quotes do to the tokens of a configuration file: laws of the text passes that do not name
    them. */
module LexerLaws {
  import opened Text
  import opened ConfigLexer

  /** A token may start behind this text. */
  predicate Starts(before: string) { before == "" || Space(before[|before| - 1]) || Special(before[|before| - 1]) }

  predicate SpaceAtEnd(s: string, starts: bool) { if s == "" then starts else Space(s[|s| - 1]) }

  lemma {:induction false} SpacedHasNoFeed(s: string)
    requires '\n' !in s
    ensures '\n' !in Spaced(s)
    decreases |s|
  {
    if s != "" {
      assert '\n' !in s[1..];
      SpacedHasNoFeed(s[1..]);
    }
  }

  lemma SpacedEnds(before: string)
    requires Starts(before)
    ensures SpaceAtEnd(Spaced(before), true)
  {
    if before != "" {
      var n := |before| - 1;
      SpacedJoins(before[..n], before[n..]);
      assert before == before[..n] + before[n..] && before[n..][1..] == "";
    }
  }

  lemma FirstFeed(s: string, k: nat)
    requires 1 <= k < |s| && s[k] == '\n' && forall j :: 1 <= j < k ==> s[j] != '\n'
    ensures Find(s, '\n', 1) == k
  {
  }

  /** A comment hides what stands between it and the end of its line. */
  lemma {:induction false} StrippedHides(b: string, h: string, a: string, starts: bool)
    requires SpaceAtEnd(b, starts) && '\n' !in h
    ensures Stripped(b + ("#" + h + ("\n" + a)), starts) == Stripped(b + ("\n" + a), starts)
    decreases |b|
  {
    if b == "" {
      HiddenHere(h, a);
      assert b + ("#" + h + ("\n" + a)) == "#" + h + ("\n" + a) && b + ("\n" + a) == "\n" + a;
    } else if b[0] == '#' && starts {
      HiddenAlready(b, h, a);
    } else {
      OneOff(b, "#" + h + ("\n" + a), starts);
      OneOff(b, "\n" + a, starts);
      if !Quote(b[0]) { StrippedHides(b[1..], h, a, Space(b[0])); }
    }
  }

  lemma HiddenHere(h: string, a: string)
    requires '\n' !in h
    ensures Stripped("#" + h + ("\n" + a), true) == Stripped("\n" + a, true)
  {
    var s := "#" + h + ("\n" + a);
    CommentGoesOn(s, "#", h, a);
    assert ("\n" + a)[1..] == a && [('\n')] == "\n";
  }

  lemma OneOff(b: string, rest: string, starts: bool)
    requires b != "" && !(b[0] == '#' && starts)
    ensures Stripped(b + rest, starts) == if Quote(b[0]) then None else Prepended([b[0]], Stripped(b[1..] + rest, Space(b[0])))
  {
    assert (b + rest)[1..] == b[1..] + rest;
  }

  lemma {:induction false} HiddenAlready(b: string, h: string, a: string)
    requires b != "" && b[0] == '#' && SpaceAtEnd(b, true) && '\n' !in h
    ensures Stripped(b + ("#" + h + ("\n" + a)), true) == Stripped(b + ("\n" + a), true)
    decreases |b|, 0
  {
    var s, t := b + ("#" + h + ("\n" + a)), b + ("\n" + a);
    var k := Find(b, '\n', 1);
    if k < |b| {
      FirstFeed(s, k);
      FirstFeed(t, k);
      assert s[k + 1..] == b[k + 1..] + ("#" + h + ("\n" + a)) && t[k + 1..] == b[k + 1..] + ("\n" + a);
      StrippedHides(b[k + 1..], h, a, true);
    } else {
      CommentGoesOn(s, b, "#" + h, a);
      CommentGoesOn(t, b, "", a);
    }
  }

  lemma CommentGoesOn(s: string, b: string, h: string, a: string)
    requires b != "" && b[0] == '#' && s == b + (h + ("\n" + a)) && '\n' !in h && forall j :: 1 <= j < |b| ==> b[j] != '\n'
    ensures Stripped(s, true) == Prepended("\n", Stripped(a, true))
  {
    var k := |b| + |h|;
    assert s[k] == '\n' && s[k + 1..] == a;
    forall j | 1 <= j < k ensures s[j] != '\n' { assert s[j] == if j < |b| then b[j] else h[j - |b|]; }
    FirstFeed(s, k);
  }

  /** A comment can start wherever a token can; what it says makes no difference. */
  lemma CommentIsHidden(before: string, hidden: string, after: string)
    requires Starts(before) && '\n' !in hidden
    ensures Tokens(before + ("#" + hidden + ("\n" + after))) == Tokens(before + ("\n" + after))
  {
    SpacedJoins(before, "#" + hidden + ("\n" + after));
    SpacedJoins("#" + hidden, "\n" + after);
    SpacedJoins("#", hidden);
    SpacedJoins("\n", after);
    SpacedJoins(before, "\n" + after);
    assert "#"[1..] == "" && "\n"[1..] == "";
    SpacedEnds(before);
    SpacedHasNoFeed(hidden);
    StrippedHides(Spaced(before), Spaced(hidden), Spaced(after), true);
  }

  predicate Quoted(s: string) { exists i :: 0 <= i < |s| && Quote(s[i]) }

  lemma {:induction false} StrippedUnlessQuoted(s: string, starts: bool)
    requires '#' !in s
    ensures Stripped(s, starts).None? <==> Quoted(s)
    ensures Stripped(s, starts).Some? ==> Stripped(s, starts).value == s
    decreases |s|
  {
    if s != "" {
      assert '#' !in s[1..];
      StrippedUnlessQuoted(s[1..], Space(s[0]));
      QuotedFirst(s);
      assert [s[0]] + s[1..] == s;
    }
  }

  lemma QuotedFirst(s: string)
    requires s != ""
    ensures Quoted(s) <==> Quote(s[0]) || Quoted(s[1..])
  {
    if Quoted(s[1..]) {
      var i :| 0 <= i < |s[1..]| && Quote(s[1..][i]);
      assert Quote(s[i + 1]);
    }
    if Quoted(s) && !Quote(s[0]) {
      var i :| 0 <= i < |s| && Quote(s[i]);
      assert Quote(s[1..][i - 1]);
    }
  }

  lemma {:induction false} SpacedQuotes(s: string)
    ensures (Quoted(Spaced(s)) <==> Quoted(s)) && ('#' in Spaced(s) <==> '#' in s)
    decreases |s|
  {
    if s != "" {
      SpacedQuotes(s[1..]);
      QuotedFirst(s);
      var head := if Special(s[0]) then " " + [s[0]] + " " else [s[0]];
      QuotedJoins(head, Spaced(s[1..]));
      QuotedHead(s[0]);
    }
  }

  lemma QuotedHead(c: char)
    ensures Quoted(if Special(c) then " " + [c] + " " else [c]) <==> Quote(c)
  {
    var head := if Special(c) then " " + [c] + " " else [c];
    if Quote(c) { assert Quote(head[0]); }
  }

  lemma QuotedJoins(a: string, b: string)
    ensures Quoted(a + b) <==> Quoted(a) || Quoted(b)
  {
    if Quoted(a) {
      var i :| 0 <= i < |a| && Quote(a[i]);
      assert Quote((a + b)[i]);
    }
    if Quoted(b) {
      var i :| 0 <= i < |b| && Quote(b[i]);
      assert Quote((a + b)[|a| + i]);
    }
  }

  /** Without comments a file is refused for a quote, and for nothing else; its tokens are the pieces between white
      space and around braces and semicolons. */
  lemma QuotesAreRefused(s: string)
    requires '#' !in s
    ensures Tokens(s) == if Quoted(s) then None else Some(Runs(Spaced(s)))
  {
    SpacedQuotes(s);
    StrippedUnlessQuoted(Spaced(s), true);
    if !Quoted(s) { SplitRefactoredIsRuns(Spaced(s)); }
  }
}
