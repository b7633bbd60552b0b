/** From the text of a configuration file to its servers, src/API_conf.cpp: the text passes, the token kinds and
    the block parsers one after the other.  A list of blocks can be written as a file, and the file means what
    the list means; every accepted file has such a list. */
module ConfigText {
  import opened Text
  import opened ConfigLexer
  import opened ConfigGrammar
  import opened ConfigParser

  // -------------------------------------------------------------------- text

  predicate Printable(c: char) { c == '\t' || c == '\n' || c == '\r' || ' ' <= c <= '~' }

  predicate AllPrintable(s: string) { forall c :: c in s ==> Printable(c) }

  /** `check_valid_content`. */
  method CheckValidContent(s: string) returns (ok: bool)
    ensures ok == AllPrintable(s)
  {
    for i := 0 to |s|
      invariant forall j :: 0 <= j < i ==> Printable(s[j])
    {
      if !(s[i] as int == 9 || s[i] as int == 10 || s[i] as int == 13 || 32 <= s[i] as int <= 126) {
        assert s[i] in s;
        return false;
      }
    }
    ok := true;
  }

  /** The text is a configuration file of these servers. */
  predicate Accepts(size: string -> int, text: string, sound: ServerBlock -> bool, servers: seq<ServerBlock>)
  {
    AllPrintable(text) && Tokens(text).Some? && Configures(size, Identified(Tokens(text).value), sound, servers)
  }

  method IdentifyAll(tokens: seq<string>) returns (stream: seq<Token>)
    ensures stream == Identified(tokens)
  {
    stream := [];
    assert tokens[0..] == tokens;
    for i := 0 to |tokens|
      invariant stream + Identified(tokens[i..]) == Identified(tokens)
    {
      assert tokens[i..][1..] == tokens[i + 1..];
      stream := stream + [Identify(tokens[i])];
    }
    stream := stream + [End];
  }

  lemma EmptyIsNoFile(size: string -> int, sound: ServerBlock -> bool, servers: seq<ServerBlock>)
    ensures !Accepts(size, "", sound, servers)
  {
    assert Spaced("") == "" && Stripped("", true) == Some("") && Squeezed("") == "" && Refactored("") == "";
    assert Identified([]) == [End];
  }

  /** `API_conf` on the contents of the file. */
  method ApiConf(size: string -> int, text: string, sound: ServerBlock -> bool) returns (r: Option<seq<ServerBlock>>)
    ensures r.Some? ==> Accepts(size, text, sound, r.value)
    ensures r.None? ==> forall servers :: !Accepts(size, text, sound, servers)
  {
    if text == "" {
      forall servers ensures !Accepts(size, text, sound, servers) { EmptyIsNoFile(size, sound, servers); }
      return None;
    }
    var ok := CheckValidContent(text);
    if !ok { return None; }
    var tokens := Tokenize(text);
    if tokens.None? { return None; }
    var stream := IdentifyAll(tokens.value);
    r := ParsingLexems(size, stream, sound);
  }

  // ---------------------------------------------------------------- spelling

  function Spell(t: Token): string
  {
    match t
    case Context(name) => name
    case Directive(name) => name
    case Value(text) => text
    case LBrace => "{"
    case RBrace => "}"
    case Semicolon => ";"
    case End => ""
  }

  function Spelled(stream: seq<Token>): (r: seq<string>)
    ensures |r| == |stream|
  {
    if stream == [] then [] else [Spell(stream[0])] + Spelled(stream[1..])
  }

  /** What the text passes and the token table make of its spelling is the token itself. */
  predicate Spellable(t: Token)
  {
    Clean(Spell(t)) && AllPrintable(Spell(t)) && Identify(Spell(t)) == t
  }

  predicate AllSpellable(stream: seq<Token>) { forall t :: t in stream ==> Spellable(t) }

  /** A word that is neither a name of the language nor punctuation. */
  predicate Word(v: string) { Spellable(Value(v)) }

  predicate AllWords(values: seq<string>) { forall v :: v in values ==> Word(v) }

  predicate SpelledStatement(s: Statement)
  {
    s.name in DIRECTIVES && AllWords(s.values)
  }

  predicate SpelledBody(body: seq<Statement>) { forall s :: s in body ==> SpelledStatement(s) }

  predicate SpelledItem(item: ServerItem)
  {
    match item
    case Setting(s) => SpelledStatement(s)
    case Place(path, body) => Word(path) && SpelledBody(body)
  }

  predicate SpelledPart(part: HttpItem)
  {
    match part
    case Common(s) => SpelledStatement(s)
    case Host(items) => forall item :: item in items ==> SpelledItem(item)
  }

  /** Directive names are those of the language, and values and paths are words. */
  predicate WellSpelled(parts: seq<HttpItem>) { forall part :: part in parts ==> SpelledPart(part) }

  /** The file a list of blocks is written to. */
  function FileOf(parts: seq<HttpItem>): string { Line(Spelled(WrittenHttp(parts))) }

  /** What the list means in the end. */
  predicate Means(size: string -> int, parts: seq<HttpItem>, sound: ServerBlock -> bool, servers: seq<ServerBlock>)
  {
    var h := HttpMeaning(RulesOf(size), parts, NO_HTTP);
    h.Some? && Yields(h.value, sound, servers)
  }

  // --------------------------------------------------- spelling token by token

  predicate Letters(s: string) { forall c :: c in s ==> 'a' <= c <= 'z' || c == '_' }

  lemma LettersAreClean(s: string)
    requires s != "" && Letters(s)
    ensures Clean(s) && AllPrintable(s)
  {
    forall i | 0 <= i < |s| ensures !Special(s[i]) && !Space(s[i]) && !Quote(s[i]) { assert s[i] in s; }
    assert s[0] in s;
  }

  lemma NamesAreLetters(s: string)
    requires s in DIRECTIVES || s in CONTEXTS
    ensures s != "" && Letters(s)
  {
  }

  lemma DirectiveIsSpellable(name: string)
    ensures Spellable(Directive(name)) <==> name in DIRECTIVES
  {
    if name in DIRECTIVES {
      NamesAreLetters(name);
      LettersAreClean(name);
    }
  }

  lemma MarksAreSpellable(name: string)
    requires name in CONTEXTS
    ensures Spellable(Context(name)) && Spellable(LBrace) && Spellable(RBrace) && Spellable(Semicolon)
  {
    NamesAreLetters(name);
    LettersAreClean(name);
  }

  lemma BothSpellable(a: seq<Token>, b: seq<Token>)
    ensures AllSpellable(a + b) <==> AllSpellable(a) && AllSpellable(b)
  {
    forall t ensures t in a + b <==> t in a || t in b {}
    if AllSpellable(a + b) {
      forall t | t in a ensures Spellable(t) { assert t in a + b; }
      forall t | t in b ensures Spellable(t) { assert t in a + b; }
    }
  }

  lemma FirstAndRest<T>(p: T -> bool, xs: seq<T>)
    requires xs != []
    ensures (forall x :: x in xs ==> p(x)) <==> p(xs[0]) && forall x :: x in xs[1..] ==> p(x)
  {
    assert xs == [xs[0]] + xs[1..];
    assert xs[0] in xs && forall x :: x in xs[1..] ==> x in xs;
  }

  lemma {:induction false} ValuesSpellable(values: seq<string>)
    ensures AllSpellable(Values(values)) <==> AllWords(values)
    decreases |values|
  {
    if values != [] {
      ValuesSpellable(values[1..]);
      BothSpellable([Value(values[0])], Values(values[1..]));
      assert Value(values[0]) in [Value(values[0])];
      FirstAndRest(Word, values);
    }
  }

  lemma StatementSpellable(s: Statement)
    ensures AllSpellable(Written(s)) <==> SpelledStatement(s)
  {
    MarksAreSpellable("http");
    DirectiveIsSpellable(s.name);
    ValuesSpellable(s.values);
    BothSpellable([Directive(s.name)], Values(s.values));
    BothSpellable([Directive(s.name)] + Values(s.values), [Semicolon]);
    assert Directive(s.name) in [Directive(s.name)];
  }

  lemma {:induction false} BodySpellable(body: seq<Statement>)
    ensures AllSpellable(WrittenAll(body)) <==> SpelledBody(body)
    decreases |body|
  {
    if body == [] {
      MarksAreSpellable("http");
    } else {
      BodySpellable(body[1..]);
      StatementSpellable(body[0]);
      BothSpellable(Written(body[0]), WrittenAll(body[1..]));
      FirstAndRest(SpelledStatement, body);
    }
  }

  lemma ItemSpellable(item: ServerItem)
    ensures AllSpellable(WrittenItem(item)) <==> SpelledItem(item)
  {
    match item
    case Setting(s) => StatementSpellable(s);
    case Place(path, body) =>
      MarksAreSpellable("location");
      BodySpellable(body);
      BothSpellable([Context("location"), Value(path), LBrace], WrittenAll(body));
      assert Value(path) in [Context("location"), Value(path), LBrace];
  }

  lemma {:induction false} ItemsSpellable(items: seq<ServerItem>)
    ensures AllSpellable(WrittenItems(items)) <==> forall item :: item in items ==> SpelledItem(item)
    decreases |items|
  {
    if items == [] {
      MarksAreSpellable("http");
    } else {
      ItemsSpellable(items[1..]);
      ItemSpellable(items[0]);
      BothSpellable(WrittenItem(items[0]), WrittenItems(items[1..]));
      FirstAndRest(SpelledItem, items);
    }
  }

  lemma PartSpellable(part: HttpItem)
    ensures AllSpellable(WrittenPart(part)) <==> SpelledPart(part)
  {
    match part
    case Common(s) => StatementSpellable(s);
    case Host(items) =>
      MarksAreSpellable("server");
      ItemsSpellable(items);
      BothSpellable([Context("server"), LBrace], WrittenItems(items));
  }

  lemma {:induction false} PartsSpellable(parts: seq<HttpItem>)
    ensures AllSpellable(WrittenParts(parts)) <==> WellSpelled(parts)
    decreases |parts|
  {
    if parts == [] {
      MarksAreSpellable("http");
    } else {
      PartsSpellable(parts[1..]);
      PartSpellable(parts[0]);
      BothSpellable(WrittenPart(parts[0]), WrittenParts(parts[1..]));
      FirstAndRest(SpelledPart, parts);
    }
  }

  /** The tokens of a list of blocks can all be spelled exactly when its names and values can. */
  lemma HttpSpellable(parts: seq<HttpItem>)
    ensures AllSpellable(WrittenHttp(parts)) <==> WellSpelled(parts)
  {
    MarksAreSpellable("http");
    PartsSpellable(parts);
    BothSpellable([Context("http"), LBrace], WrittenParts(parts));
  }

  // ------------------------------------------------------- what is written is read

  lemma {:induction false} SpelledReadsBack(stream: seq<Token>)
    requires AllSpellable(stream)
    ensures AllClean(Spelled(stream)) && AllPrintable(Line(Spelled(stream))) && Identified(Spelled(stream)) == stream + [End]
    decreases |stream|
  {
    if stream != [] {
      var t, rest := stream[0], stream[1..];
      assert t in stream && forall u :: u in rest ==> u in stream;
      SpelledReadsBack(rest);
      assert Spelled(stream)[1..] == Spelled(rest);
      assert stream + [End] == [t] + (rest + [End]);
    }
  }

  /** The file written for a list of blocks is a configuration of exactly the servers that the list means. */
  lemma WrittenFileIsRead(size: string -> int, parts: seq<HttpItem>, sound: ServerBlock -> bool, servers: seq<ServerBlock>)
    requires WellSpelled(parts)
    ensures Accepts(size, FileOf(parts), sound, servers) <==> Means(size, parts, sound, servers)
  {
    HttpSpellable(parts);
    SpelledReadsBack(WrittenHttp(parts));
    CleanTokensReadBack(Spelled(WrittenHttp(parts)));
    HttpBlockIsRead(RulesOf(size), parts);
  }

  // ---------------------------------------------------- what is read was written

  lemma {:induction false} SpacedIsPrintable(s: string)
    requires AllPrintable(s)
    ensures AllPrintable(Spaced(s))
    decreases |s|
  {
    if s != "" {
      assert s[0] in s && forall c :: c in s[1..] ==> c in s;
      SpacedIsPrintable(s[1..]);
    }
  }

  lemma {:induction false} StrippedIsPrintable(s: string, starts: bool)
    requires AllPrintable(s) && Stripped(s, starts).Some?
    ensures AllPrintable(Stripped(s, starts).value)
    decreases |s|
  {
    if s != "" {
      var k := Find(s, '\n', 1);
      assert s[0] in s && forall c :: c in s[1..] ==> c in s;
      if s[0] == '#' && starts {
        if k < |s| {
          assert forall c :: c in s[k + 1..] ==> c in s;
          StrippedIsPrintable(s[k + 1..], true);
        }
      } else {
        StrippedIsPrintable(s[1..], Space(s[0]));
      }
    }
  }

  lemma {:induction false} WordsArePrintable(s: string, word: string)
    requires AllPrintable(s) && AllPrintable(word)
    ensures forall w :: w in Words(Space, s, word) ==> AllPrintable(w)
    decreases |s|
  {
    if s != "" {
      assert s[0] in s && forall c :: c in s[1..] ==> c in s;
      WordsArePrintable(s[1..], if Space(s[0]) then "" else word + [s[0]]);
    }
  }

  lemma TokensArePrintable(text: string)
    requires AllPrintable(text) && Tokens(text).Some?
    ensures forall w :: w in Tokens(text).value ==> AllPrintable(w)
  {
    SpacedIsPrintable(text);
    StrippedIsPrintable(Spaced(text), true);
    SplitRefactoredIsRuns(Stripped(Spaced(text), true).value);
    WordsArePrintable(Stripped(Spaced(text), true).value, "");
  }

  lemma IdentifiedIsSpellable(t: string)
    requires Clean(t) && AllPrintable(t)
    ensures Spellable(Identify(t))
  {
    assert Spell(Identify(t)) == t;
  }

  lemma {:induction false} IdentifiedAreSpellable(tokens: seq<string>)
    requires AllClean(tokens) && forall w :: w in tokens ==> AllPrintable(w)
    ensures |Identified(tokens)| == |tokens| + 1 && Identified(tokens)[|tokens|].End?
    ensures forall i :: 0 <= i < |tokens| ==> Spellable(Identified(tokens)[i])
    decreases |tokens|
  {
    if tokens != [] {
      assert tokens[0] in tokens && forall w :: w in tokens[1..] ==> w in tokens;
      IdentifiedIsSpellable(tokens[0]);
      IdentifiedAreSpellable(tokens[1..]);
    }
  }

  /** A part of a file's tokens before their end can be spelled. */
  lemma PartOfFileIsSpellable(stream: seq<Token>, k: nat, j: nat)
    requires stream != [] && stream[|stream| - 1].End? && forall i :: 0 <= i < |stream| - 1 ==> Spellable(stream[i])
    requires k < j <= |stream| && !stream[j - 1].End?
    ensures AllSpellable(stream[k..j])
  {
    forall t | t in stream[k..j] ensures Spellable(t) {
      var l :| 0 <= l < j - k && stream[k..j][l] == t;
      assert stream[k + l] == t;
    }
  }

  lemma FileIsSpellable(text: string)
    requires AllPrintable(text) && Tokens(text).Some?
    ensures var stream := Identified(Tokens(text).value);
            && stream != [] && stream[|stream| - 1].End? && forall i :: 0 <= i < |stream| - 1 ==> Spellable(stream[i])
  {
    TokensAreClean(text);
    TokensArePrintable(text);
    IdentifiedAreSpellable(Tokens(text).value);
  }

  lemma BlocksOfFile<L, S, H>(rules: Rules<L, S, H>, stream: seq<Token>) returns (parts: seq<HttpItem>)
    requires stream != [] && stream[|stream| - 1].End? && forall i :: 0 <= i < |stream| - 1 ==> Spellable(stream[i])
    requires BlocksFrom(rules, stream, 0, None).Some? && BlocksFrom(rules, stream, 0, None).value.Some?
    ensures WellSpelled(parts) && HttpMeaning(rules, parts, rules.noHttp) == BlocksFrom(rules, stream, 0, None).value
  {
    var k, j;
    k, j, parts := HttpBlockWasWritten(rules, stream, BlocksFrom(rules, stream, 0, None).value.value);
    PartOfFileIsSpellable(stream, k, j);
    HttpSpellable(parts);
  }

  /** Every accepted file has a normal form: well-spelled blocks that mean its servers, whose own file is
      accepted as the same servers. */
  lemma AcceptedFileHasNormalForm(size: string -> int, text: string, sound: ServerBlock -> bool, servers: seq<ServerBlock>)
    returns (parts: seq<HttpItem>)
    requires Accepts(size, text, sound, servers)
    ensures WellSpelled(parts) && Means(size, parts, sound, servers) && Accepts(size, FileOf(parts), sound, servers)
  {
    FileIsSpellable(text);
    parts := BlocksOfFile(RulesOf(size), Identified(Tokens(text).value));
    WrittenFileIsRead(size, parts, sound, servers);
  }
}
