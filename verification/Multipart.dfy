/** The first file of a multipart/form-data body: `findSubstr`, `trimToken` and `parseMultipartFirstFile`
    of src/ResponseHandler.cpp. */
module Multipart {
  import opened Text

  // ------------------------------------------------------------- findSubstr

  /** Leftmost occurrence at or after `from`, or the end. */
  function Position(s: string, needle: string, from: nat): (r: nat)
    requires from <= |s|
    ensures from <= r <= |s| && (r < |s| ==> OccursAt(s, needle, r))
  {
    var k := Seek(s, needle, from);
    if k.Some? then k.value else |s|
  }

  lemma Compared(s: string, needle: string, p: nat, i: nat)
    requires i <= |needle| && p + |needle| <= |s| && s[p..p + i] == needle[..i]
    requires i < |needle| ==> s[p + i] != needle[i]
    ensures OccursAt(s, needle, p) <==> i == |needle|
  {
    if i < |needle| { assert s[p..p + |needle|][i] != needle[i]; } else { assert needle[..i] == needle; }
  }

  lemma ComparedOneMore(s: string, needle: string, p: nat, i: nat)
    requires i < |needle| && p + |needle| <= |s| && s[p..p + i] == needle[..i] && s[p + i] == needle[i]
    ensures s[p..p + i + 1] == needle[..i + 1]
  {
    assert s[p..p + i + 1] == s[p..p + i] + [s[p + i]];
  }

  method FindSubstr(s: string, begin: nat, needle: string) returns (r: nat)
    requires begin <= |s|
    ensures r == Position(s, needle, begin)
  {
    if needle == "" { return begin; }
    var nlen := |needle|;
    if |s| - begin < nlen { return |s|; }
    var p := begin;
    while p < |s| - nlen + 1
      invariant begin <= p
      invariant Position(s, needle, begin) == (if p + nlen <= |s| then Position(s, needle, p) else |s|)
    {
      var i := 0;
      while i < nlen && s[p + i] == needle[i]
        invariant i <= nlen && s[p..p + i] == needle[..i]
      {
        ComparedOneMore(s, needle, p, i);
        i := i + 1;
      }
      Compared(s, needle, p, i);
      if i == nlen { return p; }
      p := p + 1;
    }
    r := |s|;
  }

  // -------------------------------------------------------------- trimToken

  predicate BlankOrCr(c: char) { Blank(c) || c == '\r' }

  /** End of the token: behind the last character that is neither blank nor CR; 0 when there is none. */
  function TokenEnd(s: string): (r: nat)
    ensures r <= |s| && (r > 0 ==> !BlankOrCr(s[r - 1]))
    ensures forall k :: r <= k < |s| ==> BlankOrCr(s[k])
  {
    if s == "" || !BlankOrCr(s[|s| - 1]) then |s| else TokenEnd(s[..|s| - 1])
  }

  /** Blanks in front and blanks or CRs behind are taken off; the length of a token of CRs alone wraps
      around, so that such a token is kept when blanks precede it. */
  function TrimToken(s: string): string
  {
    var a, b := BlankEnd(s, 0), TokenEnd(s);
    if a == |s| then "" else if b == 0 then (if a == 0 then "" else s[a..]) else if a <= b then s[a..b] else ""
  }

  // ------------------------------------------------ parseMultipartFirstFile

  datatype File = File(filename: string, contentType: string, data: string)

  const CRLF := "\r\n"
  const BLANK_LINE := "\r\n\r\n"
  const QUOTE := '"'

  function FilenameOf(headers: string): string
  {
    var pos := Seek(headers, "filename=\"", 0);
    if pos.None? then ""
    else
      var start := pos.value + 10;
      var end := Find(headers, QUOTE, start);
      if end == |headers| then "" else headers[start..end]
  }

  function TypeAt(headers: string): Option<nat>
  {
    var pos := Seek(headers, "Content-Type:", 0);
    if pos.Some? then pos else Seek(headers, "content-type:", 0)
  }

  function TypeOf(headers: string): string
  {
    var pos := TypeAt(headers);
    if pos.None? then ""
    else
      var start := Find(headers, ':', pos.value) + 1;
      if start > |headers| then "" else TrimToken(headers[start..Position(headers, "\r\n", start)])
  }

  function Delimiter(boundary: string): string { "--" + boundary }

  /** Where the headers of the first part start: behind its delimiter and, if there is one, its CRLF. */
  function PartStart(body: string, delim: string): (r: Option<nat>)
    ensures r.Some? ==> r.value <= |body|
  {
    var at := Position(body, delim, 0);
    if at == |body| then None
    else
      var part := at + |delim|;
      if part + 2 > |body| then Some(part)
      else if body[part] == '-' && body[part + 1] == '-' then None
      else if body[part] == '\r' && body[part + 1] == '\n' then Some(part + 2)
      else Some(part)
  }

  /** End of the data: the next delimiter, without the CRLF in front of it. */
  function DataEnd(body: string, delim: string, start: nat): (r: Option<nat>)
    requires start <= |body|
    ensures r.Some? ==> start <= r.value <= |body|
  {
    var next := Position(body, delim, start);
    if next == |body| then None
    else if next - start >= 2 && body[next - 2] == '\r' && body[next - 1] == '\n' then Some(next - 2)
    else Some(next)
  }

  /** Headers and data of a part whose headers start at `n` and end at `h`. */
  function PartFrom(body: string, delim: string, n: nat, h: nat): Option<(string, string)>
    requires n <= h && h + 4 <= |body|
  {
    match DataEnd(body, delim, h + 4)
    case None => None
    case Some(e) => Some((body[n..h], body[h + 4..e]))
  }

  function PartAt(body: string, delim: string, n: nat): Option<(string, string)>
    requires n <= |body|
  {
    var h := Position(body, BLANK_LINE, n);
    if h == |body| then None else PartFrom(body, delim, n, h)
  }

  function FirstPart(body: string, delim: string): Option<(string, string)>
  {
    match PartStart(body, delim)
    case None => None
    case Some(n) => PartAt(body, delim, n)
  }

  function FirstFile(body: string, boundary: string): Option<File>
  {
    var part := FirstPart(body, Delimiter(boundary));
    if part.None? then None
    else Some(File(FilenameOf(part.value.0), TypeOf(part.value.0), part.value.1))
  }

  method FindPart(body: string, delim: string) returns (r: Option<nat>)
    ensures r == PartStart(body, delim)
  {
    var part := FindSubstr(body, 0, delim);
    if part == |body| { return None; }
    part := part + |delim|;
    if part + 2 <= |body| && body[part] == '-' && body[part + 1] == '-' { return None; }
    if part + 2 <= |body| && body[part] == '\r' && body[part + 1] == '\n' { part := part + 2; }
    r := Some(part);
  }

  method FindDataEnd(body: string, delim: string, dataStart: nat) returns (r: Option<nat>)
    requires dataStart <= |body|
    ensures r == DataEnd(body, delim, dataStart)
  {
    var dataEnd := FindSubstr(body, dataStart, delim);
    if dataEnd == |body| { return None; }
    if dataEnd - dataStart >= 2 && body[dataEnd - 2] == '\r' && body[dataEnd - 1] == '\n' { dataEnd := dataEnd - 2; }
    r := Some(dataEnd);
  }

  method ParseMultipartFirstFile(body: string, boundary: string) returns (r: Option<File>)
    ensures r == FirstFile(body, boundary)
  {
    if |body| == 0 { return None; }
    var delim := "--" + boundary;
    var part := FindPart(body, delim);
    if part.None? { return None; }
    var hdrEnd := FindSubstr(body, part.value, "\r\n\r\n");
    if hdrEnd == |body| { return None; }
    var dataEnd := FindDataEnd(body, delim, hdrEnd + 4);
    if dataEnd.None? { return None; }
    var headers := body[part.value..hdrEnd];
    r := Some(File(FilenameOf(headers), TypeOf(headers), body[hdrEnd + 4..dataEnd.value]));
  }

  // ------------------------------------------------------------- round trip

  predicate Contains(s: string, pattern: string) { Seek(s, pattern, 0).Some? }

  /** A body as a client builds it; anything may follow the closing delimiter. */
  function Built(delim: string, headers: string, data: string, tail: string): string
  {
    delim + (CRLF + (headers + (BLANK_LINE + (data + (CRLF + (delim + tail))))))
  }

  predicate EndsWithCrlf(s: string)
  {
    |s| >= 2 && s[|s| - 2] == '\r' && s[|s| - 1] == '\n'
  }

  lemma BlankLineAt(s: string, i: nat)
    ensures OccursAt(s, BLANK_LINE, i) <==> i + 3 < |s| && s[i] == '\r' && s[i + 1] == '\n' && s[i + 2] == '\r' && s[i + 3] == '\n'
  {
  }

  /** The blank line behind the headers is the first one exactly when the headers have none of their own
      and do not end in a line end. */
  lemma HeadersEndIff(headers: string, rest: string)
    ensures Seek(headers + (BLANK_LINE + rest), BLANK_LINE, 0) == Some(|headers|)
            <==> !Contains(headers, BLANK_LINE) && !EndsWithCrlf(headers)
  {
    var s := headers + (BLANK_LINE + rest);
    BlankLineAt(s, |headers|);
    if Contains(headers, BLANK_LINE) {
      SeekStable(headers, BLANK_LINE + rest, BLANK_LINE);
    } else if EndsWithCrlf(headers) {
      BlankLineAt(s, |headers| - 2);
    } else {
      forall j | 0 <= j < |headers| ensures !OccursAt(s, BLANK_LINE, j) {
        BlankLineAt(s, j);
        BlankLineAt(headers, j);
        assert !OccursAt(headers, BLANK_LINE, j);
      }
      SeekIs(s, BLANK_LINE, 0, |headers|);
    }
  }

  lemma NoCrNoMatch(s: string, delim: string, j: nat, r: nat)
    requires j <= r < j + |delim| && r < |s| && s[r] == '\r' && '\r' !in delim
    ensures !OccursAt(s, delim, j)
  {
    if j + |delim| <= |s| { assert s[j..j + |delim|][r - j] == s[r]; }
  }

  lemma NoneInSlice(body: string, i: nat, j: nat, delim: string, k: nat)
    requires i <= j <= |body| && !Contains(body[i..j], delim) && i <= k && k + |delim| <= j
    ensures !OccursAt(body, delim, k)
  {
    assert !OccursAt(body[i..j], delim, k - i);
    SubSlice(body, i, j, k - i, k - i + |delim|);
  }

  lemma SubSlice(s: string, i: nat, j: nat, a: nat, b: nat)
    requires i <= j <= |s| && a <= b <= j - i
    ensures s[i..j][a..b] == s[i + a..i + b]
  {
    forall x | 0 <= x < b - a ensures s[i..j][a..b][x] == s[i + a..i + b][x] {
      assert s[i..j][a + x] == s[i + a + x];
    }
  }

  /** No match of a CR-free delimiter starts in the data or in the CRLF behind them. */
  lemma NoneInData(body: string, delim: string, d: nat, e: nat, j: nat)
    requires d <= e && e + 2 <= |body| && body[e] == '\r' && body[e + 1] == '\n'
    requires delim != "" && delim[0] == '-' && '\r' !in delim && !Contains(body[d..e], delim) && d <= j < e + 2
    ensures !OccursAt(body, delim, j)
  {
    if j + |delim| <= e {
      NoneInSlice(body, d, e, delim, j);
    } else if j <= e {
      NoCrNoMatch(body, delim, j, e);
    } else if j + |delim| <= |body| {
      assert body[j..j + |delim|][0] == body[j];
    }
  }

  lemma NoBlankLineInHeaders(body: string, n: nat, h: nat, j: nat)
    requires n <= h && OccursAt(body, BLANK_LINE, h) && n <= j < h
    requires !Contains(body[n..h], BLANK_LINE) && !EndsWithCrlf(body[n..h])
    ensures !OccursAt(body, BLANK_LINE, j)
  {
    if j + 4 <= h {
      NoneInSlice(body, n, h, BLANK_LINE, j);
    } else {
      BlankLineAt(body, j);
      BlankLineAt(body, h);
      if j == h - 2 { EndsInside(body, n, h); }
    }
  }

  lemma EndsInside(body: string, n: nat, h: nat)
    requires n + 2 <= h <= |body|
    ensures EndsWithCrlf(body[n..h]) <==> body[h - 2] == '\r' && body[h - 1] == '\n'
  {
  }

  /** What a body built from delimiter, headers and data looks like, by position. */
  ghost predicate Shaped(body: string, delim: string, h: nat, e: nat)
  {
    var n := |delim| + 2;
    && n <= h && h + 4 <= e && e + 2 <= |body|
    && OccursAt(body, delim, 0) && body[|delim|] == '\r' && body[|delim| + 1] == '\n'
    && OccursAt(body, BLANK_LINE, h)
    && body[e] == '\r' && body[e + 1] == '\n' && OccursAt(body, delim, e + 2)
  }

  lemma PartStartsThere(body: string, delim: string, h: nat, e: nat)
    requires Shaped(body, delim, h, e)
    ensures PartStart(body, delim) == Some(|delim| + 2)
  {
    SeekIs(body, delim, 0, 0);
  }

  lemma HeadersEndThere(body: string, delim: string, h: nat, e: nat)
    requires Shaped(body, delim, h, e)
    requires !Contains(body[|delim| + 2..h], BLANK_LINE) && !EndsWithCrlf(body[|delim| + 2..h])
    ensures Position(body, BLANK_LINE, |delim| + 2) == h
  {
    var n := |delim| + 2;
    forall j | n <= j < h ensures !OccursAt(body, BLANK_LINE, j) { NoBlankLineInHeaders(body, n, h, j); }
    SeekIs(body, BLANK_LINE, n, h);
  }

  lemma NoDelimiterBefore(body: string, delim: string, d: nat, e: nat)
    requires d <= e && e + 2 <= |body| && body[e] == '\r' && body[e + 1] == '\n'
    requires delim != "" && delim[0] == '-' && '\r' !in delim && !Contains(body[d..e], delim)
    ensures forall j :: d <= j < e + 2 ==> !OccursAt(body, delim, j)
  {
    forall j | d <= j < e + 2 ensures !OccursAt(body, delim, j) { NoneInData(body, delim, d, e, j); }
  }

  lemma DataEndThere(body: string, delim: string, h: nat, e: nat)
    requires Shaped(body, delim, h, e) && delim != "" && delim[0] == '-' && '\r' !in delim
    requires !Contains(body[h + 4..e], delim)
    ensures DataEnd(body, delim, h + 4) == Some(e)
  {
    NoDelimiterBefore(body, delim, h + 4, e);
    SeekIs(body, delim, h + 4, e + 2);
  }

  predicate FoundAt(body: string, delim: string, n: nat, h: nat, e: nat)
  {
    && n <= h && h + 4 <= e <= |body| && PartStart(body, delim) == Some(n)
    && Position(body, BLANK_LINE, n) == h && DataEnd(body, delim, h + 4) == Some(e)
  }

  lemma FoundIs(body: string, delim: string, n: nat, h: nat, e: nat)
    requires FoundAt(body, delim, n, h, e)
    ensures FirstPart(body, delim) == Some((body[n..h], body[h + 4..e]))
  {
  }

  lemma ShapedIsFound(body: string, delim: string, h: nat, e: nat)
    requires Shaped(body, delim, h, e) && delim != "" && delim[0] == '-' && '\r' !in delim
    requires !Contains(body[|delim| + 2..h], BLANK_LINE) && !EndsWithCrlf(body[|delim| + 2..h])
    requires !Contains(body[h + 4..e], delim)
    ensures FirstPart(body, delim) == Some((body[|delim| + 2..h], body[h + 4..e]))
  {
    PartStartsThere(body, delim, h, e);
    HeadersEndThere(body, delim, h, e);
    DataEndThere(body, delim, h, e);
    FoundIs(body, delim, |delim| + 2, h, e);
  }

  lemma BuiltIsShaped(delim: string, headers: string, data: string, tail: string)
    ensures var body, h := Built(delim, headers, data, tail), |delim| + 2 + |headers|;
            Shaped(body, delim, h, h + 4 + |data|) && body[|delim| + 2..h] == headers && body[h + 4..h + 4 + |data|] == data
  {
    var r6 := delim + tail;
    var r5 := CRLF + r6;
    var r4 := data + r5;
    var r3 := BLANK_LINE + r4;
    var r2 := headers + r3;
    var r1 := CRLF + r2;
    FrontIsThere(Built(delim, headers, data, tail), delim, headers, r1, r2, r3);
    BackIsThere(Built(delim, headers, data, tail), |delim| + 2 + |headers|, delim, data, tail, r3, r4, r5, r6);
  }

  lemma FrontIsThere(body: string, delim: string, headers: string, r1: string, r2: string, r3: string)
    requires body == delim + r1 && r1 == CRLF + r2 && r2 == headers + r3
    ensures var n := |delim| + 2;
            && n + |headers| <= |body| && OccursAt(body, delim, 0) && body[|delim|] == '\r' && body[|delim| + 1] == '\n'
            && body[n..n + |headers|] == headers && body[n + |headers|..] == r3
  {
    Peel(body, 0, delim, r1);
    Peel(body, |delim|, CRLF, r2);
    Peel(body, |delim| + 2, headers, r3);
    LineEndAt(body, |delim|);
  }

  lemma BackIsThere(body: string, h: nat, delim: string, data: string, tail: string, r3: string, r4: string, r5: string, r6: string)
    requires h <= |body| && body[h..] == r3 && r3 == BLANK_LINE + r4 && r4 == data + r5 && r5 == CRLF + r6 && r6 == delim + tail
    ensures var e := h + 4 + |data|;
            && e + 2 <= |body| && OccursAt(body, BLANK_LINE, h) && body[h + 4..e] == data
            && body[e] == '\r' && body[e + 1] == '\n' && OccursAt(body, delim, e + 2)
  {
    Peel(body, h, BLANK_LINE, r4);
    Peel(body, h + 4, data, r5);
    Peel(body, h + 4 + |data|, CRLF, r6);
    Peel(body, h + 4 + |data| + 2, delim, tail);
    LineEndAt(body, h + 4 + |data|);
  }

  lemma LineEndAt(s: string, i: nat)
    ensures OccursAt(s, CRLF, i) <==> i + 1 < |s| && s[i] == '\r' && s[i + 1] == '\n'
  {
  }

  lemma PiecesAreFound(body: string, delim: string, headers: string, data: string, h: nat, e: nat)
    requires Shaped(body, delim, h, e) && body[|delim| + 2..h] == headers && body[h + 4..e] == data
    requires delim != "" && delim[0] == '-' && '\r' !in delim && !Contains(data, delim)
    requires !Contains(headers, BLANK_LINE) && !EndsWithCrlf(headers)
    ensures FirstPart(body, delim) == Some((headers, data))
  {
    ShapedIsFound(body, delim, h, e);
  }

  /** Round trip: what a client wrapped is what is found, with the headers of its part. */
  lemma PartRoundTrip(delim: string, headers: string, data: string, tail: string)
    requires delim != "" && delim[0] == '-' && '\r' !in delim && !Contains(data, delim)
    requires !Contains(headers, BLANK_LINE) && !EndsWithCrlf(headers)
    ensures FirstPart(Built(delim, headers, data, tail), delim) == Some((headers, data))
  {
    var h := |delim| + 2 + |headers|;
    BuiltIsShaped(delim, headers, data, tail);
    PiecesAreFound(Built(delim, headers, data, tail), delim, headers, data, h, h + 4 + |data|);
  }

  /** A part header that names its file. */
  function Naming(before: string, name: string, after: string): string
  {
    before + ("filename=\"" + (name + ("\"" + after)))
  }

  lemma QuotedNameIs(s: string, start: nat, name: string, rest: string)
    requires start <= |s| && s[start..] == name + rest && rest != "" && rest[0] == QUOTE && QUOTE !in name
    ensures Find(s, QUOTE, start) == start + |name| < |s| && s[start..start + |name|] == name
  {
    Peel(s, start, name, rest);
    assert s[start + |name|] == s[start + |name|..][0];
    assert forall k :: start <= k < start + |name| ==> s[k] == s[start..start + |name|][k - start];
    FindIs(s, QUOTE, start, start + |name|);
  }

  lemma NameStartsThere(s: string, before: string, rest: string)
    requires s == before + ("filename=\"" + rest)
    ensures |before| + 10 <= |s| && s[|before| + 10..] == rest
  {
    assert s[0..] == s;
    Peel(s, 0, before, "filename=\"" + rest);
    Peel(s, |before|, "filename=\"", rest);
  }

  lemma FilenameIsFound(before: string, name: string, after: string)
    requires Seek(Naming(before, name, after), "filename=\"", 0) == Some(|before|) && QUOTE !in name
    ensures FilenameOf(Naming(before, name, after)) == name
  {
    NameStartsThere(Naming(before, name, after), before, name + ("\"" + after));
    QuotedNameIs(Naming(before, name, after), |before| + 10, name, "\"" + after);
  }

  lemma FindIs(s: string, c: char, i: nat, k: nat)
    requires i <= k < |s| && s[k] == c && forall j :: i <= j < k ==> s[j] != c
    ensures Find(s, c, i) == k
  {
  }

  /** A value with nothing to trim: neither end is blank. */
  predicate IsValue(value: string)
  {
    '\r' !in value && (value != "" ==> !Blank(value[0]) && !Blank(value[|value| - 1]))
  }

  lemma TokenIs(blanks: string, value: string)
    requires (forall i :: 0 <= i < |blanks| ==> Blank(blanks[i])) && IsValue(value)
    ensures TrimToken(blanks + value) == value
  {
    var s := blanks + value;
    if value == "" {
      BlanksEnd(s, 0, |s|);
    } else {
      BlanksEnd(s, 0, |blanks|);
      assert s[|s| - 1] == value[|value| - 1] && value[|value| - 1] in value;
    }
  }

  lemma {:induction false} BlanksEnd(s: string, i: nat, k: nat)
    requires i <= k <= |s| && (k < |s| ==> !Blank(s[k])) && forall j :: i <= j < k ==> Blank(s[j])
    ensures BlankEnd(s, i) == k
    decreases k - i
  {
    if i < k { BlanksEnd(s, i + 1, k); }
  }

  lemma LineEndsThere(s: string, start: nat, text: string, rest: string)
    requires start <= |s| && s[start..] == text + rest && '\r' !in text && (rest == "" || "\r\n" <= rest)
    ensures Position(s, "\r\n", start) == start + |text|
  {
    Peel(s, start, text, rest);
    forall j | start <= j < start + |text| ensures !OccursAt(s, "\r\n", j) {
      assert s[j] == s[start..start + |text|][j - start] == text[j - start];
    }
    if rest != "" {
      assert s[start + |text|..][..2] == "\r\n";
      assert OccursAt(s, "\r\n", start + |text|);
      SeekIs(s, "\r\n", start, start + |text|);
    }
  }

  predicate Title(title: string) { title == "Content-Type:" || title == "content-type:" }

  lemma ColonOfTitle(title: string)
    requires Title(title)
    ensures |title| == 13 && title[12] == ':' && forall k :: 0 <= k < 12 ==> title[k] != ':'
  {
  }

  lemma TitleEnds(s: string, n: nat, title: string)
    requires n + |title| <= |s| && s[n..n + |title|] == title
    requires |title| == 13 && title[12] == ':' && forall k :: 0 <= k < 12 ==> title[k] != ':'
    ensures Find(s, ':', n) == n + 12
  {
    forall k | n <= k < n + 13 ensures s[k] == title[k - n] { assert s[k] == s[n..n + |title|][k - n]; }
    FindIs(s, ':', n, n + 12);
  }

  lemma TypeOfIs(headers: string, n: nat, e: nat, line: string, value: string)
    requires TypeAt(headers) == Some(n) && n + 13 <= |headers| && Find(headers, ':', n) == n + 12 && e == Position(headers, "\r\n", n + 13)
    requires headers[n + 13..e] == line && TrimToken(line) == value
    ensures TypeOf(headers) == value
  {
  }

  lemma LineOfBlanks(blanks: string, value: string)
    requires (forall i :: 0 <= i < |blanks| ==> Blank(blanks[i])) && IsValue(value)
    ensures '\r' !in blanks + value
  {
  }

  /** The media type of a part: what stands behind the colon of the first line that gives one, up to its end and
      without the blanks in front. */
  lemma TypeIsFound(headers: string, before: string, title: string, blanks: string, value: string, rest: string)
    requires headers == before + (title + (blanks + value + rest)) && (rest == "" || "\r\n" <= rest)
    requires title == "Content-Type:" || (title == "content-type:" && Seek(headers, "Content-Type:", 0).None?)
    requires Seek(headers, title, 0) == Some(|before|)
    requires (forall i :: 0 <= i < |blanks| ==> Blank(blanks[i])) && IsValue(value)
    ensures TypeOf(headers) == value
  {
    assert headers[0..] == headers;
    Peel(headers, 0, before, title + (blanks + value + rest));
    Peel(headers, |before|, title, blanks + value + rest);
    ColonOfTitle(title);
    TitleEnds(headers, |before|, title);
    LineOfBlanks(blanks, value);
    LineEndsThere(headers, |before| + 13, blanks + value, rest);
    Peel(headers, |before| + 13, blanks + value, rest);
    TokenIs(blanks, value);
    TypeOfIs(headers, |before|, |before| + 13 + |blanks + value|, blanks + value, value);
  }

  // --------------------------------------------------------------- preamble

  lemma OccursShifts(pre: string, s: string, pattern: string, i: nat)
    ensures OccursAt(pre + s, pattern, |pre| + i) <==> OccursAt(s, pattern, i)
  {
    if i + |pattern| <= |s| { assert (pre + s)[|pre| + i..|pre| + i + |pattern|] == s[i..i + |pattern|]; }
  }

  lemma PositionShifts(pre: string, s: string, needle: string, i: nat)
    requires i <= |s|
    ensures Position(pre + s, needle, |pre| + i) == |pre| + Position(s, needle, i)
  {
    var k, l := Seek(s, needle, i), Seek(pre + s, needle, |pre| + i);
    if k.Some? {
      OccursShifts(pre, s, needle, k.value);
      forall j | |pre| + i <= j < |pre| + k.value ensures !OccursAt(pre + s, needle, j) { OccursShifts(pre, s, needle, j - |pre|); }
      SeekIs(pre + s, needle, |pre| + i, |pre| + k.value);
    } else if l.Some? {
      OccursShifts(pre, s, needle, l.value - |pre|);
    }
  }

  lemma PartStartShifts(pre: string, body: string, delim: string)
    requires Position(pre + body, delim, 0) == |pre| + Position(body, delim, 0)
    ensures PartStart(pre + body, delim) == (match PartStart(body, delim) case None => None case Some(n) => Some(|pre| + n))
  {
    var part := Position(body, delim, 0) + |delim|;
    if part + 2 <= |body| {
      assert (pre + body)[|pre| + part] == body[part] && (pre + body)[|pre| + part + 1] == body[part + 1];
    }
  }

  lemma DataEndShifts(pre: string, body: string, delim: string, i: nat)
    requires i <= |body|
    ensures DataEnd(pre + body, delim, |pre| + i) == (match DataEnd(body, delim, i) case None => None case Some(e) => Some(|pre| + e))
  {
    PositionShifts(pre, body, delim, i);
    var next := Position(body, delim, i);
    if next - i >= 2 {
      assert (pre + body)[|pre| + next - 2] == body[next - 2] && (pre + body)[|pre| + next - 1] == body[next - 1];
    }
  }

  lemma SliceShifts(pre: string, s: string, i: nat, j: nat)
    requires i <= j <= |s|
    ensures (pre + s)[|pre| + i..|pre| + j] == s[i..j]
  {
  }

  lemma PartFromShifts(pre: string, body: string, delim: string, n: nat, h: nat)
    requires n <= h && h + 4 <= |body|
    ensures PartFrom(pre + body, delim, |pre| + n, |pre| + h) == PartFrom(body, delim, n, h)
  {
    DataEndShifts(pre, body, delim, h + 4);
    SlicesShift(pre, body, pre + body, delim, n, h, DataEnd(body, delim, h + 4), DataEnd(pre + body, delim, |pre| + h + 4));
  }

  lemma SlicesShift(pre: string, body: string, whole: string, delim: string, n: nat, h: nat, e: Option<nat>, f: Option<nat>)
    requires n <= h && h + 4 <= |body| && whole == pre + body
    requires DataEnd(body, delim, h + 4) == e && DataEnd(whole, delim, |pre| + h + 4) == f
    requires f == (match e case None => None case Some(k) => Some(|pre| + k))
    ensures PartFrom(whole, delim, |pre| + n, |pre| + h) == PartFrom(body, delim, n, h)
  {
    PartSlices(pre, body, n, h, e);
    PartFromIs(body, delim, n, h, e);
    PartFromIs(whole, delim, |pre| + n, |pre| + h, f);
  }

  /** The two slices that a part is. */
  function Slices(body: string, n: nat, h: nat, e: Option<nat>): Option<(string, string)>
    requires n <= h && h + 4 <= |body| && (e.Some? ==> h + 4 <= e.value <= |body|)
  {
    if e.None? then None else Some((body[n..h], body[h + 4..e.value]))
  }

  lemma PartFromIs(body: string, delim: string, n: nat, h: nat, e: Option<nat>)
    requires n <= h && h + 4 <= |body| && DataEnd(body, delim, h + 4) == e
    ensures PartFrom(body, delim, n, h) == Slices(body, n, h, e)
  {
  }

  lemma PartSlices(pre: string, body: string, n: nat, h: nat, e: Option<nat>)
    requires n <= h && h + 4 <= |body| && (e.Some? ==> h + 4 <= e.value <= |body|)
    ensures Slices(pre + body, |pre| + n, |pre| + h, if e.None? then None else Some(|pre| + e.value)) == Slices(body, n, h, e)
  {
    SliceShifts(pre, body, n, h);
    if e.Some? { SliceShifts(pre, body, h + 4, e.value); }
  }

  lemma PartAtShifts(pre: string, body: string, delim: string, n: nat)
    requires n <= |body|
    ensures PartAt(pre + body, delim, |pre| + n) == PartAt(body, delim, n)
  {
    PositionShifts(pre, body, BLANK_LINE, n);
    var h := Position(body, BLANK_LINE, n);
    if h < |body| { PartFromShifts(pre, body, delim, n, h); }
  }

  /** What stands in front of the first delimiter does not matter. */
  lemma PreambleDoesNotMatter(pre: string, body: string, delim: string)
    requires Position(pre + body, delim, 0) == |pre| + Position(body, delim, 0)
    ensures FirstPart(pre + body, delim) == FirstPart(body, delim)
  {
    PartStartShifts(pre, body, delim);
    FirstPartShifts(pre, body, pre + body, delim, PartStart(body, delim), PartStart(pre + body, delim));
  }

  lemma FirstPartShifts(pre: string, body: string, whole: string, delim: string, n: Option<nat>, m: Option<nat>)
    requires whole == pre + body && PartStart(body, delim) == n && PartStart(whole, delim) == m
    requires m == (match n case None => None case Some(k) => Some(|pre| + k))
    ensures FirstPart(whole, delim) == FirstPart(body, delim)
  {
    FirstPartIs(body, delim, n);
    FirstPartIs(whole, delim, m);
    if n.Some? { PartAtShifts(pre, body, delim, n.value); }
  }

  lemma FirstPartIs(body: string, delim: string, n: Option<nat>)
    requires PartStart(body, delim) == n
    ensures FirstPart(body, delim) == if n.None? then None else PartAt(body, delim, n.value)
  {
  }

  /** Lines without the delimiter, as section 5.1.1 of RFC 2046 allows them. */
  predicate Preamble(pre: string, delim: string)
  {
    pre == "" || (EndsWithCrlf(pre) && !Contains(pre, delim))
  }

  lemma PreambleIsPassed(pre: string, rest: string, delim: string)
    requires Preamble(pre, delim) && delim != "" && delim[0] == '-' && '\r' !in delim
    ensures Position(pre + (delim + rest), delim, 0) == |pre| + Position(delim + rest, delim, 0) == |pre|
  {
    var s := pre + (delim + rest);
    assert (delim + rest)[..|delim|] == delim;
    SeekIs(delim + rest, delim, 0, 0);
    OccursShifts(pre, delim + rest, delim, 0);
    forall j | 0 <= j < |pre| ensures !OccursAt(s, delim, j) {
      if j + |delim| <= |pre| {
        OccursBefore(pre, delim + rest, delim, j);
      } else if j <= |pre| - 2 {
        NoCrNoMatch(s, delim, j, |pre| - 2);
      } else {
        assert s[j] == '\n';
      }
    }
    SeekIs(s, delim, 0, |pre|);
  }

  /** The whole round trip: file bytes and file name of every upload built from a CR-free boundary, lines
      without the delimiter in front, part headers without a blank line, and bytes without the delimiter. */
  lemma UploadRoundTrip(pre: string, boundary: string, before: string, name: string, after: string, data: string, tail: string)
    requires '\r' !in boundary && Preamble(pre, Delimiter(boundary)) && !Contains(data, Delimiter(boundary)) && QUOTE !in name
    requires var headers := Naming(before, name, after);
             !Contains(headers, BLANK_LINE) && !EndsWithCrlf(headers) && Seek(headers, "filename=\"", 0) == Some(|before|)
    ensures var f := FirstFile(pre + Built(Delimiter(boundary), Naming(before, name, after), data, tail), boundary);
            f.Some? && f.value.data == data && f.value.filename == name && f.value.contentType == TypeOf(Naming(before, name, after))
  {
    var delim, headers := Delimiter(boundary), Naming(before, name, after);
    PartRoundTrip(delim, headers, data, tail);
    FilenameIsFound(before, name, after);
    PreambleIsPassed(pre, CRLF + (headers + (BLANK_LINE + (data + (CRLF + (delim + tail))))), delim);
    PreambleDoesNotMatter(pre, Built(delim, headers, data, tail), delim);
  }

  lemma OccursInBody(body: string, i: nat, j: nat, delim: string)
    requires i <= j <= |body| && Contains(body[i..j], delim)
    ensures exists k :: i <= k && k + |delim| <= j && OccursAt(body, delim, k)
  {
    var k := Seek(body[i..j], delim, 0).value;
    SubSlice(body, i, j, k, k + |delim|);
    assert OccursAt(body, delim, i + k);
  }

  lemma SliceHasNone(body: string, i: nat, j: nat, delim: string)
    requires i <= j <= |body|
    requires forall k :: i <= k && k + |delim| <= j ==> !OccursAt(body, delim, k)
    ensures !Contains(body[i..j], delim)
  {
    if Contains(body[i..j], delim) { OccursInBody(body, i, j, delim); }
  }

  /** And on any body: the bytes found start behind a blank line, contain no delimiter, and end at one or
      at the CRLF in front of it. */
  lemma FoundDataIsDelimited(body: string, delim: string)
    requires delim != "" && FirstPart(body, delim).Some?
    ensures exists i: nat, e: nat :: Delimited(body, delim, i, e) && body[i..e] == FirstPart(body, delim).value.1
  {
    var n := PartStart(body, delim).value;
    var h := Position(body, BLANK_LINE, n);
    var e := DataEnd(body, delim, h + 4).value;
    FoundIs(body, delim, n, h, e);
    DataIsDelimited(body, delim, n, h, e);
  }

  lemma DataIsDelimited(body: string, delim: string, n: nat, h: nat, e: nat)
    requires delim != "" && FoundAt(body, delim, n, h, e)
    ensures Delimited(body, delim, h + 4, e)
  {
    DataEndIsThere(body, delim, h + 4);
  }

  lemma DataEndIsThere(body: string, delim: string, i: nat)
    requires delim != "" && i <= |body| && DataEnd(body, delim, i).Some?
    ensures var e := DataEnd(body, delim, i).value;
            !Contains(body[i..e], delim)
            && (OccursAt(body, delim, e) || (OccursAt(body, CRLF, e) && OccursAt(body, delim, e + 2)))
  {
    var e := DataEnd(body, delim, i).value;
    LineEndAt(body, e);
    SliceHasNone(body, i, e, delim);
  }

  ghost predicate Delimited(body: string, delim: string, i: nat, e: nat)
  {
    && 4 <= i <= e <= |body| && OccursAt(body, BLANK_LINE, i - 4) && !Contains(body[i..e], delim)
    && (OccursAt(body, delim, e) || (OccursAt(body, CRLF, e) && OccursAt(body, delim, e + 2)))
  }
}
