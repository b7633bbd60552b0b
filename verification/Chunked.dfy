/** The chunked body decoder: `HttpParser::_parseChunked` of src/HttpParser.cpp, as a resumable
    machine and as a decoder of whole inputs. */
module Chunked {
  import opened Text
  import opened Uri

  const MAX_ALLOWED_CHUNK: nat := 1073741824

  // ------------------------------------------------------------ size lines

  datatype Sized = Sized(value: nat, ext: nat) | BadSize(code: nat)

  /** Hexadecimal digits up to `;` or the end, with the two guards checked at every digit. */
  function SizeFrom(line: string, i: nat, acc: nat): (r: Sized)
    requires i <= |line|
    ensures r.BadSize? ==> r.code == 400 || r.code == 413
    decreases |line| - i
  {
    if i == |line| || line[i] == ';' then Sized(acc, i)
    else if !HexDigit(line[i]) then BadSize(400)
    else if acc > MAX_ALLOWED_CHUNK / 16 then BadSize(413)
    else
      var next := acc * 16 + HexValue(line[i]);
      if next > MAX_ALLOWED_CHUNK then BadSize(413) else SizeFrom(line, i + 1, next)
  }

  predicate ExtensionChar(c: char)
  {
    (c as int >= 0x20 || c as int == 0x09) && c as int != 0x7F
  }

  datatype ChunkSize = Size(value: nat) | BadLine(code: nat)

  function SizeOf(line: string): ChunkSize
  {
    if line == "" then BadLine(400)
    else
      match SizeFrom(line, 0, 0)
      case BadSize(code) => BadLine(code)
      case Sized(value, ext) =>
        if ext == 0 || exists i :: ext <= i < |line| && !ExtensionChar(line[i]) then BadLine(400) else Size(value)
  }

  method ParseSizeLine(line: string) returns (r: ChunkSize)
    ensures r == SizeOf(line)
  {
    if |line| == 0 { return BadLine(400); }
    var size: nat, valid, i := 0, false, 0;
    while i < |line| && line[i] != ';'
      invariant i <= |line| && size <= MAX_ALLOWED_CHUNK
      invariant valid == (i > 0)
      invariant SizeFrom(line, 0, 0) == SizeFrom(line, i, size)
    {
      if !HexDigit(line[i]) { return BadLine(400); }
      if size > MAX_ALLOWED_CHUNK / 16 { return BadLine(413); }
      var next := size * 16 + HexValue(line[i]);
      assert next < 0x1_0000_0000;  // far from the width of size_t
      if next > MAX_ALLOWED_CHUNK { return BadLine(413); }
      size, valid := next, true;
      i := i + 1;
    }
    if !valid { return BadLine(400); }
    for k := i to |line|
      invariant forall j :: i <= j < k ==> ExtensionChar(line[j])
    {
      if !ExtensionChar(line[k]) { return BadLine(400); }
    }
    r := Size(size);
  }

  predicate AllHex(s: string) { forall i :: 0 <= i < |s| ==> HexDigit(s[i]) }

  function HexNumber(s: string): nat
  {
    if s == "" || !HexDigit(s[|s| - 1]) then 0 else HexNumber(s[..|s| - 1]) * 16 + HexValue(s[|s| - 1])
  }

  lemma {:induction false} HexGrows(s: string, i: nat, n: nat)
    requires i <= n <= |s| && AllHex(s)
    ensures HexNumber(s[..i]) <= HexNumber(s[..n])
    decreases n - i
  {
    if i < n {
      HexGrows(s, i, n - 1);
      assert s[..n][..n - 1] == s[..n - 1];
    }
  }

  lemma {:induction false} SizeFromIs(s: string, ext: string, i: nat, acc: nat)
    requires i <= |s| && AllHex(s) && acc == HexNumber(s[..i]) <= MAX_ALLOWED_CHUNK
    requires ext != "" ==> ext[0] == ';'
    ensures SizeFrom(s + ext, i, acc) ==
            if HexNumber(s) <= MAX_ALLOWED_CHUNK then Sized(HexNumber(s), |s|) else BadSize(413)
    decreases |s| - i
  {
    if i == |s| {
      assert s[..i] == s;
    } else {
      assert (s + ext)[i] == s[i];
      assert s[..i + 1][..i] == s[..i];
      var next := acc * 16 + HexValue(s[i]);
      assert next == HexNumber(s[..i + 1]);
      if next > MAX_ALLOWED_CHUNK {
        HexGrows(s, i + 1, |s|);
        assert s[..|s|] == s;
      } else {
        SizeFromIs(s, ext, i + 1, next);
      }
    }
  }

  /** On hexadecimal sizes, with or without an extension, 413 means exactly "more than 2^30". */
  lemma SizeGuardsAreExact(s: string, ext: string)
    requires s != "" && AllHex(s)
    requires ext != "" ==> ext[0] == ';'
    requires forall i :: 0 <= i < |ext| ==> ExtensionChar(ext[i])
    ensures SizeOf(s + ext) == if HexNumber(s) <= MAX_ALLOWED_CHUNK then Size(HexNumber(s)) else BadLine(413)
  {
    assert s[..0] == "";
    SizeFromIs(s, ext, 0, 0);
    forall i | |s| <= i < |s + ext| ensures ExtensionChar((s + ext)[i]) {
      assert (s + ext)[i] == ext[i - |s|];
    }
  }

  // --------------------------------------------------------------- machine

  /** What survives between two calls: the open chunk, the separator flags, the decoded bytes. */
  datatype Decoder = Decoder(chunkSize: nat, trailing: bool, done: bool, written: nat, body: string)

  datatype Progress =
    | Again(d: Decoder, rest: string)
    | Waiting(d: Decoder, rest: string)
    | Complete(d: Decoder, rest: string)
    | Failed(code: nat, d: Decoder, rest: string)

  /** Up to the whole rest of the open chunk goes to the body. */
  function TakeData(d: Decoder, buf: string, max: nat): Progress
  {
    if buf == "" then Waiting(d, buf)
    else
      var n := if d.chunkSize < |buf| then d.chunkSize else |buf|;
      if d.written + n > max then Failed(413, d, buf)
      else
        var e := d.(body := d.body + buf[..n], written := d.written + n, chunkSize := d.chunkSize - n);
        Again(if e.chunkSize == 0 then e.(trailing := true, done := false) else e, buf[n..])
  }

  function TakeSize(d: Decoder, buf: string, max: nat): Progress
  {
    if d.chunkSize != 0 then TakeData(d, buf, max)
    else
      var k := Crlf(buf, 0);
      if k.None? then Waiting(d, buf)
      else
        var rest := buf[k.value + 2..];
        match SizeOf(buf[..k.value])
        case BadLine(code) => Failed(code, d, rest)
        case Size(n) =>
          if n == 0 then Again(d.(done := true, trailing := true), rest)
          else TakeData(d.(chunkSize := n), rest, max)
  }

  /** One turn of the `while (true)` loop. */
  function Turn(d: Decoder, buf: string, max: nat): (p: Progress)
    ensures p.Again? ==> |p.rest| < |buf|
  {
    if !d.trailing then TakeSize(d, buf, max)
    else if |buf| < 2 then Waiting(d, buf)
    else if d.done then Complete(d.(trailing := false), buf[2..])
    else TakeSize(d.(trailing := false, chunkSize := 0), buf[2..], max)
  }

  function Decode(d: Decoder, buf: string, max: nat): (p: Progress)
    ensures !p.Again?
    decreases |buf|
  {
    var p := Turn(d, buf, max);
    if p.Again? then Decode(p.d, p.rest, max) else p
  }

  // ------------------------------------------------- independence of splits

  /** The same outcome: equal, or the same refusal (what was decoded before it does not count). */
  ghost predicate Alike(p: Progress, q: Progress)
  {
    p == q || (p.Failed? && q.Failed? && p.code == q.code)
  }

  ghost predicate Extends(p: Progress, q: Progress, t: string, max: nat)
  {
    match q
    case Complete(d, rest) => p == Complete(d, rest + t)
    case Failed(code, d, rest) => p.Failed? && p.code == code
    case Waiting(d, rest) => Alike(p, Decode(d, rest + t, max))
    case Again(d, rest) => Alike(p, Decode(d, rest + t, max))
  }

  lemma DataAllHere(d: Decoder, b: string, t: string, max: nat)
    requires 0 < d.chunkSize <= |b| && TakeData(d, b, max).Again?
    ensures TakeData(d, b + t, max) == Again(TakeData(d, b, max).d, TakeData(d, b, max).rest + t)
  {
    assert (b + t)[..d.chunkSize] == b[..d.chunkSize];
    assert (b + t)[d.chunkSize..] == b[d.chunkSize..] + t;
  }

  lemma DataRefused(d: Decoder, b: string, t: string, max: nat)
    requires d.chunkSize > 0 && TakeData(d, b, max).Failed?
    ensures TakeData(d, b + t, max).Failed? && TakeData(d, b + t, max).code == TakeData(d, b, max).code
  {
  }

  lemma DataExtends(d: Decoder, b: string, t: string, max: nat)
    requires !d.trailing && d.chunkSize > 0
    ensures Extends(Decode(d, b + t, max), TakeData(d, b, max), t, max)
  {
    assert Turn(d, b + t, max) == TakeData(d, b + t, max);
    if b == "" {
      assert b + t == t;
    } else if TakeData(d, b, max).Failed? {
      DataRefused(d, b, t, max);
    } else if d.chunkSize <= |b| {
      DataAllHere(d, b, t, max);
    } else if t == "" {
      assert b + t == b && b[|b|..] + t == "";
    } else {
      DataInTwo(d, b, t, max);
      assert b[|b|..] + t == t;
    }
  }

  /** Taking data in two pieces is taking it in one. */
  lemma DataInTwo(d: Decoder, b: string, t: string, max: nat)
    requires !d.trailing && 0 < |b| < d.chunkSize && t != "" && TakeData(d, b, max).Again?
    ensures Alike(Decode(d, b + t, max), Decode(TakeData(d, b, max).d, t, max))
  {
    var e := TakeData(d, b, max).d;
    assert b[..|b|] == b;
    var n := if e.chunkSize < |t| then e.chunkSize else |t|;
    assert (b + t)[..|b| + n] == b + t[..n];
    assert (b + t)[|b| + n..] == t[n..];
    assert d.body + (b + t[..n]) == (d.body + b) + t[..n];
    var p, q := TakeData(d, b + t, max), TakeData(e, t, max);
    assert p == q || (p.Failed? && q.Failed?);
    assert Turn(d, b + t, max) == p && Turn(e, t, max) == q;
  }

  lemma SizeExtends(d: Decoder, b: string, t: string, max: nat)
    requires !d.trailing
    ensures Extends(Decode(d, b + t, max), TakeSize(d, b, max), t, max)
  {
    if d.chunkSize != 0 {
      DataExtends(d, b, t, max);
    } else if Crlf(b, 0).Some? {
      var k := Crlf(b, 0).value;
      CrlfStable(b, t);
      assert (b + t)[..k] == b[..k];
      assert (b + t)[k + 2..] == b[k + 2..] + t;
      var size := SizeOf(b[..k]);
      if size.Size? && size.value > 0 {
        var e := d.(chunkSize := size.value);
        DataExtends(e, b[k + 2..], t, max);
        assert Turn(e, b[k + 2..] + t, max) == TakeData(e, b[k + 2..] + t, max);
        assert Turn(d, b + t, max) == Turn(e, b[k + 2..] + t, max);
      }
    }
  }

  lemma TurnExtends(d: Decoder, b: string, t: string, max: nat)
    ensures Extends(Decode(d, b + t, max), Turn(d, b, max), t, max)
  {
    if !d.trailing {
      SizeExtends(d, b, t, max);
    } else if |b| >= 2 {
      assert (b + t)[2..] == b[2..] + t;
      if !d.done {
        var e := d.(trailing := false, chunkSize := 0);
        SizeExtends(e, b[2..], t, max);
        assert Turn(d, b + t, max) == Turn(e, b[2..] + t, max);
      }
    }
  }

  /** Bytes that arrive later are decoded exactly as if they had been there from the start. */
  lemma {:induction false} DecodeExtends(d: Decoder, b: string, t: string, max: nat)
    ensures Extends(Decode(d, b + t, max), Decode(d, b, max), t, max)
    decreases |b|
  {
    TurnExtends(d, b, t, max);
    var p := Turn(d, b, max);
    if p.Again? { DecodeExtends(p.d, p.rest, t, max); }
  }

  /** The decoder only ever appends to the body and counts what it appends. */
  ghost predicate Grows(d: Decoder, e: Decoder)
  {
    d.body <= e.body && e.written - d.written == |e.body| - |d.body| && d.written <= e.written
  }

  lemma GrowsTransitively(d: Decoder, e: Decoder, f: Decoder)
    requires Grows(d, e) && Grows(e, f)
    ensures Grows(d, f)
  {
    assert d.body == e.body[..|d.body|] == f.body[..|e.body|][..|d.body|] == f.body[..|d.body|];
  }

  lemma DataCounts(d: Decoder, buf: string, max: nat)
    requires d.written <= max
    ensures var p := TakeData(d, buf, max); Grows(d, p.d) && p.d.written <= max
  {
  }

  lemma TurnCounts(d: Decoder, buf: string, max: nat)
    requires d.written <= max
    ensures var p := Turn(d, buf, max); Grows(d, p.d) && p.d.written <= max
  {
    var b := if d.trailing && |buf| >= 2 then buf[2..] else buf;
    var e := if d.trailing then d.(trailing := false, chunkSize := 0) else d;
    DataCounts(e, b, max);
    var k := Crlf(b, 0);
    if k.Some? && SizeOf(b[..k.value]).Size? {
      DataCounts(e.(chunkSize := SizeOf(b[..k.value]).value), b[k.value + 2..], max);
    }
  }

  lemma {:induction false} DecodeCounts(d: Decoder, buf: string, max: nat)
    requires d.written <= max
    ensures var p := Decode(d, buf, max); Grows(d, p.d) && p.d.written <= max
    decreases |buf|
  {
    var p := Turn(d, buf, max);
    TurnCounts(d, buf, max);
    if p.Again? {
      DecodeCounts(p.d, p.rest, max);
      GrowsTransitively(d, p.d, Decode(p.d, p.rest, max).d);
    }
  }

  /** The body is write-only: with other bytes in front of it the same bytes are appended. */
  lemma {:induction false} DecodeIgnoresBody(d: Decoder, x: string, buf: string, max: nat)
    ensures var p, q := Decode(d, buf, max), Decode(d.(body := x + d.body), buf, max);
            q == p.(d := p.d.(body := x + p.d.body))
    decreases |buf|
  {
    var p := Turn(d, buf, max);
    TurnIgnoresBody(d, x, buf, max);
    if p.Again? { DecodeIgnoresBody(p.d, x, p.rest, max); }
  }

  lemma DataIgnoresBody(d: Decoder, x: string, buf: string, max: nat)
    ensures var p, q := TakeData(d, buf, max), TakeData(d.(body := x + d.body), buf, max);
            q == p.(d := p.d.(body := x + p.d.body))
  {
    var n := if d.chunkSize < |buf| then d.chunkSize else |buf|;
    assert x + (d.body + buf[..n]) == (x + d.body) + buf[..n];
  }

  lemma SizeIgnoresBody(d: Decoder, x: string, buf: string, max: nat)
    ensures var p, q := TakeSize(d, buf, max), TakeSize(d.(body := x + d.body), buf, max);
            q == p.(d := p.d.(body := x + p.d.body))
  {
    DataIgnoresBody(d, x, buf, max);
    var k := Crlf(buf, 0);
    if k.Some? && SizeOf(buf[..k.value]).Size? {
      DataIgnoresBody(d.(chunkSize := SizeOf(buf[..k.value]).value), x, buf[k.value + 2..], max);
    }
  }

  lemma TurnIgnoresBody(d: Decoder, x: string, buf: string, max: nat)
    ensures var p, q := Turn(d, buf, max), Turn(d.(body := x + d.body), buf, max);
            q == p.(d := p.d.(body := x + p.d.body))
  {
    SizeIgnoresBody(d, x, buf, max);
    if d.trailing && |buf| >= 2 { SizeIgnoresBody(d.(trailing := false, chunkSize := 0), x, buf[2..], max); }
  }

  // ------------------------------------------------------------- reference

  datatype Message = Whole(body: string, rest: string) | Partial(body: string) | Malformed(code: nat)

  function Prepend(data: string, m: Message): Message
  {
    match m
    case Whole(body, rest) => Whole(data + body, rest)
    case Partial(body) => Partial(data + body)
    case Malformed(code) => Malformed(code)
  }

  /** Section 4.1 of RFC 7230 on a whole input, with room for `room` body bytes: no trailer section,
      and the two bytes after the data are skipped unseen. */
  function DecodeWhole(s: string, room: nat): Message
    decreases |s|
  {
    var k := Crlf(s, 0);
    if k.None? then Partial("")
    else
      match SizeOf(s[..k.value])
      case BadLine(code) => Malformed(code)
      case Size(n) =>
        var data := s[k.value + 2..];
        if n == 0 then (if |data| < 2 then Partial("") else Whole("", data[2..]))
        else
          var have := if n < |data| then n else |data|;
          if have > room then Malformed(413)
          else if |data| < n + 2 then Partial(data[..have])
          else Prepend(data[..n], DecodeWhole(data[n + 2..], room - n))
  }

  ghost predicate Agrees(p: Progress, d: Decoder, m: Message)
  {
    match m
    case Whole(body, rest) => p == Complete(Decoder(0, false, true, d.written + |body|, d.body + body), rest)
    case Partial(body) => p.Waiting? && p.d.body == d.body + body && p.d.written == d.written + |body|
    case Malformed(code) => p.Failed? && p.code == code
  }

  ghost predicate AtSize(d: Decoder) { d.chunkSize == 0 && !d.trailing }

  /** The resumable decoder, given the whole input at once, is the reference decoder. */
  lemma {:induction false} DecodeRefinesWhole(d: Decoder, s: string, max: nat)
    requires AtSize(d) && d.written <= max
    ensures Agrees(Decode(d, s, max), d, DecodeWhole(s, max - d.written))
    decreases |s|
  {
    var k := Crlf(s, 0);
    if k.None? {
      assert d.body + "" == d.body;
    } else if SizeOf(s[..k.value]).Size? {
      var n, data := SizeOf(s[..k.value]).value, s[k.value + 2..];
      if n == 0 {
        assert d.body + "" == d.body;
        var e := d.(done := true, trailing := true);
        assert Turn(d, s, max) == Again(e, data);
        assert Decode(e, data, max) == Turn(e, data, max);
      } else {
        ChunkRefinesWhole(d, s, max, k.value, n);
      }
    }
  }

  lemma {:induction false} ChunkRefinesWhole(d: Decoder, s: string, max: nat, k: nat, n: nat)
    requires AtSize(d) && d.written <= max && Crlf(s, 0) == Some(k) && SizeOf(s[..k]) == Size(n) && n > 0
    ensures Agrees(Decode(d, s, max), d, DecodeWhole(s, max - d.written))
    decreases |s|, 0
  {
    var data := s[k + 2..];
    var have := if n < |data| then n else |data|;
    assert Turn(d, s, max) == TakeData(d.(chunkSize := n), data, max);
    if |data| >= n + 2 && have <= max - d.written {
      var e := Decoder(0, false, false, d.written + n, d.body + data[..n]);
      DecodeRefinesWhole(e, data[n + 2..], max);
      AfterChunk(d, data, max, n);
      PrependAgrees(Decode(e, data[n + 2..], max), d, e, data[..n], DecodeWhole(data[n + 2..], max - e.written));
    } else {
      ChunkCutShort(d, data, max, n);
    }
  }

  /** A chunk that is all there is taken, its separator skipped, and decoding goes on. */
  lemma AfterChunk(d: Decoder, data: string, max: nat, n: nat)
    requires AtSize(d) && 0 < n && n + 2 <= |data| && d.written + n <= max
    ensures var p := TakeData(d.(chunkSize := n), data, max);
            p.Again? && Decode(p.d, p.rest, max) ==
              Decode(Decoder(0, false, false, d.written + n, d.body + data[..n]), data[n + 2..], max)
  {
    var p := TakeData(d.(chunkSize := n), data, max);
    var e := Decoder(0, false, false, d.written + n, d.body + data[..n]);
    assert p == Again(e.(trailing := true), data[n..]);
    assert data[n..][2..] == data[n + 2..];
    assert Turn(p.d, data[n..], max) == Turn(e, data[n + 2..], max);
  }

  lemma PrependAgrees(p: Progress, d: Decoder, e: Decoder, data: string, m: Message)
    requires Agrees(p, e, m) && e.body == d.body + data && e.written == d.written + |data|
    ensures Agrees(p, d, Prepend(data, m))
  {
    if !m.Malformed? { assert d.body + (data + m.body) == (d.body + data) + m.body; }
  }

  lemma ChunkCutShort(d: Decoder, data: string, max: nat, n: nat)
    requires AtSize(d) && d.written <= max && n > 0
    requires var have := if n < |data| then n else |data|; have > max - d.written || |data| < n + 2
    ensures var have := if n < |data| then n else |data|;
            var p := TakeData(d.(chunkSize := n), data, max);
            Agrees(if p.Again? then Decode(p.d, p.rest, max) else p, d,
                   if have > max - d.written then Malformed(413) else Partial(data[..have]))
  {
    var have := if n < |data| then n else |data|;
    var p := TakeData(d.(chunkSize := n), data, max);
    if p.Again? {
      assert Turn(p.d, p.rest, max) == Waiting(p.d, p.rest);
    } else {
      assert d.body + data[..0] == d.body;
    }
  }
}
