/** `writeChunk` of src/EventLoop/EventLoop_helper_cgi.cpp, and its inverse, the decoder of
    src/HttpParser.cpp. */
module ChunkWriter {
  import opened Text
  import opened Uri
  import opened Chunked
  import Buffers

  /** One lower-case hexadecimal digit. */
  function DigitOf(n: nat): (c: char)
    requires n < 16
    ensures HexDigit(c) && HexValue(c) == n
  {
    if n < 10 then (n + '0' as int) as char else (n - 10 + 'a' as int) as char
  }

  /** What `std::hex` prints. */
  function ToHex(n: nat): (s: string)
    ensures s != "" && AllHex(s)
  {
    if n < 16 then [DigitOf(n)] else ToHex(n / 16) + [DigitOf(n % 16)]
  }

  lemma {:induction false} HexRoundTrip(n: nat)
    ensures HexNumber(ToHex(n)) == n
  {
    if n < 16 {
      assert ToHex(n)[..0] == "" && HexNumber("") == 0;
    } else {
      HexRoundTrip(n / 16);
      assert ToHex(n)[..|ToHex(n)| - 1] == ToHex(n / 16);
    }
  }

  const TERMINATOR := "0\r\n\r\n"

  function Chunk(data: string): string
  {
    if data == "" then "" else ToHex(|data|) + "\r\n" + data + "\r\n"
  }

  function Encode(blocks: seq<string>): string
  {
    if blocks == [] then "" else Encode(blocks[..|blocks| - 1]) + Chunk(blocks[|blocks| - 1])
  }

  function Flat(blocks: seq<string>): string
  {
    if blocks == [] then "" else Flat(blocks[..|blocks| - 1]) + blocks[|blocks| - 1]
  }

  /** Blocks small enough for one chunk of the decoder. */
  predicate Small(blocks: seq<string>)
  {
    forall i :: 0 <= i < |blocks| ==> |blocks[i]| <= MAX_ALLOWED_CHUNK
  }

  /** The size line of a chunk is read back exactly. */
  lemma SizeLineReadsBack(n: nat, rest: string)
    requires n <= MAX_ALLOWED_CHUNK
    ensures var s := ToHex(n) + "\r\n" + rest;
            && Crlf(s, 0) == Some(|ToHex(n)|)
            && s[..|ToHex(n)|] == ToHex(n) && s[|ToHex(n)| + 2..] == rest
            && SizeOf(ToHex(n)) == Size(n)
  {
    var h := ToHex(n);
    var s := h + "\r\n" + rest;
    HexRoundTrip(n);
    SizeGuardsAreExact(h, "");
    assert h + "" == h;
    assert forall j :: 0 <= j < |h| ==> s[j] == h[j];
    CrlfIs(s, |h|);
  }

  lemma Assoc(a: string, b: string, c: string)
    ensures (a + b) + c == a + (b + c)
  {
  }

  lemma DataThenSeparator(data: string, rest: string)
    ensures var tail := data + ("\r\n" + rest);
            |tail| >= |data| + 2 && tail[..|data|] == data && tail[|data| + 2..] == rest
  {
  }

  lemma SizedDecodes(s: string, k: nat, n: nat, tail: string, room: nat)
    requires Crlf(s, 0) == Some(k) && SizeOf(s[..k]) == Size(n) && s[k + 2..] == tail
    requires 0 < n <= room && n + 2 <= |tail|
    ensures DecodeWhole(s, room) == Prepend(tail[..n], DecodeWhole(tail[n + 2..], room - n))
  {
  }

  lemma ChunkAsLine(data: string, rest: string)
    requires data != ""
    ensures Chunk(data) + rest == ToHex(|data|) + "\r\n" + (data + ("\r\n" + rest))
  {
    var h := ToHex(|data|) + "\r\n";
    Assoc(h, data, "\r\n");
    Assoc(h, data + "\r\n", rest);
    Assoc(data, "\r\n", rest);
  }

  lemma ChunkDecodes(data: string, rest: string, room: nat)
    requires 0 < |data| <= MAX_ALLOWED_CHUNK && |data| <= room
    ensures DecodeWhole(Chunk(data) + rest, room) == Prepend(data, DecodeWhole(rest, room - |data|))
  {
    var tail := data + ("\r\n" + rest);
    ChunkAsLine(data, rest);
    SizeLineReadsBack(|data|, tail);
    DataThenSeparator(data, rest);
    SizedDecodes(Chunk(data) + rest, |ToHex(|data|)|, |data|, tail, room);
  }

  lemma PrependTwice(a: string, b: string, m: Message)
    ensures Prepend(a, Prepend(b, m)) == Prepend(a + b, m)
  {
    if !m.Malformed? { assert a + (b + m.body) == (a + b) + m.body; }
  }

  lemma PrependNothing(m: Message)
    ensures Prepend("", m) == m
  {
    if !m.Malformed? { assert "" + m.body == m.body; }
  }

  /** What the induction over the blocks needs to know of a decoder. */
  ghost predicate ReadsChunks(decode: (string, nat) -> Message)
  {
    forall data: string, rest: string, room: nat :: |data| <= MAX_ALLOWED_CHUNK && |data| <= room ==>
      decode(Chunk(data) + rest, room) == Prepend(data, decode(rest, room - |data|))
  }

  lemma EncodeSplits(blocks: seq<string>, rest: string)
    requires blocks != []
    ensures Encode(blocks) + rest == Encode(blocks[..|blocks| - 1]) + (Chunk(blocks[|blocks| - 1]) + rest)
  {
    Assoc(Encode(blocks[..|blocks| - 1]), Chunk(blocks[|blocks| - 1]), rest);
  }

  lemma {:induction false} BlocksDecode(decode: (string, nat) -> Message, blocks: seq<string>, rest: string, room: nat)
    requires ReadsChunks(decode) && Small(blocks) && |Flat(blocks)| <= room
    ensures decode(Encode(blocks) + rest, room) == Prepend(Flat(blocks), decode(rest, room - |Flat(blocks)|))
    decreases |blocks|
  {
    if blocks == [] {
      assert "" + rest == rest;
      PrependNothing(decode(rest, room));
    } else {
      var init, last := blocks[..|blocks| - 1], blocks[|blocks| - 1];
      EncodeSplits(blocks, rest);
      BlocksDecode(decode, init, Chunk(last) + rest, room);
      PrependTwice(Flat(init), last, decode(rest, room - |Flat(blocks)|));
    }
  }

  lemma ReadsThem()
    ensures ReadsChunks(DecodeWhole)
  {
    forall data: string, rest: string, room: nat | |data| <= MAX_ALLOWED_CHUNK && |data| <= room
      ensures DecodeWhole(Chunk(data) + rest, room) == Prepend(data, DecodeWhole(rest, room - |data|))
    {
      if data == "" {
        assert "" + rest == rest;
        PrependNothing(DecodeWhole(rest, room));
      } else {
        ChunkDecodes(data, rest, room);
      }
    }
  }

  /** Decoding what was written for some blocks gives the blocks and goes on with the rest. */
  lemma EncodeDecodes(blocks: seq<string>, rest: string, room: nat)
    requires Small(blocks) && |Flat(blocks)| <= room
    ensures DecodeWhole(Encode(blocks) + rest, room) == Prepend(Flat(blocks), DecodeWhole(rest, room - |Flat(blocks)|))
  {
    ReadsThem();
    BlocksDecode(DecodeWhole, blocks, rest, room);
  }

  lemma TerminatorDecodes(rest: string, room: nat)
    ensures DecodeWhole(TERMINATOR + rest, room) == Whole("", rest)
  {
    assert ToHex(0) == "0";
    SizeLineReadsBack(0, "\r\n" + rest);
    assert TERMINATOR + rest == ToHex(0) + "\r\n" + ("\r\n" + rest);
    assert ("\r\n" + rest)[2..] == rest;
  }

  lemma NothingDecodes(room: nat)
    ensures DecodeWhole("", room) == Partial("")
  {
  }

  lemma PrependEnds(data: string, rest: string)
    ensures Prepend(data, Whole("", rest)) == Whole(data, rest) && Prepend(data, Partial("")) == Partial(data)
  {
    assert data + "" == data;
  }

  lemma BlocksEnd(decode: (string, nat) -> Message, blocks: seq<string>, rest: string, room: nat)
    requires ReadsChunks(decode) && Small(blocks) && |Flat(blocks)| <= room
    requires forall left: nat :: decode(TERMINATOR + rest, left) == Whole("", rest)
    requires forall left: nat :: decode("", left) == Partial("")
    ensures decode(Encode(blocks) + (TERMINATOR + rest), room) == Whole(Flat(blocks), rest)
    ensures decode(Encode(blocks), room) == Partial(Flat(blocks))
  {
    BlocksDecode(decode, blocks, TERMINATOR + rest, room);
    BlocksDecode(decode, blocks, "", room);
    PrependEnds(Flat(blocks), rest);
    assert Encode(blocks) + "" == Encode(blocks);
  }

  /** The decoder inverts the writer: with the terminator the whole body, without it what is there. */
  lemma WriterRoundTrip(blocks: seq<string>, rest: string, room: nat)
    requires Small(blocks) && |Flat(blocks)| <= room
    ensures DecodeWhole(Encode(blocks) + (TERMINATOR + rest), room) == Whole(Flat(blocks), rest)
    ensures DecodeWhole(Encode(blocks), room) == Partial(Flat(blocks))
  {
    ReadsThem();
    forall left: nat ensures DecodeWhole(TERMINATOR + rest, left) == Whole("", rest) { TerminatorDecodes(rest, left); }
    forall left: nat ensures DecodeWhole("", left) == Partial("") { NothingDecodes(left); }
    BlocksEnd(DecodeWhole, blocks, rest, room);
  }

  const START := Decoder(0, false, false, 0, "")

  lemma AgreesOnWhole(whole: (string, nat) -> Message, p: Progress, d: Decoder, s: string, body: string, max: nat)
    requires d.written == 0 && d.body == "" && whole(s, max) == Whole(body, "") && Agrees(p, d, whole(s, max - d.written))
    ensures p == Complete(Decoder(0, false, true, |body|, body), "")
  {
    assert "" + body == body;
  }

  lemma WholeDecodesFrom(d: Decoder, s: string, body: string, max: nat)
    requires AtSize(d) && d.written == 0 && d.body == "" && DecodeWhole(s, max) == Whole(body, "")
    ensures Decode(d, s, max) == Complete(Decoder(0, false, true, |body|, body), "")
  {
    DecodeRefinesWhole(d, s, max);
    AgreesOnWhole(DecodeWhole, Decode(d, s, max), d, s, body, max);
  }

  lemma CutDecodes(d: Decoder, a: string, b: string, body: string, max: nat)
    requires d.written == 0 && d.body == "" && Decode(d, a + b, max) == Complete(Decoder(0, false, true, |body|, body), "")
    ensures var p := Decode(d, a, max);
            && !p.Failed? && p.d.body <= body && p.d.written == |p.d.body|
            && (p.Complete? ==> p.d.body == body)
  {
    var p := Decode(d, a, max);
    DecodeExtends(d, a, b, max);
    DecodeCounts(d, a, max);
    if p.Waiting? { DecodeCounts(p.d, p.rest + b, max); }
  }

  lemma CutWholeDecodes(d: Decoder, s: string, body: string, cut: nat, max: nat)
    requires AtSize(d) && d.written == 0 && d.body == "" && cut <= |s| && DecodeWhole(s, max) == Whole(body, "")
    ensures var p := Decode(d, s[..cut], max);
            && !p.Failed? && p.d.body <= body && p.d.written == |p.d.body|
            && (p.Complete? ==> p.d.body == body)
  {
    WholeDecodesFrom(d, s, body, max);
    var a, b := s[..cut], s[cut..];
    assert s == a + b;
    CutDecodes(d, a, b, body, max);
  }

  /** However little of a complete coding has arrived, the resumable decoder has a prefix of the body
      and no complaint. */
  lemma CutDecodesToPrefix(blocks: seq<string>, cut: nat, max: nat)
    requires Small(blocks) && |Flat(blocks)| <= max && cut <= |Encode(blocks) + TERMINATOR|
    ensures var p := Decode(START, (Encode(blocks) + TERMINATOR)[..cut], max);
            && !p.Failed? && p.d.body <= Flat(blocks) && p.d.written == |p.d.body|
            && (p.Complete? ==> p.d.body == Flat(blocks))
  {
    WriterRoundTrip(blocks, "", max);
    assert TERMINATOR + "" == TERMINATOR;
    CutWholeDecodes(START, Encode(blocks) + TERMINATOR, Flat(blocks), cut, max);
  }

  lemma HexLength(n: nat)
    requires n <= 61440
    ensures |ToHex(n)| <= 4
  {
    var a, b, c := n / 16, n / 16 / 16, n / 16 / 16 / 16;
    assert |ToHex(c)| == 1;
    assert |ToHex(b)| <= 2;
    assert |ToHex(a)| <= 3;
  }

  /** A chunk of one read adds at most eight bytes of framing. */
  lemma FramingIsSmall(data: string)
    requires |data| <= 61440
    ensures |Chunk(data)| <= |data| + 8
  {
    HexLength(|data|);
  }

  lemma EncodeOneMore(blocks: seq<string>, data: string)
    ensures Encode(blocks + [data]) == Encode(blocks) + Chunk(data)
    ensures Flat(blocks + [data]) == Flat(blocks) + data
  {
    assert (blocks + [data])[..|blocks|] == blocks;
  }

  function SizeLine(data: string): string { ToHex(|data|) + "\r\n" }

  /** The three appends of `writeChunk`, each of which may meet the buffer's limit. */
  function AppendChunk(out: string, data: string, limit: nat): (r: Buffers.Appended)
    ensures |out| <= limit ==> |r.out| <= limit
  {
    if data == "" then Buffers.Appended(out, false)
    else if !Buffers.Room(out, SizeLine(data), limit) then Buffers.Appended(out, true)
    else if !Buffers.Room(out + SizeLine(data), data, limit) then Buffers.Appended(out + SizeLine(data), true)
    else if !Buffers.Room(out + SizeLine(data) + data, "\r\n", limit) then Buffers.Appended(out + SizeLine(data) + data, true)
    else Buffers.Appended(out + SizeLine(data) + data + "\r\n", false)
  }

  /** Nothing is thrown exactly when the whole chunk fits; otherwise a proper prefix of it stays. */
  lemma ChunkFitsOrIsCut(out: string, data: string, limit: nat)
    ensures var r := AppendChunk(out, data, limit);
            && (r.thrown <==> Chunk(data) != "" && |out| + |Chunk(data)| > limit)
            && r.out <= out + Chunk(data) && (!r.thrown ==> r.out == out + Chunk(data))
  {
    if data != "" {
      var line := SizeLine(data);
      assert Chunk(data) == line + data + "\r\n";
      assert out + line + data + "\r\n" == out + Chunk(data);
    }
  }

  // ----------------------------------------------------- closing a cut chunk

  /** What `room` bytes take of a chunk. */
  function Fitted(data: string, room: int): string
  {
    if data == "" || room < |SizeLine(data)| then ""
    else if room < |SizeLine(data)| + |data| then SizeLine(data)
    else if room < |Chunk(data)| then SizeLine(data) + data
    else Chunk(data)
  }

  lemma AppendsWhatFits(out: string, data: string, limit: nat)
    requires |out| <= limit
    ensures AppendChunk(out, data, limit).out == out + Fitted(data, limit - |out|)
    ensures AppendChunk(out, data, limit).thrown <==> Fitted(data, limit - |out|) != Chunk(data)
  {
    ChunkFitsOrIsCut(out, data, limit);
    if data != "" {
      Assoc(out, SizeLine(data), data);
      assert Chunk(data) == SizeLine(data) + data + "\r\n";
    }
  }

  /** A chunk that was cut behind its size line and closed with the terminator is misread: the decoder
      takes the terminator for data the program never wrote, without an error. */
  lemma CutChunkIsMisread(data: string, max: nat)
    requires 5 <= |data| <= MAX_ALLOWED_CHUNK && 5 <= max
    ensures var p := Decode(START, SizeLine(data) + TERMINATOR, max);
            p.Waiting? && p.d.body == TERMINATOR && (p.d.trailing <==> |data| == 5)
    ensures DecodeWhole(SizeLine(data) + TERMINATOR, max) == Partial(TERMINATOR)
  {
    var n := |data|;
    var d := START.(chunkSize := n);
    SizeLineReadsBack(n, TERMINATOR);
    assert SizeLine(data) + TERMINATOR == ToHex(n) + "\r\n" + TERMINATOR;
    assert "" + TERMINATOR[..5] == TERMINATOR && TERMINATOR[5..] == "";
  }

  /** Exactly when a body of which the last chunk was cut by the limit, and which was closed with the
      terminator all the same, is read as what was written before: when not even the size line fitted.
      Otherwise the client waits for more, and has taken the terminator for data. */
  lemma CutBodyIsReadIff(blocks: seq<string>, data: string, room: nat, max: nat)
    requires Small(blocks) && |data| <= MAX_ALLOWED_CHUNK && |Flat(blocks)| + 5 <= max
    requires Fitted(data, room) != Chunk(data) && |Fitted(data, room)| + |TERMINATOR| <= room
    ensures DecodeWhole(Encode(blocks) + (Fitted(data, room) + TERMINATOR), max) ==
            if room < |SizeLine(data)| then Whole(Flat(blocks), "") else Partial(Flat(blocks) + TERMINATOR)
  {
    EncodeDecodes(blocks, Fitted(data, room) + TERMINATOR, max);
    CutChunkIsReadIff(data, room, max - |Flat(blocks)|);
    PrependEnds(Flat(blocks), "");
  }

  lemma CutChunkIsReadIff(data: string, room: nat, max: nat)
    requires |data| <= MAX_ALLOWED_CHUNK && 5 <= max
    requires Fitted(data, room) != Chunk(data) && |Fitted(data, room)| + |TERMINATOR| <= room
    ensures DecodeWhole(Fitted(data, room) + TERMINATOR, max) ==
            if room < |SizeLine(data)| then Whole("", "") else Partial(TERMINATOR)
  {
    if room < |SizeLine(data)| {
      assert "" + TERMINATOR == TERMINATOR == TERMINATOR + "";
      TerminatorDecodes("", max);
    } else {
      CutChunkIsMisread(data, max);
    }
  }

  method WriteChunk(wb: Buffers.Buffer, data: string) returns (thrown: bool)
    requires wb.Valid()
    modifies wb
    ensures wb.Valid() && wb.cmbs == old(wb.cmbs)
    ensures Buffers.Appended(wb.Contents(), thrown) == AppendChunk(old(wb.Contents()), data, wb.cmbs)
  {
    thrown := false;
    if |data| == 0 { return; }
    thrown := wb.Append(SizeLine(data));
    if thrown { return; }
    thrown := wb.Append(data);
    if thrown { return; }
    thrown := wb.Append("\r\n");
  }
}
