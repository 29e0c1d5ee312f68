/** Finding the character card in a PNG: the walk over its chunks and the three kinds of text chunk. */
module PngChara {
  import opened Wrappers
  import opened Bytes

  const SIGNATURE: Buffer := [0x89, 0x50, 0x4E, 0x47, 0x0D, 0x0A, 0x1A, 0x0A]
  const IEND: Buffer := [0x49, 0x45, 0x4E, 0x44]
  const PLAIN: Buffer := [0x74, 0x45, 0x58, 0x74]
  const COMPRESSED: Buffer := [0x7A, 0x54, 0x58, 0x74]
  const INTERNATIONAL: Buffer := [0x69, 0x54, 0x58, 0x74]
  const CHARA: Buffer := [0x63, 0x68, 0x61, 0x72, 0x61]
  const CCV3: Buffer := [0x63, 0x63, 0x76, 0x33]

  /** A chunk as the walk sees it. */
  datatype Chunk = Chunk(kind: Buffer, data: Buffer)

  /** Text in one of the two encodings chunks use. */
  datatype Text = Latin1(bytes: Buffer) | Utf8(bytes: Buffer)

  datatype Reading = Value(text: Text) | NoValue | Throws

  /** `Chara` is the text handed on to the base64 and JSON decoding, with its keyword. */
  datatype Info = NotPng | NoData | Chara(keyword: Buffer, text: Text) | DecodeFailed(kind: Buffer)

  /** inflateSync; None when it throws. */
  type Inflate = Buffer -> Option<Buffer>

  // ---------------------------------------------------------------------------------------------
  // Text chunks
  // ---------------------------------------------------------------------------------------------

  /** Decoding as "ascii" drops the high bit of every byte. */
  function Ascii(b: Buffer): (r: Buffer)
    ensures |r| == |b|
  {
    seq(|b|, i requires 0 <= i < |b| => b[i] % 0x80)
  }

  function IndexOf(b: Buffer, c: Byte, from: nat): (r: Option<nat>)
    ensures r.Some? ==> from <= r.value < |b| && b[r.value] == c && forall i :: from <= i < r.value ==> b[i] != c
    ensures r.None? ==> forall i :: from <= i < |b| ==> b[i] != c
    decreases |b| - from
  {
    if from >= |b| then None else if b[from] == c then Some(from) else IndexOf(b, c, from + 1)
  }

  /** `subarray(from)` */
  function From(b: Buffer, from: nat): Buffer {
    if from <= |b| then b[from..] else []
  }

  function Inflated(inflate: Inflate, b: Buffer, utf8: bool): Reading {
    match inflate(b)
    case None => Throws
    case Some(bytes) => Value(if utf8 then Utf8(bytes) else Latin1(bytes))
  }

  /** decodeTextChunk */
  function DecodeTextChunk(inflate: Inflate, kind: Buffer, data: Buffer, nullIdx: nat): Reading
    requires nullIdx < |data|
  {
    if kind == PLAIN then Value(Latin1(data[nullIdx + 1..]))
    else if kind == COMPRESSED then Inflated(inflate, From(data, nullIdx + 2), false)
    else
      var compressed := nullIdx + 1 < |data| && data[nullIdx + 1] != 0;
      var afterFlags := From(data, nullIdx + 3);
      match IndexOf(afterFlags, 0, 0)
      case None => NoValue
      case Some(langEnd) =>
        match IndexOf(afterFlags, 0, langEnd + 1)
        case None => NoValue
        case Some(keyEnd) =>
          if compressed then Inflated(inflate, afterFlags[keyEnd + 1..], true)
          else Value(Utf8(afterFlags[keyEnd + 1..]))
  }

  predicate IsText(kind: Buffer) {
    kind == PLAIN || kind == COMPRESSED || kind == INTERNATIONAL
  }

  function Keyword(c: Chunk): Option<Buffer> {
    match IndexOf(c.data, 0, 0)
    case None => None
    case Some(n) => Some(Ascii(c.data[..n]))
  }

  /** A text chunk under one of the two keywords. */
  predicate Card(c: Chunk) {
    IsText(Ascii(c.kind)) && Keyword(c).Some? && (Keyword(c).value == CHARA || Keyword(c).value == CCV3)
  }

  /** What the walk makes of one chunk. */
  function Read(inflate: Inflate, c: Chunk): Reading {
    if Card(c) then DecodeTextChunk(inflate, Ascii(c.kind), c.data, IndexOf(c.data, 0, 0).value) else NoValue
  }

  // ---------------------------------------------------------------------------------------------
  // The first chunk that settles it
  // ---------------------------------------------------------------------------------------------

  function Settle(c: Chunk, reading: Reading): Info
    requires Card(c) && !reading.NoValue?
  {
    if reading.Throws? then DecodeFailed(Ascii(c.kind)) else Chara(Keyword(c).value, reading.text)
  }

  function Pick(inflate: Inflate, chunks: seq<Chunk>): Info {
    if chunks == [] || Ascii(chunks[0].kind) == IEND then NoData
    else
      var reading := Read(inflate, chunks[0]);
      if reading.NoValue? then Pick(inflate, chunks[1..]) else Settle(chunks[0], reading)
  }

  /** Chunks the walk passes. */
  ghost predicate Passed(inflate: Inflate, chunks: seq<Chunk>) {
    forall c :: c in chunks ==> Ascii(c.kind) != IEND && Read(inflate, c).NoValue?
  }

  lemma {:induction false} PickPast(inflate: Inflate, before: seq<Chunk>, after: seq<Chunk>)
    requires Passed(inflate, before)
    ensures Pick(inflate, before + after) == Pick(inflate, after)
    decreases |before|
  {
    if before == [] {
      assert before + after == after;
    } else {
      assert before[0] in before;
      PickPast(inflate, before[1..], after);
      assert (before + after)[1..] == before[1..] + after;
    }
  }

  lemma {:induction false} PickStops(inflate: Inflate, chunks: seq<Chunk>, i: nat)
    requires i < |chunks| && Ascii(chunks[i].kind) == IEND
    ensures Pick(inflate, chunks) == Pick(inflate, chunks[..i])
    decreases i
  {
    if i > 0 {
      PickStops(inflate, chunks[1..], i - 1);
      assert chunks[1..][..i - 1] == chunks[..i][1..];
    }
  }

  ghost predicate Decodable(inflate: Inflate, c: Chunk) {
    Ascii(c.kind) != IEND && Read(inflate, c).Value?
  }

  lemma {:induction false} ThrowIsFinal(inflate: Inflate, before: seq<Chunk>, rest: seq<Chunk>, k: nat)
    requires forall d :: d in before ==> Ascii(d.kind) != IEND && !Decodable(inflate, d)
    requires k < |before| && Read(inflate, before[k]).Throws?
    ensures Pick(inflate, before + rest).DecodeFailed?
  {
    hide Read, Ascii, Card;
    assert before[0] in before && (before + rest)[1..] == before[1..] + rest;
    if !Read(inflate, before[0]).Throws? { ThrowIsFinal(inflate, before[1..], rest, k - 1); }
  }

  /** The first decodable card before IEND is what the walk finds, exactly when no card before it makes
      inflate throw. */
  lemma FirstDecodable(inflate: Inflate, before: seq<Chunk>, c: Chunk, after: seq<Chunk>)
    requires forall d :: d in before ==> Ascii(d.kind) != IEND && !Decodable(inflate, d)
    requires Decodable(inflate, c)
    ensures Pick(inflate, before + ([c] + after)) == Chara(Keyword(c).value, Read(inflate, c).text)
       <==> forall d :: d in before ==> !Read(inflate, d).Throws?
  {
    if d :| d in before && Read(inflate, d).Throws? {
      var k :| 0 <= k < |before| && before[k] == d;
      ThrowIsFinal(inflate, before, [c] + after, k);
    } else {
      PickPast(inflate, before, [c] + after);
    }
  }

  /** A card that cannot be inflated hides a readable one behind it. */
  lemma BrokenCardHidesNext()
    ensures var broken := Chunk(COMPRESSED, CHARA + [0, 0, 0x21]);
            var good := Chunk(PLAIN, CHARA + [0, 0x65]);
            var inflate := (b: Buffer) => None;
            Decodable(inflate, good) && Pick(inflate, [broken] + ([good] + [])) == DecodeFailed(COMPRESSED)
  {
    var broken := Chunk(COMPRESSED, CHARA + [0, 0, 0x21]);
    var good := Chunk(PLAIN, CHARA + [0, 0x65]);
    KeywordOf(CHARA, [0, 0x21]);
    KeywordOf(CHARA, [0x65]);
    assert CHARA + [0] + [0, 0x21] == broken.data && CHARA + [0] + [0x65] == good.data;
    assert Ascii(COMPRESSED) == COMPRESSED && Ascii(PLAIN) == PLAIN;
  }

  /** The keyword written before the first zero is the keyword read. */
  lemma KeywordOf(keyword: Buffer, rest: Buffer)
    requires forall b :: b in keyword ==> 0 < b < 0x80
    ensures IndexOf(keyword + [0] + rest, 0, 0) == Some(|keyword|)
    ensures Ascii((keyword + [0] + rest)[..|keyword|]) == keyword
  {
    var data := keyword + [0] + rest;
    assert data[|keyword|] == 0;
    assert forall i :: 0 <= i < |keyword| ==> data[i] == keyword[i] && keyword[i] in keyword;
    assert data[..|keyword|] == keyword;
  }

  // ---------------------------------------------------------------------------------------------
  // Writing text chunks, and reading them back
  // ---------------------------------------------------------------------------------------------

  lemma CardOf(kind: Buffer, keyword: Buffer, rest: Buffer)
    requires IsText(kind) && (keyword == CHARA || keyword == CCV3)
    ensures var c := Chunk(kind, keyword + [0] + rest);
            Card(c) && Keyword(c) == Some(keyword) && Ascii(kind) == kind && Ascii(kind) != IEND
            && IndexOf(c.data, 0, 0) == Some(|keyword|)
  {
    KeywordOf(keyword, rest);
    assert Ascii(kind) == kind;
  }

  /** Sections 11.3.3.2 to 11.3.3.4 of the PNG specification: what is written under a card keyword, plain,
      deflated or international, is what the walk reads. */
  lemma PlainReadsBack(inflate: Inflate, keyword: Buffer, value: Buffer)
    requires keyword == CHARA || keyword == CCV3
    ensures Read(inflate, Chunk(PLAIN, keyword + [0] + value)) == Value(Latin1(value))
  {
    CardOf(PLAIN, keyword, value);
    assert (keyword + [0] + value)[|keyword| + 1..] == value;
  }

  lemma CompressedReadsBack(inflate: Inflate, keyword: Buffer, deflated: Buffer, value: Buffer)
    requires (keyword == CHARA || keyword == CCV3) && inflate(deflated) == Some(value)
    ensures Read(inflate, Chunk(COMPRESSED, keyword + [0] + ([0] + deflated))) == Value(Latin1(value))
  {
    CardOf(COMPRESSED, keyword, [0] + deflated);
    assert (keyword + [0] + ([0] + deflated))[|keyword| + 2..] == deflated;
  }

  /** A field ended by a zero, and what follows. */
  function Ended(field: Buffer, rest: Buffer): Buffer {
    field + ([0] + rest)
  }

  /** The content of an international text chunk after its keyword. */
  function International(flag: Byte, language: Buffer, translated: Buffer, text: Buffer): Buffer {
    [flag, 0] + Ended(language, Ended(translated, text))
  }

  lemma DecodeInternational(inflate: Inflate, data: Buffer, nullIdx: nat, flag: Byte, language: Buffer,
                            translated: Buffer, text: Buffer)
    requires 0 !in language && 0 !in translated && nullIdx + 1 < |data| && data[nullIdx + 1] == flag
    requires From(data, nullIdx + 3) == Ended(language, Ended(translated, text))
    ensures DecodeTextChunk(inflate, INTERNATIONAL, data, nullIdx)
         == if flag == 0 then Value(Utf8(text)) else Inflated(inflate, text, true)
  {
    hide Ended, IndexOf, From;
    TwoZeros(language, translated, text);
  }

  lemma InternationalReadsBack(inflate: Inflate, keyword: Buffer, flag: Byte, language: Buffer, translated: Buffer,
                               text: Buffer)
    requires (keyword == CHARA || keyword == CCV3) && 0 !in language && 0 !in translated
    ensures Read(inflate, Chunk(INTERNATIONAL, keyword + [0] + International(flag, language, translated, text)))
         == if flag == 0 then Value(Utf8(text)) else Inflated(inflate, text, true)
  {
    hide Ended, IndexOf, Card, Ascii, From, DecodeTextChunk, Inflated;
    var rest := International(flag, language, translated, text);
    CardOf(INTERNATIONAL, keyword, rest);
    AfterFlags(keyword, flag, Ended(language, Ended(translated, text)));
    DecodeInternational(inflate, keyword + [0] + rest, |keyword|, flag, language, translated, text);
  }

  lemma AfterFlags(keyword: Buffer, flag: Byte, afterFlags: Buffer)
    ensures var data := keyword + [0] + ([flag, 0] + afterFlags);
            data[|keyword| + 1] == flag && From(data, |keyword| + 3) == afterFlags
  {}

  lemma FirstZero(field: Buffer, rest: Buffer)
    requires 0 !in field
    ensures var b := Ended(field, rest);
            |b| == |field| + 1 + |rest| && IndexOf(b, 0, 0) == Some(|field|) && b[|field| + 1..] == rest
  {
    var b := Ended(field, rest);
    assert b[|field|] == 0 && forall i :: 0 <= i < |field| ==> b[i] == field[i];
  }

  lemma IndexFrom(b: Buffer, from: nat)
    requires from <= |b|
    ensures var r := IndexOf(b[from..], 0, 0);
            IndexOf(b, 0, from) == if r.None? then None else Some(from + r.value)
  {
    assert forall i :: from <= i < |b| ==> b[i] == b[from..][i - from];
  }

  lemma TwoZeros(language: Buffer, translated: Buffer, text: Buffer)
    requires 0 !in language && 0 !in translated
    ensures var b := Ended(language, Ended(translated, text));
            var n := |language| + 1 + |translated|;
            && n < |b| && IndexOf(b, 0, 0) == Some(|language|) && IndexOf(b, 0, |language| + 1) == Some(n)
            && b[n + 1..] == text
  {
    hide IndexOf, Ended;
    var rest := Ended(translated, text);
    var b := Ended(language, rest);
    FirstZero(language, rest);
    FirstZero(translated, text);
    IndexFrom(b, |language| + 1);
    assert b[|language| + 1..][|translated| + 1..] == b[|language| + 1 + |translated| + 1..];
  }

  // ---------------------------------------------------------------------------------------------
  // The walk over the bytes
  // ---------------------------------------------------------------------------------------------

  function Clamp(n: nat, limit: nat): nat {
    if n <= limit then n else limit
  }

  /** The chunk at `offset`; a length beyond the buffer is cut to it. */
  function ChunkAt(b: Buffer, offset: nat): Chunk
    requires offset + 12 <= |b|
  {
    Chunk(b[offset + 4..offset + 8], b[offset + 8..Clamp(offset + 8 + Be32(b, offset), |b|)])
  }

  function Chunks(b: Buffer, offset: nat): seq<Chunk>
    decreases |b| - offset
  {
    if offset + 12 > |b| then [] else [ChunkAt(b, offset)] + Chunks(b, offset + 12 + Be32(b, offset))
  }

  lemma NextChunk(inflate: Inflate, b: Buffer, offset: nat)
    requires offset + 12 <= |b|
    ensures var c, rest := ChunkAt(b, offset), Chunks(b, offset + 12 + Be32(b, offset));
            Pick(inflate, Chunks(b, offset))
              == if Ascii(c.kind) == IEND then NoData
                 else if Read(inflate, c).NoValue? then Pick(inflate, rest) else Settle(c, Read(inflate, c))
  {
    hide Read, Ascii, IsText, Be32, ChunkAt;
    assert Chunks(b, offset)[1..] == Chunks(b, offset + 12 + Be32(b, offset));
  }

  lemma SignatureAtStart(b: Buffer)
    ensures SIGNATURE <= b <==> |b| >= 8 && b[..8] == SIGNATURE
  {
    SignatureLength();
  }

  /** readPNGCharaName, up to the base64 and JSON decoding. */
  method ReadPngCharaName(inflate: Inflate, b: Buffer) returns (info: Info)
    ensures info == if SIGNATURE <= b then Pick(inflate, Chunks(b, 8)) else NotPng
  {
    hide *;
    SignatureAtStart(b);
    if !(|b| >= 8 && b[..8] == SIGNATURE) { return NotPng; }
    var offset := 8;
    while offset + 12 <= |b|
      invariant Pick(inflate, Chunks(b, offset)) == Pick(inflate, Chunks(b, 8))
      decreases |b| - offset
    {
      NextChunk(inflate, b, offset);
      var chunk := ChunkAt(b, offset);
      offset := offset + 12 + Be32(b, offset);
      if Ascii(chunk.kind) == IEND { return NoData; }
      var reading := Read(inflate, chunk);
      if !reading.NoValue? {
        ReadIsCard(inflate, chunk);
        return Settle(chunk, reading);
      }
    }
    NoneLeft(inflate, b, offset);
    return NoData;
  }

  lemma NoneLeft(inflate: Inflate, b: Buffer, offset: nat)
    requires offset + 12 > |b|
    ensures Pick(inflate, Chunks(b, offset)) == NoData
  {}

  lemma ReadIsCard(inflate: Inflate, c: Chunk)
    ensures !Read(inflate, c).NoValue? ==> Card(c)
  {}

  // ---------------------------------------------------------------------------------------------
  // Encoded chunk lists
  // ---------------------------------------------------------------------------------------------

  /** A chunk as it is stored, with any checksum; section 5.3 of the PNG specification. */
  datatype Stored = Stored(chunk: Chunk, crc: Buffer)

  ghost predicate Storable(s: Stored) {
    |s.chunk.kind| == 4 && |s.crc| == 4 && |s.chunk.data| < LIMIT
  }

  ghost function Encode(s: Stored): (b: Buffer)
    requires Storable(s)
    ensures |b| == 12 + |s.chunk.data|
  {
    Be32Of(|s.chunk.data|) + s.chunk.kind + s.chunk.data + s.crc
  }

  ghost function EncodeAll(list: seq<Stored>): Buffer
    requires forall s :: s in list ==> Storable(s)
  {
    if list == [] then [] else Encode(list[0]) + EncodeAll(list[1..])
  }

  function Plain(list: seq<Stored>): seq<Chunk> {
    if list == [] then [] else [list[0].chunk] + Plain(list[1..])
  }

  lemma EncodedFirst(s: Stored, rest: Buffer)
    requires Storable(s)
    ensures var b := Encode(s) + rest; ChunkAt(b, 0) == s.chunk && Be32(b, 0) == |s.chunk.data|
  {
    var b, n := Encode(s) + rest, |s.chunk.data|;
    assert b[0..4] == Be32Of(n) && b[4..8] == s.chunk.kind && b[8..8 + n] == s.chunk.data;
    Be32RoundTrip(n, b, 0);
  }

  lemma Shifted(b: Buffer, offset: nat)
    requires offset + 12 <= |b|
    ensures ChunkAt(b[offset..], 0) == ChunkAt(b, offset) && Be32(b[offset..], 0) == Be32(b, offset)
  {
    var end := Clamp(offset + 8 + Be32(b, offset), |b|);
    assert b[offset..][4..8] == b[offset + 4..offset + 8] && b[offset..][8..end - offset] == b[offset + 8..end];
  }

  lemma SeesOne(b: Buffer, offset: nat, s: Stored, rest: Buffer)
    requires Storable(s) && offset <= |b| && b[offset..] == Encode(s) + rest
    ensures offset + 12 + |s.chunk.data| <= |b|
    ensures ChunkAt(b, offset) == s.chunk && Be32(b, offset) == |s.chunk.data|
    ensures b[offset + 12 + |s.chunk.data|..] == rest
  {
    hide Be32, ChunkAt, Encode;
    EncodedFirst(s, rest);
    Shifted(b, offset);
    var n := |Encode(s)|;
    assert b[offset + n..] == b[offset..][n..] && (Encode(s) + rest)[n..] == rest;
  }

  /** The walk sees exactly the chunks that were written, then whatever the tail looks like. */
  lemma {:induction false} SeesWhatWasWritten(b: Buffer, offset: nat, list: seq<Stored>, tail: Buffer)
    requires forall s :: s in list ==> Storable(s)
    requires offset <= |b| && b[offset..] == EncodeAll(list) + tail
    ensures Chunks(b, offset) == Plain(list) + Chunks(b, |b| - |tail|)
    decreases |list|
  {
    hide Be32, ChunkAt, Encode;
    if list == [] {
      assert b[offset..] == tail;
    } else {
      var s, rest := list[0], EncodeAll(list[1..]) + tail;
      assert s in list && b[offset..] == Encode(s) + rest;
      SeesOne(b, offset, s, rest);
      SeesWhatWasWritten(b, offset + 12 + |s.chunk.data|, list[1..], tail);
    }
  }

  /** Whatever follows IEND changes nothing. */
  lemma PickCut(inflate: Inflate, chunks: seq<Chunk>, rest: seq<Chunk>)
    requires chunks != [] && Ascii(chunks[|chunks| - 1].kind) == IEND
    ensures Pick(inflate, chunks + rest) == Pick(inflate, chunks)
  {
    hide Pick;
    PickStops(inflate, chunks + rest, |chunks| - 1);
    PickStops(inflate, chunks, |chunks| - 1);
    assert (chunks + rest)[..|chunks| - 1] == chunks[..|chunks| - 1];
  }

  lemma ShortTail(b: Buffer, offset: nat)
    requires offset + 12 > |b|
    ensures Chunks(b, offset) == []
  {}

  lemma SliceAfter(before: Buffer, content: Buffer, tail: Buffer)
    ensures (before + content + tail)[|before|..] == content + tail
  {}

  /** What follows the written chunks does not matter. */
  lemma TailDoesNotMatter(inflate: Inflate, list: seq<Stored>, b: Buffer, offset: nat)
    requires offset <= |b|
    requires |b| - offset < 12 || (list != [] && Ascii(list[|list| - 1].chunk.kind) == IEND)
    ensures Pick(inflate, Plain(list) + Chunks(b, offset)) == Pick(inflate, Plain(list))
  {
    hide *;
    if |b| - offset < 12 {
      ShortTail(b, offset);
      assert Plain(list) + [] == Plain(list);
    } else {
      PlainAt(list, |list| - 1);
      PickCut(inflate, Plain(list), Chunks(b, offset));
    }
  }

  lemma WrittenAfter(inflate: Inflate, before: Buffer, list: seq<Stored>, tail: Buffer)
    requires forall s :: s in list ==> Storable(s)
    requires |tail| < 12 || (list != [] && Ascii(list[|list| - 1].chunk.kind) == IEND)
    ensures Pick(inflate, Chunks(before + EncodeAll(list) + tail, |before|)) == Pick(inflate, Plain(list))
  {
    hide *;
    var b := before + EncodeAll(list) + tail;
    SliceAfter(before, EncodeAll(list), tail);
    SeesWhatWasWritten(b, |before|, list, tail);
    TailDoesNotMatter(inflate, list, b, |b| - |tail|);
  }

  lemma SignatureLength()
    ensures |SIGNATURE| == 8
  {}

  /** Reading a written PNG: its chunks decide, if they end with IEND or nothing worth a chunk follows. */
  lemma WrittenPng(inflate: Inflate, list: seq<Stored>, tail: Buffer)
    requires forall s :: s in list ==> Storable(s)
    requires |tail| < 12 || (list != [] && Ascii(list[|list| - 1].chunk.kind) == IEND)
    ensures Pick(inflate, Chunks(SIGNATURE + EncodeAll(list) + tail, 8)) == Pick(inflate, Plain(list))
  {
    hide *;
    SignatureLength();
    WrittenAfter(inflate, SIGNATURE, list, tail);
  }

  lemma {:induction false} PlainAt(list: seq<Stored>, i: nat)
    requires i < |list|
    ensures |Plain(list)| == |list| && Plain(list)[i] == list[i].chunk
  {
    if |list| > 1 { PlainAt(list[1..], if i == 0 then 0 else i - 1); }
  }
}
