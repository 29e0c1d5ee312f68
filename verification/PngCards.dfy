/** Which chunks of a PNG count as character cards, byte by byte, and that nothing else in the file matters. */
module PngCards {
  import opened Wrappers
  import opened Bytes
  import opened PngChara

  /** The bytes read as this ASCII text once their high bits are dropped. */
  ghost predicate Spells(b: Buffer, text: Buffer) {
    |b| == |text| && forall i :: 0 <= i < |b| ==> b[i] % 0x80 == text[i]
  }

  /** "tEXt", "zTXt" or "iTXt" */
  ghost predicate TextKind(kind: Buffer) {
    || Spells(kind, [0x74, 0x45, 0x58, 0x74])
    || Spells(kind, [0x7A, 0x54, 0x58, 0x74])
    || Spells(kind, [0x69, 0x54, 0x58, 0x74])
  }

  /** "chara" or "ccv3" */
  ghost predicate CardWord(word: Buffer) {
    Spells(word, [0x63, 0x68, 0x61, 0x72, 0x61]) || Spells(word, [0x63, 0x63, 0x76, 0x33])
  }

  /** The data up to its first zero byte, if it has one. */
  ghost predicate Leads(word: Buffer, data: Buffer) {
    |word| < |data| && data[|word|] == 0 && data[..|word|] == word && 0 !in word
  }

  lemma AsciiSpells(b: Buffer, text: Buffer)
    ensures Ascii(b) == text <==> Spells(b, text)
  {
    if Spells(b, text) { assert forall i :: 0 <= i < |b| ==> Ascii(b)[i] == text[i]; }
  }

  lemma KindExactly(kind: Buffer)
    ensures IsText(Ascii(kind)) <==> TextKind(kind)
    ensures Ascii(kind) == IEND <==> Spells(kind, [0x49, 0x45, 0x4E, 0x44])
  {
    AsciiSpells(kind, [0x74, 0x45, 0x58, 0x74]);
    AsciiSpells(kind, [0x7A, 0x54, 0x58, 0x74]);
    AsciiSpells(kind, [0x69, 0x54, 0x58, 0x74]);
    AsciiSpells(kind, [0x49, 0x45, 0x4E, 0x44]);
    hide Ascii, Spells;
  }

  lemma WordExactly(c: Chunk, word: Buffer)
    requires Leads(word, c.data)
    ensures Keyword(c) == Some(Ascii(word)) && IndexOf(c.data, 0, 0) == Some(|word|)
  {
    var n := IndexOf(c.data, 0, 0).value;
    assert forall i :: 0 <= i < |word| ==> c.data[i] == word[i] && word[i] in word;
    assert n == |word|;
    hide Ascii, IndexOf;
  }

  lemma NoWord(c: Chunk)
    requires forall word :: !Leads(word, c.data)
    ensures Keyword(c).None?
  {
    if Keyword(c).Some? {
      var n := IndexOf(c.data, 0, 0).value;
      assert Leads(c.data[..n], c.data);
    }
  }

  lemma CardWordExactly(word: Buffer)
    ensures Ascii(word) == CHARA || Ascii(word) == CCV3 <==> CardWord(word)
  {
    AsciiSpells(word, [0x63, 0x68, 0x61, 0x72, 0x61]);
    AsciiSpells(word, [0x63, 0x63, 0x76, 0x33]);
    hide Ascii, Spells;
  }

  /** A chunk is a card exactly if its type is "tEXt", "zTXt" or "iTXt" and "chara" or "ccv3" stands before the first
      zero byte of its data; the walk takes nothing from any other chunk. */
  lemma CardExactly(inflate: Inflate, c: Chunk)
    ensures Card(c) <==> TextKind(c.kind) && exists word :: Leads(word, c.data) && CardWord(word)
    ensures !(TextKind(c.kind) && exists word :: Leads(word, c.data) && CardWord(word)) ==> Read(inflate, c).NoValue?
  {
    KindExactly(c.kind);
    if word :| Leads(word, c.data) {
      WordExactly(c, word);
      CardWordExactly(word);
      forall other | Leads(other, c.data) ensures other == word { OneWord(other, word, c.data); }
    } else {
      NoWord(c);
    }
    hide Ascii, IsText, TextKind, CardWord, Keyword, DecodeTextChunk, Leads;
  }

  lemma OneWord(a: Buffer, b: Buffer, data: Buffer)
    requires Leads(a, data) && Leads(b, data)
    ensures a == b
  {
    NoZeroWithin(a, data);
    NoZeroWithin(b, data);
  }

  lemma NoZeroWithin(word: Buffer, data: Buffer)
    requires Leads(word, data)
    ensures forall k :: 0 <= k < |word| ==> data[k] != 0
  {
    forall k | 0 <= k < |word| ensures data[k] != 0 { assert data[k] == word[k] && word[k] in word; }
  }

  /** A chunk that the walk passes by: neither IEND nor a card. */
  ghost predicate Other(c: Chunk) {
    && !Spells(c.kind, [0x49, 0x45, 0x4E, 0x44])
    && !(TextKind(c.kind) && exists word :: Leads(word, c.data) && CardWord(word))
  }

  lemma OtherPasses(inflate: Inflate, c: Chunk)
    requires Other(c)
    ensures Ascii(c.kind) != IEND && Read(inflate, c).NoValue?
  {
    KindExactly(c.kind);
    CardExactly(inflate, c);
    hide Ascii, Read, TextKind, Leads, CardWord, Spells;
  }

  // ---------------------------------------------------------------------------------------------
  // What a card says
  // ---------------------------------------------------------------------------------------------

  lemma CardData(kind: Buffer, word: Buffer, rest: Buffer, name: Buffer)
    requires CardWord(word) && 0 !in word && IsText(name) && Spells(kind, name)
    ensures var c := Chunk(kind, word + [0] + rest);
            && Card(c) && Ascii(kind) == name && IndexOf(c.data, 0, 0) == Some(|word|)
            && Keyword(c) == Some(Ascii(word)) && |word| < |c.data| && c.data[|word| + 1..] == rest
  {
    var c := Chunk(kind, word + [0] + rest);
    AsciiSpells(kind, name);
    CardWordExactly(word);
    assert c.data[..|word|] == word;
    WordExactly(c, word);
    hide Ascii, CardWord, Leads, Spells, IndexOf;
  }

  /** A plain card says what follows its keyword, whatever that is. */
  lemma PlainReads(inflate: Inflate, kind: Buffer, word: Buffer, rest: Buffer)
    requires CardWord(word) && 0 !in word && Spells(kind, [0x74, 0x45, 0x58, 0x74])
    ensures Read(inflate, Chunk(kind, word + [0] + rest)) == Value(Latin1(rest))
  {
    CardData(kind, word, rest, [0x74, 0x45, 0x58, 0x74]);
    hide Card, Ascii, IndexOf;
  }

  /** A deflated card says what its data inflates to behind the method byte, or throws. */
  lemma CompressedReads(inflate: Inflate, kind: Buffer, word: Buffer, rest: Buffer)
    requires CardWord(word) && 0 !in word && Spells(kind, [0x7A, 0x54, 0x58, 0x74])
    ensures var inflated := inflate(if rest == [] then [] else rest[1..]);
            Read(inflate, Chunk(kind, word + [0] + rest))
              == if inflated.None? then Throws else Value(Latin1(inflated.value))
  {
    CardData(kind, word, rest, [0x7A, 0x54, 0x58, 0x74]);
    var data := word + [0] + rest;
    hide Card, Ascii, IndexOf;
    assert From(data, |word| + 2) == if rest == [] then [] else rest[1..];
  }

  /** What an international card has behind its two flags. */
  function Fields(rest: Buffer): Buffer {
    if |rest| < 2 then [] else rest[2..]
  }

  lemma InternationalIsDecoded(inflate: Inflate, kind: Buffer, word: Buffer, rest: Buffer)
    requires CardWord(word) && 0 !in word && Spells(kind, [0x69, 0x54, 0x58, 0x74])
    ensures var data := word + [0] + rest;
            && Read(inflate, Chunk(kind, data)) == DecodeTextChunk(inflate, INTERNATIONAL, data, |word|)
            && From(data, |word| + 3) == Fields(rest)
            && (|rest| > 0 ==> |word| + 1 < |data| && data[|word| + 1] == rest[0])
  {
    CardData(kind, word, rest, [0x69, 0x54, 0x58, 0x74]);
    hide Card, Ascii, IndexOf, DecodeTextChunk;
  }

  /** An international card says the text behind its language and translated keyword, inflated if its first flag is
      set. */
  lemma InternationalReads(inflate: Inflate, kind: Buffer, word: Buffer, rest: Buffer, language: Buffer,
                           translated: Buffer, text: Buffer)
    requires CardWord(word) && 0 !in word && Spells(kind, [0x69, 0x54, 0x58, 0x74])
    requires 0 !in language && 0 !in translated && Fields(rest) == language + [0] + translated + [0] + text
    ensures var inflated := inflate(text);
            Read(inflate, Chunk(kind, word + [0] + rest))
              == if rest[0] == 0 then Value(Utf8(text))
                 else if inflated.None? then Throws else Value(Utf8(inflated.value))
  {
    InternationalIsDecoded(inflate, kind, word, rest);
    FieldsAre(rest, language, translated, text);
    DecodeInternational(inflate, word + [0] + rest, |word|, rest[0], language, translated, text);
    hide Read, Fields, Ended, From, DecodeTextChunk, Spells, CardWord;
  }

  lemma FieldsAre(rest: Buffer, language: Buffer, translated: Buffer, text: Buffer)
    requires Fields(rest) == language + [0] + translated + [0] + text
    ensures |rest| > 2 && Fields(rest) == Ended(language, Ended(translated, text))
  {}

  /** It says nothing if either field does not end. */
  lemma InternationalCut(inflate: Inflate, kind: Buffer, word: Buffer, rest: Buffer)
    requires CardWord(word) && 0 !in word && Spells(kind, [0x69, 0x54, 0x58, 0x74])
    requires forall i, j :: 0 <= i < j < |Fields(rest)| ==> Fields(rest)[i] != 0 || Fields(rest)[j] != 0
    ensures Read(inflate, Chunk(kind, word + [0] + rest)).NoValue?
  {
    InternationalIsDecoded(inflate, kind, word, rest);
    hide Read, Fields, From;
  }

  // ---------------------------------------------------------------------------------------------
  // Whole files
  // ---------------------------------------------------------------------------------------------

  ghost predicate AllStorable(list: seq<Stored>) {
    forall s :: s in list ==> Storable(s)
  }

  /** The list ends with IEND, or too little follows it to be a chunk. */
  ghost predicate Closes(list: seq<Stored>, tail: Buffer) {
    |tail| < 12 || (list != [] && Spells(list[|list| - 1].chunk.kind, [0x49, 0x45, 0x4E, 0x44]))
  }

  /** What reading the file gives: the contract of ReadPngCharaName. */
  ghost function Result(inflate: Inflate, b: Buffer): Info {
    if SIGNATURE <= b then Pick(inflate, Chunks(b, 8)) else NotPng
  }

  lemma WrittenResult(inflate: Inflate, list: seq<Stored>, tail: Buffer)
    requires AllStorable(list) && Closes(list, tail)
    ensures Result(inflate, SIGNATURE + EncodeAll(list) + tail) == Pick(inflate, Plain(list))
  {
    if list != [] { KindExactly(list[|list| - 1].chunk.kind); }
    hide Chunks, Pick, Encode, EncodeAll, Spells, Ascii;
    WrittenPng(inflate, list, tail);
    assert SIGNATURE <= SIGNATURE + EncodeAll(list) + tail;
  }

  lemma PlainFirst(a: seq<Stored>)
    requires a != []
    ensures Plain(a) == [a[0].chunk] + Plain(a[1..])
  {}

  lemma {:induction false} PlainJoins(a: seq<Stored>, b: seq<Stored>)
    ensures Plain(a + b) == Plain(a) + Plain(b)
    decreases |a|
  {
    if a == [] {
      assert a + b == b;
    } else {
      PlainJoins(a[1..], b);
      assert (a + b)[1..] == a[1..] + b && (a + b)[0] == a[0];
      PlainFirst(a);
      PlainFirst(a + b);
      hide Plain;
      assert [a[0].chunk] + (Plain(a[1..]) + Plain(b)) == [a[0].chunk] + Plain(a[1..]) + Plain(b);
    }
  }

  lemma OthersPass(inflate: Inflate, list: seq<Stored>)
    requires forall s :: s in list ==> Other(s.chunk)
    ensures Passed(inflate, Plain(list))
  {
    hide Other, Read, Ascii;
    forall c | c in Plain(list) ensures Ascii(c.kind) != IEND && Read(inflate, c).NoValue? {
      var i :| 0 <= i < |Plain(list)| && Plain(list)[i] == c;
      PlainLength(list);
      PlainAt(list, i);
      assert list[i] in list;
      OtherPasses(inflate, c);
    }
  }

  lemma {:induction false} PlainLength(list: seq<Stored>)
    ensures |Plain(list)| == |list|
  {
    if list != [] { PlainLength(list[1..]); }
  }

  /** Chunks that are neither IEND nor cards change nothing in what is read, in front of any other chunks. */
  lemma OthersChangeNothing(inflate: Inflate, before: seq<Stored>, list: seq<Stored>, tail: Buffer)
    requires AllStorable(before) && AllStorable(list) && Closes(list, tail)
    requires forall s :: s in before ==> Other(s.chunk)
    ensures Result(inflate, SIGNATURE + EncodeAll(before + list) + tail)
         == Result(inflate, SIGNATURE + EncodeAll(list) + tail)
  {
    hide Other, Storable, Pick, Plain, EncodeAll, Passed, Spells, Result;
    assert Closes(before + list, tail) by {
      if list != [] { assert (before + list)[|before + list| - 1] == list[|list| - 1]; }
    }
    WrittenResult(inflate, list, tail);
    WrittenResult(inflate, before + list, tail);
    PlainJoins(before, list);
    OthersPass(inflate, before);
    PickPast(inflate, Plain(before), Plain(list));
  }

  /** The first card behind such chunks is what is read: its keyword and what it says, or that it throws. */
  lemma FirstCardIsRead(inflate: Inflate, before: seq<Stored>, card: Stored, after: seq<Stored>, tail: Buffer,
                        word: Buffer)
    requires AllStorable(before) && AllStorable([card] + after) && Closes([card] + after, tail)
    requires forall s :: s in before ==> Other(s.chunk)
    requires TextKind(card.chunk.kind) && Leads(word, card.chunk.data) && CardWord(word)
    requires !Read(inflate, card.chunk).NoValue?
    ensures Result(inflate, SIGNATURE + EncodeAll(before + ([card] + after)) + tail)
         == if Read(inflate, card.chunk).Throws? then DecodeFailed(Ascii(card.chunk.kind))
            else Chara(Ascii(word), Read(inflate, card.chunk).text)
  {
    OthersChangeNothing(inflate, before, [card] + after, tail);
    WrittenResult(inflate, [card] + after, tail);
    hide Other, Storable, EncodeAll, Result, Closes, AllStorable, Spells;
    CardExactly(inflate, card.chunk);
    WordExactly(card.chunk, word);
    KindExactly(card.chunk.kind);
    hide Read, TextKind, Leads, CardWord, Ascii, Keyword;
    assert ([card] + after)[1..] == after;
    assert Plain([card] + after)[0] == card.chunk;
  }

  /** Such as the plain card: its keyword and exactly the bytes behind it. */
  lemma PlainCardIsRead(inflate: Inflate, before: seq<Stored>, card: Stored, after: seq<Stored>, tail: Buffer,
                        value: Buffer)
    requires AllStorable(before) && AllStorable([card] + after) && Closes([card] + after, tail)
    requires forall s :: s in before ==> Other(s.chunk)
    requires card.chunk == Chunk([0x74, 0x45, 0x58, 0x74], [0x63, 0x68, 0x61, 0x72, 0x61, 0] + value)
    ensures Result(inflate, SIGNATURE + EncodeAll(before + ([card] + after)) + tail)
         == Chara([0x63, 0x68, 0x61, 0x72, 0x61], Latin1(value))
  {
    var kind, word := [0x74, 0x45, 0x58, 0x74], [0x63, 0x68, 0x61, 0x72, 0x61];
    PlainCard(kind, word, value);
    hide *;
    PlainReads(inflate, kind, word, value);
    FirstCardIsRead(inflate, before, card, after, tail, word);
  }

  lemma PlainCard(kind: Buffer, word: Buffer, value: Buffer)
    requires kind == [0x74, 0x45, 0x58, 0x74] && word == [0x63, 0x68, 0x61, 0x72, 0x61]
    ensures [0x63, 0x68, 0x61, 0x72, 0x61, 0] + value == word + [0] + value
    ensures Spells(kind, [0x74, 0x45, 0x58, 0x74]) && TextKind(kind) && CardWord(word) && 0 !in word
    ensures Leads(word, word + [0] + value) && Ascii(word) == word
  {
    assert (word + [0] + value)[..5] == word;
    AsciiSpells(word, word);
  }

  /** Only a file that starts with the eight signature bytes is read as a PNG. */
  lemma NotPngExactly(inflate: Inflate, b: Buffer)
    ensures Result(inflate, b).NotPng? <==> !([0x89, 0x50, 0x4E, 0x47, 0x0D, 0x0A, 0x1A, 0x0A] <= b)
  {
    NeverNotPng(inflate, Chunks(b, 8));
    hide Pick, Chunks;
  }

  lemma {:induction false} NeverNotPng(inflate: Inflate, chunks: seq<Chunk>)
    ensures !Pick(inflate, chunks).NotPng?
  {
    hide Read, Ascii;
    if chunks != [] { NeverNotPng(inflate, chunks[1..]); }
  }

  /** A last chunk that is cut short is read with what there is of its data. */
  lemma CutChunk(b: Buffer, offset: nat, n: nat, kind: Buffer, data: Buffer)
    requires offset <= |b| && n < LIMIT && |kind| == 4 && 4 <= |data| < n + 4
    requires b[offset..] == Be32Of(n) + kind + data
    ensures Chunks(b, offset) == [Chunk(kind, if n <= |data| then data[..n] else data)]
  {
    var rest := b[offset..];
    assert rest[0..4] == Be32Of(n) && rest[4..8] == kind;
    assert rest[8..] == data;
    Be32RoundTrip(n, rest, 0);
    Shifted(b, offset);
    ShortTail(b, offset + 12 + n);
    hide Be32, Be32Of;
    assert ChunkAt(rest, 0) == Chunk(kind, if n <= |data| then data[..n] else data);
  }
}
