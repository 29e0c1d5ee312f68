/** The backfill that marks legacy character lorebooks as managed by their character. */
module OwnershipBackfill {
  import opened Wrappers

  /** A JSON value, as far as the backfill looks at it. */
  datatype Json = Text(text: string) | Flag(flag: bool) | List(items: seq<Json>) | OtherJson

  type Object = map<string, Json>

  datatype Character = Character(id: string, userId: string, extensions: Object, embedded: bool, createdAt: int)
  datatype Persona = Persona(id: string, attached: string)
  datatype Chat = Chat(id: string, metadata: Object)
  datatype Book = Book(id: string, userId: string, metadata: Object, createdAt: int)

  /** The rows read from the database; a persona without a book has the empty id attached. */
  datatype Database = Database(characters: seq<Character>, books: seq<Book>, personas: seq<Persona>, chats: seq<Chat>)

  /** Ids are primary keys. */
  ghost predicate Keyed(db: Database) {
    && (forall i, j :: 0 <= i < j < |db.characters| ==> db.characters[i].id != db.characters[j].id)
    && (forall i, j :: 0 <= i < j < |db.books| ==> db.books[i].id != db.books[j].id)
  }

  // ---------------------------------------------------------------------------------------------
  // Who refers to which book
  // ---------------------------------------------------------------------------------------------

  function TextOf(o: Object, key: string): string {
    if key in o && o[key].Text? then o[key].text else ""
  }

  /** The non-empty strings in a list. */
  function Ids(items: seq<Json>): (ids: seq<string>)
    ensures forall id :: id in ids <==> id != "" && Text(id) in items
  {
    if items == [] then []
    else (if items[0].Text? && items[0].text != "" then [items[0].text] else []) + Ids(items[1..])
  }

  /** getCharacterWorldBookIds: the list wins over the single id. */
  function CharacterBooks(extensions: Object): seq<string> {
    if "world_book_ids" in extensions && extensions["world_book_ids"].List? then Ids(extensions["world_book_ids"].items)
    else
      var single := TextOf(extensions, "world_book_id");
      if single != "" then [single] else []
  }

  function ChatBooks(metadata: Object): seq<string> {
    if "chat_world_book_ids" in metadata && metadata["chat_world_book_ids"].List?
    then Ids(metadata["chat_world_book_ids"].items) else []
  }

  /** A referrer's id, and the books it refers to. */
  type Row = (string, seq<string>)

  function CharacterRows(characters: seq<Character>): (rows: seq<Row>)
    ensures |rows| == |characters|
    ensures forall i :: 0 <= i < |rows| ==> rows[i] == (characters[i].id, CharacterBooks(characters[i].extensions))
  {
    seq(|characters|, i requires 0 <= i < |characters| => (characters[i].id, CharacterBooks(characters[i].extensions)))
  }

  function PersonaRows(personas: seq<Persona>): (rows: seq<Row>)
    ensures |rows| == |personas|
    ensures forall i :: 0 <= i < |rows| ==>
              rows[i] == (personas[i].id, if personas[i].attached != "" then [personas[i].attached] else [])
  {
    seq(|personas|, i requires 0 <= i < |personas| =>
      (personas[i].id, if personas[i].attached != "" then [personas[i].attached] else []))
  }

  function ChatRows(chats: seq<Chat>): (rows: seq<Row>)
    ensures |rows| == |chats|
    ensures forall i :: 0 <= i < |rows| ==> rows[i] == (chats[i].id, ChatBooks(chats[i].metadata))
  {
    seq(|chats|, i requires 0 <= i < |chats| => (chats[i].id, ChatBooks(chats[i].metadata)))
  }

  /** Some row of that id refers to the book. */
  ghost predicate Refers(rows: seq<Row>, book: string, id: string) {
    exists i :: 0 <= i < |rows| && rows[i].0 == id && book in rows[i].1
  }

  // ---------------------------------------------------------------------------------------------
  // The usage index
  // ---------------------------------------------------------------------------------------------

  datatype Usage = Usage(characters: seq<string>, personas: seq<string>, chats: seq<string>)

  type Index = map<string, Usage>

  const UNUSED := Usage([], [], [])

  /** `usageByWorldBook.get(id) || empty` */
  function UsageOf(index: Index, book: string): Usage {
    if book in index then index[book] else UNUSED
  }

  datatype Kind = Characters | Personas | Chats

  function Part(u: Usage, kind: Kind): seq<string> {
    match kind
    case Characters => u.characters
    case Personas => u.personas
    case Chats => u.chats
  }

  function WithPart(u: Usage, kind: Kind, ids: seq<string>): (v: Usage)
    ensures forall k: Kind :: Part(v, k) == if k == kind then ids else Part(u, k)
  {
    match kind
    case Characters => u.(characters := ids)
    case Personas => u.(personas := ids)
    case Chats => u.(chats := ids)
  }

  /** One of the three loops: every row is pushed to each book it refers to. */
  method Record(index: Index, kind: Kind, rows: seq<Row>) returns (next: Index)
    requires forall book :: Part(UsageOf(index, book), kind) == []
    ensures forall book, k: Kind :: k != kind ==> Part(UsageOf(next, book), k) == Part(UsageOf(index, book), k)
    ensures forall book, id :: id in Part(UsageOf(next, book), kind) <==> Refers(rows, book, id)
  {
    next := index;
    var i := 0;
    while i < |rows|
      invariant 0 <= i <= |rows|
      invariant forall book, k: Kind :: k != kind ==> Part(UsageOf(next, book), k) == Part(UsageOf(index, book), k)
      invariant forall book, id :: id in Part(UsageOf(next, book), kind) <==> Refers(rows[..i], book, id)
    {
      next := RecordRow(next, kind, rows[i]);
      OneMoreRow(rows, i);
      i := i + 1;
    }
    assert rows[..|rows|] == rows;
  }

  lemma OneMoreRow(rows: seq<Row>, i: nat)
    requires i < |rows|
    ensures forall book, id ::
              Refers(rows[..i + 1], book, id) <==> Refers(rows[..i], book, id) || (rows[i].0 == id && book in rows[i].1)
  {
    forall book, id
      ensures Refers(rows[..i + 1], book, id) <==> Refers(rows[..i], book, id) || (rows[i].0 == id && book in rows[i].1)
    {
      var before, after := rows[..i], rows[..i + 1];
      assert after[i] == rows[i] && forall k :: 0 <= k < i ==> after[k] == before[k];
    }
  }

  /** `ensureUsage(book)[kind].push(id)` */
  function Push(index: Index, kind: Kind, book: string, id: string): Index {
    var usage := UsageOf(index, book);
    index[book := WithPart(usage, kind, Part(usage, kind) + [id])]
  }

  lemma PushMeaning(index: Index, kind: Kind, book: string, id: string)
    ensures forall b, k: Kind :: k != kind ==>
              Part(UsageOf(Push(index, kind, book, id), b), k) == Part(UsageOf(index, b), k)
    ensures forall b, i ::
              i in Part(UsageOf(Push(index, kind, book, id), b), kind)
              <==> i in Part(UsageOf(index, b), kind) || (i == id && b == book)
  {}

  method RecordRow(index: Index, kind: Kind, row: Row) returns (next: Index)
    ensures forall book, k: Kind :: k != kind ==> Part(UsageOf(next, book), k) == Part(UsageOf(index, book), k)
    ensures forall book, id ::
              id in Part(UsageOf(next, book), kind)
              <==> id in Part(UsageOf(index, book), kind) || (row.0 == id && book in row.1)
  {
    next := index;
    var i := 0;
    while i < |row.1|
      invariant 0 <= i <= |row.1|
      invariant forall book, k: Kind :: k != kind ==> Part(UsageOf(next, book), k) == Part(UsageOf(index, book), k)
      invariant forall book, id ::
                  id in Part(UsageOf(next, book), kind)
                  <==> id in Part(UsageOf(index, book), kind) || (row.0 == id && book in row.1[..i])
    {
      hide Push, Part, UsageOf;
      PushMeaning(next, kind, row.1[i], row.0);
      assert row.1[..i + 1] == row.1[..i] + [row.1[i]];
      next := Push(next, kind, row.1[i], row.0);
      i := i + 1;
    }
  }

  /** `unique`: each non-empty value once, in order of first appearance. */
  method Unique(values: seq<string>) returns (r: seq<string>)
    ensures forall v :: v in r <==> v in values && v != ""
    ensures forall i, j :: 0 <= i < j < |r| ==> r[i] != r[j]
  {
    r := [];
    var i := 0;
    while i < |values|
      invariant 0 <= i <= |values|
      invariant forall v :: v in r <==> v in values[..i] && v != ""
      invariant forall i, j :: 0 <= i < j < |r| ==> r[i] != r[j]
    {
      if values[i] != "" && values[i] !in r { r := r + [values[i]]; }
      i := i + 1;
    }
  }

  ghost predicate DistinctIds(u: Usage) {
    forall k: Kind, i, j :: 0 <= i < j < |Part(u, k)| ==> Part(u, k)[i] != Part(u, k)[j]
  }

  /** The rows of one kind. */
  function Rows(db: Database, kind: Kind): seq<Row> {
    match kind
    case Characters => CharacterRows(db.characters)
    case Personas => PersonaRows(db.personas)
    case Chats => ChatRows(db.chats)
  }

  /** The index says of every book exactly who refers to it, each once. */
  ghost predicate Faithful(db: Database, index: Index) {
    forall book ::
      && DistinctIds(UsageOf(index, book))
      && forall k: Kind, id :: id in Part(UsageOf(index, book), k) <==> id != "" && Refers(Rows(db, k), book, id)
  }

  /** What the index holds before `unique`: repeated and empty ids too. */
  ghost predicate Gathered(db: Database, index: Index) {
    forall book, k: Kind, id :: id in Part(UsageOf(index, book), k) <==> Refers(Rows(db, k), book, id)
  }

  method BuildIndex(db: Database) returns (index: Index)
    ensures Faithful(db, index)
  {
    var gathered := Record(map[], Characters, CharacterRows(db.characters));
    gathered := Record(gathered, Personas, PersonaRows(db.personas));
    gathered := Record(gathered, Chats, ChatRows(db.chats));
    assert Gathered(db, gathered);
    index := map[];
    var left := gathered.Keys;
    while left != {}
      invariant left <= gathered.Keys && index.Keys == gathered.Keys - left
      invariant forall book :: book in index ==> Deduplicated(gathered[book], index[book])
      decreases |left|
    {
      var book :| book in left;
      var usage := Deduplicate(gathered[book]);
      index := index[book := usage];
      left := left - {book};
    }
    forall book ensures Deduplicated(UsageOf(gathered, book), UsageOf(index, book)) {}
  }

  ghost predicate Deduplicated(u: Usage, v: Usage) {
    DistinctIds(v) && forall k: Kind, id :: id in Part(v, k) <==> id in Part(u, k) && id != ""
  }

  method Deduplicate(u: Usage) returns (v: Usage)
    ensures Deduplicated(u, v)
  {
    var characters := Unique(u.characters);
    var personas := Unique(u.personas);
    var chats := Unique(u.chats);
    v := Usage(characters, personas, chats);
  }

  /** A character's extensions name the book: in their list if there is one, else as the single one. */
  ghost predicate CharacterNames(extensions: Object, book: string) {
    && book != ""
    && if "world_book_ids" in extensions && extensions["world_book_ids"].List?
       then Text(book) in extensions["world_book_ids"].items
       else "world_book_id" in extensions && extensions["world_book_id"] == Text(book)
  }

  /** A chat's metadata names the book in its list. */
  ghost predicate ChatNames(metadata: Object, book: string) {
    && book != "" && "chat_world_book_ids" in metadata && metadata["chat_world_book_ids"].List?
    && Text(book) in metadata["chat_world_book_ids"].items
  }

  lemma NamedBooks(o: Object, book: string)
    ensures book in CharacterBooks(o) <==> CharacterNames(o, book)
    ensures book in ChatBooks(o) <==> ChatNames(o, book)
  {}

  lemma RowRefers(rows: seq<Row>, i: nat, book: string)
    requires i < |rows| && book in rows[i].1
    ensures Refers(rows, book, rows[i].0)
  {}

  /** The index holds of every book exactly the characters whose list of books, or else single book, names it, the
      personas it is attached to and the chats whose list names it. */
  lemma IndexedExactly(db: Database, index: Index, book: string, id: string)
    requires Faithful(db, index)
    ensures id in UsageOf(index, book).characters
       <==> id != "" && exists c :: c in db.characters && c.id == id && CharacterNames(c.extensions, book)
    ensures id in UsageOf(index, book).personas
       <==> id != "" && exists p :: p in db.personas && p.id == id && p.attached == book && book != ""
    ensures id in UsageOf(index, book).chats
       <==> id != "" && exists c :: c in db.chats && c.id == id && ChatNames(c.metadata, book)
  {
    var u := UsageOf(index, book);
    assert Part(u, Characters) == u.characters && Part(u, Personas) == u.personas && Part(u, Chats) == u.chats;
    CharactersRefer(db, book, id);
    PersonasRefer(db, book, id);
    ChatsRefer(db, book, id);
    hide CharacterNames, ChatNames, Refers;
  }

  lemma CharactersRefer(db: Database, book: string, id: string)
    ensures Refers(CharacterRows(db.characters), book, id)
       <==> exists c :: c in db.characters && c.id == id && CharacterNames(c.extensions, book)
  {
    var rows := CharacterRows(db.characters);
    forall c | c in db.characters ensures book in CharacterBooks(c.extensions) <==> CharacterNames(c.extensions, book) {
      NamedBooks(c.extensions, book);
    }
    hide CharacterNames, CharacterBooks;
    if c :| c in db.characters && c.id == id && CharacterNames(c.extensions, book) {
      var i :| 0 <= i < |db.characters| && db.characters[i] == c;
      RowRefers(rows, i, book);
    }
    if Refers(rows, book, id) {
      var i :| 0 <= i < |rows| && rows[i].0 == id && book in rows[i].1;
      assert db.characters[i] in db.characters;
    }
  }

  lemma PersonasRefer(db: Database, book: string, id: string)
    ensures Refers(PersonaRows(db.personas), book, id)
       <==> exists p :: p in db.personas && p.id == id && p.attached == book && book != ""
  {
    var rows := PersonaRows(db.personas);
    if p :| p in db.personas && p.id == id && p.attached == book && book != "" {
      var i :| 0 <= i < |db.personas| && db.personas[i] == p;
      RowRefers(rows, i, book);
    }
    if Refers(rows, book, id) {
      var i :| 0 <= i < |rows| && rows[i].0 == id && book in rows[i].1;
      assert db.personas[i] in db.personas;
    }
  }

  lemma ChatsRefer(db: Database, book: string, id: string)
    ensures Refers(ChatRows(db.chats), book, id)
       <==> exists c :: c in db.chats && c.id == id && ChatNames(c.metadata, book)
  {
    var rows := ChatRows(db.chats);
    forall c | c in db.chats ensures book in ChatBooks(c.metadata) <==> ChatNames(c.metadata, book) {
      NamedBooks(c.metadata, book);
    }
    hide ChatNames, ChatBooks;
    if c :| c in db.chats && c.id == id && ChatNames(c.metadata, book) {
      var i :| 0 <= i < |db.chats| && db.chats[i] == c;
      RowRefers(rows, i, book);
    }
    if Refers(rows, book, id) {
      var i :| 0 <= i < |rows| && rows[i].0 == id && book in rows[i].1;
      assert db.chats[i] in db.chats;
    }
  }

  // ---------------------------------------------------------------------------------------------
  // Classification
  // ---------------------------------------------------------------------------------------------

  datatype Reason = MissingSource | SourceGone | NoEmbeddedBook | NotAttached | AttachedElsewhere | ReferredElsewhere
                  | DifferentSecond

  datatype Class = Ignored | Tagged | Candidate(source: Character) | Ambiguous(reasons: seq<Reason>)

  function CharacterOf(characters: seq<Character>, id: string): (c: Option<Character>)
    ensures c.Some? ==> c.value in characters && c.value.id == id
    ensures c.None? ==> forall d :: d in characters ==> d.id != id
  {
    if characters == [] then None
    else if characters[0].id == id then Some(characters[0])
    else CharacterOf(characters[1..], id)
  }

  predicate CharacterSourced(metadata: Object) {
    "source" in metadata && metadata["source"] == Text("character")
  }

  predicate Managed(metadata: Object) {
    "auto_managed_by_character" in metadata && metadata["auto_managed_by_character"] == Flag(true)
  }

  /** One turn of the classification loop. */
  function Classify(characters: seq<Character>, index: Index, book: Book): Class {
    var sourceId := TextOf(book.metadata, "source_character_id");
    var found := CharacterOf(characters, sourceId);
    if !CharacterSourced(book.metadata) then Ignored
    else if Managed(book.metadata) then Tagged
    else if sourceId == "" then Ambiguous([MissingSource])
    else if found.None? || found.value.userId != book.userId then Ambiguous([SourceGone])
    else if !found.value.embedded then Ambiguous([NoEmbeddedBook])
    else
      var source, usage := found.value, UsageOf(index, book.id);
      var attached := source.id in usage.characters;
      var only := |usage.characters| == 1 && attached;
      var others := |usage.personas| > 0 || |usage.chats| > 0;
      var sameSecond := book.createdAt == source.createdAt;
      if attached && only && !others && sameSecond then Candidate(source)
      else
        Ambiguous((if !attached then [NotAttached] else []) + (if !only then [AttachedElsewhere] else [])
                  + (if others then [ReferredElsewhere] else []) + (if !sameSecond then [DifferentSecond] else []))
  }

  /** What makes a book a candidate, in terms of the rows alone. */
  ghost predicate Legacy(db: Database, book: Book, source: Character) {
    && CharacterSourced(book.metadata) && !Managed(book.metadata)
    && source in db.characters && source.id != "" && source.id == TextOf(book.metadata, "source_character_id")
    && source.userId == book.userId && source.embedded && source.createdAt == book.createdAt
    && book.id in CharacterBooks(source.extensions)
    && (forall c :: c in db.characters && c.id != "" && book.id in CharacterBooks(c.extensions) ==> c == source)
    && (forall p :: p in db.personas && p.id != "" && p.attached != "" ==> p.attached != book.id)
    && (forall c :: c in db.chats && c.id != "" ==> book.id !in ChatBooks(c.metadata))
  }

  lemma OnlyMember(ids: seq<string>, id: string)
    requires forall i, j :: 0 <= i < j < |ids| ==> ids[i] != ids[j]
    ensures |ids| == 1 && id in ids <==> id in ids && forall other :: other in ids ==> other == id
  {
    if |ids| > 1 { assert ids[0] != ids[1] && ids[0] in ids && ids[1] in ids; }
  }

  /** The rows that refer to a book, read off the index. */
  lemma IndexedReferrers(db: Database, index: Index, book: string)
    requires Faithful(db, index)
    ensures var u := UsageOf(index, book);
            (forall c :: c in db.characters && c.id != "" && book in CharacterBooks(c.extensions) ==>
               c.id in u.characters)
            && (forall id :: id in u.characters ==>
                  exists c :: c in db.characters && c.id == id && id != "" && book in CharacterBooks(c.extensions))
  {
    var u, rows := UsageOf(index, book), CharacterRows(db.characters);
    assert Part(u, Characters) == u.characters && Rows(db, Characters) == rows;
    forall c | c in db.characters && c.id != "" && book in CharacterBooks(c.extensions) ensures c.id in u.characters {
      var i :| 0 <= i < |db.characters| && db.characters[i] == c;
      assert rows[i] == (c.id, CharacterBooks(c.extensions));
    }
    forall id | id in u.characters
      ensures exists c :: c in db.characters && c.id == id && id != "" && book in CharacterBooks(c.extensions)
    {
      assert id in Part(u, Characters);
      assert Refers(rows, book, id);
      var i :| 0 <= i < |rows| && rows[i].0 == id && book in rows[i].1;
      assert db.characters[i] in db.characters;
    }
  }

  lemma IndexedPersonas(db: Database, index: Index, book: string)
    requires Faithful(db, index)
    ensures |UsageOf(index, book).personas| > 0 <==>
              exists p :: p in db.personas && p.id != "" && p.attached != "" && p.attached == book
  {
    var u, rows := UsageOf(index, book), PersonaRows(db.personas);
    assert Part(u, Personas) == u.personas && Rows(db, Personas) == rows;
    if |u.personas| > 0 {
      assert u.personas[0] in Part(u, Personas);
      var i :| 0 <= i < |rows| && rows[i].0 == u.personas[0] && book in rows[i].1;
      assert db.personas[i] in db.personas;
    }
    if p :| p in db.personas && p.id != "" && p.attached != "" && p.attached == book {
      var i :| 0 <= i < |db.personas| && db.personas[i] == p;
      assert rows[i] == (p.id, [book]);
      assert p.id in Part(u, Personas);
    }
  }

  lemma IndexedChats(db: Database, index: Index, book: string)
    requires Faithful(db, index)
    ensures |UsageOf(index, book).chats| > 0 <==>
              exists c :: c in db.chats && c.id != "" && book in ChatBooks(c.metadata)
  {
    var u, rows := UsageOf(index, book), ChatRows(db.chats);
    assert Part(u, Chats) == u.chats && Rows(db, Chats) == rows;
    if |u.chats| > 0 {
      assert u.chats[0] in Part(u, Chats);
      var i :| 0 <= i < |rows| && rows[i].0 == u.chats[0] && book in rows[i].1;
      assert db.chats[i] in db.chats;
    }
    if c :| c in db.chats && c.id != "" && book in ChatBooks(c.metadata) {
      var i :| 0 <= i < |db.chats| && db.chats[i] == c;
      assert rows[i] == (c.id, ChatBooks(c.metadata));
      assert c.id in Part(u, Chats);
    }
  }

  lemma SameCharacter(db: Database, a: Character, b: Character)
    requires Keyed(db) && a in db.characters && b in db.characters && a.id == b.id
    ensures a == b
  {}

  /** With the index in hand, a book is a candidate exactly when its rows say so. */
  lemma CandidatesAreLegacy(db: Database, index: Index, book: Book, source: Character)
    requires Keyed(db) && Faithful(db, index)
    ensures Classify(db.characters, index, book) == Candidate(source) <==> Legacy(db, book, source)
  {
    hide Faithful;
    var u := UsageOf(index, book.id);
    IndexedReferrers(db, index, book.id);
    IndexedPersonas(db, index, book.id);
    IndexedChats(db, index, book.id);
    assert DistinctIds(u) by { FaithfulDistinct(db, index, book.id); }
    assert Part(u, Characters) == u.characters;
    OnlyMember(u.characters, source.id);
    forall c | c in db.characters && c.id == source.id && source in db.characters ensures c == source {
      SameCharacter(db, c, source);
    }
  }

  lemma FaithfulDistinct(db: Database, index: Index, book: string)
    requires Faithful(db, index)
    ensures DistinctIds(UsageOf(index, book))
  {}

  /** A book is ignored exactly if its metadata does not say it came from a character, and tagged exactly if it does
      and says it is managed already. */
  lemma SetAsideExactly(characters: seq<Character>, index: Index, book: Book)
    ensures var m := book.metadata;
            var sourced := "source" in m && m["source"] == Text("character");
            var managed := "auto_managed_by_character" in m && m["auto_managed_by_character"] == Flag(true);
            && (Classify(characters, index, book).Ignored? <==> !sourced)
            && (Classify(characters, index, book).Tagged? <==> sourced && managed)
  {}

  /** An ambiguous book always comes with a reason, so the fallback text is never used. */
  lemma AmbiguousHasReason(characters: seq<Character>, index: Index, book: Book)
    ensures Classify(characters, index, book).Ambiguous? ==> Classify(characters, index, book).reasons != []
  {}

  /** Every character attached to the book is the source. */
  ghost predicate OnlySource(db: Database, book: string, source: Character) {
    && book in CharacterBooks(source.extensions)
    && forall c :: c in db.characters && c.id != "" && book in CharacterBooks(c.extensions) ==> c == source
  }

  ghost predicate ReferredTo(db: Database, book: string) {
    || (exists p :: p in db.personas && p.id != "" && p.attached != "" && p.attached == book)
    || (exists c :: c in db.chats && c.id != "" && book in ChatBooks(c.metadata))
  }

  /** The book's source character, still with the same user. */
  ghost predicate SourceOf(db: Database, book: Book, c: Character) {
    && c in db.characters && c.id != "" && c.id == TextOf(book.metadata, "source_character_id")
    && c.userId == book.userId
  }

  /** When each reason applies, by the rows alone. */
  ghost predicate Applies(db: Database, book: Book, reason: Reason) {
    match reason
    case MissingSource => TextOf(book.metadata, "source_character_id") == ""
    case SourceGone =>
      TextOf(book.metadata, "source_character_id") != "" && forall c :: c in db.characters ==> !SourceOf(db, book, c)
    case NoEmbeddedBook => exists c :: c in db.characters && SourceOf(db, book, c) && !c.embedded
    case NotAttached =>
      exists c :: c in db.characters && SourceOf(db, book, c) && c.embedded && book.id !in CharacterBooks(c.extensions)
    case AttachedElsewhere =>
      exists c :: c in db.characters && SourceOf(db, book, c) && c.embedded && !OnlySource(db, book.id, c)
    case ReferredElsewhere =>
      ReferredTo(db, book.id) && exists c :: c in db.characters && SourceOf(db, book, c) && c.embedded
    case DifferentSecond =>
      exists c :: c in db.characters && SourceOf(db, book, c) && c.embedded && book.createdAt != c.createdAt
  }

  /** An ambiguous book always has a reason, and has each reason exactly when the rows bear it out. */
  lemma ReasonsExact(db: Database, index: Index, book: Book, reason: Reason)
    requires Keyed(db) && Faithful(db, index) && Classify(db.characters, index, book).Ambiguous?
    ensures Classify(db.characters, index, book).reasons != []
    ensures reason in Classify(db.characters, index, book).reasons <==> Applies(db, book, reason)
  {
    hide Faithful;
    AmbiguousHasReason(db.characters, index, book);
    var id := TextOf(book.metadata, "source_character_id");
    var found := CharacterOf(db.characters, id);
    if id != "" && found.Some? && found.value.userId == book.userId {
      SourceReasons(db, index, book, found.value, reason);
    } else {
      NoSource(db, book);
    }
  }

  lemma NoSource(db: Database, book: Book)
    requires Keyed(db)
    requires var id := TextOf(book.metadata, "source_character_id");
             var found := CharacterOf(db.characters, id);
             id == "" || found.None? || found.value.userId != book.userId
    ensures forall c :: c in db.characters ==> !SourceOf(db, book, c)
  {
    var found := CharacterOf(db.characters, TextOf(book.metadata, "source_character_id"));
    forall c | c in db.characters && c.id == TextOf(book.metadata, "source_character_id") && found.Some?
      ensures c == found.value
    {
      SameCharacter(db, c, found.value);
    }
  }

  lemma OneSource(db: Database, book: Book, source: Character)
    requires Keyed(db) && SourceOf(db, book, source)
    ensures forall c :: c in db.characters && SourceOf(db, book, c) ==> c == source
    ensures CharacterOf(db.characters, source.id) == Some(source)
  {
    SameCharacter(db, CharacterOf(db.characters, source.id).value, source);
    forall c | c in db.characters && SourceOf(db, book, c) ensures c == source { SameCharacter(db, c, source); }
  }

  lemma SourceReasons(db: Database, index: Index, book: Book, source: Character, reason: Reason)
    requires Keyed(db) && Faithful(db, index) && Classify(db.characters, index, book).Ambiguous?
    requires SourceOf(db, book, source)
    ensures reason in Classify(db.characters, index, book).reasons <==> Applies(db, book, reason)
  {
    hide Faithful, OnlySource, CharacterBooks, ChatBooks, Keyed;
    OneSource(db, book, source);
    SourceUsage(db, index, book.id, source);
    IndexedPersonas(db, index, book.id);
    IndexedChats(db, index, book.id);
  }

  lemma SourceUsage(db: Database, index: Index, book: string, source: Character)
    requires Keyed(db) && Faithful(db, index) && source in db.characters && source.id != ""
    ensures var u := UsageOf(index, book);
            && (source.id in u.characters <==> book in CharacterBooks(source.extensions))
            && (|u.characters| == 1 && source.id in u.characters <==> OnlySource(db, book, source))
  {
    hide Faithful;
    var u := UsageOf(index, book);
    IndexedReferrers(db, index, book);
    FaithfulDistinct(db, index, book);
    assert Part(u, Characters) == u.characters;
    OnlyMember(u.characters, source.id);
    forall c | c in db.characters && c.id == source.id ensures c == source { SameCharacter(db, c, source); }
  }

  /** Faithful indexes classify alike. */
  lemma IndexesAgree(db: Database, a: Index, b: Index, book: Book)
    requires Keyed(db) && Faithful(db, a) && Faithful(db, b)
    ensures Classify(db.characters, a, book) == Classify(db.characters, b, book)
  {
    var u, v := UsageOf(a, book.id), UsageOf(b, book.id);
    forall k: Kind, id ensures id in Part(u, k) <==> id in Part(v, k) {}
    SameSize(u, v);
    var found := CharacterOf(db.characters, TextOf(book.metadata, "source_character_id"));
    if found.Some? {
      assert Part(u, Characters) == u.characters && Part(v, Characters) == v.characters;
      OnlyMember(u.characters, found.value.id);
      OnlyMember(v.characters, found.value.id);
    }
  }

  lemma SameSize(u: Usage, v: Usage)
    requires forall k: Kind, id :: id in Part(u, k) <==> id in Part(v, k)
    ensures |u.personas| > 0 <==> |v.personas| > 0
    ensures |u.chats| > 0 <==> |v.chats| > 0
  {
    assert Part(u, Personas) == u.personas && Part(v, Personas) == v.personas;
    assert Part(u, Chats) == u.chats && Part(v, Chats) == v.chats;
    if |u.personas| > 0 { assert u.personas[0] in Part(v, Personas); }
    if |v.personas| > 0 { assert v.personas[0] in Part(u, Personas); }
    if |u.chats| > 0 { assert u.chats[0] in Part(v, Chats); }
    if |v.chats| > 0 { assert v.chats[0] in Part(u, Chats); }
  }

  // ---------------------------------------------------------------------------------------------
  // One run, and the next
  // ---------------------------------------------------------------------------------------------

  /** Everything one run finds. */
  datatype Report = Report(candidates: seq<(Book, Character)>, ambiguous: seq<(Book, seq<Reason>)>, alreadyTagged: nat,
                           ignored: nat, characterSourced: nat)

  const NOTHING := Report([], [], 0, 0, 0)

  function Note(r: Report, book: Book, class_: Class): Report {
    match class_
    case Ignored => r.(ignored := r.ignored + 1)
    case Tagged => r.(characterSourced := r.characterSourced + 1, alreadyTagged := r.alreadyTagged + 1)
    case Candidate(source) =>
      r.(characterSourced := r.characterSourced + 1, candidates := r.candidates + [(book, source)])
    case Ambiguous(reasons) =>
      r.(characterSourced := r.characterSourced + 1, ambiguous := r.ambiguous + [(book, reasons)])
  }

  function Scan(db: Database, index: Index, books: seq<Book>): Report {
    if books == [] then NOTHING
    else
      var book := books[|books| - 1];
      Note(Scan(db, index, books[..|books| - 1]), book, Classify(db.characters, index, book))
  }

  /** Every book lands in exactly one of the four groups. */
  lemma {:induction false} EveryBookOnce(db: Database, index: Index, books: seq<Book>)
    ensures var r := Scan(db, index, books);
            r.ignored + r.alreadyTagged + |r.candidates| + |r.ambiguous| == |books|
            && r.characterSourced == |books| - r.ignored
  {
    hide Classify;
    if books != [] { EveryBookOnce(db, index, books[..|books| - 1]); }
  }

  /** The lists hold exactly the books of their class. */
  lemma {:induction false} ListsExact(db: Database, index: Index, books: seq<Book>)
    ensures forall b, c :: (b, c) in Scan(db, index, books).candidates
                           <==> b in books && Classify(db.characters, index, b) == Candidate(c)
    ensures forall b, reasons :: (b, reasons) in Scan(db, index, books).ambiguous
                                 <==> b in books && Classify(db.characters, index, b) == Ambiguous(reasons)
  {
    hide Classify;
    if books != [] {
      var n := |books| - 1;
      ListsExact(db, index, books[..n]);
      forall b ensures b in books <==> b in books[..n] || b == books[n] {}
    }
  }

  method ScanBooks(db: Database) returns (report: Report)
    ensures exists index :: Faithful(db, index) && report == Scan(db, index, db.books)
  {
    var index := BuildIndex(db);
    report := NOTHING;
    var i := 0;
    while i < |db.books|
      invariant 0 <= i <= |db.books| && report == Scan(db, index, db.books[..i])
    {
      var book := db.books[i];
      assert db.books[..i + 1][..i] == db.books[..i];
      report := Note(report, book, Classify(db.characters, index, book));
      i := i + 1;
    }
    assert db.books[..|db.books|] == db.books;
  }

  function Marked(book: Book): Book {
    book.(metadata := book.metadata["auto_managed_by_character" := Flag(true)])
  }

  /** `UPDATE world_books SET metadata = ? WHERE id = ?`, with the metadata read before. */
  function Update(books: seq<Book>, book: Book): (r: seq<Book>)
    ensures |r| == |books|
    ensures forall i :: 0 <= i < |books| ==>
              r[i] == if books[i].id == book.id then books[i].(metadata := Marked(book).metadata) else books[i]
  {
    seq(|books|, i requires 0 <= i < |books| =>
      if books[i].id == book.id then books[i].(metadata := Marked(book).metadata) else books[i])
  }

  /** The books after marking those listed. */
  ghost predicate MarkedIn(before: seq<Book>, candidates: seq<(Book, Character)>, after: seq<Book>) {
    |after| == |before|
    && forall i :: 0 <= i < |before| ==>
         after[i] == if exists c :: (before[i], c) in candidates then Marked(before[i]) else before[i]
  }

  method Apply(db: Database, candidates: seq<(Book, Character)>) returns (next: Database)
    requires Keyed(db) && forall c :: c in candidates ==> c.0 in db.books
    ensures MarkedIn(db.books, candidates, next.books) && next == db.(books := next.books)
  {
    next := db;
    var i := 0;
    while i < |candidates|
      invariant 0 <= i <= |candidates| && next == db.(books := next.books)
      invariant MarkedIn(db.books, candidates[..i], next.books)
    {
      var before := next.books;
      next := next.(books := Update(next.books, candidates[i].0));
      MarkOne(db, candidates, i, before, next.books);
      i := i + 1;
    }
    assert candidates[..|candidates|] == candidates;
  }

  lemma MarkOne(db: Database, candidates: seq<(Book, Character)>, i: nat, before: seq<Book>, after: seq<Book>)
    requires Keyed(db) && i < |candidates| && candidates[i].0 in db.books
    requires MarkedIn(db.books, candidates[..i], before) && after == Update(before, candidates[i].0)
    ensures MarkedIn(db.books, candidates[..i + 1], after)
  {
    var done, more := candidates[..i], candidates[..i + 1];
    assert more == done + [candidates[i]];
    var book := candidates[i].0;
    forall k | 0 <= k < |db.books|
      ensures after[k] == if exists c :: (db.books[k], c) in more then Marked(db.books[k]) else db.books[k]
    {
      if db.books[k].id == book.id {
        var j :| 0 <= j < |db.books| && db.books[j] == book;
        assert j == k;
        assert (db.books[k], candidates[i].1) in more;
      } else {
        forall c ensures (db.books[k], c) in more <==> (db.books[k], c) in done {}
      }
    }
  }

  /** Marking a candidate makes it tagged; other books keep their class. */
  lemma MarkedClass(db: Database, index: Index, book: Book)
    requires Classify(db.characters, index, book).Candidate?
    ensures Classify(db.characters, index, Marked(book)) == Tagged
  {}

  /** What a second run reports, given the first. */
  function Settled(first: Report): Report {
    Report([], first.ambiguous, first.alreadyTagged + |first.candidates|, first.ignored, first.characterSourced)
  }

  /** The class and the metadata a book has the second time. */
  lemma SettledNote(db: Database, index: Index, first: Report, book: Book)
    ensures var class_ := Classify(db.characters, index, book);
            var now := if class_.Candidate? then Marked(book) else book;
            Note(Settled(first), now, Classify(db.characters, index, now)) == Settled(Note(first, book, class_))
  {
    if Classify(db.characters, index, book).Candidate? { MarkedClass(db, index, book); }
    hide Classify, Marked;
  }

  ghost predicate CandidatesAre(db: Database, index: Index, candidates: seq<(Book, Character)>, books: seq<Book>) {
    forall b :: b in books ==>
      (Classify(db.characters, index, b).Candidate? <==> exists c :: (b, c) in candidates)
  }

  lemma {:induction false} SecondScan(db: Database, index: Index, candidates: seq<(Book, Character)>, before: seq<Book>,
                                      after: seq<Book>)
    requires MarkedIn(before, candidates, after) && CandidatesAre(db, index, candidates, before)
    ensures Scan(db, index, after) == Settled(Scan(db, index, before))
  {
    hide Classify, Marked, Note, Settled;
    if before == [] {
      NothingSettled();
    } else {
      var n := |before| - 1;
      SecondScan(db, index, candidates, before[..n], after[..n]);
      assert before[n] in before;
      SettledNote(db, index, Scan(db, index, before[..n]), before[n]);
    }
  }

  lemma NothingSettled()
    ensures Settled(NOTHING) == NOTHING
  {}

  /** Running the backfill again after applying it finds nothing more to do: no candidates, the same
      ambiguous books for the same reasons, and what was a candidate is now tagged. */
  lemma SecondRun(db: Database, index: Index, next: Database, again: Index)
    requires Keyed(db) && Faithful(db, index)
    requires MarkedIn(db.books, Scan(db, index, db.books).candidates, next.books) && next == db.(books := next.books)
    requires Faithful(next, again)
    ensures Scan(next, again, next.books) == Settled(Scan(db, index, db.books))
  {
    hide Classify, Scan, Faithful;
    var candidates := Scan(db, index, db.books).candidates;
    ListsExact(db, index, db.books);
    forall b | b in db.books
      ensures Classify(db.characters, index, b).Candidate? <==> exists c :: (b, c) in candidates
    {
      var class_ := Classify(db.characters, index, b);
      if class_.Candidate? { assert (b, class_.source) in candidates; }
    }
    SecondScan(db, index, candidates, db.books, next.books);
    ScansAgree(db, index, next, again, next.books);
  }

  lemma {:induction false} ScansAgree(db: Database, index: Index, next: Database, again: Index, books: seq<Book>)
    requires Keyed(db) && Faithful(db, index) && next == db.(books := next.books) && Faithful(next, again)
    ensures Scan(next, again, books) == Scan(db, index, books)
  {
    if books != [] {
      ScansAgree(db, index, next, again, books[..|books| - 1]);
      assert Faithful(db, again) by { SameRows(db, next, again); }
      IndexesAgree(db, index, again, books[|books| - 1]);
    }
  }

  lemma SameRows(db: Database, next: Database, index: Index)
    requires next == db.(books := next.books) && Faithful(next, index)
    ensures Faithful(db, index)
  {
    forall k: Kind ensures Rows(db, k) == Rows(next, k) {}
  }
}
