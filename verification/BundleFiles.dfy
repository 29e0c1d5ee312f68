/** Collecting the server payload: a walk over directories and symbolic links that becomes a flat archive. */
module BundleFiles {
  import opened Wrappers

  type Name = string

  /** A path without symbolic links, from the file system's root. */
  type Path = seq<Name>

  /** An entry resolves to the canonical path of what it finally names; a dangling link to nothing. */
  datatype Entry = Entry(name: Name, target: Option<Path>)

  /** `entries` is the sorted listing of a directory. */
  datatype Node = Directory(entries: seq<Entry>) | File(bytes: seq<bv8>, executable: bool) | Other

  type FileSystem = map<Path, Node>

  datatype Error = NotADirectory | Dangling | Outside | Unsupported | Cyclic

  /** A file of the payload: the names that lead to it from the root. */
  datatype Item = Item(names: seq<Name>, bytes: seq<bv8>, executable: bool)

  datatype Walk = Collected(items: seq<Item>) | Failed(error: Error)

  /** Names are distinct within a directory, and what an entry resolves to exists. */
  ghost predicate WellFormed(fs: FileSystem) {
    forall p :: p in fs && fs[p].Directory? ==>
      && (forall i, j :: 0 <= i < j < |fs[p].entries| ==> fs[p].entries[i].name != fs[p].entries[j].name)
      && (forall e :: e in fs[p].entries && e.target.Some? ==> e.target.value in fs)
  }

  /** `actual === root || actual.startsWith(root + sep)`; nothing starts with the separator twice, so
      everything below the file system's own root counts as outside it. */
  predicate Inside(root: Path, actual: Path) {
    actual == root || (root != [] && root < actual)
  }

  /** A file name: not empty, and without a separator. */
  ghost predicate LegalNames(p: Path) {
    forall n :: n in p ==> n != "" && '/' !in n
  }

  function Joined(p: Path): string {
    if p == [] then "" else ['/'] + p[0] + Joined(p[1..])
  }

  /** A canonical path as the program sees it. */
  function Spelled(p: Path): string {
    if p == [] then "/" else Joined(p)
  }

  lemma NamePrefix(a: string, s: string, b: string, t: string)
    requires '/' !in a && '/' !in b && s != [] && s[0] == '/' && t != [] && t[0] == '/'
    ensures a + s <= b + t <==> a == b && s <= t
  {
    FirstSeparator(a, s);
    FirstSeparator(b, t);
    if a + s <= b + t {
      assert forall i :: 0 <= i < |a + s| ==> (a + s)[i] == (b + t)[i];
      assert |a| == |b| && a == (a + s)[..|a|] && b == (b + t)[..|b|];
      assert s == (a + s)[|a|..] && t == (b + t)[|b|..];
    }
  }

  lemma FirstSeparator(a: string, s: string)
    requires '/' !in a && s != [] && s[0] == '/'
    ensures (a + s)[|a|] == '/' && forall i :: 0 <= i < |a| ==> (a + s)[i] != '/'
  {
    assert forall i :: 0 <= i < |a| ==> (a + s)[i] == a[i] && a[i] in a;
  }

  lemma LegalTail(p: Path)
    requires LegalNames(p) && p != []
    ensures LegalNames(p[1..]) && p[0] != "" && '/' !in p[0]
  {
    assert p[0] in p && forall n :: n in p[1..] ==> n in p;
  }

  lemma {:induction false} JoinedPrefix(p: Path, q: Path)
    requires LegalNames(p) && LegalNames(q)
    ensures Joined(p) + ['/'] <= Joined(q) + ['/'] <==> p <= q
    decreases |p|
  {
    if p != [] && q != [] {
      var s, t := Joined(p[1..]) + ['/'], Joined(q[1..]) + ['/'];
      LegalTail(p);
      LegalTail(q);
      StartsWithSeparator(p[1..]);
      StartsWithSeparator(q[1..]);
      JoinedPrefix(p[1..], q[1..]);
      assert Joined(p) + ['/'] == ['/'] + (p[0] + s) && Joined(q) + ['/'] == ['/'] + (q[0] + t);
      NamePrefix(p[0], s, q[0], t);
      SamePrefix('/', p[0] + s, q[0] + t);
      assert p <= q <==> p[0] == q[0] && p[1..] <= q[1..] by { FirstThenRest(p, q); }
    } else if p != [] {
      LegalTail(p);
    } else {
      StartsWithSeparator(q);
    }
  }

  lemma StartsWithSeparator(p: Path)
    ensures var s := Joined(p) + ['/']; s != [] && s[0] == '/'
  {}

  lemma SamePrefix(c: char, s: string, t: string)
    ensures [c] + s <= [c] + t <==> s <= t
  {
    assert s == ([c] + s)[1..] && t == ([c] + t)[1..];
    if s <= t { assert t == s + t[|s|..]; assert [c] + t == ([c] + s) + t[|s|..]; }
  }

  lemma FirstThenRest(p: Path, q: Path)
    requires p != [] && q != []
    ensures p <= q <==> p[0] == q[0] && p[1..] <= q[1..]
  {
    assert p == [p[0]] + p[1..] && q == [q[0]] + q[1..];
    if p[0] == q[0] && p[1..] <= q[1..] {
      assert forall i :: 0 < i < |p| ==> p[i] == p[1..][i - 1] && q[i] == q[1..][i - 1];
    }
  }

  lemma {:induction false} JoinedLength(p: Path, q: Path)
    requires LegalNames(q) && p <= q
    ensures p == q ==> Joined(p) == Joined(q)
    ensures p < q ==> |Joined(p)| + 2 <= |Joined(q)|
    ensures q != [] ==> |Joined(q)| >= 2 && Joined(q)[0] == '/' && Joined(q)[1] != '/'
    decreases |q|
  {
    if q != [] {
      LegalTail(q);
      JoinedLength(if p == [] then [] else p[1..], q[1..]);
    }
  }

  /** The test compares strings; on canonical paths with legal names it asks whether one path lies at or below the
      other, except below the file system's own root. */
  lemma InsideIsPrefix(root: Path, actual: Path)
    requires LegalNames(root) && LegalNames(actual)
    ensures Inside(root, actual) <==> Spelled(actual) == Spelled(root) || Spelled(root) + ['/'] <= Spelled(actual)
  {
    hide Joined;
    JoinedPrefix(root, actual);
    JoinedPrefix(actual, root);
    JoinedLength(actual, actual);
    JoinedLength(root, root);
    if root <= actual { JoinedLength(root, actual); }
    EmptyJoined();
    var a, r := Joined(actual), Joined(root);
    if r + ['/'] <= a { assert r + ['/'] <= a + ['/']; }
    if r + ['/'] <= a + ['/'] && |r| < |a| { assert r + ['/'] <= a by { ShorterPrefix(r + ['/'], a); } }
  }

  lemma EmptyJoined()
    ensures Joined([]) == ""
  {}

  lemma ShorterPrefix(s: string, t: string)
    requires s <= t + ['/'] && |s| <= |t|
    ensures s <= t
  {
    assert forall i :: 0 <= i < |s| ==> s[i] == (t + ['/'])[i];
  }

  // ---------------------------------------------------------------------------------------------
  // What the names in the payload mean
  // ---------------------------------------------------------------------------------------------

  function Find(entries: seq<Entry>, name: Name): (r: Option<Entry>)
    ensures r.Some? ==> r.value in entries && r.value.name == name
    ensures r.None? ==> forall e :: e in entries ==> e.name != name
  {
    if entries == [] then None else if entries[0].name == name then Some(entries[0]) else Find(entries[1..], name)
  }

  /** The entry `name` of the directory at `dir`. */
  function EntryAt(fs: FileSystem, dir: Path, name: Name): Option<Entry> {
    if dir in fs && fs[dir].Directory? then Find(fs[dir].entries, name) else None
  }

  /** Where following the names from `dir` leads. */
  function Follow(fs: FileSystem, dir: Path, names: seq<Name>): Option<Path>
    decreases |names|
  {
    if names == [] then Some(dir)
    else
      match EntryAt(fs, dir, names[0])
      case None => None
      case Some(e) => if e.target.None? then None else Follow(fs, e.target.value, names[1..])
  }

  /** The directories passed on the way. */
  ghost predicate Passed(fs: FileSystem, root: Path, names: seq<Name>, p: Path) {
    exists i :: 0 <= i < |names| && Follow(fs, root, names[..i]) == Some(p)
  }

  /** Why the entry the names lead to cannot be part of a payload. */
  ghost predicate Offends(fs: FileSystem, root: Path, names: seq<Name>) {
    if names == [] then root in fs && !fs[root].Directory?
    else
      var parent := Follow(fs, root, names[..|names| - 1]);
      parent.Some?
      && var entry := EntryAt(fs, parent.value, names[|names| - 1]);
      entry.Some? && Unfit(fs, root, names, entry.value)
  }

  ghost predicate Unfit(fs: FileSystem, root: Path, names: seq<Name>, entry: Entry) {
    || entry.target.None? || !Inside(root, entry.target.value)
    || (entry.target.value in fs
        && (fs[entry.target.value].Other?
            || (fs[entry.target.value].Directory? && Passed(fs, root, names, entry.target.value))))
  }

  /** The file the names lead to. */
  ghost function FileAt(fs: FileSystem, root: Path, names: seq<Name>): (file: Option<Node>)
    ensures file.Some? ==> file.value.File?
  {
    var p := Follow(fs, root, names);
    if p.Some? && p.value in fs && fs[p.value].File? then Some(fs[p.value]) else None
  }

  ghost predicate LeadsTo(fs: FileSystem, root: Path, item: Item) {
    FileAt(fs, root, item.names) == Some(File(item.bytes, item.executable))
  }

  // ---------------------------------------------------------------------------------------------
  // The walk
  // ---------------------------------------------------------------------------------------------

  /** `visit`: `prefix` are the names that led to the directory `canonical`. */
  function Visit(fs: FileSystem, root: Path, prefix: seq<Name>, canonical: Path, ancestors: set<Path>): Walk
    requires canonical in fs
    decreases |fs.Keys - ancestors|, 0
  {
    if canonical in ancestors then Failed(Cyclic)
    else if !fs[canonical].Directory? then Failed(NotADirectory)
    else
      Shrinks(fs, ancestors, canonical);
      VisitEntries(fs, root, prefix, fs[canonical].entries, ancestors + {canonical})
  }

  lemma Shrinks(fs: FileSystem, ancestors: set<Path>, canonical: Path)
    requires canonical in fs && canonical !in ancestors
    ensures |fs.Keys - (ancestors + {canonical})| < |fs.Keys - ancestors|
  {
    assert fs.Keys - ancestors == fs.Keys - (ancestors + {canonical}) + {canonical};
  }

  function VisitEntries(fs: FileSystem, root: Path, prefix: seq<Name>, entries: seq<Entry>, next: set<Path>): Walk
    decreases |fs.Keys - next|, 1 + |entries|
  {
    if entries == [] then Collected([])
    else
      match VisitEntry(fs, root, prefix, entries[0], next)
      case Failed(e) => Failed(e)
      case Collected(first) =>
        match VisitEntries(fs, root, prefix, entries[1..], next)
        case Failed(e) => Failed(e)
        case Collected(rest) => Collected(first + rest)
  }

  function VisitEntry(fs: FileSystem, root: Path, prefix: seq<Name>, entry: Entry, next: set<Path>): Walk
    decreases |fs.Keys - next|, 1
  {
    if entry.target.None? || entry.target.value !in fs then Failed(Dangling)
    else
      var actual := entry.target.value;
      if !Inside(root, actual) then Failed(Outside)
      else
        match fs[actual]
        case Directory(_) => Visit(fs, root, prefix + [entry.name], actual, next)
        case File(bytes, executable) => Collected([Item(prefix + [entry.name], bytes, executable)])
        case Other => Failed(Unsupported)
  }

  // ---------------------------------------------------------------------------------------------
  // Following names
  // ---------------------------------------------------------------------------------------------

  lemma {:induction false} FollowParts(fs: FileSystem, dir: Path, a: seq<Name>, b: seq<Name>)
    ensures Follow(fs, dir, a + b)
         == if Follow(fs, dir, a).Some? then Follow(fs, Follow(fs, dir, a).value, b) else None
    decreases |a|
  {
    if a == [] {
      assert a + b == b;
    } else {
      assert (a + b)[1..] == a[1..] + b && (a + b)[0] == a[0];
      var e := EntryAt(fs, dir, a[0]);
      if e.Some? && e.value.target.Some? { FollowParts(fs, e.value.target.value, a[1..], b); }
    }
  }

  lemma FollowLast(fs: FileSystem, root: Path, prefix: seq<Name>, dir: Path, name: Name)
    requires Follow(fs, root, prefix) == Some(dir)
    ensures Follow(fs, root, prefix + [name])
         == if EntryAt(fs, dir, name).Some? then EntryAt(fs, dir, name).value.target else None
  {
    FollowParts(fs, root, prefix, [name]);
    assert [name][1..] == [];
  }

  lemma FindMember(entries: seq<Entry>, e: Entry)
    requires e in entries
    requires forall i, j :: 0 <= i < j < |entries| ==> entries[i].name != entries[j].name
    ensures Find(entries, e.name) == Some(e)
  {
    var f := Find(entries, e.name);
    assert f.value in entries;
  }

  // ---------------------------------------------------------------------------------------------
  // What the walk collects, and when it fails
  // ---------------------------------------------------------------------------------------------

  /** A walk over a region of names fails exactly when some name in it offends, and otherwise collects
      exactly the files the region leads to, each once. */
  ghost predicate Means(fs: FileSystem, root: Path, region: iset<seq<Name>>, walk: Walk) {
    if walk.Failed? then exists names :: names in region && Offends(fs, root, names)
    else
      && (forall names :: names in region ==> !Offends(fs, root, names))
      && (forall item :: item in walk.items <==> item.names in region && LeadsTo(fs, root, item))
      && (forall i, j :: 0 <= i < j < |walk.items| ==> walk.items[i].names != walk.items[j].names)
  }

  predicate StartsWith(n: seq<Name>, names: seq<Name>) {
    names <= n
  }

  ghost function Below(names: seq<Name>): iset<seq<Name>> {
    iset n: seq<Name> | StartsWith(n, names)
  }

  /** Everything that starts with `prefix` and one of the entries. */
  ghost function Under(prefix: seq<Name>, entries: seq<Entry>): iset<seq<Name>> {
    iset n: seq<Name> | prefix < n && exists e :: e in entries && e.name == n[|prefix|]
  }

  lemma MeansJoin(fs: FileSystem, root: Path, r1: iset<seq<Name>>, r2: iset<seq<Name>>, a: seq<Item>, b: seq<Item>)
    requires Means(fs, root, r1, Collected(a)) && Means(fs, root, r2, Collected(b)) && r1 !! r2
    ensures Means(fs, root, r1 + r2, Collected(a + b))
  {
    forall i, j | 0 <= i < j < |a + b| ensures (a + b)[i].names != (a + b)[j].names {
      if i < |a| <= j { assert a[i] in a && b[j - |a|] in b; }
    }
  }

  lemma UnderFirst(prefix: seq<Name>, entries: seq<Entry>)
    requires entries != []
    requires forall i, j :: 0 <= i < j < |entries| ==> entries[i].name != entries[j].name
    ensures Under(prefix, entries) == Below(prefix + [entries[0].name]) + Under(prefix, entries[1..])
    ensures Below(prefix + [entries[0].name]) !! Under(prefix, entries[1..])
  {
    var first := prefix + [entries[0].name];
    forall n: seq<Name> ensures first <= n <==> prefix < n && n[|prefix|] == entries[0].name {
      if prefix < n && n[|prefix|] == entries[0].name { assert n[..|first|] == first; }
      if first <= n { assert n[..|first|] == first && n[..|prefix|] == first[..|prefix|]; }
    }
    forall e | e in entries ensures e == entries[0] || e in entries[1..] {}
  }

  /** The directories passed on the way to `names`. */
  ghost predicate Chain(fs: FileSystem, root: Path, names: seq<Name>, ancestors: set<Path>) {
    forall p :: p in ancestors <==> Passed(fs, root, names, p)
  }

  lemma ChainNext(fs: FileSystem, root: Path, prefix: seq<Name>, name: Name, ancestors: set<Path>, dir: Path)
    requires Chain(fs, root, prefix, ancestors) && Follow(fs, root, prefix) == Some(dir)
    ensures Chain(fs, root, prefix + [name], ancestors + {dir})
  {
    var names := prefix + [name];
    forall p ensures p in ancestors + {dir} <==> Passed(fs, root, names, p) {
      if p in ancestors {
        var i :| 0 <= i < |prefix| && Follow(fs, root, prefix[..i]) == Some(p);
        assert names[..i] == prefix[..i];
      }
      assert names[..|prefix|] == prefix;
      if Passed(fs, root, names, p) {
        var i :| 0 <= i < |names| && Follow(fs, root, names[..i]) == Some(p);
        assert names[..i] == prefix[..i];
        assert i == |prefix| ==> prefix[..i] == prefix;
      }
    }
  }

  /** What Offends says about an entry of a directory reached by `prefix`. */
  lemma OffendsAt(fs: FileSystem, root: Path, prefix: seq<Name>, dir: Path, entry: Entry)
    requires Follow(fs, root, prefix) == Some(dir) && EntryAt(fs, dir, entry.name) == Some(entry)
    ensures Offends(fs, root, prefix + [entry.name]) <==> Unfit(fs, root, prefix + [entry.name], entry)
    ensures Follow(fs, root, prefix + [entry.name]) == entry.target
  {
    assert (prefix + [entry.name])[..|prefix|] == prefix;
    FollowLast(fs, root, prefix, dir, entry.name);
  }

  /** Nothing lies below a file. */
  lemma BelowFile(fs: FileSystem, root: Path, file: seq<Name>, p: Path, names: seq<Name>)
    requires Follow(fs, root, file) == Some(p) && p in fs && !fs[p].Directory? && file < names
    ensures Follow(fs, root, names).None? && !Offends(fs, root, names)
  {
    assert names == file + names[|file|..];
    FollowParts(fs, root, file, names[|file|..]);
    var parent := names[..|names| - 1];
    assert parent == file + parent[|file|..];
    FollowParts(fs, root, file, parent[|file|..]);
  }

  lemma FileMeaning(fs: FileSystem, root: Path, prefix: seq<Name>, dir: Path, entry: Entry)
    requires Follow(fs, root, prefix) == Some(dir) && EntryAt(fs, dir, entry.name) == Some(entry)
    requires entry.target.Some? && entry.target.value in fs && Inside(root, entry.target.value)
    requires fs[entry.target.value].File?
    ensures var file := fs[entry.target.value];
            var names := prefix + [entry.name];
            Means(fs, root, Below(names), Collected([Item(names, file.bytes, file.executable)]))
  {
    var names, p := prefix + [entry.name], entry.target.value;
    OffendsAt(fs, root, prefix, dir, entry);
    forall n | n in Below(names) && n != names ensures Follow(fs, root, n).None? && !Offends(fs, root, n) {
      BelowFile(fs, root, names, p, n);
    }
  }

  lemma {:induction false} VisitMeaning(fs: FileSystem, root: Path, prefix: seq<Name>, canonical: Path,
                                        ancestors: set<Path>)
    requires WellFormed(fs) && canonical in fs && fs[canonical].Directory?
    requires Follow(fs, root, prefix) == Some(canonical) && Chain(fs, root, prefix, ancestors)
    requires canonical !in ancestors
    ensures Means(fs, root, Under(prefix, fs[canonical].entries), Visit(fs, root, prefix, canonical, ancestors))
    decreases |fs.Keys - ancestors|, 0
  {
    Shrinks(fs, ancestors, canonical);
    var entries := fs[canonical].entries;
    forall e | e in entries ensures EntryAt(fs, canonical, e.name) == Some(e) { FindMember(entries, e); }
    forall n: Name ensures Chain(fs, root, prefix + [n], ancestors + {canonical}) {
      ChainNext(fs, root, prefix, n, ancestors, canonical);
    }
    EntriesMeaning(fs, root, prefix, canonical, entries, ancestors + {canonical});
  }

  lemma {:induction false} EntriesMeaning(fs: FileSystem, root: Path, prefix: seq<Name>, dir: Path,
                                          entries: seq<Entry>, next: set<Path>)
    requires WellFormed(fs) && Follow(fs, root, prefix) == Some(dir)
    requires forall e :: e in entries ==> EntryAt(fs, dir, e.name) == Some(e)
    requires forall i, j :: 0 <= i < j < |entries| ==> entries[i].name != entries[j].name
    requires forall n: Name :: Chain(fs, root, prefix + [n], next)
    ensures Means(fs, root, Under(prefix, entries), VisitEntries(fs, root, prefix, entries, next))
    decreases |fs.Keys - next|, 1 + |entries|
  {
    hide Means, Chain, WellFormed, VisitEntry, EntryAt, Below, Under;
    if entries == [] {
      NothingUnder(fs, root, prefix);
    } else {
      UnderFirst(prefix, entries);
      EntryMeaning(fs, root, prefix, dir, entries[0], next);
      EntriesMeaning(fs, root, prefix, dir, entries[1..], next);
      var first := VisitEntry(fs, root, prefix, entries[0], next);
      var rest := VisitEntries(fs, root, prefix, entries[1..], next);
      var here, there := Below(prefix + [entries[0].name]), Under(prefix, entries[1..]);
      if first.Failed? {
        FailureSpreads(fs, root, here, there, first.error);
      } else if rest.Failed? {
        FailureSpreads(fs, root, there, here, rest.error);
        assert here + there == there + here;
      } else {
        MeansJoin(fs, root, here, there, first.items, rest.items);
      }
    }
  }

  lemma NothingUnder(fs: FileSystem, root: Path, prefix: seq<Name>)
    ensures Means(fs, root, Under(prefix, []), Collected([]))
  {}

  lemma FailureSpreads(fs: FileSystem, root: Path, a: iset<seq<Name>>, b: iset<seq<Name>>, error: Error)
    requires Means(fs, root, a, Failed(error))
    ensures Means(fs, root, a + b, Failed(error))
  {}

  lemma {:induction false} EntryMeaning(fs: FileSystem, root: Path, prefix: seq<Name>, dir: Path, entry: Entry,
                                        next: set<Path>)
    requires WellFormed(fs) && Follow(fs, root, prefix) == Some(dir) && EntryAt(fs, dir, entry.name) == Some(entry)
    requires Chain(fs, root, prefix + [entry.name], next)
    ensures Means(fs, root, Below(prefix + [entry.name]), VisitEntry(fs, root, prefix, entry, next))
    decreases |fs.Keys - next|, 1
  {
    var names := prefix + [entry.name];
    OffendsAt(fs, root, prefix, dir, entry);
    assert entry in fs[dir].entries;
    if entry.target.None? || !Inside(root, entry.target.value) || fs[entry.target.value].Other? {
      assert names in Below(names);
    } else if fs[entry.target.value].File? {
      FileMeaning(fs, root, prefix, dir, entry);
    } else if entry.target.value in next {
      assert Passed(fs, root, names, entry.target.value);
      assert names in Below(names) && Offends(fs, root, names);
      assert VisitEntry(fs, root, prefix, entry, next) == Failed(Cyclic);
    } else {
      VisitMeaning(fs, root, names, entry.target.value, next);
      assert !Passed(fs, root, names, entry.target.value);
      DirectoryMeaning(fs, root, names, entry.target.value, Visit(fs, root, names, entry.target.value, next));
    }
  }

  /** A directory adds nothing of its own to what lies under it. */
  lemma DirectoryMeaning(fs: FileSystem, root: Path, names: seq<Name>, dir: Path, walk: Walk)
    requires Follow(fs, root, names) == Some(dir) && dir in fs && fs[dir].Directory? && !Offends(fs, root, names)
    requires Means(fs, root, Under(names, fs[dir].entries), walk)
    ensures Means(fs, root, Below(names), walk)
  {
    var entries := fs[dir].entries;
    forall n | n in Below(names) && n !in Under(names, entries)
      ensures !Offends(fs, root, n) && (n == names || Follow(fs, root, n).None?)
    {
      if n != names {
        assert n == names + n[|names|..];
        FollowParts(fs, root, names, n[|names|..]);
        assert EntryAt(fs, dir, n[|names|]).None?;
        var parent := n[..|n| - 1];
        assert parent == names + parent[|names|..];
        FollowParts(fs, root, names, parent[|names|..]);
      }
    }
    assert Under(names, entries) <= Below(names);
  }

  // ---------------------------------------------------------------------------------------------
  // The whole payload
  // ---------------------------------------------------------------------------------------------

  /** The walk from the root fails exactly when following some names leads to a dangling link, out of the
      root, to something that is neither file nor directory, or to a directory already passed on the way;
      otherwise it collects every path that leads to a file, once, with that file's bytes. */
  lemma WalkMeaning(fs: FileSystem, root: Path)
    requires WellFormed(fs) && root in fs
    ensures Means(fs, root, Below([]), Visit(fs, root, [], root, {}))
  {
    assert [] in Below([]);
    if fs[root].Directory? {
      VisitMeaning(fs, root, [], root, {});
      DirectoryMeaning(fs, root, [], root, Visit(fs, root, [], root, {}));
    }
  }

  type Files = map<seq<Name>, seq<bv8>>

  /** `files` and `executableFiles` after storing items in order. */
  function Store(files: Files, items: seq<Item>): Files
    decreases |items|
  {
    if items == [] then files else Store(files[items[0].names := items[0].bytes], items[1..])
  }

  function Executables(items: seq<Item>): seq<seq<Name>> {
    if items == [] then [] else (if items[0].executable then [items[0].names] else []) + Executables(items[1..])
  }

  lemma {:induction false} StoreJoin(files: Files, a: seq<Item>, b: seq<Item>)
    ensures Store(files, a + b) == Store(Store(files, a), b)
    ensures Executables(a + b) == Executables(a) + Executables(b)
    decreases |a|
  {
    if a == [] {
      assert a + b == b;
    } else {
      StoreJoin(files[a[0].names := a[0].bytes], a[1..], b);
      assert (a + b)[1..] == a[1..] + b;
    }
  }

  ghost predicate Distinct(items: seq<Item>) {
    forall i, j :: 0 <= i < j < |items| ==> items[i].names != items[j].names
  }

  lemma {:induction false} Stored(files: Files, items: seq<Item>, names: seq<Name>)
    requires Distinct(items)
    ensures forall item :: item in items && item.names == names ==>
              names in Store(files, items) && Store(files, items)[names] == item.bytes
    ensures (forall item :: item in items ==> item.names != names) ==>
              (names in Store(files, items) <==> names in files)
              && (names in files ==> Store(files, items)[names] == files[names])
    decreases |items|
  {
    if items != [] {
      Stored(files[items[0].names := items[0].bytes], items[1..], names);
      assert items == [items[0]] + items[1..];
    }
  }

  lemma {:induction false} ExecutablesExact(items: seq<Item>)
    requires Distinct(items)
    ensures forall names ::
              names in Executables(items) <==> exists item :: item in items && item.executable && item.names == names
    ensures forall i, j :: 0 <= i < j < |Executables(items)| ==> Executables(items)[i] != Executables(items)[j]
  {
    if items != [] {
      ExecutablesExact(items[1..]);
      assert items == [items[0]] + items[1..];
      if items[0].executable {
        assert Executables(items) == [items[0].names] + Executables(items[1..]);
        assert items[0].names !in Executables(items[1..]);
      } else {
        assert Executables(items) == Executables(items[1..]);
      }
    }
  }

  ghost predicate Stores(items: seq<Item>, before: (Files, seq<seq<Name>>), after: (Files, seq<seq<Name>>)) {
    after.0 == Store(before.0, items) && after.1 == before.1 + Executables(items)
  }

  lemma StoresChain(a: seq<Item>, b: seq<Item>, s0: (Files, seq<seq<Name>>), s1: (Files, seq<seq<Name>>),
                    s2: (Files, seq<seq<Name>>))
    requires Stores(a, s0, s1) && Stores(b, s1, s2)
    ensures Stores(a + b, s0, s2)
  {
    StoreJoin(s0.0, a, b);
    assert s0.1 + Executables(a) + Executables(b) == s0.1 + (Executables(a) + Executables(b));
  }

  lemma StoresOne(item: Item, before: (Files, seq<seq<Name>>))
    ensures Stores([], before, before)
    ensures Stores([item], before, (before.0[item.names := item.bytes],
                                    if item.executable then before.1 + [item.names] else before.1))
  {
    assert [item][1..] == [];
    assert Executables([item]) == if item.executable then [item.names] else [];
  }

  /** What a walk leaves behind: its error, or everything it collected stored. */
  ghost predicate Leaves(walk: Walk, thrown: Option<Error>, before: (Files, seq<seq<Name>>),
                         after: (Files, seq<seq<Name>>)) {
    if walk.Failed? then thrown == Some(walk.error)
    else thrown == None && Stores(walk.items, before, after)
  }

  /** The local variables of collectBundleFiles and its visitor. */
  class Collector {
    const fs: FileSystem
    const root: Path
    var files: Files
    var executableFiles: seq<seq<Name>>

    constructor (fs: FileSystem, root: Path)
      ensures this.fs == fs && this.root == root && files == map[] && executableFiles == []
    {
      this.fs, this.root, files, executableFiles := fs, root, map[], [];
    }

    /** `visit` */
    method VisitDirectory(prefix: seq<Name>, canonical: Path, ancestors: set<Path>) returns (thrown: Option<Error>)
      requires canonical in fs
      modifies this
      ensures Leaves(Visit(fs, root, prefix, canonical, ancestors), thrown,
                     old((files, executableFiles)), (files, executableFiles))
      decreases |fs.Keys - ancestors|, 0
    {
      if canonical in ancestors { return Some(Cyclic); }
      if !fs[canonical].Directory? { return Some(NotADirectory); }
      Shrinks(fs, ancestors, canonical);
      var next := ancestors + {canonical};
      var entries := fs[canonical].entries;
      ghost var items: seq<Item> := [];
      var i := 0;
      while i < |entries|
        invariant 0 <= i <= |entries|
        invariant Stores(items, old((files, executableFiles)), (files, executableFiles))
        invariant VisitEntries(fs, root, prefix, entries, next)
               == Prepend(items, VisitEntries(fs, root, prefix, entries[i..], next))
      {
        hide Stores, VisitEntries, VisitEntry;
        ghost var before := (files, executableFiles);
        ghost var walk := VisitEntry(fs, root, prefix, entries[i], next);
        EntryThenRest(fs, root, prefix, entries[i..], next);
        assert entries[i..][1..] == entries[i + 1..];
        thrown := AddEntry(prefix, entries[i], next);
        if thrown.Some? { return; }
        StoresChain(items, walk.items, old((files, executableFiles)), before, (files, executableFiles));
        PrependJoin(items, walk.items, VisitEntries(fs, root, prefix, entries[i + 1..], next));
        items := items + walk.items;
        i := i + 1;
      }
      assert entries[|entries|..] == [] && items + [] == items;
      thrown := None;
    }

    /** One turn of the visitor's loop. */
    method AddEntry(prefix: seq<Name>, entry: Entry, next: set<Path>) returns (thrown: Option<Error>)
      modifies this
      ensures Leaves(VisitEntry(fs, root, prefix, entry, next), thrown,
                     old((files, executableFiles)), (files, executableFiles))
      decreases |fs.Keys - next|, 1
    {
      if entry.target.None? || entry.target.value !in fs { return Some(Dangling); }
      var actual := entry.target.value;
      if !Inside(root, actual) { return Some(Outside); }
      thrown := None;
      match fs[actual] {
        case Directory(_) => thrown := VisitDirectory(prefix + [entry.name], actual, next);
        case File(bytes, executable) =>
          StoresOne(Item(prefix + [entry.name], bytes, executable), (files, executableFiles));
          files := files[prefix + [entry.name] := bytes];
          if executable { executableFiles := executableFiles + [prefix + [entry.name]]; }
        case Other => thrown := Some(Unsupported);
      }
    }

    /** collectBundleFiles */
    method Collect() returns (thrown: Option<Error>)
      requires WellFormed(fs) && root in fs && files == map[] && executableFiles == []
      modifies this
      ensures thrown.Some? <==> exists names :: Offends(fs, root, names)
      ensures thrown.None? ==> forall names :: names in files <==> FileAt(fs, root, names).Some?
      ensures thrown.None? ==> forall names :: names in files ==> files[names] == FileAt(fs, root, names).value.bytes
      ensures thrown.None? ==> forall names ::
                names in executableFiles <==> FileAt(fs, root, names).Some? && FileAt(fs, root, names).value.executable
      ensures thrown.None? ==> forall i, j :: 0 <= i < j < |executableFiles| ==>
                executableFiles[i] != executableFiles[j]
    {
      thrown := VisitDirectory([], root, {});
      WalkMeaning(fs, root);
      ghost var walk := Visit(fs, root, [], root, {});
      if walk.Collected? {
        ExecutablesExact(walk.items);
        assert [] + Executables(walk.items) == Executables(walk.items);
        forall names ensures names in files <==> FileAt(fs, root, names).Some?
          ensures names in files ==> files[names] == FileAt(fs, root, names).value.bytes
          ensures names in executableFiles
                  <==> FileAt(fs, root, names).Some? && FileAt(fs, root, names).value.executable
        {
          ItemAt(fs, root, walk.items, names);
        }
      }
    }
  }

  /** What the collected items say about one path. */
  lemma ItemAt(fs: FileSystem, root: Path, items: seq<Item>, names: seq<Name>)
    requires Means(fs, root, Below([]), Collected(items))
    ensures names in Store(map[], items) <==> FileAt(fs, root, names).Some?
    ensures names in Store(map[], items) ==> Store(map[], items)[names] == FileAt(fs, root, names).value.bytes
    ensures names in Executables(items) <==> FileAt(fs, root, names).Some? && FileAt(fs, root, names).value.executable
  {
    assert names in Below([]);
    Stored(map[], items, names);
    ExecutablesExact(items);
    var file := FileAt(fs, root, names);
    if file.Some? {
      var item := Item(names, file.value.bytes, file.value.executable);
      assert LeadsTo(fs, root, item) && item in items;
    }
    assert forall item :: item in items && item.names == names ==> LeadsTo(fs, root, item);
  }

  lemma EntryThenRest(fs: FileSystem, root: Path, prefix: seq<Name>, entries: seq<Entry>, next: set<Path>)
    requires entries != []
    ensures var first := VisitEntry(fs, root, prefix, entries[0], next);
            VisitEntries(fs, root, prefix, entries, next)
              == if first.Failed? then first
                 else Prepend(first.items, VisitEntries(fs, root, prefix, entries[1..], next))
  {}

  lemma PrependJoin(a: seq<Item>, b: seq<Item>, walk: Walk)
    ensures Prepend(a, Prepend(b, walk)) == Prepend(a + b, walk)
  {
    if walk.Collected? { assert a + (b + walk.items) == a + b + walk.items; }
  }

  ghost function Prepend(items: seq<Item>, walk: Walk): Walk {
    if walk.Failed? then walk else Collected(items + walk.items)
  }
}
