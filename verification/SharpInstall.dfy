/** Installing the native image engine: download, verify, write aside, swap in, roll back. Every file and
    network step may fail or be the last before a crash. */
module SharpInstall {
  import opened Wrappers

  type Bytes = seq<bv8>
  type Hash = nat

  /** Names below a directory; the directory itself is the empty path. */
  type Path = seq<string>

  datatype Node = Folder | File(bytes: Bytes) | Link

  /** A directory's whole content, or a lone file. */
  type Tree = map<Path, Node>

  /** One file of the manifest. */
  type Entry = (Path, Hash)

  /** `readManifest` is None when it throws; with the pinned checksum it accepts only the pinned manifest. */
  datatype Bundle = Bundle(readManifest: Bytes -> Option<seq<Entry>>, hash: Bytes -> Hash)

  const MANIFEST: Path := ["manifest.json"]
  const PREVIOUS: Path := ["previous"]

  /** Manifest names are non-empty paths, each listed once. */
  ghost predicate Sane(bundle: Bundle) {
    forall bytes :: bundle.readManifest(bytes).Some? ==> Names(bundle.readManifest(bytes).value)
  }

  ghost predicate Names(entries: seq<Entry>) {
    && (forall i :: 0 <= i < |entries| ==> entries[i].0 != [])
    && (forall i, j :: 0 <= i < j < |entries| ==> entries[i].0 != entries[j].0)
  }

  predicate Below(p: Path, k: Path) {
    p <= k
  }

  /** No listed file is, or lies under, "previous". */
  ghost predicate NothingPrevious(entries: seq<Entry>) {
    forall e :: e in entries ==> !Below(PREVIOUS, e.0)
  }

  // ---------------------------------------------------------------------------------------------
  // validInstallation
  // ---------------------------------------------------------------------------------------------

  predicate Holds(bundle: Bundle, tree: Tree, entry: Entry) {
    entry.0 in tree && tree[entry.0].File? && bundle.hash(tree[entry.0].bytes) == entry.1
  }

  predicate Valid(bundle: Bundle, tree: Tree) {
    && MANIFEST in tree && tree[MANIFEST].File?
    && var entries := bundle.readManifest(tree[MANIFEST].bytes);
       entries.Some? && forall e :: e in entries.value ==> Holds(bundle, tree, e)
  }

  // ---------------------------------------------------------------------------------------------
  // The file system
  // ---------------------------------------------------------------------------------------------

  /** Writing creates missing folders, and fails where a file stands in for a folder or a folder for a file. */
  function Write(tree: Tree, p: Path, bytes: Bytes): Option<Tree> {
    if exists i :: 0 <= i < |p| && p[..i] in tree && tree[p[..i]] != Folder then None
    else if p in tree && tree[p] == Folder then None
    else Some((map k: Path | k in tree.Keys + Ancestors(p) :: if k in tree then tree[k] else Folder)[p := File(bytes)])
  }

  function Ancestors(p: Path): set<Path> {
    set i | 0 <= i < |p| :: p[..i]
  }

  /** Rename a tree to a path inside another. */
  function Attach(tree: Tree, p: Path, moved: Tree): Tree {
    map k: Path | k in tree.Keys + (set m | m in moved :: p + m) ::
      if Below(p, k) && k[|p|..] in moved then moved[k[|p|..]] else if k in tree then tree[k] else Folder
  }

  /** What lies at and below a path, as a tree of its own. */
  function Detached(tree: Tree, p: Path): Tree {
    map k: Path | k in (set m | m in tree && Below(p, m) :: m[|p|..]) :: if p + k in tree then tree[p + k] else Folder
  }

  function Without(tree: Tree, p: Path): Tree {
    map k | k in tree && !Below(p, k) :: tree[k]
  }

  /** rename() refuses to replace a folder with content, or a file by a folder. */
  predicate CanAttach(tree: Tree, moved: Tree) {
    PREVIOUS !in tree || (tree[PREVIOUS] != Folder && [] in moved && moved[[]] != Folder)
  }

  // ---------------------------------------------------------------------------------------------
  // installAndroidSharp
  // ---------------------------------------------------------------------------------------------

  datatype Fault = Fine | Fails | Crashes

  /** What happens at each step: whether the installed tree can be read, the request and the checks on what
      it brings, the two mkdirs, each write, the renames aside, in and back, the removal of the previous
      installation with the paths it removed before a fault, and the final cleanup. */
  datatype Env = Env(readable: bool, download: Fault, mkdir: Fault, mkdtemp: Fault, writes: nat -> Fault,
                     partial: Bytes, manifest: Fault, aside: Fault, install: Fault, restore: Fault, drop: Fault,
                     dropped: set<Path>, cleanup: Fault)

  datatype Result = Ready | Threw | Crashed

  /** The installed tree and the temporary one. */
  datatype Disk = Disk(target: Option<Tree>, temporary: Option<Tree>)

  function Ended(fault: Fault): Result
    requires !fault.Fine?
  {
    if fault.Fails? then Threw else Crashed
  }

  /** The archive's files; its checksum was compared with the pinned one before. */
  type Archive = map<Path, Bytes>

  /** The loop over the manifest: Ready once every file is written. */
  function Populate(bundle: Bundle, archive: Archive, entries: seq<Entry>, tree: Tree, n: nat, env: Env): (Result, Tree)
    decreases |entries|
  {
    if entries == [] then (Ready, tree)
    else
      var (name, hash) := entries[0];
      if name !in archive || bundle.hash(archive[name]) != hash then (Threw, tree)
      else
        var written := Write(tree, name, archive[name]);
        if written.None? then (Threw, tree)
        else if !env.writes(n).Fine? then (Ended(env.writes(n)), tree[name := File(env.partial)])
        else Populate(bundle, archive, entries[1..], written.value, n + 1, env)
  }

  /** From the finished temporary tree to the end of the outer try block. */
  function Swap(earlier: Option<Tree>, tree: Tree, env: Env): (Result, Disk) {
    if earlier.None? then
      if env.aside.Crashes? then (Crashed, Disk(None, Some(tree)))
      else if env.aside.Fails? then (Threw, Disk(None, Some(tree)))
      else if !env.install.Fine? then (Ended(env.install), Disk(None, Some(tree)))
      else Dropped(tree, env)
    else if !env.aside.Fine? then (Ended(env.aside), Disk(earlier, Some(tree)))
    else if !CanAttach(tree, earlier.value) then (Threw, Disk(earlier, Some(tree)))
    else
      var both := Attach(tree, PREVIOUS, earlier.value);
      if env.install.Crashes? then (Crashed, Disk(None, Some(both)))
      else if env.install.Fails? then
        if env.restore.Fine? then (Threw, Disk(Some(Detached(both, PREVIOUS)), Some(Without(both, PREVIOUS))))
        else (Ended(env.restore), Disk(None, Some(both)))
      else Dropped(both, env)
  }

  /** The new tree is in place; remove what was moved aside. */
  function Dropped(tree: Tree, env: Env): (Result, Disk) {
    if env.drop.Fine? then (Ready, Disk(Some(Without(tree, PREVIOUS)), None))
    else (Ended(env.drop), Disk(Some(map k | k in tree && !(Below(PREVIOUS, k) && k in env.dropped) :: tree[k]), None))
  }

  /** The outer try block, after mkdtemp. */
  function Replace(bundle: Bundle, archive: Archive, entries: seq<Entry>, bytes: Bytes, earlier: Option<Tree>, env: Env)
    : (Result, Disk)
  {
    var (r, tree) := Populate(bundle, archive, entries, map[[] := Folder], 0, env);
    if !r.Ready? then (r, Disk(earlier, Some(tree)))
    else
      var written := Write(tree, MANIFEST, bytes);
      if written.None? then (Threw, Disk(earlier, Some(tree)))
      else if !env.manifest.Fine? then (Ended(env.manifest), Disk(earlier, Some(tree[MANIFEST := File(env.partial)])))
      else Swap(earlier, written.value, env)
  }

  /** The finally block. */
  function Cleaned(r: Result, disk: Disk, env: Env): (Result, Disk) {
    if r.Crashed? then (r, disk)
    else if env.cleanup.Fine? then (r, disk.(temporary := None))
    else (Ended(env.cleanup), disk)
  }

  predicate AlreadyValid(bundle: Bundle, disk: Disk, env: Env) {
    disk.target.Some? && env.readable && Valid(bundle, disk.target.value)
  }

  /** The manifest in the archive, if the archive arrived and its manifest is the pinned one. */
  function Manifest(bundle: Bundle, archive: Archive): Option<seq<Entry>> {
    if MANIFEST in archive then bundle.readManifest(archive[MANIFEST]) else None
  }

  function Install(bundle: Bundle, archive: Archive, disk: Disk, env: Env): (Result, Disk) {
    if AlreadyValid(bundle, disk, env) then (Ready, disk)
    else if !env.download.Fine? then (Ended(env.download), disk)
    else if Manifest(bundle, archive).None? then (Threw, disk)
    else if !env.mkdir.Fine? then (Ended(env.mkdir), disk)
    else if !env.mkdtemp.Fine? then (Ended(env.mkdtemp), disk)
    else
      var (r, after) := Replace(bundle, archive, Manifest(bundle, archive).value, archive[MANIFEST], disk.target, env);
      Cleaned(r, after, env)
  }

  // ---------------------------------------------------------------------------------------------
  // The temporary tree is a complete installation
  // ---------------------------------------------------------------------------------------------

  lemma WriteKeeps(tree: Tree, p: Path, bytes: Bytes)
    requires Write(tree, p, bytes).Some?
    ensures var t := Write(tree, p, bytes).value;
            p in t && t[p] == File(bytes) && forall k :: k in tree && k != p ==> k in t && t[k] == tree[k]
  {}

  lemma {:induction false} PopulateComplete(bundle: Bundle, archive: Archive, entries: seq<Entry>, tree: Tree, n: nat,
                                            env: Env)
    requires Names(entries) && Populate(bundle, archive, entries, tree, n, env).0.Ready?
    ensures var t := Populate(bundle, archive, entries, tree, n, env).1;
            && (forall e :: e in entries ==>
                  e.0 in archive && bundle.hash(archive[e.0]) == e.1 && e.0 in t && t[e.0] == File(archive[e.0]))
            && (forall k :: k in tree && (forall e :: e in entries ==> e.0 != k) ==> k in t && t[k] == tree[k])
    decreases |entries|
  {
    if entries != [] {
      var (name, hash) := entries[0];
      WriteKeeps(tree, name, archive[name]);
      var written := Write(tree, name, archive[name]).value;
      PopulateComplete(bundle, archive, entries[1..], written, n + 1, env);
      assert entries == [entries[0]] + entries[1..];
    }
  }

  /** What lies above a path in a tree is a folder. */
  ghost predicate Rooted(tree: Tree) {
    forall k, i :: k in tree && 0 <= i < |k| ==> k[..i] in tree && tree[k[..i]] == Folder
  }

  lemma WriteRooted(tree: Tree, p: Path, bytes: Bytes)
    requires Rooted(tree) && Write(tree, p, bytes).Some?
    ensures Rooted(Write(tree, p, bytes).value)
  {
    var t := Write(tree, p, bytes).value;
    forall k, i | k in t && 0 <= i < |k| ensures k[..i] in t && t[k[..i]] == Folder {
      if k in tree {
        assert k[..i] in tree && tree[k[..i]] == Folder;
      } else if k != p {
        var j :| 0 <= j < |p| && p[..j] == k;
        assert k[..i] == p[..i] && p[..i] in Ancestors(p);
      } else {
        assert p[..i] in Ancestors(p);
      }
    }
  }

  lemma {:induction false} PopulateRooted(bundle: Bundle, archive: Archive, entries: seq<Entry>, tree: Tree, n: nat,
                                          env: Env)
    requires Rooted(tree) && Populate(bundle, archive, entries, tree, n, env).0.Ready?
    ensures Rooted(Populate(bundle, archive, entries, tree, n, env).1)
    decreases |entries|
  {
    hide Rooted, Write;
    if entries != [] {
      var (name, hash) := entries[0];
      WriteRooted(tree, name, archive[name]);
      PopulateRooted(bundle, archive, entries[1..], Write(tree, name, archive[name]).value, n + 1, env);
    }
  }

  /** The finished temporary tree: everything the manifest lists, and the manifest. */
  ghost predicate Complete(bundle: Bundle, archive: Archive, entries: seq<Entry>, tree: Tree) {
    && Rooted(tree) && [] in tree && tree[[]] == Folder
    && MANIFEST in archive && MANIFEST in tree && tree[MANIFEST] == File(archive[MANIFEST])
    && bundle.readManifest(archive[MANIFEST]) == Some(entries)
    && forall e :: e in entries ==> e.0 in archive && tree.Keys >= {e.0} && tree[e.0] == File(archive[e.0])
                                    && bundle.hash(archive[e.0]) == e.1
  }

  lemma CompleteTree(bundle: Bundle, archive: Archive, entries: seq<Entry>, env: Env)
    requires Sane(bundle) && Manifest(bundle, archive) == Some(entries)
    requires Populate(bundle, archive, entries, map[[] := Folder], 0, env).0.Ready?
    requires Write(Populate(bundle, archive, entries, map[[] := Folder], 0, env).1, MANIFEST, archive[MANIFEST]).Some?
    ensures Complete(bundle, archive, entries,
                     Write(Populate(bundle, archive, entries, map[[] := Folder], 0, env).1,
                           MANIFEST, archive[MANIFEST]).value)
  {
    var empty: Tree := map[[] := Folder];
    PopulateComplete(bundle, archive, entries, empty, 0, env);
    PopulateRooted(bundle, archive, entries, empty, 0, env);
    var tree := Populate(bundle, archive, entries, empty, 0, env).1;
    WriteKeeps(tree, MANIFEST, archive[MANIFEST]);
    WriteRooted(tree, MANIFEST, archive[MANIFEST]);
    assert [] in empty && forall e :: e in entries ==> e.0 != [];
  }

  /** What is left of a complete tree, whatever happened under "previous". */
  ghost predicate Keeps(tree: Tree, other: Tree) {
    forall k :: k in tree && !Below(PREVIOUS, k) ==> k in other && other[k] == tree[k]
  }

  /** The manifest and everything it lists outside "previous" is in place. */
  ghost predicate Installed(bundle: Bundle, entries: seq<Entry>, tree: Tree) {
    && MANIFEST in tree && tree[MANIFEST].File? && bundle.readManifest(tree[MANIFEST].bytes) == Some(entries)
    && forall e :: e in entries && !Below(PREVIOUS, e.0) ==> Holds(bundle, tree, e)
  }

  lemma KeptIsInstalled(bundle: Bundle, archive: Archive, entries: seq<Entry>, tree: Tree, other: Tree)
    requires Complete(bundle, archive, entries, tree) && Keeps(tree, other)
    ensures Installed(bundle, entries, other)
  {
    ManifestIsNotPrevious();
    assert !Below(PREVIOUS, MANIFEST);
  }

  /** Nothing more is needed if nothing is listed under "previous". */
  lemma InstalledIsValid(bundle: Bundle, entries: seq<Entry>, tree: Tree)
    requires Installed(bundle, entries, tree) && NothingPrevious(entries)
    ensures Valid(bundle, tree)
  {
    forall e | e in entries ensures Holds(bundle, tree, e) { assert !Below(PREVIOUS, e.0); }
  }

  lemma ManifestIsNotPrevious()
    ensures !Below(PREVIOUS, MANIFEST)
  {
    assert |"previous"| == 8 && |"manifest.json"| == 13;
    assert PREVIOUS[0] != MANIFEST[0];
  }

  // ---------------------------------------------------------------------------------------------
  // Moving aside and back
  // ---------------------------------------------------------------------------------------------

  lemma AsideIsFree(tree: Tree, earlier: Tree)
    requires Rooted(tree) && CanAttach(tree, earlier)
    ensures forall m :: m in tree && Below(PREVIOUS, m) ==> m == PREVIOUS && [] in earlier
  {
    forall m | m in tree && Below(PREVIOUS, m) ensures m == PREVIOUS && PREVIOUS in tree {
      assert m[..1] == PREVIOUS && m == m[..|m|];
    }
  }

  /** What was moved aside comes back whole. */
  lemma MovedBack(tree: Tree, earlier: Tree)
    requires Rooted(tree) && CanAttach(tree, earlier)
    ensures Detached(Attach(tree, PREVIOUS, earlier), PREVIOUS) == earlier
  {
    AsideIsFree(tree, earlier);
    var both := Attach(tree, PREVIOUS, earlier);
    forall k | k in earlier ensures Below(PREVIOUS, PREVIOUS + k) && (PREVIOUS + k)[1..] == k && PREVIOUS + k in both
                                 && both[PREVIOUS + k] == earlier[k] {}
    forall m | m in both && Below(PREVIOUS, m) ensures PREVIOUS + m[1..] == m && m[1..] in earlier {}
  }

  lemma AttachKeeps(tree: Tree, earlier: Tree)
    ensures Keeps(tree, Attach(tree, PREVIOUS, earlier))
            && Keeps(tree, Without(Attach(tree, PREVIOUS, earlier), PREVIOUS))
    ensures Keeps(tree, tree)
  {}

  // ---------------------------------------------------------------------------------------------
  // Every way an installation can end
  // ---------------------------------------------------------------------------------------------

  /** Where the swap leaves the installed tree. */
  ghost predicate SwapEnds(earlier: Option<Tree>, tree: Tree, env: Env, r: Result, target: Option<Tree>) {
    && (r.Ready? ==> target.Some? && Keeps(tree, target.value) && forall k :: k in target.value ==> !Below(PREVIOUS, k))
    && (r.Threw? ==>
          || target == earlier || (target.Some? && Keeps(tree, target.value))
          || (target.None? && env.install.Fails? && env.restore.Fails?))
    && (r.Crashed? ==> target == earlier || target.None? || Keeps(tree, target.value))
  }

  lemma DroppedKeeps(tree: Tree, both: Tree, env: Env)
    requires Keeps(tree, both)
    ensures var (r, d) := Dropped(both, env);
            && d.target.Some? && Keeps(tree, d.target.value)
            && (r.Ready? ==> forall k :: k in d.target.value ==> !Below(PREVIOUS, k))
  {}

  lemma SwapOutcome(earlier: Option<Tree>, tree: Tree, env: Env)
    requires Rooted(tree)
    ensures var (r, d) := Swap(earlier, tree, env); SwapEnds(earlier, tree, env, r, d.target)
  {
    hide Attach, Detached, Without, Keeps, CanAttach, Rooted, Dropped, Below;
    if earlier.Some? {
      AttachKeeps(tree, earlier.value);
      DroppedKeeps(tree, Attach(tree, PREVIOUS, earlier.value), env);
      if CanAttach(tree, earlier.value) { MovedBack(tree, earlier.value); }
    } else {
      AttachKeeps(tree, map[]);
      DroppedKeeps(tree, tree, env);
    }
  }

  /** How an installation may leave the directory. */
  ghost predicate EndsWell(bundle: Bundle, entries: seq<Entry>, earlier: Option<Tree>, env: Env, r: Result,
                           target: Option<Tree>) {
    && (r.Ready? ==> target.Some? && Installed(bundle, entries, target.value)
                     && (Valid(bundle, target.value) <==> NothingPrevious(entries)))
    && (r.Threw? ==>
          || target == earlier || (target.Some? && Installed(bundle, entries, target.value))
          || (target.None? && env.install.Fails? && env.restore.Fails?))
    && (r.Crashed? ==> target == earlier || target.None? || Installed(bundle, entries, target.value))
  }

  /** Before the swap nothing touches the installed tree; the swap starts from a complete one. */
  lemma ReplaceSteps(bundle: Bundle, archive: Archive, entries: seq<Entry>, earlier: Option<Tree>, env: Env)
    returns (tree: Option<Tree>)
    requires Sane(bundle) && Manifest(bundle, archive) == Some(entries)
    ensures var (r, populated) := Populate(bundle, archive, entries, map[[] := Folder], 0, env);
            tree == if r.Ready? && env.manifest.Fine? then Write(populated, MANIFEST, archive[MANIFEST]) else None
    ensures var (r, d) := Replace(bundle, archive, entries, archive[MANIFEST], earlier, env);
            if tree.None? then !r.Ready? && d.target == earlier
            else Complete(bundle, archive, entries, tree.value) && (r, d) == Swap(earlier, tree.value, env)
  {
    hide Complete, Swap, Write, Populate;
    var (r, populated) := Populate(bundle, archive, entries, map[[] := Folder], 0, env);
    if r.Ready? && Write(populated, MANIFEST, archive[MANIFEST]).Some? && env.manifest.Fine? {
      CompleteTree(bundle, archive, entries, env);
      tree := Write(populated, MANIFEST, archive[MANIFEST]);
    } else {
      tree := None;
    }
  }

  lemma ReplaceOutcome(bundle: Bundle, archive: Archive, entries: seq<Entry>, earlier: Option<Tree>, env: Env)
    requires Sane(bundle) && Manifest(bundle, archive) == Some(entries)
    ensures var (r, d) := Replace(bundle, archive, entries, archive[MANIFEST], earlier, env);
            EndsWell(bundle, entries, earlier, env, r, d.target)
  {
    hide Swap, Replace, Complete, Keeps, Valid, Installed, NothingPrevious;
    var tree := ReplaceSteps(bundle, archive, entries, earlier, env);
    var (r, d) := Replace(bundle, archive, entries, archive[MANIFEST], earlier, env);
    if tree.Some? {
      assert Rooted(tree.value) by { CompleteIsRooted(bundle, archive, entries, tree.value); }
      SwapOutcome(earlier, tree.value, env);
      if d.target.Some? && Keeps(tree.value, d.target.value) {
        KeptIsInstalled(bundle, archive, entries, tree.value, d.target.value);
        if r.Ready? { SwappedIn(bundle, archive, entries, tree.value, d.target.value); }
      }
    }
  }

  lemma CompleteIsRooted(bundle: Bundle, archive: Archive, entries: seq<Entry>, tree: Tree)
    requires Complete(bundle, archive, entries, tree)
    ensures Rooted(tree)
  {}

  /** Whatever fails, the installer returns with what its manifest lists in place, or throws with the directory
      as it was or so installed, unless moving the old one back failed too; after a crash it is as it was, absent
      or installed. What it returns is valid exactly if it was already or the manifest lists nothing under
      "previous", which the installer removes. */
  lemma InstallOutcome(bundle: Bundle, archive: Archive, disk: Disk, env: Env)
    requires Sane(bundle)
    ensures var (r, d), manifest := Install(bundle, archive, disk, env), Manifest(bundle, archive);
            if AlreadyValid(bundle, disk, env) then r.Ready? && d == disk
            else if manifest.None? then !r.Ready? && d.target == disk.target
            else EndsWell(bundle, manifest.value, disk.target, env, r, d.target)
  {
    hide Valid, Replace, Installed, NothingPrevious;
    var entries := Manifest(bundle, archive);
    if !AlreadyValid(bundle, disk, env) && entries.Some? {
      ReplaceOutcome(bundle, archive, entries.value, disk.target, env);
      var (r, after) := Replace(bundle, archive, entries.value, archive[MANIFEST], disk.target, env);
      CleanupKeeps(bundle, entries.value, disk.target, env, r, after);
    }
  }

  lemma CleanupKeeps(bundle: Bundle, entries: seq<Entry>, earlier: Option<Tree>, env: Env, r: Result, disk: Disk)
    requires EndsWell(bundle, entries, earlier, env, r, disk.target)
    ensures var (r', d) := Cleaned(r, disk, env); EndsWell(bundle, entries, earlier, env, r', d.target)
  {}

  /** Only a failing move back loses a directory to an exception. */
  lemma LostOnlyByRestore(bundle: Bundle, archive: Archive, disk: Disk, env: Env)
    requires disk.target.Some?
    ensures var (r, d) := Install(bundle, archive, disk, env);
            r.Threw? && d.target.None? ==> env.aside.Fine? && env.install.Fails? && env.restore.Fails?
  {
    hide Valid, Populate, Write, Attach, Detached, Without;
  }

  // ---------------------------------------------------------------------------------------------
  // An undisturbed run
  // ---------------------------------------------------------------------------------------------

  ghost predicate NoFaults(env: Env) {
    && env.readable && env.download.Fine? && env.mkdir.Fine? && env.mkdtemp.Fine? && (forall n :: env.writes(n).Fine?)
    && env.manifest.Fine? && env.aside.Fine? && env.install.Fine? && env.restore.Fine? && env.drop.Fine?
    && env.cleanup.Fine?
  }

  /** The archive holds every listed file with the listed checksum. */
  ghost predicate Provides(bundle: Bundle, archive: Archive, entries: seq<Entry>) {
    forall e :: e in entries ==> e.0 in archive && bundle.hash(archive[e.0]) == e.1
  }

  /** No listed file stands where another, or the manifest, needs a folder. */
  ghost predicate ConflictFree(entries: seq<Entry>) {
    && (forall e, f :: e in entries && f in entries ==> !(e.0 < f.0))
    && (forall e :: e in entries ==> !(MANIFEST < e.0))
  }

  /** Files are listed names, folders lie above them. */
  ghost predicate Shape(tree: Tree, entries: seq<Entry>) {
    forall k :: k in tree ==>
      if tree[k] == Folder then k == [] || exists e :: e in entries && k < e.0
      else exists e :: e in entries && e.0 == k
  }

  lemma WriteShape(tree: Tree, entries: seq<Entry>, p: Path, bytes: Bytes)
    requires Shape(tree, entries) && Write(tree, p, bytes).Some? && exists e :: e in entries && e.0 == p
    ensures Shape(Write(tree, p, bytes).value, entries)
  {
    var t := Write(tree, p, bytes).value;
    var e :| e in entries && e.0 == p;
    forall k | k in t && k !in tree && k != p ensures k < e.0 {
      var i :| 0 <= i < |p| && p[..i] == k;
    }
  }

  lemma CanWrite(tree: Tree, entries: seq<Entry>, p: Path, bytes: Bytes)
    requires Shape(tree, entries) && p != []
    requires forall e :: e in entries ==> !(e.0 < p) && !(p < e.0)
    ensures Write(tree, p, bytes).Some?
  {
    forall i | 0 <= i < |p| && p[..i] in tree ensures tree[p[..i]] == Folder {
      assert p[..i] < p;
    }
  }

  lemma {:induction false} PopulateSucceeds(bundle: Bundle, archive: Archive, all: seq<Entry>, entries: seq<Entry>,
                                            tree: Tree, n: nat, env: Env)
    requires Names(all) && ConflictFree(all) && Provides(bundle, archive, all) && NoFaults(env)
    requires (forall e :: e in entries ==> e in all) && Shape(tree, all)
    ensures Populate(bundle, archive, entries, tree, n, env).0.Ready?
    ensures Shape(Populate(bundle, archive, entries, tree, n, env).1, all)
    decreases |entries|
  {
    hide Shape, Write;
    if entries != [] {
      var (name, hash) := entries[0];
      assert entries[0] in all;
      CanWrite(tree, all, name, archive[name]);
      WriteShape(tree, all, name, archive[name]);
      PopulateSucceeds(bundle, archive, all, entries[1..], Write(tree, name, archive[name]).value, n + 1, env);
    }
  }

  lemma CanWriteManifest(tree: Tree, entries: seq<Entry>, bytes: Bytes)
    requires Shape(tree, entries) && ConflictFree(entries) && Names(entries)
    ensures Write(tree, MANIFEST, bytes).Some?
  {
    assert forall e :: e in entries && e.0 < MANIFEST ==> e.0 == [];
    CanWrite(tree, entries, MANIFEST, bytes);
  }

  lemma ProperPrefix(p: Path, q: Path)
    ensures p < q ==> |p| < |q| && q[..|p|] == p
  {}

  /** A file has nothing below it. */
  lemma FilesApart(tree: Tree, p: Path, q: Path)
    requires Rooted(tree) && p in tree && tree[p] != Folder && q in tree
    ensures !(p < q)
  {
    ProperPrefix(p, q);
  }

  /** A complete tree shows its names do not conflict. */
  lemma CompleteNames(bundle: Bundle, archive: Archive, entries: seq<Entry>, tree: Tree)
    requires Complete(bundle, archive, entries, tree)
    ensures ConflictFree(entries)
  {
    forall e, f | e in entries && f in entries ensures !(e.0 < f.0) { FilesApart(tree, e.0, f.0); }
    forall e | e in entries ensures !(MANIFEST < e.0) { FilesApart(tree, MANIFEST, e.0); }
  }

  /** An undisturbed run gets to the swap exactly when the names do not conflict. */
  lemma UndisturbedTree(bundle: Bundle, archive: Archive, entries: seq<Entry>, earlier: Option<Tree>, env: Env)
    returns (tree: Option<Tree>)
    requires Sane(bundle) && Manifest(bundle, archive) == Some(entries) && Provides(bundle, archive, entries)
    requires NoFaults(env)
    ensures tree.Some? <==> ConflictFree(entries)
    ensures var (r, d) := Replace(bundle, archive, entries, archive[MANIFEST], earlier, env);
            if tree.None? then !r.Ready?
            else Complete(bundle, archive, entries, tree.value) && (r, d) == Swap(earlier, tree.value, env)
    ensures tree.Some? && PREVIOUS in tree.value ==> !NothingPrevious(entries)
  {
    hide Complete, Swap, Names, Rooted, Shape, Write, Replace, NothingPrevious;
    tree := ReplaceSteps(bundle, archive, entries, earlier, env);
    if tree.Some? { CompleteNames(bundle, archive, entries, tree.value); }
    var empty: Tree := map[[] := Folder];
    if ConflictFree(entries) {
      assert Shape(empty, entries) by { EmptyShape(entries); }
      PopulateSucceeds(bundle, archive, entries, entries, empty, 0, env);
      var populated := Populate(bundle, archive, entries, empty, 0, env).1;
      CanWriteManifest(populated, entries, archive[MANIFEST]);
      NoPreviousFolder(populated, entries, archive[MANIFEST]);
    }
  }

  lemma EmptyShape(entries: seq<Entry>)
    ensures Shape(map[[] := Folder], entries)
  {}

  lemma NoPreviousFolder(tree: Tree, entries: seq<Entry>, bytes: Bytes)
    requires Shape(tree, entries) && Write(tree, MANIFEST, bytes).Some?
    ensures PREVIOUS in Write(tree, MANIFEST, bytes).value ==> !NothingPrevious(entries)
  {
    ManifestIsNotPrevious();
    assert PREVIOUS !in Ancestors(MANIFEST);
    if PREVIOUS in tree { assert exists e :: e in entries && Below(PREVIOUS, e.0); }
  }

  /** Left alone, with an archive that holds what its manifest lists, the installer ends with a valid directory
      exactly when no listed name conflicts with another and none lies under "previous", where the installer
      keeps the old directory. */
  lemma UndisturbedRun(bundle: Bundle, archive: Archive, entries: seq<Entry>, disk: Disk, env: Env)
    requires Sane(bundle) && Manifest(bundle, archive) == Some(entries) && Provides(bundle, archive, entries)
    requires NoFaults(env) && !AlreadyValid(bundle, disk, env)
    ensures var (r, d) := Install(bundle, archive, disk, env);
            r.Ready? && d.target.Some? && Valid(bundle, d.target.value) && d.temporary.None?
            <==> ConflictFree(entries) && NothingPrevious(entries)
  {
    hide Replace, Valid, Complete, Swap, ConflictFree, NothingPrevious, Manifest;
    ManifestPresent(bundle, archive);
    var (r, d) := Replace(bundle, archive, entries, archive[MANIFEST], disk.target, env);
    var tree := UndisturbedTree(bundle, archive, entries, disk.target, env);
    if tree.Some? {
      CompleteIsRooted(bundle, archive, entries, tree.value);
      SwapOutcome(disk.target, tree.value, env);
      UndisturbedSwap(disk.target, tree.value, env);
      if r.Ready? {
        SwappedIn(bundle, archive, entries, tree.value, d.target.value);
      }
    }
  }

  lemma ManifestPresent(bundle: Bundle, archive: Archive)
    requires Manifest(bundle, archive).Some?
    ensures MANIFEST in archive
  {}

  lemma UndisturbedSwap(earlier: Option<Tree>, tree: Tree, env: Env)
    requires NoFaults(env)
    ensures PREVIOUS !in tree ==> Swap(earlier, tree, env).0.Ready?
  {}

  /** A tree without "previous" keeps a complete tree's validity exactly when nothing was listed there. */
  lemma SwappedIn(bundle: Bundle, archive: Archive, entries: seq<Entry>, tree: Tree, target: Tree)
    requires Complete(bundle, archive, entries, tree) && Keeps(tree, target)
    requires forall k :: k in target ==> !Below(PREVIOUS, k)
    ensures Valid(bundle, target) <==> NothingPrevious(entries)
  {
    ManifestIsNotPrevious();
    if NothingPrevious(entries) {
      KeptIsInstalled(bundle, archive, entries, tree, target);
      InstalledIsValid(bundle, entries, target);
    } else {
      var e :| e in entries && Below(PREVIOUS, e.0);
      assert !Holds(bundle, target, e) && target[MANIFEST] == tree[MANIFEST];
    }
  }

  /** After any run, crashed or not, an undisturbed one ends with a valid directory. It makes a temporary
      directory of its own, so what a crash left in another does not matter. */
  lemma RerunRecovers(bundle: Bundle, archive: Archive, entries: seq<Entry>, disk: Disk, env: Env, again: Env)
    requires Sane(bundle) && Manifest(bundle, archive) == Some(entries) && Provides(bundle, archive, entries)
    requires NoFaults(again) && ConflictFree(entries) && NothingPrevious(entries)
    ensures var (_, left) := Install(bundle, archive, disk, env);
            var (r, d) := Install(bundle, archive, left.(temporary := None), again);
            r.Ready? && d.target.Some? && Valid(bundle, d.target.value)
  {
    hide Install, Valid;
    var (_, left) := Install(bundle, archive, disk, env);
    var start := left.(temporary := None);
    if AlreadyValid(bundle, start, again) {
      FastPath(bundle, archive, start, again);
    } else {
      UndisturbedRun(bundle, archive, entries, start, again);
    }
  }

  lemma FastPath(bundle: Bundle, archive: Archive, disk: Disk, env: Env)
    requires AlreadyValid(bundle, disk, env)
    ensures Install(bundle, archive, disk, env) == (Ready, disk)
  {}

  /** The installer gets as far as making its temporary directory. */
  predicate MakesTemporary(bundle: Bundle, archive: Archive, disk: Disk, env: Env) {
    && !AlreadyValid(bundle, disk, env) && env.download.Fine? && Manifest(bundle, archive).Some?
    && env.mkdir.Fine? && env.mkdtemp.Fine?
  }

  /** Once the temporary directory is made, the `finally` removes it whether the installation succeeded or threw; if
      that fails the installer throws, or is cut off, after all. Before, and if it is cut off on the way, it is not
      touched. */
  lemma CleanupExactly(bundle: Bundle, archive: Archive, disk: Disk, env: Env)
    ensures var (r, d) := Install(bundle, archive, disk, env);
            if !MakesTemporary(bundle, archive, disk, env) then d == disk
            else
              var entries := Manifest(bundle, archive).value;
              var (done, left) := Replace(bundle, archive, entries, archive[MANIFEST], disk.target, env);
              && d.target == left.target
              && (done.Crashed? ==> r.Crashed? && d == left)
              && (!done.Crashed? && env.cleanup.Fine? ==> r == done && d.temporary.None?)
              && (!done.Crashed? && env.cleanup.Fails? ==> r.Threw? && d == left)
              && (!done.Crashed? && env.cleanup.Crashes? ==> r.Crashed? && d == left)
  {
    hide Replace, Valid;
  }

  /** No step is cut off by a crash. */
  ghost predicate NoCrash(env: Env) {
    && !env.download.Crashes? && !env.mkdir.Crashes? && !env.mkdtemp.Crashes? && !env.manifest.Crashes?
    && !env.aside.Crashes? && !env.install.Crashes? && !env.restore.Crashes? && !env.drop.Crashes?
    && !env.cleanup.Crashes? && forall n :: !env.writes(n).Crashes?
  }

  lemma {:induction false} PopulateThrows(bundle: Bundle, archive: Archive, entries: seq<Entry>, tree: Tree, n: nat,
                                          env: Env)
    requires NoCrash(env)
    ensures !Populate(bundle, archive, entries, tree, n, env).0.Crashed?
    decreases |entries|
  {
    hide Write;
    if entries != [] && entries[0].0 in archive {
      var written := Write(tree, entries[0].0, archive[entries[0].0]);
      if written.Some? { PopulateThrows(bundle, archive, entries[1..], written.value, n + 1, env); }
    }
  }

  /** Short of a crash of one of its steps, the installer returns or throws. */
  lemma OnlyCrashesCrash(bundle: Bundle, archive: Archive, disk: Disk, env: Env)
    requires NoCrash(env)
    ensures !Install(bundle, archive, disk, env).0.Crashed?
  {
    var entries := Manifest(bundle, archive);
    if entries.Some? { PopulateThrows(bundle, archive, entries.value, map[[] := Folder], 0, env); }
    hide Write, Populate, Valid, Attach, Detached, Without;
  }

  // ---------------------------------------------------------------------------------------------
  // The installer itself
  // ---------------------------------------------------------------------------------------------

  class Workspace {
    var target: Option<Tree>
    var temporary: Option<Tree>

    constructor (target: Option<Tree>)
      ensures this.target == target && temporary.None?
    {
      this.target, this.temporary := target, None;
    }

    function Contents(): Disk
      reads this
    {
      Disk(target, temporary)
    }

    /** The loop that writes the manifest's files. */
    method WriteFiles(bundle: Bundle, archive: Archive, entries: seq<Entry>, env: Env) returns (r: Result)
      requires temporary.Some?
      modifies this`temporary
      ensures temporary.Some?
      ensures (r, temporary.value) == Populate(bundle, archive, entries, old(temporary.value), 0, env)
    {
      var i := 0;
      while i < |entries|
        invariant 0 <= i <= |entries| && temporary.Some?
        invariant Populate(bundle, archive, entries, old(temporary.value), 0, env)
               == Populate(bundle, archive, entries[i..], temporary.value, i, env)
      {
        hide Write;
        var (name, hash) := entries[i];
        assert entries[i..][1..] == entries[i + 1..];
        if name !in archive || bundle.hash(archive[name]) != hash { return Threw; }
        var written := Write(temporary.value, name, archive[name]);
        if written.None? { return Threw; }
        if !env.writes(i).Fine? {
          temporary := Some(temporary.value[name := File(env.partial)]);
          return Ended(env.writes(i));
        }
        temporary := written;
        i := i + 1;
      }
      return Ready;
    }

    /** The two renames with their rollback, and the removal of the previous installation. */
    method SwapIn(env: Env) returns (r: Result)
      requires temporary.Some?
      modifies this
      ensures (r, Contents()) == Swap(old(target), old(temporary.value), env)
    {
      var movedPrevious := false;
      if target.Some? && env.aside.Fine? && !CanAttach(temporary.value, target.value) { return Threw; }
      if !env.aside.Fine? { return Ended(env.aside); }
      if target.Some? {
        temporary := Some(Attach(temporary.value, PREVIOUS, target.value));
        target := None;
        movedPrevious := true;
      }
      if !env.install.Fine? {
        if env.install.Fails? && movedPrevious {
          if !env.restore.Fine? { return Ended(env.restore); }
          target := Some(Detached(temporary.value, PREVIOUS));
          temporary := Some(Without(temporary.value, PREVIOUS));
        }
        return Ended(env.install);
      }
      target, temporary := temporary, None;
      if !env.drop.Fine? {
        target := Some(map k | k in target.value && !(Below(PREVIOUS, k) && k in env.dropped) :: target.value[k]);
        return Ended(env.drop);
      }
      target := Some(Without(target.value, PREVIOUS));
      return Ready;
    }

    /** installAndroidSharp; the archive is what the download brought. */
    method InstallAndroidSharp(bundle: Bundle, archive: Archive, env: Env) returns (r: Result)
      modifies this
      ensures (r, Contents()) == Install(bundle, archive, old(Contents()), env)
    {
      hide Write, Populate, Swap, Valid;
      if target.Some? && env.readable && Valid(bundle, target.value) { return Ready; }
      if !env.download.Fine? { return Ended(env.download); }
      if MANIFEST !in archive { return Threw; }
      var manifest := bundle.readManifest(archive[MANIFEST]);
      if manifest.None? { return Threw; }
      if !env.mkdir.Fine? { return Ended(env.mkdir); }
      if !env.mkdtemp.Fine? { return Ended(env.mkdtemp); }
      temporary := Some(map[[] := Folder]);
      r := WriteFiles(bundle, archive, manifest.value, env);
      if r.Ready? {
        var written := Write(temporary.value, MANIFEST, archive[MANIFEST]);
        if written.None? {
          r := Threw;
        } else if !env.manifest.Fine? {
          temporary := Some(temporary.value[MANIFEST := File(env.partial)]);
          r := Ended(env.manifest);
        } else {
          temporary := written;
          r := SwapIn(env);
        }
      }
      if !r.Crashed? {
        if env.cleanup.Fine? { temporary := None; } else { r := Ended(env.cleanup); }
      }
    }
  }
}
