/** The GitHub store that desktop releases live in, and the checks a publication makes before it
    changes anything. Tags, bodies, asset names and URLs are kept as structured values. */
module Releases {
  import opened Wrappers
  import opened Versions

  datatype Platform = DarwinAarch64 | DarwinX8664 | LinuxX8664 | LinuxAarch64 | WindowsX8664 | WindowsAarch64

  const UPDATE_PLATFORMS: seq<Platform> :=
    [DarwinAarch64, DarwinX8664, LinuxX8664, LinuxAarch64, WindowsX8664, WindowsAarch64]

  /** The commit and bundled-source fingerprint that a release body's marker names. */
  datatype Source = Source(commit: string, fingerprint: string)

  datatype Build = Build(channel: Channel, version: Version, source: Source)

  datatype Tag = Desktop(version: Version) | OtherTag(text: string)

  /** `Sidecar(name)` is the asset called `name` + ".sig". */
  datatype AssetName =
    | Payload(platform: Platform, version: Version)
    | Installer(platform: Platform, version: Version)
    | Fragment(platform: Platform)
    | Sidecar(of: AssetName)
    | OtherName(text: string)

  /** A download of this repository's release `tag`, or another address. */
  datatype Url = Download(tag: Tag, name: AssetName) | Elsewhere(github: bool)

  /** A signature names the payload bytes it signs; None is a blank one. */
  datatype Entry = Entry(url: Url, signature: Option<nat>)

  datatype Feed = Feed(version: Version, channel: Channel, source: Source, notes: string, pubDate: nat,
                       platforms: map<Platform, Entry>)

  datatype Content = Bytes(digest: nat) | SignatureOf(digest: nat) | FeedFile(feed: Feed)

  /** `marker` is the source named in the body, `target` the commit GitHub will tag. */
  datatype Release = Release(id: nat, draft: bool, marker: Option<Source>, target: string,
                             assets: map<AssetName, Content>)

  /** `updates` holds the channel feeds of the "desktop-updates" release, None until it exists. */
  datatype Store = Store(releases: map<Tag, Release>, updates: Option<map<Channel, Feed>>)

  /** A workflow run as pruning sees it. */
  datatype Run = Run(completed: bool, unsuccessful: bool, desktopWorkflow: bool)

  datatype Error =
    | Unavailable | MissingFragment | DifferentBuilds | DuplicatePlatform | InvalidFeed
    | UnpinnedUrl | MissingArtifact | Regression | Refused

  datatype Result<+T> = Ok(value: T) | Err(error: Error)

  // ---------------------------------------------------------------------------------------------
  // Feeds
  // ---------------------------------------------------------------------------------------------

  predicate Hex(s: string, length: nat) {
    |s| == length && forall i :: 0 <= i < |s| ==> Digit(s[i]) || 'a' <= s[i] <= 'f'
  }

  predicate ChannelVersion(channel: Channel, v: Version) {
    match channel
    case StableChannel => v.prerelease == []
    case NightlyChannel =>
      |v.prerelease| == 3 && v.prerelease[0] == Alphanumeric("nightly")
      && v.prerelease[1].Numeric? && v.prerelease[2].Numeric?
  }

  predicate OnGitHub(url: Url) {
    url.Download? || url.github
  }

  /** validateFeed accepts. */
  predicate ValidFeed(feed: Feed, channel: Channel) {
    && feed.channel == channel
    && Hex(feed.source.fingerprint, 64) && Hex(feed.source.commit, 40)
    && ChannelVersion(channel, feed.version)
    && forall p :: p in UPDATE_PLATFORMS ==>
         p in feed.platforms && feed.platforms[p].signature.Some? && OnGitHub(feed.platforms[p].url)
  }

  predicate Describes(feed: Feed, build: Build) {
    feed.version == build.version && feed.channel == build.channel && feed.source == build.source
  }

  /** The platforms of fragments that all describe `build` and name no platform twice. */
  function MergePlatforms(fragments: seq<Feed>, build: Build): Result<map<Platform, Entry>> {
    if fragments == [] then Ok(map[])
    else
      var last := fragments[|fragments| - 1];
      match MergePlatforms(fragments[..|fragments| - 1], build)
      case Err(e) => Err(e)
      case Ok(platforms) =>
        if !Describes(last, build) then Err(DifferentBuilds)
        else if platforms.Keys !! last.platforms.Keys then Ok(platforms + last.platforms)
        else Err(DuplicatePlatform)
  }

  /** mergeFeeds: notes and date are those of the first fragment. */
  function Merge(fragments: seq<Feed>, build: Build): Result<Feed>
    requires fragments != []
  {
    match MergePlatforms(fragments, build)
    case Err(e) => Err(e)
    case Ok(platforms) =>
      var feed := Feed(build.version, build.channel, build.source, fragments[0].notes, fragments[0].pubDate, platforms);
      if ValidFeed(feed, build.channel) then Ok(feed) else Err(InvalidFeed)
  }

  ghost predicate Mergeable(fragments: seq<Feed>, build: Build) {
    && (forall i :: 0 <= i < |fragments| ==> Describes(fragments[i], build))
    && (forall i, j :: 0 <= i < j < |fragments| ==> fragments[i].platforms.Keys !! fragments[j].platforms.Keys)
  }

  /** The merged entries are exactly the fragments' entries. */
  ghost predicate Collects(fragments: seq<Feed>, platforms: map<Platform, Entry>) {
    && (forall p :: p in platforms <==> exists i :: 0 <= i < |fragments| && p in fragments[i].platforms)
    && (forall i, p :: 0 <= i < |fragments| && p in fragments[i].platforms ==>
          platforms[p] == fragments[i].platforms[p])
  }

  ghost predicate ApartFrom(fragments: seq<Feed>, feed: Feed) {
    forall i :: 0 <= i < |fragments| ==> fragments[i].platforms.Keys !! feed.platforms.Keys
  }

  lemma MergeableStep(fragments: seq<Feed>, build: Build)
    requires fragments != []
    ensures var front, last := fragments[..|fragments| - 1], fragments[|fragments| - 1];
            Mergeable(fragments, build) <==> Mergeable(front, build) && Describes(last, build) && ApartFrom(front, last)
  {
    var n := |fragments| - 1;
    assert forall i :: 0 <= i < n ==> fragments[..n][i] == fragments[i];
  }

  lemma ApartFromUnion(fragments: seq<Feed>, platforms: map<Platform, Entry>, feed: Feed)
    requires Collects(fragments, platforms)
    ensures ApartFrom(fragments, feed) <==> platforms.Keys !! feed.platforms.Keys
  {
    forall i, p | 0 <= i < |fragments| && p in fragments[i].platforms ensures p in platforms {}
    if !(platforms.Keys !! feed.platforms.Keys) {
      var p :| p in platforms && p in feed.platforms;
      var i :| 0 <= i < |fragments| && p in fragments[i].platforms;
      assert p in fragments[i].platforms.Keys && p in feed.platforms.Keys;
    }
  }

  lemma CollectsStep(fragments: seq<Feed>, platforms: map<Platform, Entry>, feed: Feed)
    requires Collects(fragments, platforms) && platforms.Keys !! feed.platforms.Keys
    ensures Collects(fragments + [feed], platforms + feed.platforms)
  {
    var more := fragments + [feed];
    assert more[|fragments|] == feed && forall i :: 0 <= i < |fragments| ==> more[i] == fragments[i];
  }

  lemma NothingMerged(build: Build)
    ensures Mergeable([], build) && Collects([], map[])
  {}

  /** Merging succeeds exactly for fragments of one build that share no platform, and the merged
      entries are exactly the fragments' entries. */
  lemma {:induction false} MergeMeaning(fragments: seq<Feed>, build: Build)
    ensures MergePlatforms(fragments, build).Ok? <==> Mergeable(fragments, build)
    ensures MergePlatforms(fragments, build).Ok? ==> Collects(fragments, MergePlatforms(fragments, build).value)
  {
    hide Mergeable, Collects, Describes, ApartFrom, ValidFeed;
    if fragments == [] {
      NothingMerged(build);
    } else {
      var n := |fragments| - 1;
      var front, last := fragments[..n], fragments[n];
      MergeMeaning(front, build);
      MergeableStep(fragments, build);
      if MergePlatforms(front, build).Ok? {
        var platforms := MergePlatforms(front, build).value;
        ApartFromUnion(front, platforms, last);
        assert fragments == front + [last];
        if platforms.Keys !! last.platforms.Keys { CollectsStep(front, platforms, last); }
      }
    }
  }

  /** mergeFeeds as written: nested loops over fragments and their entries. */
  method MergeFeeds(fragments: seq<Feed>, build: Build) returns (r: Result<Feed>)
    requires fragments != []
    ensures r == Merge(fragments, build)
  {
    var platforms: map<Platform, Entry> := map[];
    var i := 0;
    while i < |fragments|
      invariant i <= |fragments|
      invariant MergePlatforms(fragments[..i], build) == Ok(platforms)
    {
      var fragment := fragments[i];
      assert fragments[..i + 1][..i] == fragments[..i] && fragments[..i + 1][i] == fragment;
      if !Describes(fragment, build) {
        RefusedPrefix(fragments, i + 1, build);
        return Err(DifferentBuilds);
      }
      ghost var before := platforms;
      var targets := fragment.platforms.Keys;
      while targets != {}
        invariant targets <= fragment.platforms.Keys
        invariant before.Keys !! (fragment.platforms.Keys - targets)
        invariant platforms.Keys == before.Keys + (fragment.platforms.Keys - targets)
        invariant forall p :: p in platforms ==>
                    platforms[p] == if p in before then before[p] else fragment.platforms[p]
        decreases targets
      {
        var target :| target in targets;
        if target in platforms {
          assert target in before.Keys && target in fragment.platforms.Keys;
          RefusedPrefix(fragments, i + 1, build);
          return Err(DuplicatePlatform);
        }
        platforms := platforms[target := fragment.platforms[target]];
        targets := targets - {target};
      }
      assert platforms == before + fragment.platforms;
      i := i + 1;
    }
    assert fragments[..i] == fragments;
    var feed := Feed(build.version, build.channel, build.source, fragments[0].notes, fragments[0].pubDate, platforms);
    if !ValidFeed(feed, build.channel) { return Err(InvalidFeed); }
    return Ok(feed);
  }

  lemma {:induction false} RefusedPrefix(fragments: seq<Feed>, n: nat, build: Build)
    requires n <= |fragments| && MergePlatforms(fragments[..n], build).Err?
    ensures MergePlatforms(fragments, build) == MergePlatforms(fragments[..n], build)
    decreases |fragments| - n
  {
    if n == |fragments| {
      assert fragments[..n] == fragments;
    } else {
      assert fragments[..n + 1][..n] == fragments[..n];
      RefusedPrefix(fragments, n + 1, build);
    }
  }

  // ---------------------------------------------------------------------------------------------
  // The read-only half of a publication
  // ---------------------------------------------------------------------------------------------

  predicate HasFragment(release: Release, p: Platform) {
    Fragment(p) in release.assets && release.assets[Fragment(p)].FeedFile?
  }

  function Fragments(release: Release): seq<Feed>
    requires forall p :: p in UPDATE_PLATFORMS ==> HasFragment(release, p)
  {
    seq(6, i requires 0 <= i < 6 =>
      assert HasFragment(release, UPDATE_PLATFORMS[i]); release.assets[Fragment(UPDATE_PLATFORMS[i])].feed)
  }

  /** Why an entry cannot be published: its URL is not of this release, or its artifact or the signature of
      it is missing. */
  function EntryFault(entry: Entry, release: Release, build: Build): Option<Error> {
    if !entry.url.Download? || entry.url.tag != Desktop(build.version) then Some(UnpinnedUrl)
    else if entry.url.name !in release.assets || Sidecar(entry.url.name) !in release.assets then Some(MissingArtifact)
    else None
  }

  function Among(order: seq<Platform>, platforms: map<Platform, Entry>): (r: seq<Platform>)
    ensures forall p :: p in r <==> p in order && p in platforms
  {
    if order == [] then []
    else (if order[0] in platforms then [order[0]] else []) + Among(order[1..], platforms)
  }

  /** The merged entries in the order they were merged: fragment by fragment. */
  function EntryOrder(fragments: seq<Feed>): seq<Platform> {
    if fragments == [] then []
    else EntryOrder(fragments[..|fragments| - 1]) + Among(UPDATE_PLATFORMS, fragments[|fragments| - 1].platforms)
  }

  /** The first fault met when every entry is checked in turn. */
  function FirstFault(order: seq<Platform>, platforms: map<Platform, Entry>, release: Release, build: Build)
    : Option<Error>
  {
    if order == [] then None
    else
      var fault := if order[0] in platforms then EntryFault(platforms[order[0]], release, build) else None;
      if fault.Some? then fault else FirstFault(order[1..], platforms, release, build)
  }

  lemma {:induction false} FaultFree(order: seq<Platform>, platforms: map<Platform, Entry>, release: Release,
                                     build: Build)
    ensures FirstFault(order, platforms, release, build).None?
       <==> forall p :: p in order && p in platforms ==> EntryFault(platforms[p], release, build).None?
  {
    if order != [] {
      FaultFree(order[1..], platforms, release, build);
      assert order == [order[0]] + order[1..];
    }
  }

  lemma EveryPlatform(p: Platform)
    ensures p in UPDATE_PLATFORMS
  {
    assert UPDATE_PLATFORMS[0] == DarwinAarch64 && UPDATE_PLATFORMS[1] == DarwinX8664
      && UPDATE_PLATFORMS[2] == LinuxX8664;
    assert UPDATE_PLATFORMS[3] == LinuxAarch64 && UPDATE_PLATFORMS[4] == WindowsX8664
      && UPDATE_PLATFORMS[5] == WindowsAarch64;
  }

  /** No merged entry escapes the check. */
  lemma {:induction false} OrderCovers(fragments: seq<Feed>, i: nat, p: Platform)
    requires i < |fragments| && p in fragments[i].platforms
    ensures p in EntryOrder(fragments)
  {
    var n := |fragments| - 1;
    if i == n { EveryPlatform(p); } else { OrderCovers(fragments[..n], i, p); }
  }

  /** The feed a publication would post, from the release's fragments. */
  function ReadFeed(release: Release, build: Build): Result<Feed> {
    if exists p :: p in UPDATE_PLATFORMS && !HasFragment(release, p) then Err(MissingFragment)
    else
      match Merge(Fragments(release), build)
      case Err(e) => Err(e)
      case Ok(feed) =>
        var fault := FirstFault(EntryOrder(Fragments(release)), feed.platforms, release, build);
        if fault.Some? then Err(fault.value) else Ok(feed)
  }

  /** The channel may move from `current` to `build`. */
  predicate Advances(current: Feed, build: Build) {
    var order := Order(build.version, current.version);
    order > 0 || (order == 0 && current.source == build.source)
  }

  /** The channel check: a feed that is present must be valid and not newer. */
  function ChannelCheck(updates: Option<map<Channel, Feed>>, build: Build): Result<()> {
    if updates.None? || build.channel !in updates.value then Ok(())
    else
      var current := updates.value[build.channel];
      if !ValidFeed(current, build.channel) then Err(InvalidFeed)
      else if !Advances(current, build) then Err(Regression)
      else Ok(())
  }

  /** All checks of publishDesktopRelease in the order it makes them; on success the feed to post. */
  function Preflight(store: Store, build: Build): Result<Feed> {
    if Desktop(build.version) !in store.releases
       || store.releases[Desktop(build.version)].marker != Some(build.source) then Err(Unavailable)
    else
      match ReadFeed(store.releases[Desktop(build.version)], build)
      case Err(e) => Err(e)
      case Ok(feed) =>
        match ChannelCheck(store.updates, build)
        case Err(e) => Err(e)
        case Ok(_) => Ok(feed)
  }

  // ---------------------------------------------------------------------------------------------
  // Facts about the checks
  // ---------------------------------------------------------------------------------------------

  /** Moving a channel is a partial order: later feeds stay admissible for everything they follow. */
  lemma AdvancesChains(a: Feed, b: Feed, build: Build)
    requires Advances(a, Build(b.channel, b.version, b.source)) && Advances(b, build)
    ensures Advances(a, build)
  {
    OrderDecides(a.version, b.version);
    OrderDecides(b.version, a.version);
    OrderDecides(b.version, build.version);
    OrderDecides(build.version, b.version);
    OrderDecides(build.version, a.version);
    OrderDecides(a.version, build.version);
    OrderChains(a.version, b.version, build.version);
  }

  /** The backward check refuses a nightly over a nightly exactly when its (base, date, run) is not
      later, unless it is the very same version of the very same source. */
  lemma NightlyRefusal(base: Version, date: nat, run: nat, base': Version, date': nat, run': nat,
                       current: Feed, build: Build)
    requires Stable(base) && Stable(base')
    requires current.version == Nightly(base, date, run) && build.version == Nightly(base', date', run')
    ensures Advances(current, build) <==>
              || Order(base, base') < 0
              || (base == base' && (date < date' || (date == date' && run < run')))
              || (base == base' && date == date' && run == run' && current.source == build.source)
  {
    NightlyOrder(base, date, run, base', date', run');
    OrderDecides(build.version, current.version);
    OrderDecides(current.version, build.version);
    if build.version == current.version {
      assert base.patch + 1 == current.version.patch == base'.patch + 1 && base == base';
      assert current.version.prerelease[1] == Numeric(date) && build.version.prerelease[1] == Numeric(date');
      assert current.version.prerelease[2] == Numeric(run) && build.version.prerelease[2] == Numeric(run');
    }
  }

  /** What is read depends on the names of the assets and the content of the fragments alone. */
  lemma SameNamesReadAlike(a: Release, b: Release, build: Build)
    requires a.assets.Keys == b.assets.Keys
    requires forall p :: Fragment(p) in a.assets ==> a.assets[Fragment(p)] == b.assets[Fragment(p)]
    ensures ReadFeed(a, build) == ReadFeed(b, build)
  {
    forall p ensures HasFragment(a, p) <==> HasFragment(b, p) {
      assert Fragment(p) in a.assets <==> Fragment(p) in b.assets by { assert a.assets.Keys == b.assets.Keys; }
    }
    if forall p :: p in UPDATE_PLATFORMS ==> HasFragment(a, p) {
      forall i | 0 <= i < 6 ensures Fragments(a)[i] == Fragments(b)[i] {
        assert HasFragment(a, UPDATE_PLATFORMS[i]);
      }
      assert Fragments(a) == Fragments(b);
      var merged := Merge(Fragments(a), build);
      if merged.Ok? { SameNamesSameFault(EntryOrder(Fragments(a)), merged.value.platforms, a, b, build); }
    }
  }

  lemma {:induction false} SameNamesSameFault(order: seq<Platform>, platforms: map<Platform, Entry>, a: Release,
                                              b: Release, build: Build)
    requires a.assets.Keys == b.assets.Keys
    ensures FirstFault(order, platforms, a, build) == FirstFault(order, platforms, b, build)
  {
    if order != [] {
      assert forall name :: name in a.assets <==> name in a.assets.Keys;
      assert forall name :: name in b.assets <==> name in b.assets.Keys;
      SameNamesSameFault(order[1..], platforms, a, b, build);
    }
  }

  /** The artifact check looks at names only: swapping a payload's bytes under a finished fragment
      changes nothing in what is published. */
  lemma PayloadBytesUnchecked(release: Release, build: Build, name: AssetName, digest: nat)
    requires name in release.assets && !name.Fragment?
    ensures ReadFeed(release.(assets := release.assets[name := Bytes(digest)]), build) == ReadFeed(release, build)
  {
    SameNamesReadAlike(release.(assets := release.assets[name := Bytes(digest)]), release, build);
  }

  /** What a successful read guarantees about the feed. */
  lemma ReadFeedComplete(release: Release, build: Build)
    requires ReadFeed(release, build).Ok?
    ensures var feed := ReadFeed(release, build).value;
            && Describes(feed, build) && ValidFeed(feed, build.channel)
            && (forall p :: p in UPDATE_PLATFORMS ==>
                  && p in feed.platforms
                  && feed.platforms[p].url.Download? && feed.platforms[p].url.tag == Desktop(build.version)
                  && feed.platforms[p].url.name in release.assets
                  && Sidecar(feed.platforms[p].url.name) in release.assets)
  {
    var fragments, feed := Fragments(release), ReadFeed(release, build).value;
    FaultFree(EntryOrder(fragments), feed.platforms, release, build);
    MergeMeaning(fragments, build);
    forall p | p in UPDATE_PLATFORMS ensures p in feed.platforms && p in EntryOrder(fragments) {
      assert p in MergePlatforms(fragments, build).value;
      var i :| 0 <= i < |fragments| && p in fragments[i].platforms;
      OrderCovers(fragments, i, p);
    }
  }
}
