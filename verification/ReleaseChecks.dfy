/** What the checks before a publication accept and what they report, in terms of the release's assets, the
    fragments' entries and section 11 of SemVer 2.0.0 alone. */
module ReleaseChecks {
  import opened Wrappers
  import opened Versions
  import opened Releases

  // ---------------------------------------------------------------------------------------------
  // The channel check
  // ---------------------------------------------------------------------------------------------

  /** A channel may move to every version that follows its own, and to its own version of the same source. */
  lemma AdvancesExactly(current: Feed, build: Build)
    ensures Advances(current, build)
       <==> Precedes(current.version, build.version)
            || (build.version == current.version && build.source == current.source)
  {
    OrderIsPrecedence(build.version, current.version);
    OrderDecides(build.version, current.version);
    hide Order, Precedes;
  }

  /** Between stable versions that is: a greater major, or an equal major and a greater minor, or both equal and a
      greater patch, or the very same version and source. */
  lemma StableRefusal(current: Feed, build: Build)
    requires current.version.prerelease == [] && build.version.prerelease == []
    ensures var last, next := current.version, build.version;
            Advances(current, build) <==>
              || last.major < next.major
              || (last.major == next.major && last.minor < next.minor)
              || (last.major == next.major && last.minor == next.minor && last.patch < next.patch)
              || (last == next && current.source == build.source)
  {
    AdvancesExactly(current, build);
    hide Advances;
  }

  // ---------------------------------------------------------------------------------------------
  // The fragments
  // ---------------------------------------------------------------------------------------------

  lemma PlatformAt(p: Platform) returns (i: nat)
    ensures i < 6 && UPDATE_PLATFORMS[i] == p
  {
    i := match p
      case DarwinAarch64 => 0
      case DarwinX8664 => 1
      case LinuxX8664 => 2
      case LinuxAarch64 => 3
      case WindowsX8664 => 4
      case WindowsAarch64 => 5;
  }

  ghost predicate AllThere(release: Release) {
    forall p :: Fragment(p) in release.assets && release.assets[Fragment(p)].FeedFile?
  }

  ghost function FragmentOf(release: Release, p: Platform): Feed
    requires AllThere(release)
  {
    release.assets[Fragment(p)].feed
  }

  /** The fragment of platform `q` lists `entry` for platform `p`. */
  ghost predicate Lists(release: Release, q: Platform, p: Platform, entry: Entry)
    requires AllThere(release)
  {
    p in FragmentOf(release, q).platforms && FragmentOf(release, q).platforms[p] == entry
  }

  /** All fragments are of the build, and no two list an entry for one platform. */
  ghost predicate OneBuild(release: Release, build: Build)
    requires AllThere(release)
  {
    && (forall p :: var f := FragmentOf(release, p);
          f.version == build.version && f.channel == build.channel && f.source == build.source)
    && forall p, q, r, d, e :: Lists(release, p, r, d) && Lists(release, q, r, e) ==> p == q
  }

  /** The build's hashes are well-formed and its version is of its channel's form. */
  ghost predicate WellFormedBuild(build: Build) {
    && |build.source.commit| == 40 && |build.source.fingerprint| == 64
    && (forall c :: c in build.source.commit + build.source.fingerprint ==> '0' <= c <= '9' || 'a' <= c <= 'f')
    && match build.channel
       case StableChannel => build.version.prerelease == []
       case NightlyChannel =>
         exists date, run :: build.version.prerelease == [Alphanumeric("nightly"), Numeric(date), Numeric(run)]
  }

  ghost predicate SignedEntry(release: Release, p: Platform)
    requires AllThere(release)
  {
    exists q, entry :: Lists(release, q, p, entry) && entry.signature.Some?
  }

  /** Every platform has an entry, which is signed. */
  ghost predicate AllSigned(release: Release)
    requires AllThere(release)
  {
    forall p :: SignedEntry(release, p)
  }

  /** A download from this release, of an asset that is there with its signature. */
  ghost predicate Pinned(url: Url, release: Release, build: Build) {
    && url.Download? && url.tag == Desktop(build.version)
    && url.name in release.assets && Sidecar(url.name) in release.assets
  }

  ghost predicate AllPinned(release: Release, build: Build)
    requires AllThere(release)
  {
    forall p, q, entry :: Lists(release, q, p, entry) ==> Pinned(entry.url, release, build)
  }

  /** The build's feed: its notes and date are those of the first fragment, its entries exactly those listed. */
  ghost predicate FeedOf(release: Release, build: Build, feed: Feed)
    requires AllThere(release)
  {
    && feed.version == build.version && feed.channel == build.channel && feed.source == build.source
    && feed.notes == FragmentOf(release, DarwinAarch64).notes
    && feed.pubDate == FragmentOf(release, DarwinAarch64).pubDate
    && (forall p, q, entry :: Lists(release, q, p, entry) ==> p in feed.platforms && feed.platforms[p] == entry)
    && forall p :: p in feed.platforms ==> exists q :: Lists(release, q, p, feed.platforms[p])
  }

  lemma FragmentsAre(release: Release)
    ensures AllThere(release) <==> forall p :: p in UPDATE_PLATFORMS ==> HasFragment(release, p)
    ensures AllThere(release) ==>
              forall i :: 0 <= i < 6 ==> Fragments(release)[i] == FragmentOf(release, UPDATE_PLATFORMS[i])
  {
    forall p ensures p in UPDATE_PLATFORMS { EveryPlatform(p); }
    if forall p :: p in UPDATE_PLATFORMS ==> HasFragment(release, p) {
      forall p ensures Fragment(p) in release.assets && release.assets[Fragment(p)].FeedFile? {
        assert HasFragment(release, p);
      }
      forall i | 0 <= i < 6 ensures Fragments(release)[i] == FragmentOf(release, UPDATE_PLATFORMS[i]) {
        assert HasFragment(release, UPDATE_PLATFORMS[i]);
      }
    }
  }

  lemma DifferentPlatforms(i: nat, j: nat)
    requires i < j < 6
    ensures UPDATE_PLATFORMS[i] != UPDATE_PLATFORMS[j]
  {}

  /** The fragments in the order they are read. */
  ghost predicate InOrder(release: Release, fragments: seq<Feed>)
    requires AllThere(release)
  {
    |fragments| == 6 && forall i :: 0 <= i < 6 ==> fragments[i] == FragmentOf(release, UPDATE_PLATFORMS[i])
  }

  lemma ListedOnce(release: Release, build: Build, p: Platform, q: Platform, r: Platform)
    requires AllThere(release) && OneBuild(release, build)
    ensures r in FragmentOf(release, p).platforms && r in FragmentOf(release, q).platforms ==> p == q
  {
    if r in FragmentOf(release, p).platforms && r in FragmentOf(release, q).platforms {
      assert Lists(release, p, r, FragmentOf(release, p).platforms[r]);
      assert Lists(release, q, r, FragmentOf(release, q).platforms[r]);
    }
  }

  lemma MergeableExactly(release: Release, build: Build, fragments: seq<Feed>)
    requires AllThere(release) && InOrder(release, fragments)
    ensures Mergeable(fragments, build) <==> OneBuild(release, build)
  {
    hide AllThere;
    if OneBuild(release, build) {
      forall i, j | 0 <= i < j < 6 ensures fragments[i].platforms.Keys !! fragments[j].platforms.Keys {
        DifferentPlatforms(i, j);
        forall r | r in fragments[i].platforms ensures r !in fragments[j].platforms {
          ListedOnce(release, build, UPDATE_PLATFORMS[i], UPDATE_PLATFORMS[j], r);
        }
      }
    }
    if Mergeable(fragments, build) {
      forall p ensures Describes(FragmentOf(release, p), build) { var i := PlatformAt(p); }
      forall p, q, r, d, e | Lists(release, p, r, d) && Lists(release, q, r, e) ensures p == q {
        var i := PlatformAt(p);
        var j := PlatformAt(q);
        if i < j { assert fragments[i].platforms.Keys !! fragments[j].platforms.Keys; }
        if j < i { assert fragments[j].platforms.Keys !! fragments[i].platforms.Keys; }
        assert r in fragments[i].platforms.Keys && r in fragments[j].platforms.Keys;
      }
    }
  }

  lemma WellFormedExactly(build: Build)
    ensures WellFormedBuild(build)
       <==> Hex(build.source.fingerprint, 64) && Hex(build.source.commit, 40)
            && ChannelVersion(build.channel, build.version)
  {
    var hex := build.source.commit + build.source.fingerprint;
    if build.channel.NightlyChannel? && ChannelVersion(build.channel, build.version) {
      var pre := build.version.prerelease;
      assert pre == [Alphanumeric("nightly"), Numeric(pre[1].number), Numeric(pre[2].number)];
    }
    if WellFormedBuild(build) {
      forall c | c in build.source.commit || c in build.source.fingerprint ensures Digit(c) || 'a' <= c <= 'f' {
        assert c in hex;
      }
    }
  }

  /** A feed is valid for a channel exactly if it is that channel's, well-formed as its build is, and has for all six
      platforms a signed entry on GitHub. */
  lemma ValidFeedExactly(feed: Feed, channel: Channel)
    ensures ValidFeed(feed, channel)
       <==> && feed.channel == channel && WellFormedBuild(Build(feed.channel, feed.version, feed.source))
            && forall p :: p in feed.platforms && feed.platforms[p].signature.Some?
                           && (feed.platforms[p].url.Download? || feed.platforms[p].url.github)
  {
    WellFormedExactly(Build(feed.channel, feed.version, feed.source));
    forall p ensures p in UPDATE_PLATFORMS { EveryPlatform(p); }
    hide WellFormedBuild, Hex, ChannelVersion;
  }

  lemma SignedExactly(release: Release, build: Build, feed: Feed)
    requires AllThere(release) && FeedOf(release, build, feed)
    ensures (forall p :: p in UPDATE_PLATFORMS ==> p in feed.platforms && feed.platforms[p].signature.Some?)
       <==> AllSigned(release)
  {
    hide AllThere, Lists;
    forall p ensures p in UPDATE_PLATFORMS { EveryPlatform(p); }
    if forall p :: p in UPDATE_PLATFORMS ==> p in feed.platforms && feed.platforms[p].signature.Some? {
      forall p ensures SignedEntry(release, p) {
        assert p in UPDATE_PLATFORMS;
        var q :| Lists(release, q, p, feed.platforms[p]);
      }
    }
    if AllSigned(release) {
      forall p ensures p in feed.platforms && feed.platforms[p].signature.Some? { assert SignedEntry(release, p); }
    }
  }

  /** The merged feed is valid exactly if the build is well-formed and every platform has a signed entry. */
  lemma ValidExactly(release: Release, build: Build, feed: Feed)
    requires AllThere(release) && FeedOf(release, build, feed)
    requires forall p :: p in feed.platforms ==> OnGitHub(feed.platforms[p].url)
    ensures ValidFeed(feed, build.channel) <==> WellFormedBuild(build) && AllSigned(release)
  {
    WellFormedExactly(build);
    SignedExactly(release, build, feed);
    hide WellFormedBuild, Hex, ChannelVersion, AllThere, OnGitHub, AllSigned;
  }

  /** What merging makes of the fragments. */
  lemma MergedIs(release: Release, build: Build, fragments: seq<Feed>) returns (feed: Feed)
    requires AllThere(release) && InOrder(release, fragments) && OneBuild(release, build)
    ensures FeedOf(release, build, feed)
    ensures Merge(fragments, build) == if ValidFeed(feed, build.channel) then Ok(feed) else Err(InvalidFeed)
  {
    MergeableExactly(release, build, fragments);
    MergeMeaning(fragments, build);
    hide AllThere, Mergeable, OneBuild, ValidFeed, Collects;
    var platforms := MergePlatforms(fragments, build).value;
    hide MergePlatforms;
    feed := Feed(build.version, build.channel, build.source, fragments[0].notes, fragments[0].pubDate, platforms);
    CollectedIs(release, fragments, platforms);
    assert UPDATE_PLATFORMS[0] == DarwinAarch64;
    hide Lists, FragmentOf;
  }

  lemma CollectedIs(release: Release, fragments: seq<Feed>, platforms: map<Platform, Entry>)
    requires AllThere(release) && InOrder(release, fragments) && Collects(fragments, platforms)
    ensures forall p, q, entry :: Lists(release, q, p, entry) ==> p in platforms && platforms[p] == entry
    ensures forall p :: p in platforms ==> exists q :: Lists(release, q, p, platforms[p])
  {
    hide AllThere;
    forall p, q, entry | Lists(release, q, p, entry) ensures p in platforms && platforms[p] == entry {
      var i := PlatformAt(q);
      assert p in fragments[i].platforms;
    }
    forall p | p in platforms ensures exists q :: Lists(release, q, p, platforms[p]) {
      var i :| 0 <= i < |fragments| && p in fragments[i].platforms;
      assert Lists(release, UPDATE_PLATFORMS[i], p, platforms[p]);
    }
  }

  lemma FaultFreeExactly(release: Release, build: Build, fragments: seq<Feed>, feed: Feed)
    requires AllThere(release) && InOrder(release, fragments) && FeedOf(release, build, feed)
    ensures FirstFault(EntryOrder(fragments), feed.platforms, release, build).None? <==> AllPinned(release, build)
  {
    FaultFree(EntryOrder(fragments), feed.platforms, release, build);
    hide AllThere, FirstFault, EntryOrder;
    forall p, q, entry | Lists(release, q, p, entry) ensures p in EntryOrder(fragments) {
      var i := PlatformAt(q);
      OrderCovers(fragments, i, p);
    }
    hide Lists;
    if AllPinned(release, build) {
      forall p | p in feed.platforms ensures EntryFault(feed.platforms[p], release, build).None? {
        var q :| Lists(release, q, p, feed.platforms[p]);
      }
    }
  }

  lemma PinnedIsOnGitHub(release: Release, build: Build, feed: Feed)
    requires AllThere(release) && FeedOf(release, build, feed) && AllPinned(release, build)
    ensures forall p :: p in feed.platforms ==> OnGitHub(feed.platforms[p].url)
  {
    hide AllThere, Lists;
    forall p | p in feed.platforms ensures OnGitHub(feed.platforms[p].url) {
      var q :| Lists(release, q, p, feed.platforms[p]);
    }
  }

  /** A release can be read for a build exactly if all six fragments are there, are of that well-formed build and
      share no platform, and every platform has a signed entry that is an asset of this release with its signature;
      what is read is then the build's feed. */
  lemma ReadFeedExactly(release: Release, build: Build)
    ensures ReadFeed(release, build).Ok?
       <==> && AllThere(release) && OneBuild(release, build) && WellFormedBuild(build) && AllSigned(release)
            && AllPinned(release, build)
    ensures ReadFeed(release, build).Ok? ==>
              AllThere(release) && FeedOf(release, build, ReadFeed(release, build).value)
  {
    FragmentsAre(release);
    if AllThere(release) {
      ReadOfFragments(release, build, Fragments(release));
    }
    hide AllThere, OneBuild, WellFormedBuild, AllSigned, AllPinned, HasFragment, FirstFault, FeedOf, Merge;
  }

  lemma ReadOfFragments(release: Release, build: Build, fragments: seq<Feed>)
    requires AllThere(release) && InOrder(release, fragments)
    ensures var merged := Merge(fragments, build);
            var fault := if merged.Err? then None
                         else FirstFault(EntryOrder(fragments), merged.value.platforms, release, build);
            && (merged.Ok? && fault.None?
                <==> && OneBuild(release, build) && WellFormedBuild(build) && AllSigned(release)
                     && AllPinned(release, build))
            && (merged.Ok? ==> FeedOf(release, build, merged.value))
  {
    hide AllThere, OneBuild, WellFormedBuild, AllSigned, AllPinned, FirstFault, FeedOf, ValidFeed, InOrder, EntryOrder;
    MergeableExactly(release, build, fragments);
    if OneBuild(release, build) {
      var feed := MergedIs(release, build, fragments);
      FaultFreeExactly(release, build, fragments, feed);
      if AllPinned(release, build) {
        PinnedIsOnGitHub(release, build, feed);
        ValidExactly(release, build, feed);
      }
    } else {
      MergeMeaning(fragments, build);
    }
  }

  // ---------------------------------------------------------------------------------------------
  // All checks
  // ---------------------------------------------------------------------------------------------

  /** The channel's feed is not in the way: there is none, or the build follows it, or is the same once more. */
  ghost predicate MayFollow(store: Store, build: Build) {
    store.updates.Some? && build.channel in store.updates.value ==>
      var current := store.updates.value[build.channel];
      && ValidFeed(current, build.channel)
      && (Precedes(current.version, build.version)
          || (build.version == current.version && build.source == current.source))
  }

  /** A publication's checks pass exactly if the release bears the build's marker, can be read for it and may
      follow the channel's feed; a readable build is a regression exactly if a valid feed it may not follow is there. */
  lemma PreflightExactly(store: Store, build: Build)
    ensures Preflight(store, build).Ok?
       <==> && Desktop(build.version) in store.releases
            && store.releases[Desktop(build.version)].marker == Some(build.source)
            && ReadFeed(store.releases[Desktop(build.version)], build).Ok? && MayFollow(store, build)
    ensures Preflight(store, build) == Err(Regression)
       <==> && Desktop(build.version) in store.releases
            && store.releases[Desktop(build.version)].marker == Some(build.source)
            && ReadFeed(store.releases[Desktop(build.version)], build).Ok? && !MayFollow(store, build)
            && ValidFeed(store.updates.value[build.channel], build.channel)
  {
    if Desktop(build.version) in store.releases {
      ReadFeedExactly(store.releases[Desktop(build.version)], build);
      ReadFeedReports(store.releases[Desktop(build.version)], build);
    }
    if store.updates.Some? && build.channel in store.updates.value {
      AdvancesExactly(store.updates.value[build.channel], build);
    }
    hide ReadFeed, Precedes, ValidFeed, Advances, AllThere, OneBuild, WellFormedBuild, AllSigned, AllPinned;
  }

  // ---------------------------------------------------------------------------------------------
  // What is reported
  // ---------------------------------------------------------------------------------------------

  /** Merging stops at the first fragment that is of another build or repeats a platform. */
  lemma {:induction false} MergeFails(fragments: seq<Feed>, build: Build) returns (n: nat)
    requires MergePlatforms(fragments, build).Err?
    ensures n < |fragments| && Mergeable(fragments[..n], build) && !Mergeable(fragments[..n + 1], build)
    ensures MergePlatforms(fragments, build).error
         == if fragments[n].version == build.version && fragments[n].channel == build.channel
               && fragments[n].source == build.source then DuplicatePlatform else DifferentBuilds
  {
    hide Mergeable;
    var last := |fragments| - 1;
    MergeMeaning(fragments[..last], build);
    if MergePlatforms(fragments[..last], build).Ok? {
      n := last;
      assert fragments[..n + 1] == fragments;
      MergeMeaning(fragments, build);
    } else {
      n := MergeFails(fragments[..last], build);
      assert fragments[..last][..n] == fragments[..n] && fragments[..last][..n + 1] == fragments[..n + 1];
    }
  }

  /** The entry check stops at the first entry, in order, that is not pinned. */
  lemma {:induction false} EntryFails(order: seq<Platform>, platforms: map<Platform, Entry>, release: Release,
                                      build: Build) returns (i: nat)
    requires FirstFault(order, platforms, release, build).Some?
    ensures i < |order| && order[i] in platforms && !Pinned(platforms[order[i]].url, release, build)
    ensures forall j :: 0 <= j < i && order[j] in platforms ==> Pinned(platforms[order[j]].url, release, build)
    ensures var url := platforms[order[i]].url;
            FirstFault(order, platforms, release, build)
              == Some(if url.Download? && url.tag == Desktop(build.version) then MissingArtifact else UnpinnedUrl)
  {
    if order[0] in platforms && EntryFault(platforms[order[0]], release, build).Some? {
      i := 0;
    } else {
      var k := EntryFails(order[1..], platforms, release, build);
      i := k + 1;
      assert order[1..][k] == order[i] && forall j :: 0 < j < i ==> order[j] == order[1..][j - 1];
    }
  }

  /** A missing fragment is reported before anything else; then the merge, then whether the merged feed is valid,
      then the entries. */
  lemma ReadFeedReports(release: Release, build: Build)
    ensures ReadFeed(release, build) == Err(MissingFragment) <==> !AllThere(release)
    ensures AllThere(release) && !OneBuild(release, build) ==>
              ReadFeed(release, build) == Err(DifferentBuilds) || ReadFeed(release, build) == Err(DuplicatePlatform)
    ensures AllThere(release) && OneBuild(release, build) && !(WellFormedBuild(build) && AllSigned(release)) ==>
              ReadFeed(release, build) == Err(InvalidFeed)
    ensures AllThere(release) && OneBuild(release, build) && WellFormedBuild(build) && AllSigned(release)
            && !AllPinned(release, build) ==>
              && ReadFeed(release, build).Err?
              && ReadFeed(release, build).error in {InvalidFeed, UnpinnedUrl, MissingArtifact}
  {
    FragmentsAre(release);
    ReadFeedExactly(release, build);
    if AllThere(release) {
      ReportOfFragments(release, build, Fragments(release));
      var merged := Merge(Fragments(release), build);
      if merged.Ok? && FirstFault(EntryOrder(Fragments(release)), merged.value.platforms, release, build).Some? {
        var i := EntryFails(EntryOrder(Fragments(release)), merged.value.platforms, release, build);
      }
    }
    hide AllThere, OneBuild, WellFormedBuild, AllSigned, AllPinned, HasFragment, FirstFault, Merge, EntryOrder;
  }

  lemma ReportOfFragments(release: Release, build: Build, fragments: seq<Feed>)
    requires AllThere(release) && InOrder(release, fragments)
    ensures var merged := Merge(fragments, build);
            && merged != Err(MissingFragment)
            && (!OneBuild(release, build) ==> merged == Err(DifferentBuilds) || merged == Err(DuplicatePlatform))
            && (OneBuild(release, build) && !(WellFormedBuild(build) && AllSigned(release)) ==>
                  merged == Err(InvalidFeed))
            && (OneBuild(release, build) ==> merged.Ok? || merged == Err(InvalidFeed))
  {
    MergeableExactly(release, build, fragments);
    MergeMeaning(fragments, build);
    if OneBuild(release, build) {
      var feed := MergedIs(release, build, fragments);
      WellFormedExactly(build);
      SignedExactly(release, build, feed);
    } else {
      var n := MergeFails(fragments, build);
    }
    hide AllThere, OneBuild, WellFormedBuild, AllSigned, InOrder, Mergeable, MergePlatforms, Hex, ChannelVersion;
  }
}
