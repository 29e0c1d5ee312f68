/** The release scripts' requests as they are issued: paged listings, and a publication that changes the
    store request by request until it is done, refused, or cut off. */
module ReleaseApi {
  import opened Wrappers
  import opened Versions
  import opened Releases
  import opened Publication

  // ---------------------------------------------------------------------------------------------
  // Paged listings
  // ---------------------------------------------------------------------------------------------

  const PER_PAGE := 100

  function Min(a: int, b: int): int { if a < b then a else b }

  /** GitHub's answer for page `page`, counted from 1. */
  function Page<T>(listing: seq<T>, page: nat): seq<T>
    requires page >= 1
  {
    listing[Min((page - 1) * PER_PAGE, |listing|)..Min(page * PER_PAGE, |listing|)]
  }

  function Pages<T>(listing: seq<T>, pages: nat): seq<T> {
    listing[..Min(pages * PER_PAGE, |listing|)]
  }

  lemma NextPage<T>(listing: seq<T>, page: nat)
    requires page >= 1
    ensures Pages(listing, page - 1) + Page(listing, page) == Pages(listing, page)
    ensures |Page(listing, page)| < PER_PAGE ==> Pages(listing, page) == listing
    ensures |Page(listing, page)| >= PER_PAGE ==> page * PER_PAGE <= |listing|
  {}

  /** ReleaseAPI.assets collects every asset in order, however many pages there are. */
  method Assets<T>(listing: seq<T>) returns (assets: seq<T>)
    ensures assets == listing
  {
    assets := [];
    var page := 1;
    while true
      invariant page >= 1 && (page - 1) * PER_PAGE <= |listing|
      invariant assets == Pages(listing, page - 1)
      decreases |listing| + PER_PAGE - page * PER_PAGE
    {
      NextPage(listing, page);
      var batch := Page(listing, page);
      assets := assets + batch;
      if |batch| < PER_PAGE { return; }
      page := page + 1;
    }
  }

  ghost predicate DraftOf(c: Candidate, tag: Tag) {
    c.release.draft && c.tag == tag
  }

  /** ReleaseAPI.release: the published release of a tag, else the first draft of that tag on any page. */
  method FindByTag(published: map<Tag, Release>, listing: seq<Candidate>, tag: Tag) returns (r: Option<Release>)
    ensures tag in published ==> r == Some(published[tag])
    ensures tag !in published && r.None? ==> forall c :: c in listing ==> !DraftOf(c, tag)
    ensures tag !in published && r.Some? ==>
              exists i :: 0 <= i < |listing| && DraftOf(listing[i], tag) && listing[i].release == r.value
                          && forall j :: 0 <= j < i ==> !DraftOf(listing[j], tag)
  {
    if tag in published { return Some(published[tag]); }
    var page := 1;
    while true
      invariant page >= 1 && (page - 1) * PER_PAGE <= |listing|
      invariant forall j :: 0 <= j < (page - 1) * PER_PAGE ==> !DraftOf(listing[j], tag)
      decreases |listing| + PER_PAGE - page * PER_PAGE
    {
      NextPage(listing, page);
      var releases := Page(listing, page);
      ghost var base := (page - 1) * PER_PAGE;
      for i := 0 to |releases|
        invariant forall j :: 0 <= j < base + i ==> !DraftOf(listing[j], tag)
      {
        assert releases[i] == listing[base + i];
        if releases[i].release.draft && releases[i].tag == tag { return Some(releases[i].release); }
      }
      if |releases| < PER_PAGE {
        assert base + |releases| == |listing|;
        return None;
      }
      page := page + 1;
    }
  }

  function Drafts(listing: seq<Candidate>): seq<Candidate> {
    if listing == [] then []
    else
      var rest := Drafts(listing[..|listing| - 1]);
      if listing[|listing| - 1].release.draft then rest + [listing[|listing| - 1]] else rest
  }

  lemma {:induction false} DraftsAppend(a: seq<Candidate>, b: seq<Candidate>)
    ensures Drafts(a + b) == Drafts(a) + Drafts(b)
  {
    if b == [] {
      assert a + b == a;
    } else {
      assert (a + b)[..|a + b| - 1] == a + b[..|b| - 1];
      DraftsAppend(a, b[..|b| - 1]);
    }
  }

  /** Pruning collects every draft of every page before it deletes anything. */
  method CollectDrafts(listing: seq<Candidate>) returns (candidates: seq<Candidate>)
    ensures candidates == Drafts(listing)
    ensures forall c :: c in candidates <==> c in listing && c.release.draft
  {
    candidates := [];
    var page := 1;
    while true
      invariant page >= 1 && (page - 1) * PER_PAGE <= |listing|
      invariant candidates == Drafts(Pages(listing, page - 1))
      decreases |listing| + PER_PAGE - page * PER_PAGE
    {
      NextPage(listing, page);
      var releases := Page(listing, page);
      DraftsAppend(Pages(listing, page - 1), releases);
      candidates := candidates + Drafts(releases);
      if |releases| < PER_PAGE { break; }
      page := page + 1;
    }
    DraftsMembers(listing);
  }

  lemma {:induction false} DraftsMembers(listing: seq<Candidate>)
    ensures forall c :: c in Drafts(listing) <==> c in listing && c.release.draft
  {
    if listing != [] {
      DraftsMembers(listing[..|listing| - 1]);
      assert listing == listing[..|listing| - 1] + [listing[|listing| - 1]];
    }
  }

  // ---------------------------------------------------------------------------------------------
  // Publishing
  // ---------------------------------------------------------------------------------------------

  datatype PublishResult = Done | Stopped(error: Error) | CutOff

  lemma PartWayChains(start: Store, middle: Store, now: Store, build: Build, runs: map<nat, Run>, feed: Feed)
    requires Desktop(build.version) in start.releases && PartWay(start, middle, build, runs, feed)
    requires PartWay(middle, now, build, runs, feed)
    ensures PartWay(start, now, build, runs, feed)
  {
    OwnTagNotPrunable(build, start.releases[Desktop(build.version)], runs);
  }

  /** What a publication whose checks pass leaves. */
  ghost function Finished(start: Store, build: Build, runs: map<nat, Run>): Store
    requires Preflight(start, build).Ok?
  {
    Outcome(start, build, runs, Preflight(start, build).value)
  }

  /** What one that was cut off may leave. */
  ghost predicate Interrupted(start: Store, now: Store, build: Build, runs: map<nat, Run>)
    requires Preflight(start, build).Ok?
  {
    PartWay(start, now, build, runs, Preflight(start, build).value)
  }

  lemma NothingDoneYet(start: Store, build: Build, runs: map<nat, Run>)
    requires Preflight(start, build).Ok?
    ensures Interrupted(start, start, build, runs)
  {
    hide ReadFeed, ChannelCheck;
  }

  /** A store server that answers `budget` more changing requests before the client is cut off. */
  class ReleaseServer {
    var releases: map<Tag, Release>
    var updates: Option<map<Channel, Feed>>
    var budget: nat

    ghost function Contents(): Store
      reads this
    {
      Store(releases, updates)
    }

    constructor (releases: map<Tag, Release>, updates: Option<map<Channel, Feed>>)
      ensures Contents() == Store(releases, updates) && budget == 0
    {
      this.releases := releases;
      this.updates := updates;
      budget := 0;
    }

    /** Spend one changing request; false when the client is gone. */
    method Spend() returns (alive: bool)
      modifies this`budget
      ensures alive == (old(budget) > 0)
      ensures budget == if alive then old(budget) - 1 else old(budget)
    {
      alive := budget > 0;
      if alive { budget := budget - 1; }
    }

    /** upload for a channel feed: list, delete what is there, then post. */
    method UploadFeed(build: Build, feed: Feed) returns (alive: bool)
      requires updates.Some?
      modifies this
      ensures releases == old(releases) && updates.Some?
      ensures alive ==> updates.value == old(updates.value)[build.channel := feed]
      ensures !alive ==> budget == 0
      ensures !alive ==>
                || (old(budget) == 0 && updates == old(updates))
                || (old(budget) == 1 && build.channel in old(updates.value)
                    && updates.value == old(updates.value) - {build.channel})
      ensures alive ==> old(budget) - budget == if build.channel in old(updates.value) then 2 else 1
    {
      if build.channel in updates.value {
        alive := Spend();
        if !alive { return; }
        updates := Some(updates.value - {build.channel});
      }
      alive := Spend();
      if !alive { return; }
      updates := Some(updates.value[build.channel := feed]);
    }

    /** pruneAbandonedNightlyDrafts */
    method Prune(build: Build, runs: map<nat, Run>) returns (alive: bool)
      modifies this
      ensures updates == old(updates)
      ensures alive ==> releases == Pruned(old(releases), build, runs)
      ensures forall t :: t in releases ==> t in old(releases) && releases[t] == old(releases[t])
      ensures forall t :: t in old(releases) && t !in releases ==> Prunable(t, old(releases)[t], build, runs)
      ensures forall t :: t in old(releases) && t !in releases ==> AbandonedNightly(t, old(releases)[t], build, runs)
      ensures alive ==> forall t :: t in old(releases) && t in releases ==>
                !AbandonedNightly(t, old(releases)[t], build, runs)
      ensures !alive ==> budget == 0
      ensures old(budget) - budget == |old(releases)| - |releases|
    {
      ghost var before := releases;
      hide AbandonedNightly;
      if build.channel.StableChannel? {
        assert Pruned(before, build, runs) == before;
        PrunedExactly(before, releases, build, runs);
        return true;
      }
      var tags := set t | t in releases && releases[t].draft;
      while tags != {}
        invariant tags <= before.Keys && updates == old(updates)
        invariant forall t :: t in releases ==> t in before && releases[t] == before[t]
        invariant forall t :: t in before && t !in releases ==> t !in tags && Prunable(t, before[t], build, runs)
        invariant forall t :: t in releases && t !in tags ==> !Prunable(t, before[t], build, runs)
        invariant old(budget) - budget == |before| - |releases|
        decreases tags
      {
        var tag :| tag in tags;
        assert tag in releases;
        var candidate := Candidate(tag, releases[tag]);
        if Superseded(candidate, build) && Unchanged(Store(releases, updates), candidate) {
          if Abandoned(runs, RunOf(tag)) {
            alive := Spend();
            if !alive {
              PrunedExactly(before, releases, build, runs);
              return;
            }
            releases := releases - {tag};
          }
        }
        tags := tags - {tag};
      }
      assert releases == Pruned(before, build, runs);
      PrunedExactly(before, releases, build, runs);
      return true;
    }

    /** ReleaseAPI.release against this store, which lists its releases in some order. */
    method Lookup(tag: Tag) returns (r: Option<Release>)
      ensures r == if tag in releases then Some(releases[tag]) else None
    {
      var published := map t | t in releases && !releases[t].draft :: releases[t];
      var listing: seq<Candidate> := [];
      var tags := releases.Keys;
      while tags != {}
        invariant tags <= releases.Keys
        invariant forall c :: c in listing <==> c.tag in releases.Keys - tags && c.release == releases[c.tag]
        decreases tags
      {
        var t :| t in tags;
        listing := listing + [Candidate(t, releases[t])];
        tags := tags - {t};
      }
      r := FindByTag(published, listing, tag);
      if tag in releases && releases[tag].draft {
        assert DraftOf(Candidate(tag, releases[tag]), tag) && Candidate(tag, releases[tag]) in listing;
      }
    }

    /** The entries of the merged feed, one after the other. */
    method CheckEntries(order: seq<Platform>, feed: Feed, release: Release, build: Build) returns (fault: Option<Error>)
      ensures fault == FirstFault(order, feed.platforms, release, build)
    {
      var i := 0;
      while i < |order|
        invariant 0 <= i <= |order|
        invariant FirstFault(order, feed.platforms, release, build)
               == FirstFault(order[i..], feed.platforms, release, build)
      {
        assert order[i..][0] == order[i] && order[i..][1..] == order[i + 1..];
        if order[i] in feed.platforms {
          var entry := feed.platforms[order[i]];
          if !entry.url.Download? || entry.url.tag != Desktop(build.version) { return Some(UnpinnedUrl); }
          if entry.url.name !in release.assets || Sidecar(entry.url.name) !in release.assets {
            return Some(MissingArtifact);
          }
        }
        i := i + 1;
      }
      return None;
    }

    /** The checks of publishDesktopRelease in its order; nothing is changed. */
    method Check(build: Build) returns (r: Result<Feed>)
      ensures r == Preflight(Contents(), build)
    {
      var found := Lookup(Desktop(build.version));
      if found.None? || found.value.marker != Some(build.source) { return Err(Unavailable); }
      var release := found.value;
      var missing := exists p :: p in UPDATE_PLATFORMS && !HasFragment(release, p);
      if missing { return Err(MissingFragment); }
      var fragments := Fragments(release);
      var merged := MergeFeeds(fragments, build);
      if merged.Err? { return merged; }
      var feed := merged.value;
      var fault := CheckEntries(EntryOrder(fragments), feed, release, build);
      if fault.Some? { return Err(fault.value); }
      if updates.Some? && build.channel in updates.value {
        var current := updates.value[build.channel];
        if !ValidFeed(current, build.channel) { return Err(InvalidFeed); }
        if !Advances(current, build) { return Err(Regression); }
      }
      return Ok(feed);
    }

    /** The release leaves draft state and the "desktop-updates" release comes into being. */
    method OpenRelease(build: Build) returns (alive: bool)
      requires Desktop(build.version) in releases
      modifies this
      ensures releases == old(releases) || releases == Undrafted(old(Contents()), build)
      ensures updates == old(updates) || (old(updates).None? && updates == Some(map[]))
      ensures updates != old(updates) ==> releases == Undrafted(old(Contents()), build)
      ensures alive ==> releases == Undrafted(old(Contents()), build) && updates.Some?
      ensures !alive ==> budget == 0 && old(budget) < 2
      ensures alive ==>
                old(budget) - budget
                == (if old(releases)[Desktop(build.version)].draft then 1 else 0) + if old(updates).None? then 1 else 0
    {
      var release := releases[Desktop(build.version)];
      if release.draft {
        alive := Spend();
        if !alive { return; }
        releases := releases[Desktop(build.version) := release.(draft := false)];
      }
      if updates.None? {
        alive := Spend();
        if !alive { return; }
        updates := Some(map[]);
      }
      alive := true;
    }

    /** publishDesktopRelease: every check comes before the first change, and from then on the store is
        always part-way to the one outcome. Four changes and one per release are enough to get through. */
    method Publish(build: Build, runs: map<nat, Run>) returns (r: PublishResult)
      modifies this
      ensures r.Stopped? ==> Preflight(old(Contents()), build) == Err(r.error) && Contents() == old(Contents())
      ensures !r.Stopped? ==> Preflight(old(Contents()), build).Ok?
      ensures r.Done? ==> Contents() == Finished(old(Contents()), build, runs)
      ensures r.CutOff? ==> Interrupted(old(Contents()), Contents(), build, runs)
      ensures r.CutOff? ==> budget == 0 && old(budget) < 4 + |old(releases)|
    {
      var checked := Check(build);
      if checked.Err? { return Stopped(checked.error); }
      var feed := checked.value;
      var alive := OpenRelease(build);
      ghost var visible := Contents();
      OpenedPartWay(old(Contents()), visible, build, runs, feed);
      if !alive { return CutOff; }
      alive := UploadFeed(build, feed);
      ghost var posted := Contents();
      ChangedChannel(old(Contents()), visible, posted, build, runs, feed);
      if !alive { return CutOff; }
      alive := Prune(build, runs);
      if !alive {
        PrunedPartWay(posted, Contents(), build, runs, feed);
        PartWayChains(old(Contents()), posted, Contents(), build, runs, feed);
        return CutOff;
      }
      return Done;
    }

    /** Publishing again after every interruption. However often it is cut off, the first attempt that
        gets through leaves what one uninterrupted publication would have left; an attempt that may make enough
        changes gets through. */
    method PublishUntilDone(build: Build, runs: map<nat, Run>, budgets: seq<nat>) returns (r: PublishResult)
      requires Preflight(Contents(), build).Ok? && budgets != []
      modifies this
      ensures !r.Stopped?
      ensures r.Done? ==> Contents() == Finished(old(Contents()), build, runs)
      ensures r.CutOff? ==> Interrupted(old(Contents()), Contents(), build, runs)
      ensures (exists i :: 0 <= i < |budgets| && budgets[i] >= 4 + |old(releases)|) ==> r.Done?
    {
      ghost var start := Contents();
      NothingDoneYet(start, build, runs);
      assert start.releases == releases;
      hide *;
      r := CutOff;
      for i := 0 to |budgets|
        invariant r.CutOff? && Interrupted(start, Contents(), build, runs)
        invariant forall k :: 0 <= k < i ==> budgets[k] < 4 + |start.releases|
      {
        hide *;
        SetBudget(budgets[i]);
        r := TryAgain(start, build, runs);
        if r.Done? { return; }
      }
    }

    method SetBudget(n: nat)
      modifies this`budget
      ensures budget == n && Contents() == old(Contents())
    {
      budget := n;
    }

    /** One attempt, from a store that earlier ones have left part-way. */
    method TryAgain(ghost start: Store, build: Build, runs: map<nat, Run>) returns (r: PublishResult)
      requires Preflight(start, build).Ok? && Interrupted(start, Contents(), build, runs)
      modifies this
      ensures !r.Stopped?
      ensures r.Done? ==> Contents() == Finished(start, build, runs)
      ensures r.CutOff? ==> Interrupted(start, Contents(), build, runs) && old(budget) < 4 + |start.releases|
    {
      ghost var middle, feed := Contents(), Preflight(start, build).value;
      PartWayConverges(start, middle, build, runs, feed);
      NoMoreReleases(start, middle, build, runs, feed);
      hide PartWay, Preflight, Outcome;
      r := Publish(build, runs);
      if r.CutOff? { PartWayChains(start, middle, Contents(), build, runs, feed); }
    }
  }

  lemma PrunedExactly(before: map<Tag, Release>, after: map<Tag, Release>, build: Build, runs: map<nat, Run>)
    ensures forall t :: t in before && t !in after && Prunable(t, before[t], build, runs) ==>
              AbandonedNightly(t, before[t], build, runs)
    ensures after == Pruned(before, build, runs) ==>
              forall t :: t in before && t in after ==> !AbandonedNightly(t, before[t], build, runs)
  {
    forall t | t in before
      ensures Prunable(t, before[t], build, runs) <==> AbandonedNightly(t, before[t], build, runs)
    {
      PrunableExactly(t, before[t], build, runs);
    }
    hide Prunable, AbandonedNightly;
  }

  lemma NoMoreReleases(start: Store, now: Store, build: Build, runs: map<nat, Run>, feed: Feed)
    requires Desktop(build.version) in start.releases && PartWay(start, now, build, runs, feed)
    ensures |now.releases| <= |start.releases|
  {
    assert now.releases.Keys <= start.releases.Keys;
    Fewer(now.releases.Keys, start.releases.Keys);
  }

  lemma {:induction false} Fewer<T>(a: set<T>, b: set<T>)
    requires a <= b
    ensures |a| <= |b|
  {
    if a != {} {
      var x :| x in a;
      Fewer(a - {x}, b - {x});
    }
  }

  lemma ChangedChannel(start: Store, before: Store, after: Store, build: Build, runs: map<nat, Run>, feed: Feed)
    requires Desktop(build.version) in start.releases && PartWay(start, before, build, runs, feed)
    requires after.releases == before.releases && before.updates.Some? && after.updates.Some?
    requires || after.updates.value == before.updates.value
             || after.updates.value == before.updates.value - {build.channel}
             || after.updates.value == before.updates.value[build.channel := feed]
    ensures PartWay(start, after, build, runs, feed)
  {
    assert after.updates.value - {build.channel} == before.updates.value - {build.channel};
  }

  lemma OpenedPartWay(start: Store, now: Store, build: Build, runs: map<nat, Run>, feed: Feed)
    requires Desktop(build.version) in start.releases
    requires now.releases == start.releases || now.releases == Undrafted(start, build)
    requires Feeds(now) == Feeds(start)
    ensures PartWay(start, now, build, runs, feed)
  {}

  lemma PrunedPartWay(start: Store, now: Store, build: Build, runs: map<nat, Run>, feed: Feed)
    requires Desktop(build.version) in start.releases && now.updates == start.updates
    requires forall t :: t in now.releases ==> t in start.releases && now.releases[t] == start.releases[t]
    requires forall t :: t in start.releases && t !in now.releases ==> Prunable(t, start.releases[t], build, runs)
    ensures PartWay(start, now, build, runs, feed)
  {
    OwnTagNotPrunable(build, start.releases[Desktop(build.version)], runs);
  }
}
