/** publishDesktopRelease as a sequence of single store requests, and what is left after any of them. */
module Publication {
  import opened Wrappers
  import opened Versions
  import opened Releases

  datatype Candidate = Candidate(tag: Tag, release: Release)

  /** What remains to be done, with the local variables the rest of the code still needs. */
  datatype Phase =
    | FindRelease
    | ReadAssets(release: Release)
    | ReadChannel(draft: bool, feed: Feed)
    | Undraft(draft: bool, feed: Feed)
    | EnsureUpdates(feed: Feed)
    | ListChannel(feed: Feed)
    | RemoveFeed(feed: Feed)
    | PostFeed(feed: Feed)
    | ListDrafts
    | CheckDraft(candidates: seq<Candidate>)
    | CheckRun(candidates: seq<Candidate>)
    | DeleteDraft(candidates: seq<Candidate>)
    | Published
    | Failed(error: Error)

  // ---------------------------------------------------------------------------------------------
  // Pruning
  // ---------------------------------------------------------------------------------------------

  /** The tag is a nightly's: an eight-digit day and a positive run number. */
  predicate NightlyTag(tag: Tag) {
    tag.Desktop? && ChannelVersion(NightlyChannel, tag.version)
    && tag.version.prerelease[1].number < 100_000_000 && tag.version.prerelease[2].number > 0
  }

  function RunOf(tag: Tag): nat
    requires NightlyTag(tag)
  {
    tag.version.prerelease[2].number
  }

  /** A collected draft that pruning goes on to look at. */
  predicate Superseded(candidate: Candidate, build: Build) {
    NightlyTag(candidate.tag) && candidate.release.marker.Some? && Order(candidate.tag.version, build.version) < 0
  }

  /** The draft, read again, is still the collected one and tagged at the marker's commit. */
  predicate Unchanged(store: Store, candidate: Candidate) {
    && candidate.tag in store.releases
    && var now := store.releases[candidate.tag];
    && now.id == candidate.release.id && now.draft && now.marker == candidate.release.marker
    && now.marker.Some? && now.target == now.marker.value.commit
  }

  predicate Abandoned(runs: map<nat, Run>, run: nat) {
    run in runs && runs[run].completed && runs[run].desktopWorkflow && runs[run].unsuccessful
  }

  ghost predicate Prunable(tag: Tag, release: Release, build: Build, runs: map<nat, Run>) {
    && build.channel.NightlyChannel? && release.draft
    && Superseded(Candidate(tag, release), build)
    && release.target == release.marker.value.commit
    && Abandoned(runs, RunOf(tag))
  }

  /** The version is major.minor.patch-nightly.date.run. */
  ghost predicate NightlyOf(v: Version, date: nat, run: nat) {
    v.prerelease == [Alphanumeric("nightly"), Numeric(date), Numeric(run)]
  }

  /** A draft of an earlier nightly, tagged at its marker's commit, whose own run of a desktop workflow has ended
      without success. */
  ghost predicate AbandonedNightly(tag: Tag, release: Release, build: Build, runs: map<nat, Run>) {
    && build.channel.NightlyChannel? && tag.Desktop? && release.draft
    && release.marker.Some? && release.target == release.marker.value.commit
    && Precedes(tag.version, build.version)
    && exists date, run ::
         && NightlyOf(tag.version, date, run) && date < 100_000_000 && run > 0
         && run in runs && runs[run].completed && runs[run].unsuccessful && runs[run].desktopWorkflow
  }

  lemma PrunableExactly(tag: Tag, release: Release, build: Build, runs: map<nat, Run>)
    ensures Prunable(tag, release, build, runs) <==> AbandonedNightly(tag, release, build, runs)
  {
    if tag.Desktop? {
      OrderIsPrecedence(tag.version, build.version);
      if NightlyTag(tag) {
        var pre := tag.version.prerelease;
        assert pre == [Alphanumeric("nightly"), Numeric(pre[1].number), Numeric(pre[2].number)];
        assert NightlyOf(tag.version, pre[1].number, pre[2].number);
      }
    }
    hide Order, Precedes;
  }

  /** The drafts in an unspecified but fixed listing order. */
  ghost function DraftListing(store: Store, tags: set<Tag>): (r: seq<Candidate>)
    requires tags <= store.releases.Keys
    ensures forall c :: c in r <==> c.tag in tags && c.release == store.releases[c.tag] && c.release.draft
  {
    if tags == {} then []
    else
      var tag :| tag in tags;
      var rest := DraftListing(store, tags - {tag});
      if store.releases[tag].draft then [Candidate(tag, store.releases[tag])] + rest else rest
  }

  // ---------------------------------------------------------------------------------------------
  // One request at a time
  // ---------------------------------------------------------------------------------------------

  predicate Terminal(phase: Phase) {
    phase.Published? || phase.Failed?
  }

  function NextCandidate(candidates: seq<Candidate>): Phase {
    if |candidates| <= 1 then Published else CheckDraft(candidates[1..])
  }

  ghost function Step(store: Store, build: Build, runs: map<nat, Run>, phase: Phase): (Store, Phase) {
    var tag := Desktop(build.version);
    match phase
    case FindRelease =>
      if tag in store.releases && store.releases[tag].marker == Some(build.source)
      then (store, ReadAssets(store.releases[tag])) else (store, Failed(Unavailable))
    case ReadAssets(release) =>
      if tag !in store.releases || store.releases[tag].id != release.id then (store, Failed(Unavailable))
      else
        (match ReadFeed(store.releases[tag], build)
         case Ok(feed) => (store, ReadChannel(release.draft, feed))
         case Err(e) => (store, Failed(e)))
    case ReadChannel(draft, feed) =>
      (match ChannelCheck(store.updates, build)
       case Ok(_) => (store, Undraft(draft, feed))
       case Err(e) => (store, Failed(e)))
    case Undraft(draft, feed) =>
      if !draft then (store, EnsureUpdates(feed))
      else if tag in store.releases
      then (store.(releases := store.releases[tag := store.releases[tag].(draft := false)]), EnsureUpdates(feed))
      else (store, Failed(Unavailable))
    case EnsureUpdates(feed) =>
      (if store.updates.None? then store.(updates := Some(map[])) else store, ListChannel(feed))
    case ListChannel(feed) =>
      (store, if store.updates.Some? && build.channel in store.updates.value then RemoveFeed(feed) else PostFeed(feed))
    case RemoveFeed(feed) =>
      if store.updates.None? then (store, Failed(Refused))
      else (store.(updates := Some(store.updates.value - {build.channel})), PostFeed(feed))
    case PostFeed(feed) =>
      if store.updates.None? || build.channel in store.updates.value then (store, Failed(Refused))
      else (store.(updates := Some(store.updates.value[build.channel := feed])), ListDrafts)
    case ListDrafts =>
      if build.channel.StableChannel? then (store, Published)
      else
        var drafts := DraftListing(store, store.releases.Keys);
        (store, if drafts == [] then Published else CheckDraft(drafts))
    case CheckDraft(candidates) =>
      (store, if candidates != [] && Superseded(candidates[0], build) && Unchanged(store, candidates[0])
              then CheckRun(candidates) else NextCandidate(candidates))
    case CheckRun(candidates) =>
      (store, if candidates != [] && NightlyTag(candidates[0].tag) && Abandoned(runs, RunOf(candidates[0].tag))
              then DeleteDraft(candidates) else NextCandidate(candidates))
    case DeleteDraft(candidates) =>
      (if candidates != [] && candidates[0].tag in store.releases
          && store.releases[candidates[0].tag].id == candidates[0].release.id
       then store.(releases := store.releases - {candidates[0].tag}) else store,
       NextCandidate(candidates))
    case Published => (store, phase)
    case Failed(_) => (store, phase)
  }

  /** Requests left at most; candidates cost three each. */
  ghost function Rank(phase: Phase): (nat, nat) {
    match phase
    case FindRelease => (9, 0)
    case ReadAssets(_) => (8, 0)
    case ReadChannel(_, _) => (7, 0)
    case Undraft(_, _) => (6, 0)
    case EnsureUpdates(_) => (5, 0)
    case ListChannel(_) => (4, 0)
    case RemoveFeed(_) => (3, 0)
    case PostFeed(_) => (2, 1)
    case ListDrafts => (2, 0)
    case CheckDraft(candidates) => (1, 3 * |candidates| + 3)
    case CheckRun(candidates) => (1, 3 * |candidates| + 2)
    case DeleteDraft(candidates) => (1, 3 * |candidates| + 1)
    case Published => (0, 0)
    case Failed(_) => (0, 0)
  }

  /** The store and phase after at most `n` requests. */
  ghost function After(store: Store, build: Build, runs: map<nat, Run>, phase: Phase, n: nat): (Store, Phase)
    decreases n
  {
    if n == 0 || Terminal(phase) then (store, phase)
    else
      var next := Step(store, build, runs, phase);
      After(next.0, build, runs, next.1, n - 1)
  }

  /** Run to the end without interference. */
  ghost function Finish(store: Store, build: Build, runs: map<nat, Run>, phase: Phase): (Store, Phase)
    decreases Rank(phase).0, Rank(phase).1
  {
    if Terminal(phase) then (store, phase)
    else
      var next := Step(store, build, runs, phase);
      Finish(next.0, build, runs, next.1)
  }

  // ---------------------------------------------------------------------------------------------
  // The whole publication in closed form
  // ---------------------------------------------------------------------------------------------

  ghost function Feeds(store: Store): map<Channel, Feed> {
    if store.updates.Some? then store.updates.value else map[]
  }

  ghost function Undrafted(store: Store, build: Build): map<Tag, Release>
    requires Desktop(build.version) in store.releases
  {
    var tag := Desktop(build.version);
    store.releases[tag := store.releases[tag].(draft := false)]
  }

  ghost function Pruned(releases: map<Tag, Release>, build: Build, runs: map<nat, Run>): map<Tag, Release> {
    map tag | tag in releases && !Prunable(tag, releases[tag], build, runs) :: releases[tag]
  }

  /** The store a successful publication leaves. */
  ghost function Outcome(store: Store, build: Build, runs: map<nat, Run>, feed: Feed): Store
    requires Desktop(build.version) in store.releases
  {
    Store(Pruned(Undrafted(store, build), build, runs), Some(Feeds(store)[build.channel := feed]))
  }

  ghost predicate Collected(store: Store, candidates: seq<Candidate>) {
    && (forall c :: c in candidates ==> c.release.draft)
    && (forall c :: c in candidates && c.tag in store.releases ==> c.release == store.releases[c.tag])
  }

  ghost function WithoutCandidates(releases: map<Tag, Release>, candidates: seq<Candidate>, build: Build,
                                   runs: map<nat, Run>): map<Tag, Release> {
    map tag | tag in releases
           && !(Candidate(tag, releases[tag]) in candidates && Prunable(tag, releases[tag], build, runs))
        :: releases[tag]
  }

  /** Pruning removes exactly the prunable drafts among its candidates. */
  lemma {:induction false} PruneOutcome(store: Store, build: Build, runs: map<nat, Run>, candidates: seq<Candidate>)
    requires build.channel.NightlyChannel? && candidates != [] && Collected(store, candidates)
    ensures Finish(store, build, runs, CheckDraft(candidates))
         == (store.(releases := WithoutCandidates(store.releases, candidates, build, runs)), Published)
    decreases |candidates|
  {
    var head := candidates[0];
    var gone := Superseded(head, build) && Unchanged(store, head) && Abandoned(runs, RunOf(head.tag));
    assert head in candidates;
    assert head.tag in store.releases ==> (gone <==> Prunable(head.tag, store.releases[head.tag], build, runs));
    var store' := if gone then store.(releases := store.releases - {head.tag}) else store;
    assert Finish(store, build, runs, CheckDraft(candidates))
        == Finish(store', build, runs, NextCandidate(candidates)) by {
      FinishCandidate(store, build, runs, candidates);
    }
    WithoutHead(store, build, runs, candidates);
    hide Superseded, Unchanged, Abandoned, Prunable, Finish, WithoutCandidates;
    if |candidates| > 1 { PruneOutcome(store', build, runs, candidates[1..]); }
  }

  lemma WithoutHead(store: Store, build: Build, runs: map<nat, Run>, candidates: seq<Candidate>)
    requires candidates != [] && Collected(store, candidates)
    ensures var head := candidates[0];
            var gone := head.tag in store.releases && Prunable(head.tag, store.releases[head.tag], build, runs);
            var releases := if gone then store.releases - {head.tag} else store.releases;
            && WithoutCandidates(store.releases, candidates, build, runs)
               == (if |candidates| == 1 then releases else WithoutCandidates(releases, candidates[1..], build, runs))
            && Collected(store.(releases := releases), candidates[1..])
  {
    hide Prunable;
    assert candidates[0] in candidates && candidates == [candidates[0]] + candidates[1..];
  }

  lemma FinishCandidate(store: Store, build: Build, runs: map<nat, Run>, candidates: seq<Candidate>)
    requires candidates != []
    ensures var head := candidates[0];
            var gone := Superseded(head, build) && Unchanged(store, head) && Abandoned(runs, RunOf(head.tag));
            Finish(store, build, runs, CheckDraft(candidates))
              == Finish(if gone then store.(releases := store.releases - {head.tag}) else store,
                        build, runs, NextCandidate(candidates))
  {
    var head := candidates[0];
    if Superseded(head, build) && Unchanged(store, head) {
      assert Finish(store, build, runs, CheckDraft(candidates)) == Finish(store, build, runs, CheckRun(candidates));
      if Abandoned(runs, RunOf(head.tag)) {
        assert Finish(store, build, runs, CheckRun(candidates)) == Finish(store, build, runs, DeleteDraft(candidates));
      }
    }
  }

  lemma DraftsOutcome(store: Store, build: Build, runs: map<nat, Run>)
    ensures Finish(store, build, runs, ListDrafts)
         == (store.(releases := Pruned(store.releases, build, runs)), Published)
  {
    var drafts := DraftListing(store, store.releases.Keys);
    var next := Step(store, build, runs, ListDrafts);
    assert Finish(store, build, runs, ListDrafts) == Finish(store, build, runs, next.1);
    if build.channel.StableChannel? {
      assert Pruned(store.releases, build, runs) == store.releases;
    } else if drafts == [] {
      forall tag | tag in store.releases ensures !store.releases[tag].draft {
        assert Candidate(tag, store.releases[tag]) !in drafts;
      }
      assert Pruned(store.releases, build, runs) == store.releases;
    } else {
      PruneOutcome(store, build, runs, drafts);
      forall tag | tag in store.releases && Prunable(tag, store.releases[tag], build, runs)
        ensures Candidate(tag, store.releases[tag]) in drafts
      {}
      assert WithoutCandidates(store.releases, drafts, build, runs) == Pruned(store.releases, build, runs);
    }
  }

  /** Posting: whatever the channel held is replaced and the other channel is kept. */
  lemma PostingOutcome(store: Store, build: Build, runs: map<nat, Run>, feed: Feed)
    ensures Finish(store, build, runs, EnsureUpdates(feed))
         == (Store(Pruned(store.releases, build, runs), Some(Feeds(store)[build.channel := feed])), Published)
  {
    var listed := Store(store.releases, Some(Feeds(store)));
    assert Step(store, build, runs, EnsureUpdates(feed)) == (listed, ListChannel(feed));
    assert Finish(store, build, runs, EnsureUpdates(feed)) == Finish(listed, build, runs, ListChannel(feed));
    var cleared := Store(store.releases, Some(Feeds(store) - {build.channel}));
    if build.channel in Feeds(store) {
      assert Finish(listed, build, runs, ListChannel(feed)) == Finish(listed, build, runs, RemoveFeed(feed));
      assert Finish(listed, build, runs, RemoveFeed(feed)) == Finish(cleared, build, runs, PostFeed(feed));
    } else {
      assert Feeds(store) - {build.channel} == Feeds(store);
      assert Finish(listed, build, runs, ListChannel(feed)) == Finish(cleared, build, runs, PostFeed(feed));
    }
    var posted := Store(store.releases, Some(Feeds(store)[build.channel := feed]));
    assert (Feeds(store) - {build.channel})[build.channel := feed] == Feeds(store)[build.channel := feed];
    assert Finish(cleared, build, runs, PostFeed(feed)) == Finish(posted, build, runs, ListDrafts);
    DraftsOutcome(posted, build, runs);
  }

  lemma UndraftOutcome(store: Store, build: Build, runs: map<nat, Run>, feed: Feed)
    requires Desktop(build.version) in store.releases
    ensures Finish(store, build, runs, Undraft(store.releases[Desktop(build.version)].draft, feed))
         == (Outcome(store, build, runs, feed), Published)
  {
    var release := store.releases[Desktop(build.version)];
    var undrafted := store.(releases := Undrafted(store, build));
    if !release.draft {
      assert Undrafted(store, build) == store.releases;
      assert undrafted == store;
    }
    assert Finish(store, build, runs, Undraft(release.draft, feed))
        == Finish(undrafted, build, runs, EnsureUpdates(feed));
    PostingOutcome(undrafted, build, runs, feed);
  }

  /** A publication succeeds exactly when every check passes, then leaves `Outcome`; otherwise it
      reports the first failing check and leaves the store untouched. */
  lemma PublicationOutcome(store: Store, build: Build, runs: map<nat, Run>)
    ensures var checked := Preflight(store, build);
            Finish(store, build, runs, FindRelease)
              == if checked.Ok? then (Outcome(store, build, runs, checked.value), Published)
                 else (store, Failed(checked.error))
  {
    var tag := Desktop(build.version);
    if tag in store.releases && store.releases[tag].marker == Some(build.source) {
      var release := store.releases[tag];
      assert Finish(store, build, runs, FindRelease) == Finish(store, build, runs, ReadAssets(release));
      if ReadFeed(release, build).Ok? {
        var feed := ReadFeed(release, build).value;
        assert Finish(store, build, runs, ReadAssets(release))
            == Finish(store, build, runs, ReadChannel(release.draft, feed));
        if ChannelCheck(store.updates, build).Ok? {
          assert Finish(store, build, runs, ReadChannel(release.draft, feed))
              == Finish(store, build, runs, Undraft(release.draft, feed));
          UndraftOutcome(store, build, runs, feed);
        } else {
          var refused := Failed(ChannelCheck(store.updates, build).error);
          assert Finish(store, build, runs, ReadChannel(release.draft, feed)) == Finish(store, build, runs, refused);
        }
      } else {
        var refused := Failed(ReadFeed(release, build).error);
        assert Finish(store, build, runs, ReadAssets(release)) == Finish(store, build, runs, refused);
      }
    } else {
      assert Finish(store, build, runs, FindRelease) == Finish(store, build, runs, Failed(Unavailable));
    }
  }

  /** A successful publication makes its own release public, removes exactly the abandoned earlier nightlies, and
      leaves every other release as it was. */
  lemma PublicationPrunes(store: Store, build: Build, runs: map<nat, Run>)
    requires Preflight(store, build).Ok?
    ensures var after, own := Finish(store, build, runs, FindRelease).0.releases, Desktop(build.version);
            && own in store.releases && own in after && after[own] == store.releases[own].(draft := false)
            && after.Keys <= store.releases.Keys
            && (forall t :: t in after && t != own ==> after[t] == store.releases[t])
            && (forall t :: t in store.releases ==>
                  (t !in after <==> AbandonedNightly(t, store.releases[t], build, runs)))
  {
    PublicationOutcome(store, build, runs);
    var own, undrafted := Desktop(build.version), Undrafted(store, build);
    OwnTagNotPrunable(build, undrafted[own], runs);
    OwnTagNotPrunable(build, store.releases[own], runs);
    forall t | t in store.releases
      ensures AbandonedNightly(t, store.releases[t], build, runs) <==> Prunable(t, store.releases[t], build, runs)
    {
      PrunableExactly(t, store.releases[t], build, runs);
    }
    hide Preflight, Finish, Prunable, AbandonedNightly;
  }

  /** Strictly earlier in base, then date, then run. */
  ghost predicate EarlierNightly(base: Version, date: nat, run: nat, base': Version, date': nat, run': nat) {
    || base.major < base'.major
    || (base.major == base'.major && base.minor < base'.minor)
    || (base.major == base'.major && base.minor == base'.minor && base.patch < base'.patch)
    || (base == base' && date < date')
    || (base == base' && date == date' && run < run')
  }

  /** When the draft of a nightly is gone after another nightly was published. */
  lemma NightlyGone(store: Store, base: Version, date: nat, run: nat, base': Version, date': nat, run': nat,
                    source: Source, runs: map<nat, Run>)
    requires Stable(base) && Stable(base') && date < 100_000_000 && run > 0
    requires Preflight(store, Build(NightlyChannel, Nightly(base', date', run'), source)).Ok?
    requires Desktop(Nightly(base, date, run)) in store.releases
    ensures var build := Build(NightlyChannel, Nightly(base', date', run'), source);
            var tag := Desktop(Nightly(base, date, run));
            var release := store.releases[tag];
            (tag !in Finish(store, build, runs, FindRelease).0.releases)
              <==> && release.draft && release.marker.Some? && release.target == release.marker.value.commit
                   && EarlierNightly(base, date, run, base', date', run')
                   && run in runs && runs[run].completed && runs[run].unsuccessful && runs[run].desktopWorkflow
  {
    var build, v := Build(NightlyChannel, Nightly(base', date', run'), source), Nightly(base, date, run);
    PublicationPrunes(store, build, runs);
    OrderIsPrecedence(v, build.version);
    NightlyOrder(base, date, run, base', date', run');
    OrderIsPrecedence(base, base');
    hide Preflight, Finish, Order;
    assert NightlyOf(v, date, run);
    assert forall d, r :: NightlyOf(v, d, r) ==> v.prerelease[1] == Numeric(d) && v.prerelease[2] == Numeric(r);
    assert Precedes(v, build.version) <==> EarlierNightly(base, date, run, base', date', run');
    hide Precedes, EarlierNightly;
  }

  // ---------------------------------------------------------------------------------------------
  // Interrupted publications
  // ---------------------------------------------------------------------------------------------

  /** `now` is `start` part-way through publishing `feed`: the release may be out, the channel may hold
      its old feed, none or the new one, and some prunable drafts may be gone. */
  ghost predicate PartWay(start: Store, now: Store, build: Build, runs: map<nat, Run>, feed: Feed)
    requires Desktop(build.version) in start.releases
  {
    var tag := Desktop(build.version);
    && tag in now.releases
    && (now.releases[tag] == start.releases[tag] || now.releases[tag] == start.releases[tag].(draft := false))
    && (forall t :: t in now.releases && t != tag ==> t in start.releases && now.releases[t] == start.releases[t])
    && (forall t :: t in start.releases && t !in now.releases ==> Prunable(t, start.releases[t], build, runs))
    && Feeds(now) - {build.channel} == Feeds(start) - {build.channel}
    && (build.channel in Feeds(now) ==>
          || Feeds(now)[build.channel] == feed
          || (build.channel in Feeds(start) && Feeds(now)[build.channel] == Feeds(start)[build.channel]))
  }

  lemma OwnTagNotPrunable(build: Build, release: Release, runs: map<nat, Run>)
    ensures !Prunable(Desktop(build.version), release, build, runs)
  {
    OrderDecides(build.version, build.version);
  }

  lemma DraftDoesNotMatter(release: Release, build: Build, draft: bool)
    ensures ReadFeed(release.(draft := draft), build) == ReadFeed(release, build)
  {
    SameNamesReadAlike(release.(draft := draft), release, build);
  }

  lemma PartWayPasses(start: Store, now: Store, build: Build, runs: map<nat, Run>, feed: Feed)
    requires Preflight(start, build) == Ok(feed) && PartWay(start, now, build, runs, feed)
    ensures Preflight(now, build) == Ok(feed)
  {
    var tag := Desktop(build.version);
    DraftDoesNotMatter(start.releases[tag], build, false);
    ReadFeedComplete(start.releases[tag], build);
    OrderDecides(build.version, build.version);
    assert Advances(feed, build) && ValidFeed(feed, build.channel);
    assert ChannelCheck(now.updates, build) == Ok(());
  }

  lemma PartWayReleases(start: Store, now: Store, build: Build, runs: map<nat, Run>, feed: Feed)
    requires Desktop(build.version) in start.releases && PartWay(start, now, build, runs, feed)
    ensures Pruned(Undrafted(now, build), build, runs) == Pruned(Undrafted(start, build), build, runs)
  {
    var tag := Desktop(build.version);
    OwnTagNotPrunable(build, start.releases[tag].(draft := false), runs);
    OwnTagNotPrunable(build, start.releases[tag], runs);
    var a, b := Undrafted(now, build), Undrafted(start, build);
    assert a[tag] == b[tag];
    forall t | t != tag
      ensures t in a && !Prunable(t, a[t], build, runs) <==> t in b && !Prunable(t, b[t], build, runs)
      ensures t in a && t in b ==> a[t] == b[t]
    {}
  }

  lemma SameFeedsElsewhere(a: map<Channel, Feed>, b: map<Channel, Feed>, channel: Channel, feed: Feed)
    requires a - {channel} == b - {channel}
    ensures a[channel := feed] == b[channel := feed]
  {
    assert forall c :: c in a && c != channel ==> c in a - {channel} && (a - {channel})[c] == a[c];
    assert forall c :: c in b && c != channel ==> c in b - {channel} && (b - {channel})[c] == b[c];
  }

  /** From any part-way store the publication passes its checks again with the same feed and ends in
      the same place. */
  lemma PartWayConverges(start: Store, now: Store, build: Build, runs: map<nat, Run>, feed: Feed)
    requires Preflight(start, build) == Ok(feed) && PartWay(start, now, build, runs, feed)
    ensures Preflight(now, build) == Ok(feed)
    ensures Outcome(now, build, runs, feed) == Outcome(start, build, runs, feed)
  {
    PartWayPasses(start, now, build, runs, feed);
    PartWayReleases(start, now, build, runs, feed);
    SameFeedsElsewhere(Feeds(now), Feeds(start), build.channel, feed);
  }

  /** The local variables of a publication that is under way agree with where it started. */
  ghost predicate OnCourse(start: Store, now: Store, build: Build, runs: map<nat, Run>, feed: Feed, phase: Phase)
    requires Desktop(build.version) in start.releases
  {
    var tag := Desktop(build.version);
    match phase
    case FindRelease => now == start
    case ReadAssets(release) => now == start && release == start.releases[tag]
    case ReadChannel(draft, f) => now == start && f == feed && draft == start.releases[tag].draft
    case Undraft(draft, f) => now == start && f == feed && draft == start.releases[tag].draft
    case EnsureUpdates(f) => f == feed
    case ListChannel(f) => f == feed && now.updates.Some?
    case RemoveFeed(f) => f == feed && now.updates.Some?
    case PostFeed(f) => f == feed && now.updates.Some? && build.channel !in now.updates.value
    case ListDrafts => true
    case CheckDraft(candidates) => candidates != [] && build.channel.NightlyChannel? && Collected(now, candidates)
    case CheckRun(candidates) =>
      && candidates != [] && build.channel.NightlyChannel? && Collected(now, candidates)
      && Superseded(candidates[0], build) && Unchanged(now, candidates[0])
    case DeleteDraft(candidates) =>
      && candidates != [] && build.channel.NightlyChannel? && Collected(now, candidates)
      && Superseded(candidates[0], build) && Unchanged(now, candidates[0])
      && Abandoned(runs, RunOf(candidates[0].tag))
    case Published => true
    case Failed(_) => false
  }

  /** A request that changes only the channel, to nothing or to the feed. */
  lemma ChannelStepPartWay(start: Store, now: Store, next: Store, build: Build, runs: map<nat, Run>, feed: Feed)
    requires Desktop(build.version) in start.releases && PartWay(start, now, build, runs, feed)
    requires next.releases == now.releases && Feeds(next) - {build.channel} == Feeds(now) - {build.channel}
    requires build.channel in Feeds(next) ==>
               Feeds(next)[build.channel] == feed
               || (build.channel in Feeds(now) && Feeds(next)[build.channel] == Feeds(now)[build.channel])
    ensures PartWay(start, next, build, runs, feed)
  {
    hide Prunable;
  }

  lemma ChannelSteps(now: Store, build: Build, runs: map<nat, Run>, feed: Feed, phase: Phase)
    requires phase == EnsureUpdates(feed) || phase == ListChannel(feed) || phase == RemoveFeed(feed)
             || phase == PostFeed(feed)
    requires !phase.EnsureUpdates? ==> now.updates.Some?
    requires phase.PostFeed? ==> build.channel !in now.updates.value
    ensures var (next, after) := Step(now, build, runs, phase);
            && next.releases == now.releases && Feeds(next) - {build.channel} == Feeds(now) - {build.channel}
            && (build.channel in Feeds(next) ==>
                  Feeds(next)[build.channel] == feed
                  || (build.channel in Feeds(now) && Feeds(next)[build.channel] == Feeds(now)[build.channel]))
            && next.updates.Some?
            && (after == ListChannel(feed) || after == RemoveFeed(feed) || after == ListDrafts
                || (after == PostFeed(feed) && build.channel !in next.updates.value))
  {
    hide ReadFeed, ChannelCheck, DraftListing, Superseded, Unchanged, Abandoned;
  }

  lemma ChannelStepStaysOnCourse(start: Store, now: Store, build: Build, runs: map<nat, Run>, feed: Feed, phase: Phase)
    requires Preflight(start, build) == Ok(feed)
    requires PartWay(start, now, build, runs, feed) && OnCourse(start, now, build, runs, feed, phase)
    requires phase.EnsureUpdates? || phase.ListChannel? || phase.RemoveFeed? || phase.PostFeed?
    ensures var next := Step(now, build, runs, phase);
            PartWay(start, next.0, build, runs, feed) && OnCourse(start, next.0, build, runs, feed, next.1)
  {
    hide PartWay, Step, ReadFeed, ChannelCheck;
    ChannelSteps(now, build, runs, feed, phase);
    ChannelStepPartWay(start, now, Step(now, build, runs, phase).0, build, runs, feed);
  }

  /** What a step of pruning does: go on, or delete a draft that may go. */
  lemma PruneSteps(now: Store, build: Build, runs: map<nat, Run>, candidates: seq<Candidate>, phase: Phase)
    requires candidates != [] && build.channel.NightlyChannel? && Collected(now, candidates)
    requires || phase == CheckDraft(candidates)
             || (phase == CheckRun(candidates) && Superseded(candidates[0], build) && Unchanged(now, candidates[0]))
             || (phase == DeleteDraft(candidates) && Superseded(candidates[0], build) && Unchanged(now, candidates[0])
                 && Abandoned(runs, RunOf(candidates[0].tag)))
    ensures var (next, after) := Step(now, build, runs, phase);
            && next == (if phase.DeleteDraft? then now.(releases := now.releases - {candidates[0].tag}) else now)
            && (phase.DeleteDraft? ==> candidates[0].tag in now.releases
                                       && Prunable(candidates[0].tag, now.releases[candidates[0].tag], build, runs))
            && (after == NextCandidate(candidates)
                || (after == CheckRun(candidates) && phase.CheckDraft?
                    && Superseded(candidates[0], build) && Unchanged(now, candidates[0]))
                || (after == DeleteDraft(candidates) && phase.CheckRun? && Superseded(candidates[0], build)
                    && Unchanged(now, candidates[0]) && Abandoned(runs, RunOf(candidates[0].tag))))
  {
    hide NightlyTag, Order, Abandoned;
    assert candidates[0] in candidates;
  }

  lemma PruneStepPartWay(start: Store, now: Store, tag: Tag, build: Build, runs: map<nat, Run>, feed: Feed)
    requires Desktop(build.version) in start.releases && PartWay(start, now, build, runs, feed)
    requires tag in now.releases && Prunable(tag, now.releases[tag], build, runs)
    ensures PartWay(start, now.(releases := now.releases - {tag}), build, runs, feed)
  {
    OwnTagNotPrunable(build, now.releases[tag], runs);
    hide Prunable;
  }

  lemma LaterCandidates(now: Store, next: Store, candidates: seq<Candidate>)
    requires candidates != [] && Collected(now, candidates)
    requires forall t :: t in next.releases ==> t in now.releases && next.releases[t] == now.releases[t]
    ensures Collected(next, candidates) && Collected(next, candidates[1..])
  {}

  lemma PruneStepStaysOnCourse(start: Store, now: Store, build: Build, runs: map<nat, Run>, feed: Feed, phase: Phase)
    requires Preflight(start, build) == Ok(feed)
    requires PartWay(start, now, build, runs, feed) && OnCourse(start, now, build, runs, feed, phase)
    requires phase.CheckDraft? || phase.CheckRun? || phase.DeleteDraft?
    ensures var next := Step(now, build, runs, phase);
            PartWay(start, next.0, build, runs, feed) && OnCourse(start, next.0, build, runs, feed, next.1)
  {
    hide PartWay, Step, Preflight, Collected, Superseded, Unchanged, Abandoned, Prunable;
    StartIsThere(start, build);
    var candidates := phase.candidates;
    PruneSteps(now, build, runs, candidates, phase);
    var next := Step(now, build, runs, phase).0;
    if phase.DeleteDraft? { PruneStepPartWay(start, now, candidates[0].tag, build, runs, feed); }
    LaterCandidates(now, next, candidates);
  }

  lemma StartIsThere(start: Store, build: Build)
    requires Preflight(start, build).Ok?
    ensures Desktop(build.version) in start.releases
  {}

  lemma CheckStepStaysOnCourse(start: Store, now: Store, build: Build, runs: map<nat, Run>, feed: Feed, phase: Phase)
    requires Preflight(start, build) == Ok(feed)
    requires PartWay(start, now, build, runs, feed) && OnCourse(start, now, build, runs, feed, phase)
    requires phase.FindRelease? || phase.ReadAssets? || phase.ReadChannel? || phase.Undraft?
    ensures var next := Step(now, build, runs, phase);
            PartWay(start, next.0, build, runs, feed) && OnCourse(start, next.0, build, runs, feed, next.1)
  {}

  lemma StepStaysOnCourse(start: Store, now: Store, build: Build, runs: map<nat, Run>, feed: Feed, phase: Phase)
    requires Preflight(start, build) == Ok(feed)
    requires PartWay(start, now, build, runs, feed) && OnCourse(start, now, build, runs, feed, phase)
    ensures var next := Step(now, build, runs, phase);
            PartWay(start, next.0, build, runs, feed) && OnCourse(start, next.0, build, runs, feed, next.1)
  {
    hide PartWay, Preflight, Superseded, Unchanged, Abandoned, Prunable;
    if phase.FindRelease? || phase.ReadAssets? || phase.ReadChannel? || phase.Undraft? {
      CheckStepStaysOnCourse(start, now, build, runs, feed, phase);
    } else if phase.EnsureUpdates? || phase.ListChannel? || phase.RemoveFeed? || phase.PostFeed? {
      ChannelStepStaysOnCourse(start, now, build, runs, feed, phase);
    } else if phase.CheckDraft? || phase.CheckRun? || phase.DeleteDraft? {
      PruneStepStaysOnCourse(start, now, build, runs, feed, phase);
    }
  }

  lemma {:induction false} AfterStaysOnCourse(start: Store, now: Store, build: Build, runs: map<nat, Run>, feed: Feed,
                                              phase: Phase, n: nat)
    requires Preflight(start, build) == Ok(feed)
    requires PartWay(start, now, build, runs, feed) && OnCourse(start, now, build, runs, feed, phase)
    ensures PartWay(start, After(now, build, runs, phase, n).0, build, runs, feed)
    decreases n
  {
    if n > 0 && !Terminal(phase) {
      StepStaysOnCourse(start, now, build, runs, feed, phase);
      var next := Step(now, build, runs, phase);
      AfterStaysOnCourse(start, next.0, build, runs, feed, next.1, n - 1);
    }
  }

  /** Crash convergence: cut a publication that would succeed after any number of requests and run it
      again for the same build, and everything ends as if it had never been interrupted. */
  lemma CrashConvergence(store: Store, build: Build, runs: map<nat, Run>, n: nat)
    requires Finish(store, build, runs, FindRelease).1.Published?
    ensures Finish(After(store, build, runs, FindRelease, n).0, build, runs, FindRelease)
         == Finish(store, build, runs, FindRelease)
  {
    PublicationOutcome(store, build, runs);
    var feed := Preflight(store, build).value;
    AfterStaysOnCourse(store, store, build, runs, feed, FindRelease, n);
    var cut := After(store, build, runs, FindRelease, n).0;
    PartWayConverges(store, cut, build, runs, feed);
    PublicationOutcome(cut, build, runs);
  }

  /** The gap: replacing a feed is a removal and a post. Cut between the two, and an older build that
      the backward check would have refused is published over the newer one. */
  lemma RemovalWindowForgetsOrder(store: Store, newer: Build, older: Build, runs: map<nat, Run>)
    requires newer.channel == older.channel && Order(older.version, newer.version) < 0
    requires Preflight(store, newer).Ok? && newer.channel in Feeds(store)
    requires Feeds(store)[newer.channel] == Preflight(store, newer).value
    requires !store.releases[Desktop(newer.version)].draft
    requires Desktop(older.version) in store.releases
    requires store.releases[Desktop(older.version)].marker == Some(older.source)
    requires ReadFeed(store.releases[Desktop(older.version)], older).Ok?
    ensures Finish(store, older, runs, FindRelease) == (store, Failed(Regression))
    ensures var cut := After(store, newer, runs, FindRelease, 7).0;
            && Finish(cut, older, runs, FindRelease).1 == Published
            && older.channel in Feeds(Finish(cut, older, runs, FindRelease).0)
            && Feeds(Finish(cut, older, runs, FindRelease).0)[older.channel].version == older.version
  {
    var feed := Preflight(store, newer).value;
    PublicationOutcome(store, older, runs);
    OlderIsRefused(store, newer, older);
    CutAfterRemoval(store, newer, runs, feed);
    var cut := store.(updates := Some(store.updates.value - {newer.channel}));
    PublicationOutcome(cut, older, runs);
    ReadFeedComplete(store.releases[Desktop(older.version)], older);
  }

  lemma OlderIsRefused(store: Store, newer: Build, older: Build)
    requires newer.channel == older.channel && Order(older.version, newer.version) < 0
    requires Preflight(store, newer).Ok? && newer.channel in Feeds(store)
    requires Feeds(store)[newer.channel] == Preflight(store, newer).value
    requires Desktop(older.version) in store.releases
    requires store.releases[Desktop(older.version)].marker == Some(older.source)
    requires ReadFeed(store.releases[Desktop(older.version)], older).Ok?
    ensures Preflight(store, older) == Err(Regression)
  {
    ReadFeedComplete(store.releases[Desktop(newer.version)], newer);
    hide ReadFeed, Order;
  }

  /** A publication over a feed that is present has removed it after seven requests. */
  lemma CutAfterRemoval(store: Store, build: Build, runs: map<nat, Run>, feed: Feed)
    requires Preflight(store, build) == Ok(feed) && !store.releases[Desktop(build.version)].draft
    requires build.channel in Feeds(store)
    ensures After(store, build, runs, FindRelease, 7)
         == (store.(updates := Some(store.updates.value - {build.channel})), PostFeed(feed))
  {
    hide ReadFeed, ChannelCheck, DraftListing;
    var release := store.releases[Desktop(build.version)];
    var cut := store.(updates := Some(store.updates.value - {build.channel}));
    assert After(store, build, runs, RemoveFeed(feed), 1) == (cut, PostFeed(feed));
    assert After(store, build, runs, ListChannel(feed), 2) == (cut, PostFeed(feed));
    assert After(store, build, runs, EnsureUpdates(feed), 3) == (cut, PostFeed(feed));
    assert After(store, build, runs, Undraft(false, feed), 4) == (cut, PostFeed(feed));
    assert After(store, build, runs, ReadChannel(false, feed), 5) == (cut, PostFeed(feed));
    assert After(store, build, runs, ReadAssets(release), 6) == (cut, PostFeed(feed));
  }
}
