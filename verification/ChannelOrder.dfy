/** How the feeds of the channels move over any run of the release protocol: a version has one source for ever,
    and a channel goes back exactly where an older build is posted for a feed that a crash lost. */
module ChannelOrder {
  import opened Wrappers
  import opened Versions
  import opened Releases
  import opened Publication
  import opened ReleaseProtocol

  ghost function BuildOf(feed: Feed): Build {
    Build(feed.channel, feed.version, feed.source)
  }

  lemma StepOf(states: seq<State>, events: seq<Event>, j: nat)
    requires IsRun(states, events) && 0 < j < |states|
    ensures Enabled(states[j - 1], events[j - 1]) && states[j] == Apply(states[j - 1], events[j - 1])
    ensures Safe(states[j - 1])
  {
    hide Safe, Apply, Enabled;
    RunSafe(states, events, j - 1);
    assert states[j - 1 + 1] == Apply(states[j - 1], events[j - 1]);
  }

  // ---------------------------------------------------------------------------------------------
  // One source per version
  // ---------------------------------------------------------------------------------------------

  /** A published release is never changed or deleted again. */
  lemma {:induction false} PublishedStays(states: seq<State>, events: seq<Event>, i: nat, j: nat, tag: Tag)
    requires IsRun(states, events) && i <= j < |states|
    requires tag in states[i].store.releases && !states[i].store.releases[tag].draft
    ensures tag in states[j].store.releases && states[j].store.releases[tag] == states[i].store.releases[tag]
    decreases j
  {
    hide Safe, Apply, Enabled;
    if i < j {
      PublishedStays(states, events, i, j - 1, tag);
      StepOf(states, events, j);
      PublishedReleasesPermanent(states[j - 1], events[j - 1], tag);
    }
  }

  /** The last feed of every channel, present or lost, is what its published release would be read as. */
  ghost predicate LatestSettled(s: State) {
    forall c :: c in s.latest ==> Settled(s.store.releases, c, s.latest[c])
  }

  /** Only a post changes a channel's last feed, and the posted feed is then there. */
  lemma LatestMoves(s: State, e: Event, channel: Channel)
    requires Safe(s) && Enabled(s, e) && channel in Apply(s, e).latest
    ensures var s' := Apply(s, e);
            || (channel in s.latest && s'.latest[channel] == s.latest[channel])
            || (channel in Feeds(s'.store) && s'.latest[channel] == Feeds(s'.store)[channel])
  {
    hide Safe, PublishStep, SendAsset;
    match e
    case PublishRequest =>
      if s.job.phase.PostFeed? { PostMoves(s); } else { OtherRequests(s); }
    case UploadRequest(i) => SendKeepsLatest(s, i);
    case _ =>
  }

  lemma PostMoves(s: State)
    requires Safe(s) && s.job.Publishing? && s.job.phase.PostFeed?
    ensures var channel, feed, s' := s.job.request.build.channel, s.job.phase.feed, PublishStep(s);
            s'.latest == s.latest[channel := feed] && Feeds(s'.store) == Feeds(s.store)[channel := feed]
  {
    PostedFeed(s);
    PostFeedStep(s);
    hide PublishStep, Settled;
  }

  lemma SendKeepsLatest(s: State, i: nat)
    requires i in s.uploads
    ensures SendAsset(s, i).latest == s.latest
  {}

  /** A publication's request before and after its post leaves the last feeds alone. */
  lemma OtherRequests(s: State)
    requires s.job.Publishing? && !s.job.phase.PostFeed?
    ensures PublishStep(s).latest == s.latest
  {
    hide Step;
  }

  lemma LatestStepSettled(s: State, e: Event)
    requires Safe(s) && Enabled(s, e) && LatestSettled(s)
    ensures LatestSettled(Apply(s, e))
  {
    var s' := Apply(s, e);
    forall c | c in s'.latest ensures Settled(s'.store.releases, c, s'.latest[c]) {
      LatestMoves(s, e, c);
      if c in s.latest && s'.latest[c] == s.latest[c] {
        StaysSettled(s, e, c, s.latest[c]);
      } else {
        FeedIsSettled(s, e, c);
      }
      hide *;
    }
  }

  lemma StaysSettled(s: State, e: Event, channel: Channel, feed: Feed)
    requires Safe(s) && Enabled(s, e) && Settled(s.store.releases, channel, feed)
    ensures Settled(Apply(s, e).store.releases, channel, feed)
  {
    PublishedReleasesPermanent(s, e, Desktop(feed.version));
    hide Apply, Safe, Enabled, ReadFeed;
  }

  lemma FeedIsSettled(s: State, e: Event, channel: Channel)
    requires Safe(s) && Enabled(s, e) && channel in Feeds(Apply(s, e).store)
    ensures Settled(Apply(s, e).store.releases, channel, Feeds(Apply(s, e).store)[channel])
  {
    StepSafe(s, e);
    hide Apply, Enabled, Settled, HonestReleases, SignaturesSound, PublishedCleared, UploadsSound, IdsUsed, JobSound,
      LatestSound;
  }

  lemma FreshLatest(states: seq<State>, events: seq<Event>)
    requires IsRun(states, events)
    ensures |states| == |events| + 1 && LatestSettled(states[0])
  {
    hide Apply, Enabled, Settled;
  }

  lemma {:induction false} RunLatestSettled(states: seq<State>, events: seq<Event>, n: nat)
    requires IsRun(states, events) && n < |states|
    ensures LatestSettled(states[n])
    decreases n
  {
    hide *;
    FreshLatest(states, events);
    if n > 0 {
      StepOf(states, events, n);
      RunLatestSettled(states, events, n - 1);
      LatestStepSettled(states[n - 1], events[n - 1]);
    }
  }

  lemma FeedIsLatest(s: State, channel: Channel)
    requires Safe(s) && channel in Feeds(s.store)
    ensures channel in s.latest && s.latest[channel] == Feeds(s.store)[channel] && channel !in s.interrupted
  {}

  /** Feeds of one version carry one commit and source: on any channels, at any times, whatever crashed. */
  lemma OneSourcePerVersion(states: seq<State>, events: seq<Event>, i: nat, j: nat, c: Channel, d: Channel)
    requires IsRun(states, events) && i <= j < |states|
    requires c in states[i].latest && d in states[j].latest
    requires states[i].latest[c].version == states[j].latest[d].version
    ensures states[i].latest[c].source == states[j].latest[d].source
  {
    RunLatestSettled(states, events, i);
    RunLatestSettled(states, events, j);
    PublishedStays(states, events, i, j, Desktop(states[i].latest[c].version));
  }

  // ---------------------------------------------------------------------------------------------
  // One step
  // ---------------------------------------------------------------------------------------------

  /** A build older than the channel's last feed is posted while that feed, lost to a crash, was missing. */
  ghost predicate GoesBack(s: State, e: Event, channel: Channel) {
    && e.PublishRequest? && s.job.Publishing? && s.job.phase.PostFeed? && s.job.request.build.channel == channel
    && channel in s.interrupted && channel in s.latest
    && Order(s.job.request.build.version, s.latest[channel].version) < 0
  }

  /** The post makes the build's feed the last one, and was allowed to unless a crash had lost the last one. */
  lemma PostRequest(s: State)
    requires Safe(s) && s.job.Publishing? && s.job.phase.PostFeed?
    ensures var build, s' := s.job.request.build, PublishStep(s);
            && s'.latest == s.latest[build.channel := s.job.phase.feed] && BuildOf(s.job.phase.feed) == build
            && MayAdvance(s.latest, s.interrupted, build)
            && OwnRelease(s.store.releases, build)
  {
    PostMoves(s);
    hide PublishStep, HonestReleases, SignaturesSound, PublishedCleared, FeedsSettled, UploadsSound, IdsUsed, Cleared,
      InFlight, LatestSound, MayAdvance;
    var build := s.job.request.build;
    ReadFeedComplete(s.store.releases[Desktop(build.version)], build);
    hide ReadFeed;
  }

  /** Two feeds of a version whose release is the same have the same source. */
  lemma NotOlderAdvances(releases: map<Tag, Release>, channel: Channel, last: Feed, build: Build)
    requires Settled(releases, channel, last) && OwnRelease(releases, build)
    ensures Advances(last, build) <==> Order(build.version, last.version) >= 0
  {
    hide ReadFeed;
    OrderDecides(build.version, last.version);
  }

  lemma PostGoesBackExactly(s: State, channel: Channel)
    requires Safe(s) && LatestSettled(s) && s.job.Publishing? && s.job.phase.PostFeed? && channel in s.latest
    requires s.job.request.build.channel == channel
    ensures channel in PublishStep(s).latest
    ensures var last, next := s.latest[channel], PublishStep(s).latest[channel];
            && (GoesBack(s, PublishRequest, channel) <==> Order(next.version, last.version) < 0)
            && (GoesBack(s, PublishRequest, channel) <==> !Advances(last, BuildOf(next)))
  {
    hide Safe, PublishStep, Settled, OwnRelease;
    PostRequest(s);
    NotOlderAdvances(s.store.releases, channel, s.latest[channel], s.job.request.build);
    hide Advances, Order;
  }

  lemma AdvancesToItself(feed: Feed)
    ensures Order(feed.version, feed.version) == 0 && Advances(feed, BuildOf(feed))
  {
    OrderDecides(feed.version, feed.version);
  }

  lemma OthersKeepLatest(s: State, e: Event, channel: Channel)
    requires Enabled(s, e) && channel in s.latest
    requires e.PublishRequest? ==> !s.job.phase.PostFeed? || s.job.request.build.channel != channel
    ensures channel in Apply(s, e).latest && Apply(s, e).latest[channel] == s.latest[channel]
  {
    hide PublishStep, SendAsset;
    match e
    case PublishRequest =>
      if s.job.phase.PostFeed? { PostKeepsOthers(s, channel); } else { OtherRequests(s); }
    case UploadRequest(i) => SendKeepsLatest(s, i);
    case _ =>
  }

  lemma PostKeepsOthers(s: State, channel: Channel)
    requires s.job.Publishing? && s.job.request.build.channel != channel && channel in s.latest
    ensures channel in PublishStep(s).latest && PublishStep(s).latest[channel] == s.latest[channel]
  {
    hide Step;
  }

  /** A step takes a channel to an older version exactly when it posts an older build for a lost feed; any other
      step leaves it at the same feed or one that may follow it. */
  lemma StepGoesBackExactly(s: State, e: Event, channel: Channel)
    requires Safe(s) && LatestSettled(s) && Enabled(s, e) && channel in s.latest
    ensures channel in Apply(s, e).latest
    ensures var last, next := s.latest[channel], Apply(s, e).latest[channel];
            && (GoesBack(s, e, channel) <==> Order(next.version, last.version) < 0)
            && (GoesBack(s, e, channel) <==> !Advances(last, BuildOf(next)))
  {
    hide Safe, LatestSettled, PublishStep, SendAsset, Advances, Order;
    if e.PublishRequest? && s.job.phase.PostFeed? && s.job.request.build.channel == channel {
      PostGoesBackExactly(s, channel);
    } else {
      OthersKeepLatest(s, e, channel);
      AdvancesToItself(s.latest[channel]);
    }
  }

  // ---------------------------------------------------------------------------------------------
  // Every run
  // ---------------------------------------------------------------------------------------------

  lemma LatestNamesChannel(s: State, channel: Channel)
    requires Safe(s) && channel in s.latest
    ensures s.latest[channel].channel == channel
  {}

  ghost predicate NeverBack(states: seq<State>, events: seq<Event>, i: nat, j: nat, channel: Channel)
    requires |states| == |events| + 1 && j < |states|
  {
    forall k :: i <= k < j ==> !GoesBack(states[k], events[k], channel)
  }

  lemma {:induction false} LatestAdvancesOverRuns(states: seq<State>, events: seq<Event>, i: nat, j: nat,
                                                  channel: Channel)
    requires IsRun(states, events) && i <= j < |states| && channel in states[i].latest
    ensures channel in states[j].latest
    ensures NeverBack(states, events, i, j, channel) ==>
              Advances(states[i].latest[channel], BuildOf(states[j].latest[channel]))
    decreases j
  {
    hide Safe, Apply, Enabled, GoesBack, LatestSettled, Advances, Order;
    if i == j {
      AdvancesToItself(states[i].latest[channel]);
    } else {
      var s, e := states[j - 1], events[j - 1];
      StepOf(states, events, j);
      RunLatestSettled(states, events, j - 1);
      LatestAdvancesOverRuns(states, events, i, j - 1, channel);
      StepGoesBackExactly(s, e, channel);
      if NeverBack(states, events, i, j, channel) {
        assert NeverBack(states, events, i, j - 1, channel);
        LatestNamesChannel(s, channel);
        AdvancesChains(states[i].latest[channel], s.latest[channel], BuildOf(states[j].latest[channel]));
      }
    }
  }

  lemma AdvancesIsNotOlder(last: Feed, next: Feed)
    requires Advances(last, BuildOf(next))
    ensures Order(next.version, last.version) >= 0
  {}

  /** From no state of the stretch to a later one does the channel's last feed get older. */
  ghost predicate NeverOlder(states: seq<State>, i: nat, j: nat, channel: Channel)
    requires j < |states|
  {
    forall a, b :: i <= a <= b <= j ==>
      && channel in states[a].latest && channel in states[b].latest
      && Order(states[b].latest[channel].version, states[a].latest[channel].version) >= 0
  }

  /** Over any stretch of any run, whatever crashed in it or before, a channel only moves forward exactly if no
      older build is posted in it for a feed that a crash had lost. */
  lemma ForwardExactly(states: seq<State>, events: seq<Event>, i: nat, j: nat, channel: Channel)
    requires IsRun(states, events) && i <= j < |states| && channel in states[i].latest
    ensures NeverOlder(states, i, j, channel) <==> NeverBack(states, events, i, j, channel)
  {
    assert |states| == |events| + 1;
    hide Safe, Apply, Enabled, GoesBack, LatestSettled, Advances, Order, IsRun;
    if NeverBack(states, events, i, j, channel) {
      forall a, b | i <= a <= b <= j
        ensures channel in states[a].latest && channel in states[b].latest
        ensures Order(states[b].latest[channel].version, states[a].latest[channel].version) >= 0
      {
        LatestAdvancesOverRuns(states, events, i, a, channel);
        LatestAdvancesOverRuns(states, events, a, b, channel);
        assert NeverBack(states, events, a, b, channel);
        AdvancesIsNotOlder(states[a].latest[channel], states[b].latest[channel]);
      }
    } else {
      var k :| i <= k < j && GoesBack(states[k], events[k], channel);
      LatestAdvancesOverRuns(states, events, i, k, channel);
      StepIsOlder(states, events, k, channel);
      assert i <= k <= k + 1 <= j;
    }
  }

  lemma StepIsOlder(states: seq<State>, events: seq<Event>, k: nat, channel: Channel)
    requires IsRun(states, events) && k < |events|
    requires channel in states[k].latest && GoesBack(states[k], events[k], channel)
    ensures channel in states[k + 1].latest
    ensures Order(states[k + 1].latest[channel].version, states[k].latest[channel].version) < 0
  {
    hide Safe, Apply, Enabled, LatestSettled, Order;
    StepOf(states, events, k + 1);
    RunLatestSettled(states, events, k);
    StepGoesBackExactly(states[k], events[k], channel);
  }

  /** Over any stretch in which no older build is posted for a lost feed, a channel never moves to an older
      version. */
  lemma ChannelsOnlyAdvance(states: seq<State>, events: seq<Event>, i: nat, j: nat, channel: Channel)
    requires IsRun(states, events) && i <= j < |states|
    requires channel in Feeds(states[i].store) && channel in Feeds(states[j].store)
    requires forall k :: i <= k < j ==> !GoesBack(states[k], events[k], channel)
    ensures var before, after := Feeds(states[i].store)[channel], Feeds(states[j].store)[channel];
            Order(before.version, after.version) < 0
            || (before.version == after.version && before.source == after.source)
  {
    RunSafe(states, events, i);
    RunSafe(states, events, j);
    FeedIsLatest(states[i], channel);
    FeedIsLatest(states[j], channel);
    LatestAdvancesOverRuns(states, events, i, j, channel);
    var before, after := Feeds(states[i].store)[channel], Feeds(states[j].store)[channel];
    OrderDecides(after.version, before.version);
    OrderDecides(before.version, after.version);
  }

  // ---------------------------------------------------------------------------------------------
  // Before a publication
  // ---------------------------------------------------------------------------------------------

  /** Between publications a channel's last feed is missing exactly if a crash lost it and none was posted since:
      publishing the same build again, or any other, makes up for the crash. */
  lemma MissingExactly(states: seq<State>, events: seq<Event>, n: nat, channel: Channel)
    requires IsRun(states, events) && n < |states| && states[n].job.Idle? && channel in states[n].latest
    ensures channel !in Feeds(states[n].store) <==> channel in states[n].interrupted
  {
    RunSafe(states, events, n);
    MissingIsInterrupted(states[n], channel);
  }

  lemma MissingIsInterrupted(s: State, channel: Channel)
    requires Safe(s) && s.job.Idle? && channel in s.latest
    ensures channel !in Feeds(s.store) <==> channel in s.interrupted
  {}

  /** A build whose checks pass takes its channel back exactly if the channel's feed is missing beforehand and
      the build is older than the last one; if it has the last one's version, it has its source. */
  lemma PublishingGoesBackExactly(states: seq<State>, events: seq<Event>, n: nat, build: Build)
    requires IsRun(states, events) && n < |states| && states[n].job.Idle?
    requires build.channel in states[n].latest && Preflight(states[n].store, build).Ok?
    ensures var s := states[n];
            var last, after := s.latest[build.channel], Finish(s.store, build, RunsView(s.runs), FindRelease).0;
            && build.channel in Feeds(after)
            && var next := Feeds(after)[build.channel];
               && (Order(next.version, last.version) < 0
                   <==> build.channel !in Feeds(s.store) && Order(build.version, last.version) < 0)
               && (next.version == last.version ==> next.source == last.source)
  {
    var s := states[n];
    RunSafe(states, events, n);
    RunLatestSettled(states, events, n);
    PublishedFeed(s.store, build, RunsView(s.runs));
    if build.channel in Feeds(s.store) {
      FeedIsLatest(s, build.channel);
      CheckedAdvances(s.store, build);
    }
    var last := s.latest[build.channel];
    assert Settled(s.store.releases, build.channel, last);
    hide Finish, Preflight, Safe, IsRun, Order, ReadFeed;
    NotOlderAdvances(s.store.releases, build.channel, last, build);
    hide Advances;
  }

  lemma PublishedFeed(store: Store, build: Build, runs: map<nat, Run>)
    requires Preflight(store, build).Ok?
    ensures OwnRelease(store.releases, build)
    ensures var feeds := Feeds(Finish(store, build, runs, FindRelease).0);
            build.channel in feeds && BuildOf(feeds[build.channel]) == build
  {
    PublicationOutcome(store, build, runs);
    ReadFeedComplete(store.releases[Desktop(build.version)], build);
    hide ReadFeed, Finish;
  }

  lemma CheckedAdvances(store: Store, build: Build)
    requires Preflight(store, build).Ok? && build.channel in Feeds(store)
    ensures Advances(Feeds(store)[build.channel], build)
  {
    hide ReadFeed, Order;
  }
}
