/** What the states of the release protocol owe to its past: whose statuses they hold, whose files they store, which
    drafts were pruned and why, and how an upload ends that is left alone. */
module ReleaseHistory {
  import opened Wrappers
  import opened Versions
  import opened Releases
  import opened ReleaseChecks
  import opened Publication
  import opened ReleaseProtocol

  lemma StepOf(states: seq<State>, events: seq<Event>, j: nat)
    requires IsRun(states, events) && 0 < j < |states|
    ensures |states| == |events| + 1
    ensures Enabled(states[j - 1], events[j - 1]) && states[j] == Apply(states[j - 1], events[j - 1])
    ensures Safe(states[j - 1])
  {
    hide Safe, Apply, Enabled;
    RunSafe(states, events, j - 1);
    assert states[j - 1 + 1] == Apply(states[j - 1], events[j - 1]);
  }

  lemma StartOf(states: seq<State>, events: seq<Event>)
    requires IsRun(states, events)
    ensures |states| == |events| + 1
    ensures var s := states[0];
            s.runs == map[] && s.builders == map[] && s.store.releases == map[] && s.uploads == map[] && s.job.Idle?
    ensures Matched(states[0]) && PruneKnows(states[0].runs, states[0].job)
    ensures forall run, success :: !RunEnded(states[0], run, success)
    ensures forall run, b, success :: !BuilderEnded(states[0], run, b, success)
  {
    hide Apply, Enabled;
  }

  // ---------------------------------------------------------------------------------------------
  // Requests
  // ---------------------------------------------------------------------------------------------

  /** A request is valid exactly if its format is known, format 1 only for nightlies, its run number is positive, its
      build is well-formed, and a nightly's version ends in an eight-digit day and that run number. */
  lemma ValidRequestExactly(request: Request)
    ensures var build := request.build;
            ValidRequest(request) <==>
              && request.format in {1, 2, 3} && (request.format == 1 ==> build.channel == NightlyChannel)
              && WellFormedBuild(build) && request.run > 0
              && (build.channel == NightlyChannel ==>
                    exists date: nat :: NightlyOf(build.version, date, request.run) && date < 100_000_000)
  {
    var build := request.build;
    WellFormedExactly(build);
    if ChannelVersion(NightlyChannel, build.version) {
      var pre := build.version.prerelease;
      assert pre == [Alphanumeric("nightly"), Numeric(pre[1].number), Numeric(pre[2].number)];
      assert NightlyOf(build.version, pre[1].number, pre[2].number);
    }
    hide WellFormedBuild, Hex;
  }

  // ---------------------------------------------------------------------------------------------
  // Statuses
  // ---------------------------------------------------------------------------------------------

  predicate RunEnded(s: State, run: nat, success: bool) {
    run in s.runs && s.runs[run] == if success then Succeeded else Unsuccessful
  }

  predicate BuilderEnded(s: State, run: nat, builder: Builder, success: bool) {
    (run, builder) in s.builders && s.builders[(run, builder)] == if success then Succeeded else Unsuccessful
  }

  lemma PublishKeepsStatuses(s: State)
    requires s.job.Publishing?
    ensures PublishStep(s).runs == s.runs && PublishStep(s).builders == s.builders
  {
    hide Step;
  }

  lemma SendKeepsStatuses(s: State, i: nat)
    requires i in s.uploads
    ensures SendAsset(s, i).runs == s.runs && SendAsset(s, i).builders == s.builders
  {
    hide Send;
  }

  lemma RunStatusStep(s: State, e: Event, run: nat, success: bool)
    requires Enabled(s, e)
    ensures RunEnded(Apply(s, e), run, success) <==> RunEnded(s, run, success) || e == FinishRun(run, success)
  {
    hide PublishStep, SendAsset;
    match e
    case PublishRequest => PublishKeepsStatuses(s);
    case UploadRequest(i) => SendKeepsStatuses(s, i);
    case _ =>
  }

  lemma BuilderStatusStep(s: State, e: Event, run: nat, builder: Builder, success: bool)
    requires Enabled(s, e)
    ensures BuilderEnded(Apply(s, e), run, builder, success)
       <==> BuilderEnded(s, run, builder, success) || e == FinishBuilder(run, builder, success)
  {
    hide PublishStep, SendAsset;
    match e
    case PublishRequest => PublishKeepsStatuses(s);
    case UploadRequest(i) => SendKeepsStatuses(s, i);
    case _ =>
  }

  /** A run or a private builder has succeeded, or not, exactly if it ended so. */
  lemma {:induction false} StatusExactly(states: seq<State>, events: seq<Event>, n: nat, run: nat, builder: Builder,
                                         success: bool)
    requires IsRun(states, events) && n < |states|
    ensures RunEnded(states[n], run, success) <==> exists k :: 0 <= k < n && events[k] == FinishRun(run, success)
    ensures BuilderEnded(states[n], run, builder, success)
       <==> exists k :: 0 <= k < n && events[k] == FinishBuilder(run, builder, success)
    decreases n
  {
    hide *;
    StartOf(states, events);
    if n > 0 {
      StepOf(states, events, n);
      StatusExactly(states, events, n - 1, run, builder, success);
      RunStatusStep(states[n - 1], events[n - 1], run, success);
      BuilderStatusStep(states[n - 1], events[n - 1], run, builder, success);
    }
  }

  /** A release is public only after the hosted run and every requested private builder of a request for exactly that
      version and source ended in success. */
  lemma PublishedAfterSuccess(states: seq<State>, events: seq<Event>, n: nat, v: Version)
    requires IsRun(states, events) && n < |states|
    requires Desktop(v) in states[n].store.releases && !states[n].store.releases[Desktop(v)].draft
    ensures exists request ::
              && ValidRequest(request) && request.build.version == v
              && states[n].store.releases[Desktop(v)].marker == Some(request.build.source)
              && (exists k :: 0 <= k < n && events[k] == FinishRun(request.run, true))
              && forall b :: b in RequestedBuilders(request) ==>
                   exists k :: 0 <= k < n && events[k] == FinishBuilder(request.run, b, true)
  {
    StartOf(states, events);
    PublishedOnlyWhenCleared(states, events, n, v);
    var s := states[n];
    var request :| && Cleared(s.runs, s.builders, request) && request.build.version == v
                   && s.store.releases[Desktop(v)].marker == Some(request.build.source);
    hide IsRun, ValidRequest, RequestedBuilders;
    StatusExactly(states, events, n, request.run, Linux, true);
    forall b | b in RequestedBuilders(request)
      ensures exists k :: 0 <= k < n && events[k] == FinishBuilder(request.run, b, true)
    {
      StatusExactly(states, events, n, request.run, b, true);
    }
  }

  // ---------------------------------------------------------------------------------------------
  // Whose files a release holds
  // ---------------------------------------------------------------------------------------------

  /** What an upload posts: the payload first, then its signature, for macOS the installer, and the fragment last. */
  lemma PlanExactly(u: Upload)
    ensures var v, p, plan := u.request.build.version, u.platform, Plan(u);
            && |plan| == (if p == DarwinAarch64 || p == DarwinX8664 then 4 else 3)
            && plan[0] == (Payload(p, v), Bytes(u.digest)) && plan[1] == (Sidecar(Payload(p, v)), SignatureOf(u.digest))
            && (|plan| == 4 ==> plan[2] == (Installer(p, v), Bytes(u.digest)))
            && plan[|plan| - 1].0 == Fragment(p) && plan[|plan| - 1].1.FeedFile?
            && var feed := plan[|plan| - 1].1.feed;
               && feed.version == v && feed.channel == u.request.build.channel && feed.source == u.request.build.source
               && feed.pubDate == u.date
               && feed.platforms == map[p := Entry(Download(Desktop(v), Payload(p, v)), Some(u.digest))]
  {}

  /** An upload whose release is still there works for the source that release is of. */
  ghost predicate UploadsMatch(releases: map<Tag, Release>, uploads: map<nat, Upload>) {
    forall i :: i in uploads ==>
      var tag := Desktop(uploads[i].request.build.version);
      tag in releases && releases[tag].id == uploads[i].release ==>
        releases[tag].marker == Some(uploads[i].request.build.source)
  }

  /** Every fragment is of its release's version and source. */
  ghost predicate FragmentsMatch(releases: map<Tag, Release>) {
    forall t, p :: t in releases && Fragment(p) in releases[t].assets ==>
      && t.Desktop? && releases[t].assets[Fragment(p)].FeedFile?
      && releases[t].assets[Fragment(p)].feed.version == t.version
      && releases[t].marker == Some(releases[t].assets[Fragment(p)].feed.source)
  }

  ghost predicate Matched(s: State) {
    UploadsMatch(s.store.releases, s.uploads) && FragmentsMatch(s.store.releases)
  }

  lemma SentMatched(releases: map<Tag, Release>, uploads: map<nat, Upload>, i: nat)
    requires UploadsMatch(releases, uploads) && FragmentsMatch(releases)
    requires i in uploads && Sending(releases, uploads[i])
    ensures var u := uploads[i];
            var sent := Send(releases[Desktop(u.request.build.version)].assets, u);
            && UploadsMatch(SentReleases(releases, u), Continue(uploads, i, sent.upload))
            && FragmentsMatch(SentReleases(releases, u))
  {
    PlanExactly(uploads[i]);
    PlanNames(uploads[i], uploads[i].sent);
    hide UploadPlan;
  }

  lemma SendMatched(s: State, i: nat)
    requires Matched(s) && i in s.uploads
    ensures Matched(SendAsset(s, i))
  {
    if Sending(s.store.releases, s.uploads[i]) {
      SentState(s, i);
      SentMatched(s.store.releases, s.uploads, i);
      hide SendAsset, Send, UploadPlan, UploadsMatch, FragmentsMatch, SentReleases, Continue;
    } else {
      hide Send, UploadPlan;
    }
  }

  lemma PublishMatched(s: State)
    requires Matched(s) && s.job.Publishing?
    ensures Matched(PublishStep(s))
  {
    var s' := PublishStep(s);
    forall t | t in s'.store.releases
      ensures t in s.store.releases && s'.store.releases[t].assets == s.store.releases[t].assets
      ensures s'.store.releases[t].marker == s.store.releases[t].marker
      ensures s'.store.releases[t].id == s.store.releases[t].id
    {
      RequestKeepsFiles(s.store, s.job.request.build, RunsView(s.runs), s.job.phase, t);
    }
    hide Step;
  }

  lemma RequestKeepsFiles(store: Store, build: Build, runs: map<nat, Run>, phase: Phase, tag: Tag)
    ensures var next := Step(store, build, runs, phase).0;
            tag in next.releases ==>
              tag in store.releases && next.releases[tag] == store.releases[tag].(draft := next.releases[tag].draft)
  {
    hide ReadFeed, ChannelCheck, DraftListing, Abandoned, Superseded, Unchanged;
  }

  lemma MatchedStep(s: State, e: Event)
    requires Safe(s) && Matched(s) && Enabled(s, e)
    ensures Matched(Apply(s, e))
  {
    hide PublishStep, SendAsset, HonestReleases, SignaturesSound, PublishedCleared, FeedsSettled, JobSound, LatestSound,
      UploadsSound;
    match e
    case PublishRequest => PublishMatched(s);
    case UploadRequest(i) => SendMatched(s, i);
    case _ =>
  }

  lemma {:induction false} RunMatched(states: seq<State>, events: seq<Event>, n: nat)
    requires IsRun(states, events) && n < |states|
    ensures Matched(states[n])
    decreases n
  {
    hide *;
    StartOf(states, events);
    if n > 0 {
      StepOf(states, events, n);
      RunMatched(states, events, n - 1);
      MatchedStep(states[n - 1], events[n - 1]);
    }
  }

  /** In every reachable state a release holds only fragments of its own version and source. */
  lemma FragmentsOfTheRelease(states: seq<State>, events: seq<Event>, n: nat, t: Tag, p: Platform)
    requires IsRun(states, events) && n < |states|
    requires t in states[n].store.releases && Fragment(p) in states[n].store.releases[t].assets
    ensures var release := states[n].store.releases[t];
            && t.Desktop? && release.assets[Fragment(p)].FeedFile?
            && release.assets[Fragment(p)].feed.version == t.version
            && release.marker == Some(release.assets[Fragment(p)].feed.source)
  {
    RunMatched(states, events, n);
    hide IsRun;
  }

  // ---------------------------------------------------------------------------------------------
  // Which drafts are pruned
  // ---------------------------------------------------------------------------------------------

  /** What pruning has found out about the draft it looks at. */
  ghost predicate PruneKnows(runs: map<nat, Status>, job: Job) {
    job.Publishing? ==>
      var build := job.request.build;
      match job.phase
      case CheckDraft(_) => build.channel.NightlyChannel?
      case CheckRun(candidates) =>
        build.channel.NightlyChannel? && candidates != [] && Superseded(candidates[0], build)
      case DeleteDraft(candidates) =>
        && build.channel.NightlyChannel? && candidates != [] && Superseded(candidates[0], build)
        && Abandoned(RunsView(runs), RunOf(candidates[0].tag))
      case _ => true
  }

  lemma RequestKnows(store: Store, runs: map<nat, Status>, request: Request, phase: Phase)
    requires PruneKnows(runs, Publishing(request, phase))
    ensures var next := Step(store, request.build, RunsView(runs), phase).1;
            PruneKnows(runs, Publishing(request, next))
  {
    hide ReadFeed, ChannelCheck, DraftListing, Abandoned, Superseded, Unchanged, RunsView;
  }

  lemma PublishKnows(s: State)
    requires s.job.Publishing? && PruneKnows(s.runs, s.job)
    ensures PruneKnows(PublishStep(s).runs, PublishStep(s).job)
  {
    RequestKnows(s.store, s.runs, s.job.request, s.job.phase);
    hide Step, PruneKnows;
    var next := Step(s.store, s.job.request.build, RunsView(s.runs), s.job.phase).1;
    if Terminal(next) { NothingKnown(s.runs, Idle); }
  }

  lemma NothingKnown(runs: map<nat, Status>, job: Job)
    requires job.Idle? || job.phase.FindRelease?
    ensures PruneKnows(runs, job)
  {}

  lemma AbandonedStays(runs: map<nat, Status>, more: map<nat, Status>, job: Job)
    requires PruneKnows(runs, job)
    requires forall r :: r in runs && runs[r] == Unsuccessful ==> r in more && more[r] == Unsuccessful
    ensures PruneKnows(more, job)
  {
    hide Superseded;
  }

  lemma SendKeepsJob(s: State, i: nat)
    requires i in s.uploads
    ensures SendAsset(s, i).job == s.job
  {
    hide Send;
  }

  lemma KnowsStep(s: State, e: Event)
    requires Enabled(s, e) && PruneKnows(s.runs, s.job)
    ensures PruneKnows(Apply(s, e).runs, Apply(s, e).job)
  {
    hide PublishStep, SendAsset, PruneKnows;
    match e
    case PublishRequest => PublishKnows(s);
    case UploadRequest(i) =>
      SendKeepsStatuses(s, i);
      SendKeepsJob(s, i);
    case StartPublish(_) => NothingKnown(s.runs, Apply(s, e).job);
    case CrashPublish => NothingKnown(s.runs, Idle);
    case StartRun(_) => AbandonedStays(s.runs, Apply(s, e).runs, s.job);
    case FinishRun(_, _) => AbandonedStays(s.runs, Apply(s, e).runs, s.job);
    case _ =>
  }

  lemma {:induction false} RunKnows(states: seq<State>, events: seq<Event>, n: nat)
    requires IsRun(states, events) && n < |states|
    ensures PruneKnows(states[n].runs, states[n].job)
    decreases n
  {
    hide *;
    StartOf(states, events);
    if n > 0 {
      StepOf(states, events, n);
      RunKnows(states, events, n - 1);
      KnowsStep(states[n - 1], events[n - 1]);
    }
  }

  lemma OnlyPruningRemoves(s: State, e: Event, tag: Tag)
    requires Safe(s) && Enabled(s, e) && tag in s.store.releases && tag !in Apply(s, e).store.releases
    ensures e.PublishRequest? && s.job.phase.DeleteDraft? && s.job.phase.candidates != []
    ensures s.job.phase.candidates[0].tag == tag && s.store.releases[tag].draft
  {
    hide HonestReleases, SignaturesSound, PublishedCleared, FeedsSettled, LatestSound, UploadsSound, IdsUsed,
      PublishStep, SendAsset;
    match e
    case PublishRequest => RequestRemoves(s, tag);
    case UploadRequest(i) => SendRemovesNothing(s, i, tag);
    case _ =>
  }

  lemma SendRemovesNothing(s: State, i: nat, tag: Tag)
    requires i in s.uploads && tag in s.store.releases
    ensures tag in SendAsset(s, i).store.releases
  {
    hide Send;
  }

  lemma RequestRemoves(s: State, tag: Tag)
    requires JobSound(s) && s.job.Publishing? && tag in s.store.releases && tag !in PublishStep(s).store.releases
    ensures s.job.phase.DeleteDraft? && s.job.phase.candidates != []
    ensures s.job.phase.candidates[0].tag == tag && s.store.releases[tag].draft
  {
    hide ReadFeed, ChannelCheck, DraftListing, Abandoned, Superseded, Unchanged, Cleared, InFlight, ChannelPhase;
    if s.job.phase.DeleteDraft? && s.job.phase.candidates != [] {
      assert s.job.phase.candidates[0] in s.job.phase.candidates;
    }
  }

  /** In every run a release is only ever removed by the publication of a later nightly, and only the draft of a
      nightly whose own run ended without success. */
  lemma PrunedOnlyIfFailed(states: seq<State>, events: seq<Event>, n: nat, tag: Tag) returns (date: nat, run: nat)
    requires IsRun(states, events) && n < |events|
    requires tag in states[n].store.releases && tag !in states[n + 1].store.releases
    ensures events[n].PublishRequest? && states[n].job.Publishing? && states[n].store.releases[tag].draft
    ensures var build := states[n].job.request.build;
            && build.channel == NightlyChannel && tag.Desktop? && NightlyOf(tag.version, date, run)
            && date < 100_000_000 && run > 0 && Precedes(tag.version, build.version)
    ensures exists k :: 0 <= k < n && events[k] == FinishRun(run, false)
  {
    var s := states[n];
    StepOf(states, events, n + 1);
    OnlyPruningRemoves(s, events[n], tag);
    RunKnows(states, events, n);
    hide IsRun, Safe, Apply;
    var pre := tag.version.prerelease;
    date, run := pre[1].number, pre[2].number;
    assert pre == [Alphanumeric("nightly"), Numeric(date), Numeric(run)];
    OrderIsPrecedence(tag.version, s.job.request.build.version);
    assert RunEnded(s, run, false);
    StatusExactly(states, events, n, run, Linux, false);
    hide Order, Precedes;
  }

  lemma ViewExactly(runs: map<nat, Status>, run: nat)
    ensures (run in RunsView(runs) && RunsView(runs)[run].completed && RunsView(runs)[run].unsuccessful
             && RunsView(runs)[run].desktopWorkflow)
       <==> run in runs && runs[run] == Unsuccessful
  {}

  /** Such a draft is one that pruning removes: in every reachable state the abandoned nightlies are exactly the drafts
      of earlier nightlies, tagged at their marker's commit, whose own run ended without success before. */
  lemma AbandonedExactly(states: seq<State>, events: seq<Event>, n: nat, tag: Tag, release: Release, build: Build)
    requires IsRun(states, events) && n < |states|
    ensures |states| == |events| + 1
    ensures AbandonedNightly(tag, release, build, RunsView(states[n].runs))
       <==> && build.channel.NightlyChannel? && tag.Desktop? && release.draft
            && release.marker.Some? && release.target == release.marker.value.commit
            && Precedes(tag.version, build.version)
            && exists date, run ::
                 && NightlyOf(tag.version, date, run) && date < 100_000_000 && run > 0
                 && exists k :: 0 <= k < n && events[k] == FinishRun(run, false)
  {
    StartOf(states, events);
    forall run
      ensures (run in states[n].runs && states[n].runs[run] == Unsuccessful)
         <==> exists k :: 0 <= k < n && events[k] == FinishRun(run, false)
    {
      StatusExactly(states, events, n, run, Linux, false);
    }
    forall run
      ensures (run in RunsView(states[n].runs) && RunsView(states[n].runs)[run].completed
               && RunsView(states[n].runs)[run].unsuccessful && RunsView(states[n].runs)[run].desktopWorkflow)
         <==> run in states[n].runs && states[n].runs[run] == Unsuccessful
    {
      ViewExactly(states[n].runs, run);
    }
    hide IsRun, Precedes, RunsView, NightlyOf;
  }
}
