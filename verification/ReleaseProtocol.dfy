/** The whole release protocol: hosted and private builders, uploads, publications and pruning in any
    order, with a crash possible between any two store requests.

    Publications are serialized (one workflow group runs them), and uploads to a tag have finished
    before that tag's publication starts. */
module ReleaseProtocol {
  import opened Wrappers
  import opened Versions
  import opened Releases
  import opened Publication

  datatype Builder = Linux | Windows | MacOS

  datatype Status = InProgress | Succeeded | Unsuccessful

  /** A release request: the build, the workflow run that made it, and its format. */
  datatype Request = Request(build: Build, run: nat, format: nat)

  /** One platform's upload to the release with id `release`: how many assets are sent, and whether the
      next one's predecessor was already removed. */
  datatype Upload = Upload(request: Request, platform: Platform, release: nat, digest: nat, date: nat,
                           sent: nat, removed: bool)

  datatype Job = Idle | Publishing(request: Request, phase: Phase)

  /** The last four components are history: the request each release was published for, the last feed of
      each channel, the channels whose feed replacement was cut off with no feed posted since, and the platforms
      of a version that an upload has begun to change without one having completed since. */
  datatype State = State(
    store: Store, runs: map<nat, Status>, builders: map<(nat, Builder), Status>,
    uploads: map<nat, Upload>, job: Job, nextRelease: nat,
    cleared: map<Version, Request>, latest: map<Channel, Feed>, interrupted: set<Channel>,
    unsettled: set<(Version, Platform)>)

  datatype Event =
    | StartRun(run: nat)
    | FinishRun(run: nat, success: bool)
    | FinishBuilder(run: nat, builder: Builder, success: bool)
    | Create(request: Request)
    | StartUpload(upload: nat, request: Request, platform: Platform, digest: nat, date: nat)
    | UploadRequest(upload: nat)
    | AbortUpload(upload: nat)
    | StartPublish(request: Request)
    | PublishRequest
    | CrashPublish

  // ---------------------------------------------------------------------------------------------
  // Requests
  // ---------------------------------------------------------------------------------------------

  function RequestedBuilders(request: Request): set<Builder> {
    var nightly := request.build.channel.NightlyChannel?;
    if request.format == 1 then {Linux}
    else if request.format == 2 then if nightly then {Linux, Windows} else {Windows}
    else if nightly then {Linux, Windows, MacOS} else {Windows, MacOS}
  }

  /** validateRequest accepts. */
  predicate ValidRequest(request: Request) {
    var build := request.build;
    && 1 <= request.format <= 3 && (request.format == 1 ==> build.channel.NightlyChannel?) && request.run > 0
    && ChannelVersion(build.channel, build.version)
    && (build.channel.NightlyChannel? ==>
          NightlyTag(Desktop(build.version)) && RunOf(Desktop(build.version)) == request.run)
    && Hex(build.source.commit, 40) && Hex(build.source.fingerprint, 64)
  }

  /** hostedReleasePlatforms */
  predicate HostedPlatform(channel: Channel, p: Platform) {
    p != DarwinX8664 && p != WindowsX8664 && p != WindowsAarch64
    && (channel.StableChannel? || (p != LinuxX8664 && p != LinuxAarch64))
  }

  function BuilderOf(p: Platform): Option<Builder> {
    match p
    case DarwinAarch64 => None
    case DarwinX8664 => Some(MacOS)
    case LinuxX8664 => Some(Linux)
    case LinuxAarch64 => Some(Linux)
    case WindowsX8664 => Some(Windows)
    case WindowsAarch64 => Some(Windows)
  }

  /** A current (format 3) request splits the six platforms between the hosted run and its private
      builders: each is built in exactly one place. */
  lemma PlatformsSplit(request: Request, p: Platform)
    requires ValidRequest(request) && request.format == 3
    ensures HostedPlatform(request.build.channel, p)
       <==> !(BuilderOf(p).Some? && BuilderOf(p).value in RequestedBuilders(request))
  {}

  /** Who builds for a request: Linux for nightlies, Windows from format 2 on, macOS in format 3. */
  lemma RequestedExactly(request: Request)
    requires ValidRequest(request)
    ensures Linux in RequestedBuilders(request) <==> request.build.channel.NightlyChannel?
    ensures Windows in RequestedBuilders(request) <==> request.format >= 2
    ensures MacOS in RequestedBuilders(request) <==> request.format == 3
  {}

  /** The publish gate: the hosted run and every requested private builder have succeeded. */
  ghost predicate Cleared(runs: map<nat, Status>, builders: map<(nat, Builder), Status>, request: Request) {
    && ValidRequest(request)
    && request.run in runs && runs[request.run] == Succeeded
    && forall b :: b in RequestedBuilders(request) ==>
         (request.run, b) in builders && builders[(request.run, b)] == Succeeded
  }

  /** The runs as pruning reads them. */
  ghost function RunsView(runs: map<nat, Status>): map<nat, Run> {
    map r | r in runs :: Run(runs[r] != InProgress, runs[r] == Unsuccessful, true)
  }

  // ---------------------------------------------------------------------------------------------
  // Uploads
  // ---------------------------------------------------------------------------------------------

  function FragmentFeed(build: Build, p: Platform, digest: nat, date: nat): Feed {
    Feed(build.version, build.channel, build.source, "", date,
         map[p := Entry(Download(Desktop(build.version), Payload(p, build.version)), Some(digest))])
  }

  /** Payload, signature and (macOS) installer, then the fragment. */
  function UploadPlan(build: Build, p: Platform, digest: nat, date: nat): seq<(AssetName, Content)> {
    var payload := Payload(p, build.version);
    [(payload, Bytes(digest)), (Sidecar(payload), SignatureOf(digest))]
    + (if p.DarwinAarch64? || p.DarwinX8664? then [(Installer(p, build.version), Bytes(digest))] else [])
    + [(Fragment(p), FeedFile(FragmentFeed(build, p, digest, date)))]
  }

  function Plan(u: Upload): seq<(AssetName, Content)> {
    UploadPlan(u.request.build, u.platform, u.digest, u.date)
  }

  ghost predicate InFlight(uploads: map<nat, Upload>, v: Version) {
    exists i :: i in uploads && uploads[i].request.build.version == v
  }

  ghost predicate InFlightFor(uploads: map<nat, Upload>, v: Version, p: Platform) {
    exists i :: i in uploads && uploads[i].request.build.version == v && uploads[i].platform == p
  }

  predicate PublishingVersion(job: Job, v: Version) {
    job.Publishing? && job.request.build.version == v
  }

  predicate MatchingDraft(store: Store, build: Build) {
    && Desktop(build.version) in store.releases
    && store.releases[Desktop(build.version)].draft
    && store.releases[Desktop(build.version)].marker == Some(build.source)
  }

  // ---------------------------------------------------------------------------------------------
  // Steps
  // ---------------------------------------------------------------------------------------------

  ghost predicate Enabled(s: State, e: Event) {
    match e
    case StartRun(run) => run !in s.runs
    case FinishRun(run, _) => run in s.runs && s.runs[run] == InProgress
    case FinishBuilder(run, builder, _) => (run, builder) !in s.builders
    case Create(request) =>
      ValidRequest(request) && request.run in s.runs && s.runs[request.run] == InProgress
    case StartUpload(i, request, p, _, _) =>
      && i !in s.uploads && ValidRequest(request) && MatchingDraft(s.store, request.build)
      && !InFlightFor(s.uploads, request.build.version, p) && !PublishingVersion(s.job, request.build.version)
    case UploadRequest(i) => i in s.uploads
    case AbortUpload(i) => i in s.uploads
    case StartPublish(request) =>
      s.job.Idle? && Cleared(s.runs, s.builders, request) && !InFlight(s.uploads, request.build.version)
    case PublishRequest => s.job.Publishing?
    case CrashPublish => s.job.Publishing?
  }

  function Drop<K, V>(m: map<K, V>, k: K): map<K, V> {
    m - {k}
  }

  /** What one request of an upload does: the release's assets, the upload if it goes on, and whether it
      is complete. */
  datatype Sent = Sent(assets: map<AssetName, Content>, upload: Option<Upload>, complete: bool)

  /** upload's delete-then-post, one request at a time; a name that is taken again in between fails it. */
  function Send(assets: map<AssetName, Content>, u: Upload): Sent
    requires u.sent < |Plan(u)|
  {
    var (name, content) := Plan(u)[u.sent];
    if name in assets && !u.removed then Sent(Drop(assets, name), Some(u.(removed := true)), false)
    else if name in assets then Sent(assets, None, false)
    else if u.sent + 1 == |Plan(u)| then Sent(assets[name := content], None, true)
    else Sent(assets[name := content], Some(u.(sent := u.sent + 1, removed := false)), false)
  }

  function Continue(uploads: map<nat, Upload>, i: nat, upload: Option<Upload>): map<nat, Upload> {
    if upload.Some? then uploads[i := upload.value] else Drop(uploads, i)
  }

  /** It gives up when its release is gone. */
  ghost function SendAsset(s: State, i: nat): State
    requires i in s.uploads
  {
    var u := s.uploads[i];
    var tag := Desktop(u.request.build.version);
    if tag !in s.store.releases || s.store.releases[tag].id != u.release || u.sent >= |Plan(u)|
    then s.(uploads := Drop(s.uploads, i))
    else
      var sent := Send(s.store.releases[tag].assets, u);
      s.(store := s.store.(releases := s.store.releases[tag := s.store.releases[tag].(assets := sent.assets)]),
         uploads := Continue(s.uploads, i, sent.upload),
         unsettled := if sent.complete then s.unsettled - {(tag.version, u.platform)}
                      else s.unsettled + {(tag.version, u.platform)})
  }

  /** One request of the publication, with the history it makes. */
  ghost function PublishStep(s: State): State
    requires s.job.Publishing?
  {
    var build, phase := s.job.request.build, s.job.phase;
    var next := Step(s.store, build, RunsView(s.runs), phase);
    s.(store := next.0,
       job := if Terminal(next.1) then Idle else Publishing(s.job.request, next.1),
       cleared := if phase.Undraft? then s.cleared[build.version := s.job.request] else s.cleared,
       latest := if phase.PostFeed? && next.1.ListDrafts? then s.latest[build.channel := phase.feed] else s.latest,
       interrupted := if phase.PostFeed? && next.1.ListDrafts? then s.interrupted - {build.channel} else s.interrupted)
  }

  ghost function Apply(s: State, e: Event): State
    requires Enabled(s, e)
  {
    match e
    case StartRun(run) => s.(runs := s.runs[run := InProgress])
    case FinishRun(run, success) => s.(runs := s.runs[run := if success then Succeeded else Unsuccessful])
    case FinishBuilder(run, b, success) =>
      s.(builders := s.builders[(run, b) := if success then Succeeded else Unsuccessful])
    case Create(request) =>
      var tag := Desktop(request.build.version);
      if tag in s.store.releases then s
      else
        var release := Release(s.nextRelease, true, Some(request.build.source), request.build.source.commit, map[]);
        s.(store := s.store.(releases := s.store.releases[tag := release]), nextRelease := s.nextRelease + 1)
    case StartUpload(i, request, p, digest, date) =>
      var upload := Upload(request, p, s.store.releases[Desktop(request.build.version)].id, digest, date, 0, false);
      s.(uploads := s.uploads[i := upload])
    case UploadRequest(i) => SendAsset(s, i)
    case AbortUpload(i) => s.(uploads := Drop(s.uploads, i))
    case StartPublish(request) => s.(job := Publishing(request, FindRelease))
    case PublishRequest => PublishStep(s)
    case CrashPublish =>
      var channel := s.job.request.build.channel;
      s.(job := Idle,
         interrupted := if s.job.phase.PostFeed? && channel in s.latest && channel !in Feeds(s.store)
                        then s.interrupted + {channel} else s.interrupted)
  }

  ghost predicate Initial(s: State) {
    && s == State(Store(map[], None), map[], map[], map[], Idle, s.nextRelease, map[], map[], {}, {})
  }

  /** A run: states and the events between them. */
  ghost predicate IsRun(states: seq<State>, events: seq<Event>) {
    && |states| == |events| + 1
    && Initial(states[0])
    && forall i :: 0 <= i < |events| ==> Enabled(states[i], events[i]) && states[i + 1] == Apply(states[i], events[i])
  }

  // ---------------------------------------------------------------------------------------------
  // Invariants
  // ---------------------------------------------------------------------------------------------

  ghost predicate IsFragment(feed: Feed, v: Version, p: Platform) {
    && feed.platforms.Keys == {p}
    && feed.platforms[p].url == Download(Desktop(v), Payload(p, v)) && feed.platforms[p].signature.Some?
  }

  /** Only uploads have filled this release: each fragment describes just its platform's payload here. */
  ghost predicate HonestRelease(tag: Tag, release: Release) {
    && tag.Desktop? && release.marker.Some?
    && forall p :: Fragment(p) in release.assets ==>
         release.assets[Fragment(p)].FeedFile? && IsFragment(release.assets[Fragment(p)].feed, tag.version, p)
  }

  ghost predicate HonestReleases(releases: map<Tag, Release>) {
    forall t :: t in releases ==> HonestRelease(t, releases[t])
  }

  /** A published release was cleared, bears its request's source, and no upload can still touch it. */
  ghost predicate PublishedCleared(releases: map<Tag, Release>, cleared: map<Version, Request>,
                                   runs: map<nat, Status>, builders: map<(nat, Builder), Status>,
                                   uploads: map<nat, Upload>) {
    forall t :: t in releases && !releases[t].draft && t.Desktop? ==>
      && t.version in cleared && Cleared(runs, builders, cleared[t.version])
      && cleared[t.version].build.version == t.version
      && releases[t].marker == Some(cleared[t.version].build.source)
      && !InFlight(uploads, t.version)
  }

  /** The feed is what its published release would be read as now. */
  ghost predicate Settled(releases: map<Tag, Release>, channel: Channel, feed: Feed) {
    && Desktop(feed.version) in releases
    && !releases[Desktop(feed.version)].draft
    && releases[Desktop(feed.version)].marker == Some(feed.source)
    && feed.channel == channel
    && ReadFeed(releases[Desktop(feed.version)], Build(channel, feed.version, feed.source)) == Ok(feed)
  }

  ghost predicate FeedsSettled(releases: map<Tag, Release>, feeds: map<Channel, Feed>) {
    forall c :: c in feeds ==> Settled(releases, c, feeds[c])
  }

  ghost predicate StillDrafts(releases: map<Tag, Release>, candidates: seq<Candidate>) {
    forall c :: c in candidates && c.tag in releases && releases[c.tag].id == c.release.id ==> releases[c.tag].draft
  }

  /** The channel's last feed may be replaced by `build`, so far as no crash lost it. */
  ghost predicate MayAdvance(latest: map<Channel, Feed>, interrupted: set<Channel>, build: Build) {
    build.channel in latest && build.channel !in interrupted ==> Advances(latest[build.channel], build)
  }

  ghost predicate OwnRelease(releases: map<Tag, Release>, build: Build) {
    Desktop(build.version) in releases && releases[Desktop(build.version)].marker == Some(build.source)
  }

  ghost predicate OwnFeed(releases: map<Tag, Release>, build: Build, feed: Feed) {
    OwnRelease(releases, build) && ReadFeed(releases[Desktop(build.version)], build) == Ok(feed)
  }

  /** What each phase of a publication relies on about the releases. */
  ghost predicate ReleasePhase(releases: map<Tag, Release>, build: Build, phase: Phase) {
    match phase
    case FindRelease => true
    case ReadAssets(release) => OwnRelease(releases, build) && release == releases[Desktop(build.version)]
    case ReadChannel(draft, feed) => OwnFeed(releases, build, feed) && draft == releases[Desktop(build.version)].draft
    case Undraft(draft, feed) => OwnFeed(releases, build, feed) && draft == releases[Desktop(build.version)].draft
    case EnsureUpdates(feed) => OwnFeed(releases, build, feed) && !releases[Desktop(build.version)].draft
    case ListChannel(feed) => OwnFeed(releases, build, feed) && !releases[Desktop(build.version)].draft
    case RemoveFeed(feed) => OwnFeed(releases, build, feed) && !releases[Desktop(build.version)].draft
    case PostFeed(feed) => OwnFeed(releases, build, feed) && !releases[Desktop(build.version)].draft
    case ListDrafts => true
    case CheckDraft(candidates) => StillDrafts(releases, candidates)
    case CheckRun(candidates) => StillDrafts(releases, candidates)
    case DeleteDraft(candidates) => StillDrafts(releases, candidates)
    case Published => false
    case Failed(_) => false
  }

  /** What it relies on about its channel. */
  ghost predicate ChannelPhase(updates: Option<map<Channel, Feed>>, latest: map<Channel, Feed>,
                               interrupted: set<Channel>, build: Build, phase: Phase) {
    && (phase.Undraft? || phase.EnsureUpdates? || phase.ListChannel? || phase.RemoveFeed? || phase.PostFeed? ==>
          MayAdvance(latest, interrupted, build))
    && (phase.ListChannel? || phase.RemoveFeed? || phase.PostFeed? ==> updates.Some?)
    && (phase.PostFeed? && updates.Some? ==> build.channel !in updates.value)
  }

  ghost predicate JobSound(s: State) {
    s.job.Publishing? ==>
      && Cleared(s.runs, s.builders, s.job.request) && !InFlight(s.uploads, s.job.request.build.version)
      && ReleasePhase(s.store.releases, s.job.request.build, s.job.phase)
      && ChannelPhase(s.store.updates, s.latest, s.interrupted, s.job.request.build, s.job.phase)
  }

  ghost predicate AtPost(job: Job, channel: Channel) {
    job.Publishing? && job.phase.PostFeed? && job.request.build.channel == channel
  }

  /** A channel's last feed is the one present, unless it is just being replaced or a crash lost it; what a crash
      lost is missing until the channel's next post. */
  ghost predicate LatestSound(store: Store, latest: map<Channel, Feed>, interrupted: set<Channel>, job: Job) {
    && (forall c :: c in Feeds(store) ==> c in latest && latest[c] == Feeds(store)[c])
    && (forall c :: c in latest && c !in Feeds(store) ==> c in interrupted || AtPost(job, c))
    && (forall c :: c in latest ==> latest[c].channel == c)
    && (forall c :: c in interrupted ==> c in latest && c !in Feeds(store))
  }

  /** What the first `u.sent` requests of an upload posted is still there. */
  ghost predicate SoundUpload(releases: map<Tag, Release>, unsettled: set<(Version, Platform)>, u: Upload) {
    var tag := Desktop(u.request.build.version);
    && u.sent < |Plan(u)|
    && (u.sent > 0 || u.removed ==> (u.request.build.version, u.platform) in unsettled)
    && (tag in releases && releases[tag].id == u.release ==>
          forall k :: 0 <= k < u.sent ==>
            Plan(u)[k].0 in releases[tag].assets && releases[tag].assets[Plan(u)[k].0] == Plan(u)[k].1)
  }

  ghost predicate Apart(u: Upload, w: Upload) {
    u.request.build.version != w.request.build.version || u.platform != w.platform
  }

  /** Uploads follow their plans, never two for one platform of a version. */
  ghost predicate UploadsSound(releases: map<Tag, Release>, unsettled: set<(Version, Platform)>,
                               uploads: map<nat, Upload>) {
    && (forall i :: i in uploads ==> SoundUpload(releases, unsettled, uploads[i]))
    && (forall i, j :: i in uploads && j in uploads && i != j ==> Apart(uploads[i], uploads[j]))
  }

  ghost predicate IdsUsed(releases: map<Tag, Release>, uploads: map<nat, Upload>, next: nat) {
    (forall t :: t in releases ==> releases[t].id < next) && (forall i :: i in uploads ==> uploads[i].release < next)
  }

  /** The fragment's signature, the signature file and the payload belong together. */
  ghost predicate Signed(release: Release, v: Version, p: Platform)
    requires Fragment(p) in release.assets && release.assets[Fragment(p)].FeedFile?
    requires IsFragment(release.assets[Fragment(p)].feed, v, p)
  {
    var digest := release.assets[Fragment(p)].feed.platforms[p].signature.value;
    && Payload(p, v) in release.assets && release.assets[Payload(p, v)] == Bytes(digest)
    && Sidecar(Payload(p, v)) in release.assets && release.assets[Sidecar(Payload(p, v))] == SignatureOf(digest)
  }

  ghost predicate SignaturesSound(releases: map<Tag, Release>, unsettled: set<(Version, Platform)>)
    requires HonestReleases(releases)
  {
    forall t, p :: t in releases && Fragment(p) in releases[t].assets && (t.version, p) !in unsettled ==>
      Signed(releases[t], t.version, p)
  }

  ghost predicate Safe(s: State) {
    && HonestReleases(s.store.releases)
    && SignaturesSound(s.store.releases, s.unsettled)
    && PublishedCleared(s.store.releases, s.cleared, s.runs, s.builders, s.uploads)
    && FeedsSettled(s.store.releases, Feeds(s.store))
    && JobSound(s)
    && LatestSound(s.store, s.latest, s.interrupted, s.job)
    && UploadsSound(s.store.releases, s.unsettled, s.uploads)
    && IdsUsed(s.store.releases, s.uploads, s.nextRelease)
  }

  // ---------------------------------------------------------------------------------------------
  // Runs, builders, starting and ending
  // ---------------------------------------------------------------------------------------------

  /** Statuses only become final, so what was cleared stays cleared. */
  lemma StatusStepSafe(s: State, e: Event)
    requires Safe(s) && Enabled(s, e) && (e.StartRun? || e.FinishRun? || e.FinishBuilder?)
    ensures Safe(Apply(s, e))
  {
    var s' := Apply(s, e);
    forall request | Cleared(s.runs, s.builders, request) ensures Cleared(s'.runs, s'.builders, request) {}
  }

  lemma CreateSafe(s: State, request: Request)
    requires Safe(s) && Enabled(s, Create(request))
    ensures Safe(Apply(s, Create(request)))
  {
    var s' := Apply(s, Create(request));
    var tag := Desktop(request.build.version);
    if tag !in s.store.releases {
      CreatedRelease(s, tag, s'.store.releases);
      CreatedElsewhere(s, s', tag);
      hide HonestReleases, SignaturesSound, PublishedCleared, FeedsSettled, JobSound, LatestSound, UploadsSound,
        IdsUsed;
    }
  }

  lemma CreatedElsewhere(s: State, s': State, tag: Tag)
    requires Safe(s) && tag !in s.store.releases && tag.Desktop?
    requires s' == s.(store := s'.store, nextRelease := s'.nextRelease) && s'.store.updates == s.store.updates
    requires tag in s'.store.releases && s'.store.releases == s.store.releases[tag := s'.store.releases[tag]]
    requires s'.store.releases[tag].draft
    ensures JobSound(s') && LatestSound(s'.store, s'.latest, s'.interrupted, s'.job)
  {
    hide HonestReleases, SignaturesSound, PublishedCleared, FeedsSettled, UploadsSound, IdsUsed, Cleared, InFlight,
      ReadFeed;
    if s.job.Publishing? {
      NotThereYet(s.store.releases, tag, s.job.request.build, s.job.phase);
      KeptPhase(s.store.releases, s'.store.releases, tag, s.job.request.build, s.job.phase);
      hide ReleasePhase;
    }
  }

  lemma NotThereYet(releases: map<Tag, Release>, tag: Tag, build: Build, phase: Phase)
    requires ReleasePhase(releases, build, phase) && tag !in releases
    ensures tag != Desktop(build.version) || phase.FindRelease? || Pruning(phase)
  {
    hide ReadFeed;
  }

  lemma CreatedRelease(s: State, tag: Tag, releases: map<Tag, Release>)
    requires Safe(s) && tag !in s.store.releases && tag.Desktop?
    requires tag in releases && releases == s.store.releases[tag := releases[tag]]
    requires releases[tag].draft && releases[tag].marker.Some? && releases[tag].assets == map[]
    requires releases[tag].id == s.nextRelease
    ensures HonestReleases(releases) && SignaturesSound(releases, s.unsettled)
    ensures PublishedCleared(releases, s.cleared, s.runs, s.builders, s.uploads)
    ensures FeedsSettled(releases, Feeds(s.store))
    ensures UploadsSound(releases, s.unsettled, s.uploads)
    ensures IdsUsed(releases, s.uploads, s.nextRelease + 1)
  {
    hide HonestReleases, SignaturesSound, JobSound, LatestSound, UploadsSound, IdsUsed, Cleared, InFlight, Settled,
      ReadFeed;
    CreatedSignatures(s, tag, releases);
    CreatedUploads(s.store.releases, s.unsettled, s.uploads, s.nextRelease, tag, releases);
    forall c | c in Feeds(s.store) ensures Settled(releases, c, Feeds(s.store)[c]) {
      CreatedSettled(s, c, tag, releases);
    }
  }

  lemma CreatedSettled(s: State, c: Channel, tag: Tag, releases: map<Tag, Release>)
    requires FeedsSettled(s.store.releases, Feeds(s.store)) && c in Feeds(s.store)
    requires tag !in s.store.releases && tag in releases && releases == s.store.releases[tag := releases[tag]]
    ensures Settled(releases, c, Feeds(s.store)[c])
  {
    hide ReadFeed;
    assert Settled(s.store.releases, c, Feeds(s.store)[c]);
  }

  /** An upload under way was begun for an earlier release, so it does not touch the new one. */
  lemma CreatedUploads(releases: map<Tag, Release>, unsettled: set<(Version, Platform)>, uploads: map<nat, Upload>,
                       next: nat, tag: Tag, releases': map<Tag, Release>)
    requires UploadsSound(releases, unsettled, uploads) && IdsUsed(releases, uploads, next)
    requires tag in releases' && releases' == releases[tag := releases'[tag]] && releases'[tag].id == next
    ensures UploadsSound(releases', unsettled, uploads) && IdsUsed(releases', uploads, next + 1)
  {
    hide UploadPlan;
    forall j | j in uploads ensures SoundUpload(releases', unsettled, uploads[j]) {
      assert SoundUpload(releases, unsettled, uploads[j]);
    }
  }

  lemma CreatedSignatures(s: State, tag: Tag, releases: map<Tag, Release>)
    requires Safe(s) && tag !in s.store.releases && tag.Desktop?
    requires tag in releases && releases == s.store.releases[tag := releases[tag]]
    requires releases[tag].marker.Some? && releases[tag].assets == map[]
    ensures HonestReleases(releases) && SignaturesSound(releases, s.unsettled)
  {
    hide PublishedCleared, FeedsSettled, JobSound, LatestSound, UploadsSound, IdsUsed;
    forall t, p | t in releases && Fragment(p) in releases[t].assets && (t.version, p) !in s.unsettled
      ensures HonestReleases(releases) && Signed(releases[t], t.version, p)
    {
      assert Signed(s.store.releases[t], t.version, p);
    }
  }

  /** Adding or changing the draft `tag` disturbs no feed and no publication of another version. */
  lemma KeptReleases(s: State, s': State, tag: Tag)
    requires Safe(s) && tag.Desktop? && !PublishingVersionStarted(s.job, tag.version)
    requires tag in s.store.releases ==> s.store.releases[tag].draft
    requires tag in s'.store.releases && s'.store.releases == s.store.releases[tag := s'.store.releases[tag]]
    requires s'.store.releases[tag].draft && s'.store.updates == s.store.updates
    requires s'.job == s.job && s'.latest == s.latest && s'.interrupted == s.interrupted
    requires s'.cleared == s.cleared && s'.runs == s.runs && s'.builders == s.builders
    requires forall v :: InFlight(s'.uploads, v) ==> InFlight(s.uploads, v)
    ensures PublishedCleared(s'.store.releases, s'.cleared, s'.runs, s'.builders, s'.uploads)
    ensures FeedsSettled(s'.store.releases, Feeds(s'.store)) && JobSound(s')
  {
    hide HonestReleases, SignaturesSound, LatestSound, UploadsSound, IdsUsed, Cleared, ReadFeed, Advances;
    assert FeedsSettled(s'.store.releases, Feeds(s'.store)) by {
      forall c | c in Feeds(s'.store) ensures Settled(s'.store.releases, c, Feeds(s'.store)[c]) {
        assert Settled(s.store.releases, c, Feeds(s.store)[c]);
        assert Desktop(Feeds(s.store)[c].version) != tag;
      }
    }
    if s.job.Publishing? {
      KeptPhase(s.store.releases, s'.store.releases, tag, s.job.request.build, s.job.phase);
    }
  }

  /** The publication of this version has got past finding its release. */
  predicate PublishingVersionStarted(job: Job, v: Version) {
    PublishingVersion(job, v) && !job.phase.FindRelease? && !Pruning(job.phase)
  }

  predicate Pruning(phase: Phase) {
    phase.ListDrafts? || phase.CheckDraft? || phase.CheckRun? || phase.DeleteDraft?
  }

  lemma KeptPhase(releases: map<Tag, Release>, releases': map<Tag, Release>, tag: Tag, build: Build, phase: Phase)
    requires tag in releases' && releases' == releases[tag := releases'[tag]] && releases'[tag].draft
    requires ReleasePhase(releases, build, phase)
    requires tag != Desktop(build.version) || phase.FindRelease? || Pruning(phase)
    ensures ReleasePhase(releases', build, phase)
  {}

  lemma StartUploadSafe(s: State, e: Event)
    requires Safe(s) && e.StartUpload? && Enabled(s, e)
    ensures Safe(Apply(s, e))
  {
    StartedUploads(s, e);
    StartedElsewhere(s, e);
    hide HonestReleases, SignaturesSound, PublishedCleared, FeedsSettled, JobSound, LatestSound, UploadsSound, IdsUsed;
  }

  lemma StartedUploads(s: State, e: Event)
    requires Safe(s) && e.StartUpload? && Enabled(s, e)
    ensures var s' := Apply(s, e);
            && UploadsSound(s.store.releases, s.unsettled, s'.uploads)
            && IdsUsed(s.store.releases, s'.uploads, s.nextRelease)
  {
    hide HonestReleases, SignaturesSound, PublishedCleared, FeedsSettled, JobSound, LatestSound, UploadPlan;
    var s' := Apply(s, e);
    assert |Plan(s'.uploads[e.upload])| > 0 by { PlanIsLong(s'.uploads[e.upload]); }
    forall j | j in s'.uploads ensures SoundUpload(s.store.releases, s.unsettled, s'.uploads[j]) {
      if j != e.upload { assert SoundUpload(s.store.releases, s.unsettled, s.uploads[j]); }
    }
    forall i, j | i in s'.uploads && j in s'.uploads && i != j ensures Apart(s'.uploads[i], s'.uploads[j]) {
      if i != e.upload && j != e.upload { assert Apart(s.uploads[i], s.uploads[j]); }
    }
  }

  lemma PlanIsLong(u: Upload)
    ensures |Plan(u)| > 2
  {}

  /** An upload starts only for a draft that is not being published. */
  lemma StartedElsewhere(s: State, e: Event)
    requires Safe(s) && e.StartUpload? && Enabled(s, e)
    ensures var s' := Apply(s, e);
            PublishedCleared(s.store.releases, s.cleared, s.runs, s.builders, s'.uploads) && JobSound(s')
  {
    hide HonestReleases, SignaturesSound, FeedsSettled, LatestSound, UploadsSound, IdsUsed, Cleared, ReleasePhase,
      ChannelPhase;
    var s' := Apply(s, e);
    forall w | InFlight(s'.uploads, w) && w != e.request.build.version ensures InFlight(s.uploads, w) {
      var j :| j in s'.uploads && s'.uploads[j].request.build.version == w;
      assert j in s.uploads && s.uploads[j] == s'.uploads[j];
    }
  }

  lemma EndedUpload(s: State, i: nat)
    requires i in s.uploads
    ensures forall v :: InFlight(Drop(s.uploads, i), v) ==> InFlight(s.uploads, v)
    ensures UploadsSound(s.store.releases, s.unsettled, s.uploads) ==>
              UploadsSound(s.store.releases, s.unsettled, Drop(s.uploads, i))
  {
    forall v | InFlight(Drop(s.uploads, i), v) ensures InFlight(s.uploads, v) {
      var j :| j in Drop(s.uploads, i) && Drop(s.uploads, i)[j].request.build.version == v;
      assert j in s.uploads && s.uploads[j].request.build.version == v;
    }
  }

  lemma AbortUploadSafe(s: State, i: nat)
    requires Safe(s) && i in s.uploads
    ensures Safe(Apply(s, AbortUpload(i)))
  {
    EndedUpload(s, i);
  }

  lemma JobBoundarySafe(s: State, e: Event)
    requires Safe(s) && Enabled(s, e) && (e.StartPublish? || e.CrashPublish?)
    ensures Safe(Apply(s, e))
  {
    hide HonestReleases, SignaturesSound, PublishedCleared, FeedsSettled, UploadsSound, IdsUsed, Cleared, InFlight,
      SendAsset, PublishStep, Advances, OwnFeed, StillDrafts;
  }

  // ---------------------------------------------------------------------------------------------
  // Upload requests
  // ---------------------------------------------------------------------------------------------

  lemma PlanNames(u: Upload, k: nat)
    requires k < |Plan(u)|
    ensures var (name, content) := Plan(u)[k];
            && NameFor(name, u.request.build.version, u.platform)
            && (name == Fragment(u.platform) <==> k + 1 == |Plan(u)|)
            && (name == Fragment(u.platform) ==>
                  content.FeedFile? && IsFragment(content.feed, u.request.build.version, u.platform)
                  && content.feed.platforms[u.platform].signature == Some(u.digest))
  {}

  predicate NameFor(name: AssetName, v: Version, p: Platform) {
    name == Payload(p, v) || name == Sidecar(Payload(p, v)) || name == Installer(p, v) || name == Fragment(p)
  }

  lemma DistinctPlanNames(u: Upload, j: nat, k: nat)
    requires j < |Plan(u)| && k < |Plan(u)| && j != k
    ensures Plan(u)[j].0 != Plan(u)[k].0
  {}

  ghost predicate Posted(assets: map<AssetName, Content>, u: Upload, n: nat)
    requires n <= |Plan(u)|
  {
    forall k :: 0 <= k < n ==> Plan(u)[k].0 in assets && assets[Plan(u)[k].0] == Plan(u)[k].1
  }

  /** A request leaves other platforms' assets alone and keeps what its upload has posted. */
  lemma SendSound(assets: map<AssetName, Content>, u: Upload)
    requires u.sent < |Plan(u)| && Posted(assets, u, u.sent)
    ensures var sent := Send(assets, u);
            && (forall name, p :: NameFor(name, u.request.build.version, p) && p != u.platform ==>
                  (name in sent.assets <==> name in assets) && (name in assets ==> sent.assets[name] == assets[name]))
            && (sent.upload.Some? ==>
                  && sent.upload.value == u.(sent := sent.upload.value.sent, removed := sent.upload.value.removed)
                  && sent.upload.value.sent < |Plan(u)| && Posted(sent.assets, u, sent.upload.value.sent))
            && (sent.complete ==> Posted(sent.assets, u, |Plan(u)|))
  {
    PlanNames(u, u.sent);
    forall k | 0 <= k < u.sent ensures Plan(u)[k].0 != Plan(u)[u.sent].0 { DistinctPlanNames(u, k, u.sent); }
  }

  lemma SentHonest(tag: Tag, release: Release, u: Upload)
    requires HonestRelease(tag, release) && tag == Desktop(u.request.build.version) && u.sent < |Plan(u)|
    ensures HonestRelease(tag, release.(assets := Send(release.assets, u).assets))
  {
    PlanNames(u, u.sent);
  }

  lemma SentSigned(release: Release, u: Upload, p: Platform)
    requires HonestRelease(Desktop(u.request.build.version), release)
    requires u.sent < |Plan(u)| && Posted(release.assets, u, u.sent)
    requires var sent := Send(release.assets, u);
             Fragment(p) in sent.assets && (p == u.platform ==> sent.complete)
    requires Fragment(p) in release.assets && p != u.platform ==> Signed(release, u.request.build.version, p)
    ensures HonestRelease(Desktop(u.request.build.version), release.(assets := Send(release.assets, u).assets))
    ensures Signed(release.(assets := Send(release.assets, u).assets), u.request.build.version, p)
  {
    SentHonest(Desktop(u.request.build.version), release, u);
    SendSound(release.assets, u);
    var v := u.request.build.version;
    if p == u.platform {
      PlanNames(u, |Plan(u)| - 1);
      assert Plan(u)[0] == (Payload(p, v), Bytes(u.digest));
      assert Plan(u)[1] == (Sidecar(Payload(p, v)), SignatureOf(u.digest));
    } else {
      assert NameFor(Fragment(p), v, p) && NameFor(Payload(p, v), v, p) && NameFor(Sidecar(Payload(p, v)), v, p);
    }
  }

  /** Where `SendAsset` finds its release, and what it makes of it. */
  ghost predicate Sending(releases: map<Tag, Release>, u: Upload) {
    var tag := Desktop(u.request.build.version);
    tag in releases && releases[tag].id == u.release && u.sent < |Plan(u)|
  }

  ghost function SentReleases(releases: map<Tag, Release>, u: Upload): map<Tag, Release>
    requires Sending(releases, u)
  {
    var tag := Desktop(u.request.build.version);
    releases[tag := releases[tag].(assets := Send(releases[tag].assets, u).assets)]
  }

  ghost function SentUnsettled(releases: map<Tag, Release>, unsettled: set<(Version, Platform)>, u: Upload)
    : set<(Version, Platform)>
    requires Sending(releases, u)
  {
    if Send(releases[Desktop(u.request.build.version)].assets, u).complete
    then unsettled - {(u.request.build.version, u.platform)} else unsettled + {(u.request.build.version, u.platform)}
  }

  lemma SentReleasesSound(releases: map<Tag, Release>, unsettled: set<(Version, Platform)>, u: Upload)
    requires HonestReleases(releases) && SignaturesSound(releases, unsettled)
    requires SoundUpload(releases, unsettled, u) && Sending(releases, u)
    ensures HonestReleases(SentReleases(releases, u))
    ensures SignaturesSound(SentReleases(releases, u), SentUnsettled(releases, unsettled, u))
  {
    var tag := Desktop(u.request.build.version);
    var releases', unsettled' := SentReleases(releases, u), SentUnsettled(releases, unsettled, u);
    SentHonest(tag, releases[tag], u);
    SendSound(releases[tag].assets, u);
    forall t | t in releases' ensures HonestRelease(t, releases'[t]) {
      assert t != tag ==> releases'[t] == releases[t];
    }
    forall t, p | t in releases' && Fragment(p) in releases'[t].assets && (t.version, p) !in unsettled'
      ensures Signed(releases'[t], t.version, p)
    {
      if t != tag {
        assert releases'[t] == releases[t] && (t.version, p) !in unsettled;
      } else {
        if p != u.platform {
          assert NameFor(Fragment(p), u.request.build.version, p);
          assert (t.version, p) !in unsettled && Signed(releases[t], t.version, p);
        }
        SentSigned(releases[t], u, p);
      }
    }
  }

  lemma SentUploadsSound(releases: map<Tag, Release>, unsettled: set<(Version, Platform)>, uploads: map<nat, Upload>,
                         i: nat, next: nat)
    requires UploadsSound(releases, unsettled, uploads) && IdsUsed(releases, uploads, next)
    requires i in uploads && Sending(releases, uploads[i])
    ensures var u := uploads[i];
            var uploads' := Continue(uploads, i, Send(releases[Desktop(u.request.build.version)].assets, u).upload);
            && UploadsSound(SentReleases(releases, u), SentUnsettled(releases, unsettled, u), uploads')
            && IdsUsed(SentReleases(releases, u), uploads', next)
            && (forall j :: j in uploads' ==> j in uploads && uploads'[j].request == uploads[j].request)
  {
    var u := uploads[i];
    var tag := Desktop(u.request.build.version);
    var releases', unsettled' := SentReleases(releases, u), SentUnsettled(releases, unsettled, u);
    var sent := Send(releases[tag].assets, u);
    var uploads' := Continue(uploads, i, sent.upload);
    assert SoundUpload(releases, unsettled, u);
    SendSound(releases[tag].assets, u);
    forall j | j in uploads'
      ensures SoundUpload(releases', unsettled', uploads'[j])
      ensures j in uploads && uploads'[j].request == uploads[j].request && uploads'[j].platform == uploads[j].platform
      ensures uploads'[j].release == uploads[j].release
    {
      if j != i {
        assert uploads'[j] == uploads[j] && Apart(u, uploads[j]);
        SendSparesOthers(releases, unsettled, u, uploads[j]);
      } else {
        ContinuedUpload(releases, unsettled, u);
      }
    }
    forall j, k | j in uploads' && k in uploads' && j != k ensures Apart(uploads'[j], uploads'[k]) {
      assert Apart(uploads[j], uploads[k]);
    }
  }

  lemma ContinuedUpload(releases: map<Tag, Release>, unsettled: set<(Version, Platform)>, u: Upload)
    requires SoundUpload(releases, unsettled, u) && Sending(releases, u)
    requires Send(releases[Desktop(u.request.build.version)].assets, u).upload.Some?
    ensures var upload := Send(releases[Desktop(u.request.build.version)].assets, u).upload.value;
            SoundUpload(SentReleases(releases, u), SentUnsettled(releases, unsettled, u), upload)
  {
    var tag := Desktop(u.request.build.version);
    SendSound(releases[tag].assets, u);
    var sent := Send(releases[tag].assets, u);
    assert Plan(sent.upload.value) == Plan(u) && Posted(sent.assets, u, sent.upload.value.sent);
  }

  lemma SendSparesOthers(releases: map<Tag, Release>, unsettled: set<(Version, Platform)>, u: Upload, w: Upload)
    requires Apart(u, w) && Sending(releases, u)
    requires SoundUpload(releases, unsettled, u) && SoundUpload(releases, unsettled, w)
    ensures SoundUpload(SentReleases(releases, u), SentUnsettled(releases, unsettled, u), w)
  {
    var tag := Desktop(u.request.build.version);
    SendSound(releases[tag].assets, u);
    if w.request.build.version == u.request.build.version && releases[tag].id == w.release {
      forall k | 0 <= k < w.sent
        ensures NameFor(Plan(w)[k].0, u.request.build.version, w.platform)
      {
        PlanNames(w, k);
      }
    }
  }

  lemma SendAssetFeeds(s: State, i: nat)
    requires Safe(s) && i in s.uploads && Sending(s.store.releases, s.uploads[i])
    requires forall j :: j in SendAsset(s, i).uploads ==>
               j in s.uploads && SendAsset(s, i).uploads[j].request == s.uploads[j].request
    ensures var s' := SendAsset(s, i);
            && PublishedCleared(s'.store.releases, s'.cleared, s'.runs, s'.builders, s'.uploads)
            && FeedsSettled(s'.store.releases, Feeds(s'.store)) && JobSound(s')
            && LatestSound(s'.store, s'.latest, s'.interrupted, s'.job)
  {
    var s' := SendAsset(s, i);
    assert InFlight(s.uploads, s.uploads[i].request.build.version);
    forall v | InFlight(s'.uploads, v) ensures InFlight(s.uploads, v) {
      var j :| j in s'.uploads && s'.uploads[j].request.build.version == v;
      assert j in s.uploads && s.uploads[j].request == s'.uploads[j].request;
    }
    KeptReleases(s, s', Desktop(s.uploads[i].request.build.version));
  }

  lemma SentState(s: State, i: nat)
    requires i in s.uploads && Sending(s.store.releases, s.uploads[i])
    ensures var u, releases := s.uploads[i], s.store.releases;
            var sent := Send(releases[Desktop(u.request.build.version)].assets, u);
            SendAsset(s, i) == s.(store := s.store.(releases := SentReleases(releases, u)),
                                  uploads := Continue(s.uploads, i, sent.upload),
                                  unsettled := SentUnsettled(releases, s.unsettled, u))
  {
    hide Send, UploadPlan;
  }

  lemma SentAssetSafe(s: State, i: nat)
    requires Safe(s) && i in s.uploads && Sending(s.store.releases, s.uploads[i])
    ensures Safe(SendAsset(s, i))
  {
    hide HonestReleases, SignaturesSound, PublishedCleared, FeedsSettled, JobSound, LatestSound, IdsUsed, Send,
      SendAsset, SoundUpload, UploadPlan, SentReleases, SentUnsettled, Continue;
    assert SoundUpload(s.store.releases, s.unsettled, s.uploads[i]);
    hide UploadsSound;
    SentState(s, i);
    SentReleasesSound(s.store.releases, s.unsettled, s.uploads[i]);
    SentUploadsSound(s.store.releases, s.unsettled, s.uploads, i, s.nextRelease);
    SendAssetFeeds(s, i);
  }

  lemma SendAssetSafe(s: State, i: nat)
    requires Safe(s) && i in s.uploads
    ensures Safe(SendAsset(s, i))
  {
    if Sending(s.store.releases, s.uploads[i]) {
      SentAssetSafe(s, i);
    } else {
      EndedUpload(s, i);
    }
  }

  // ---------------------------------------------------------------------------------------------
  // Publication requests
  // ---------------------------------------------------------------------------------------------

  /** A publication's request that leaves the releases alone keeps everything that only they bear on. */
  lemma SameReleasesSafe(s: State, s': State)
    requires Safe(s)
    requires s' == s.(store := s'.store, job := s'.job, latest := s'.latest, interrupted := s'.interrupted)
    requires s'.store.releases == s.store.releases && FeedsSettled(s'.store.releases, Feeds(s'.store))
    requires JobSound(s') && LatestSound(s'.store, s'.latest, s'.interrupted, s'.job)
    ensures Safe(s')
  {
    hide HonestReleases, SignaturesSound, PublishedCleared, FeedsSettled, JobSound, LatestSound, UploadsSound, IdsUsed;
  }

  /** A request that leaves the channels alone. */
  lemma QuietLatest(store: Store, store': Store, latest: map<Channel, Feed>, interrupted: set<Channel>, job: Job,
                    next: Job)
    requires LatestSound(store, latest, interrupted, job) && !(job.Publishing? && job.phase.PostFeed?)
    requires store'.updates == store.updates
    ensures LatestSound(store', latest, interrupted, next)
  {}

  lemma UndraftSafe(s: State)
    requires Safe(s) && s.job.Publishing? && s.job.phase.Undraft?
    ensures Safe(PublishStep(s))
  {
    var build := s.job.request.build;
    UndraftStep(s);
    UndraftedReleases(s, Desktop(build.version), build);
    UndraftedFeeds(s, Desktop(build.version), build);
    hide HonestReleases, SignaturesSound, PublishedCleared, FeedsSettled, JobSound, LatestSound, UploadsSound, IdsUsed,
      Step;
  }

  lemma UndraftStep(s: State)
    requires Safe(s) && s.job.Publishing? && s.job.phase.Undraft?
    ensures var s', build := PublishStep(s), s.job.request.build;
            var tag := Desktop(build.version);
            && OwnRelease(s.store.releases, build)
            && s' == s.(store := s'.store, job := s'.job, cleared := s.cleared[build.version := s.job.request])
            && s'.store == s.store.(releases := s.store.releases[tag := s.store.releases[tag].(draft := false)])
            && JobSound(s') && LatestSound(s'.store, s'.latest, s'.interrupted, s'.job)
  {
    hide HonestReleases, SignaturesSound, PublishedCleared, FeedsSettled, UploadsSound, IdsUsed, ReleasePhase, Cleared,
      MayAdvance, PublishStep, Step, InFlight, LatestSound;
    var build, phase := s.job.request.build, s.job.phase;
    UndraftState(s);
    UndraftedPhase(s.store.releases, build, phase.draft, phase.feed);
    QuietLatest(s.store, PublishStep(s).store, s.latest, s.interrupted, s.job, PublishStep(s).job);
  }

  lemma UndraftedPhase(releases: map<Tag, Release>, build: Build, draft: bool, feed: Feed)
    requires ReleasePhase(releases, build, Undraft(draft, feed))
    ensures Desktop(build.version) in releases
    ensures var tag := Desktop(build.version);
            ReleasePhase(releases[tag := releases[tag].(draft := false)], build, EnsureUpdates(feed))
  {
    hide ReadFeed;
    DraftDoesNotMatter(releases[Desktop(build.version)], build, false);
  }

  lemma UndraftState(s: State)
    requires JobSound(s) && s.job.Publishing? && s.job.phase.Undraft?
    ensures var build, feed := s.job.request.build, s.job.phase.feed;
            var tag := Desktop(build.version);
            && OwnRelease(s.store.releases, build)
            && var releases := s.store.releases[tag := s.store.releases[tag].(draft := false)];
               PublishStep(s) == s.(store := s.store.(releases := releases),
                                    cleared := s.cleared[build.version := s.job.request],
                                    job := Publishing(s.job.request, EnsureUpdates(feed)))
  {
    hide Cleared, InFlight, ReadFeed, ChannelPhase;
    var tag := Desktop(s.job.request.build.version);
    var release := s.store.releases[tag];
    if !release.draft { assert s.store.releases[tag := release.(draft := false)] == s.store.releases; }
  }

  lemma UndraftedReleases(s: State, tag: Tag, build: Build)
    requires Safe(s) && s.job.Publishing? && build == s.job.request.build && tag == Desktop(build.version)
    requires OwnRelease(s.store.releases, build)
    ensures var releases := s.store.releases[tag := s.store.releases[tag].(draft := false)];
            && HonestReleases(releases) && SignaturesSound(releases, s.unsettled)
            && UploadsSound(releases, s.unsettled, s.uploads) && IdsUsed(releases, s.uploads, s.nextRelease)
  {
    hide PublishedCleared, FeedsSettled, JobSound, LatestSound, ReadFeed;
    var release := s.store.releases[tag];
    var releases := s.store.releases[tag := release.(draft := false)];
    assert HonestRelease(tag, release);
    assert HonestReleases(releases);
    forall t, p | t in releases && Fragment(p) in releases[t].assets && (t.version, p) !in s.unsettled
      ensures Signed(releases[t], t.version, p)
    {
      assert Signed(s.store.releases[t], t.version, p);
    }
    forall j | j in s.uploads ensures SoundUpload(releases, s.unsettled, s.uploads[j]) {
      assert SoundUpload(s.store.releases, s.unsettled, s.uploads[j]);
    }
  }

  lemma UndraftedFeeds(s: State, tag: Tag, build: Build)
    requires Safe(s) && s.job.Publishing? && build == s.job.request.build && tag == Desktop(build.version)
    requires OwnRelease(s.store.releases, build)
    ensures var releases := s.store.releases[tag := s.store.releases[tag].(draft := false)];
            && PublishedCleared(releases, s.cleared[build.version := s.job.request], s.runs, s.builders, s.uploads)
            && FeedsSettled(releases, Feeds(s.store))
  {
    hide HonestReleases, SignaturesSound, LatestSound, UploadsSound, IdsUsed, ReadFeed, Cleared, Feeds;
    var releases := s.store.releases[tag := s.store.releases[tag].(draft := false)];
    forall c | c in Feeds(s.store) ensures Settled(releases, c, Feeds(s.store)[c]) {
      assert Settled(s.store.releases, c, Feeds(s.store)[c]);
      if Desktop(Feeds(s.store)[c].version) == tag { assert releases == s.store.releases; }
    }
  }

  lemma ChannelStepJob(s: State)
    requires JobSound(s) && LatestSound(s.store, s.latest, s.interrupted, s.job) && s.job.Publishing?
    requires s.job.phase.EnsureUpdates? || s.job.phase.ListChannel? || s.job.phase.RemoveFeed?
    ensures var s' := PublishStep(s);
            && s' == s.(store := s'.store, job := s'.job) && s'.store.releases == s.store.releases && JobSound(s')
            && LatestSound(s'.store, s'.latest, s'.interrupted, s'.job)
    ensures forall c :: c in Feeds(PublishStep(s).store) ==>
              c in Feeds(s.store) && Feeds(PublishStep(s).store)[c] == Feeds(s.store)[c]
  {
    hide Cleared, InFlight, Advances, ReadFeed, ChannelCheck, DraftListing, Abandoned, Superseded, Unchanged,
      StillDrafts, LatestSound;
    ShrunkLatest(s.store, PublishStep(s).store, s.latest, s.interrupted, s.job, PublishStep(s).job);
  }

  /** A request that leaves the channels alone, or takes down the feed that is posted next. */
  lemma ShrunkLatest(store: Store, store': Store, latest: map<Channel, Feed>, interrupted: set<Channel>, job: Job,
                     next: Job)
    requires LatestSound(store, latest, interrupted, job) && job.Publishing? && !job.phase.PostFeed?
    requires || Feeds(store') == Feeds(store)
             || (Feeds(store') == Feeds(store) - {job.request.build.channel} && AtPost(next, job.request.build.channel))
    ensures LatestSound(store', latest, interrupted, next)
  {}

  lemma ChannelStepSafe(s: State)
    requires Safe(s) && s.job.Publishing?
    requires s.job.phase.EnsureUpdates? || s.job.phase.ListChannel? || s.job.phase.RemoveFeed?
    ensures Safe(PublishStep(s))
  {
    hide HonestReleases, SignaturesSound, PublishedCleared, JobSound, LatestSound, UploadsSound, IdsUsed, FeedsSettled,
      Step, PublishStep;
    ChannelStepJob(s);
    FeedsShrink(s, Feeds(PublishStep(s).store));
    SameReleasesSafe(s, PublishStep(s));
  }

  lemma FeedsShrink(s: State, feeds: map<Channel, Feed>)
    requires Safe(s) && forall c :: c in feeds ==> c in Feeds(s.store) && feeds[c] == Feeds(s.store)[c]
    ensures FeedsSettled(s.store.releases, feeds)
  {
    forall c | c in feeds ensures Settled(s.store.releases, c, feeds[c]) {
      assert Settled(s.store.releases, c, Feeds(s.store)[c]);
    }
  }

  lemma PostFeedStep(s: State)
    requires s.job.Publishing? && s.job.phase.PostFeed? && s.store.updates.Some?
    requires s.job.request.build.channel !in s.store.updates.value
    ensures var channel, feed := s.job.request.build.channel, s.job.phase.feed;
            PublishStep(s) == s.(store := s.store.(updates := Some(s.store.updates.value[channel := feed])),
                                 job := Publishing(s.job.request, ListDrafts), latest := s.latest[channel := feed],
                                 interrupted := s.interrupted - {channel})
  {}

  lemma PostFeedJob(s: State)
    requires Safe(s) && s.job.Publishing? && s.job.phase.PostFeed?
    ensures var s', channel, feed := PublishStep(s), s.job.request.build.channel, s.job.phase.feed;
            && s' == s.(store := s'.store, job := s'.job, latest := s'.latest, interrupted := s'.interrupted)
            && s'.store.releases == s.store.releases
            && JobSound(s') && LatestSound(s'.store, s'.latest, s'.interrupted, s'.job)
            && Feeds(s'.store) == Feeds(s.store)[channel := feed] && Settled(s.store.releases, channel, feed)
  {
    hide PublishStep, Step, HonestReleases, SignaturesSound, PublishedCleared, FeedsSettled, UploadsSound, IdsUsed,
      Cleared, InFlight, LatestSound, Settled;
    var build, feed := s.job.request.build, s.job.phase.feed;
    PostedFeed(s);
    PostFeedStep(s);
    PostedLatest(s.store, s.latest, s.interrupted, s.job, build.channel, feed, PublishStep(s).job);
    hide OwnFeed;
  }

  lemma PostedFeed(s: State)
    requires JobSound(s) && s.job.Publishing? && s.job.phase.PostFeed?
    ensures s.store.updates.Some? && s.job.request.build.channel !in s.store.updates.value
    ensures s.job.phase.feed.channel == s.job.request.build.channel
    ensures Settled(s.store.releases, s.job.request.build.channel, s.job.phase.feed)
  {
    hide Cleared, InFlight, Advances;
    var build := s.job.request.build;
    ReadFeedComplete(s.store.releases[Desktop(build.version)], build);
    hide ReadFeed;
    assert Build(build.channel, s.job.phase.feed.version, s.job.phase.feed.source) == build;
  }

  lemma PostedLatest(store: Store, latest: map<Channel, Feed>, interrupted: set<Channel>, job: Job, channel: Channel,
                     feed: Feed, next: Job)
    requires LatestSound(store, latest, interrupted, job) && store.updates.Some? && feed.channel == channel
    requires job.Publishing? && job.request.build.channel == channel
    ensures LatestSound(store.(updates := Some(store.updates.value[channel := feed])), latest[channel := feed],
                        interrupted - {channel}, next)
  {}

  lemma PostFeedSafe(s: State)
    requires Safe(s) && s.job.Publishing? && s.job.phase.PostFeed?
    ensures Safe(PublishStep(s))
  {
    hide PublishStep, Step, ReadFeed, JobSound, LatestSound;
    var s' := PublishStep(s);
    PostFeedJob(s);
    forall c | c in Feeds(s'.store) ensures Settled(s'.store.releases, c, Feeds(s'.store)[c]) {
      if c != s.job.request.build.channel { assert Settled(s.store.releases, c, Feeds(s.store)[c]); }
    }
    SameReleasesSafe(s, s');
  }

  /** Requests that only read. */
  predicate Reading(phase: Phase) {
    || phase.FindRelease? || phase.ReadAssets? || phase.ReadChannel?
    || phase.ListDrafts? || phase.CheckDraft? || phase.CheckRun?
  }

  lemma ReadStepReleases(store: Store, build: Build, runs: map<nat, Run>, phase: Phase)
    requires Reading(phase) && ReleasePhase(store.releases, build, phase)
    ensures var next := Step(store, build, runs, phase);
            next.0 == store && (Terminal(next.1) || ReleasePhase(store.releases, build, next.1))
  {
    hide ReadFeed, ChannelCheck, Abandoned, Unchanged, Superseded;
    if phase.CheckDraft? || phase.CheckRun? {
      var candidates := phase.candidates;
      assert |candidates| > 0 ==> forall c :: c in candidates[1..] ==> c in candidates;
    }
  }

  /** Where a publication that has passed its checks goes on. */
  lemma ReadStepNext(store: Store, build: Build, runs: map<nat, Run>, phase: Phase)
    requires Reading(phase)
    ensures var next := Step(store, build, runs, phase).1;
            && !next.EnsureUpdates? && !next.ListChannel? && !next.RemoveFeed? && !next.PostFeed?
            && (next.Undraft? ==> ChannelCheck(store.updates, build).Ok?)
  {
    hide ReadFeed, ChannelCheck, Abandoned, Unchanged, Superseded, DraftListing;
  }

  lemma CheckedMayAdvance(store: Store, latest: map<Channel, Feed>, interrupted: set<Channel>, job: Job, build: Build)
    requires LatestSound(store, latest, interrupted, job) && !(job.Publishing? && job.phase.PostFeed?)
    requires ChannelCheck(store.updates, build).Ok?
    ensures MayAdvance(latest, interrupted, build)
  {
    hide Advances, ValidFeed;
  }

  lemma ReadStepJob(s: State)
    requires JobSound(s) && LatestSound(s.store, s.latest, s.interrupted, s.job)
    requires s.job.Publishing? && Reading(s.job.phase)
    ensures var s' := PublishStep(s);
            && s' == s.(store := s'.store, job := s'.job) && s'.store == s.store && JobSound(s')
            && LatestSound(s'.store, s'.latest, s'.interrupted, s'.job)
  {
    var build, phase := s.job.request.build, s.job.phase;
    ReadStepReleases(s.store, build, RunsView(s.runs), phase);
    ReadStepNext(s.store, build, RunsView(s.runs), phase);
    if ChannelCheck(s.store.updates, build).Ok? {
      CheckedMayAdvance(s.store, s.latest, s.interrupted, s.job, build);
    }
    hide Cleared, InFlight, LatestSound, Step, ReleasePhase, ChannelCheck, MayAdvance;
    QuietLatest(s.store, s.store, s.latest, s.interrupted, s.job, PublishStep(s).job);
  }

  lemma ReadStepSafe(s: State)
    requires Safe(s) && s.job.Publishing? && Reading(s.job.phase)
    ensures Safe(PublishStep(s))
  {
    hide HonestReleases, SignaturesSound, PublishedCleared, FeedsSettled, JobSound, LatestSound, UploadsSound, IdsUsed,
      PublishStep, Reading;
    ReadStepJob(s);
    SameReleasesSafe(s, PublishStep(s));
  }

  /** Pruning can only delete drafts, so it touches no feed's release. */
  lemma DeleteDraftSafe(s: State)
    requires Safe(s) && s.job.Publishing? && s.job.phase.DeleteDraft?
    ensures Safe(PublishStep(s))
  {
    DeleteDraftJob(s);
    DraftsRemoved(s, PublishStep(s).store.releases);
    hide HonestReleases, SignaturesSound, PublishedCleared, FeedsSettled, JobSound, LatestSound, UploadsSound, IdsUsed,
      PublishStep;
  }

  lemma DeleteDraftStep(store: Store, build: Build, runs: map<nat, Run>, phase: Phase)
    requires phase.DeleteDraft? && StillDrafts(store.releases, phase.candidates)
    ensures var (after, next) := Step(store, build, runs, phase);
            && after.updates == store.updates
            && (Terminal(next) || (next.CheckDraft? && StillDrafts(after.releases, next.candidates)))
            && (forall t :: t in after.releases ==> t in store.releases && after.releases[t] == store.releases[t])
            && (forall t :: t in store.releases && !store.releases[t].draft ==> t in after.releases)
  {
    var candidates := phase.candidates;
    assert candidates != [] ==> candidates[0] in candidates;
    assert |candidates| > 0 ==> forall c :: c in candidates[1..] ==> c in candidates;
  }

  lemma DeleteDraftJob(s: State)
    requires JobSound(s) && LatestSound(s.store, s.latest, s.interrupted, s.job)
    requires s.job.Publishing? && s.job.phase.DeleteDraft?
    ensures var s' := PublishStep(s);
            && s' == s.(store := s'.store, job := s'.job) && JobSound(s')
            && LatestSound(s'.store, s'.latest, s'.interrupted, s'.job) && Feeds(s'.store) == Feeds(s.store)
            && (forall t :: t in s'.store.releases ==>
                  t in s.store.releases && s'.store.releases[t] == s.store.releases[t])
            && (forall t :: t in s.store.releases && !s.store.releases[t].draft ==> t in s'.store.releases)
  {
    hide Cleared, InFlight, Step, StillDrafts, LatestSound;
    DeleteDraftStep(s.store, s.job.request.build, RunsView(s.runs), s.job.phase);
    QuietLatest(s.store, PublishStep(s).store, s.latest, s.interrupted, s.job, PublishStep(s).job);
  }

  lemma DraftsRemoved(s: State, releases: map<Tag, Release>)
    requires Safe(s)
    requires forall t :: t in releases ==> t in s.store.releases && releases[t] == s.store.releases[t]
    requires forall t :: t in s.store.releases && !s.store.releases[t].draft ==> t in releases
    ensures HonestReleases(releases) && SignaturesSound(releases, s.unsettled)
    ensures PublishedCleared(releases, s.cleared, s.runs, s.builders, s.uploads)
    ensures FeedsSettled(releases, Feeds(s.store))
    ensures UploadsSound(releases, s.unsettled, s.uploads) && IdsUsed(releases, s.uploads, s.nextRelease)
  {
    forall c | c in Feeds(s.store) ensures Settled(releases, c, Feeds(s.store)[c]) {
      assert Settled(s.store.releases, c, Feeds(s.store)[c]);
    }
    forall j | j in s.uploads ensures SoundUpload(releases, s.unsettled, s.uploads[j]) {
      assert SoundUpload(s.store.releases, s.unsettled, s.uploads[j]);
    }
  }

  lemma JobIsUnderWay(s: State)
    requires Safe(s) && s.job.Publishing?
    ensures !Terminal(s.job.phase)
  {
    hide HonestReleases, SignaturesSound, PublishedCleared, FeedsSettled, LatestSound, UploadsSound, IdsUsed, Cleared;
  }

  lemma PublishStepSafe(s: State)
    requires Safe(s) && s.job.Publishing?
    ensures Safe(PublishStep(s))
  {
    hide Safe, PublishStep;
    assert !Terminal(s.job.phase) by { JobIsUnderWay(s); }
    match s.job.phase
    case Undraft(_, _) => UndraftSafe(s);
    case EnsureUpdates(_) => ChannelStepSafe(s);
    case ListChannel(_) => ChannelStepSafe(s);
    case RemoveFeed(_) => ChannelStepSafe(s);
    case PostFeed(_) => PostFeedSafe(s);
    case DeleteDraft(_) => DeleteDraftSafe(s);
    case _ => ReadStepSafe(s);
  }

  // ---------------------------------------------------------------------------------------------
  // Every run
  // ---------------------------------------------------------------------------------------------

  lemma StepSafe(s: State, e: Event)
    requires Safe(s) && Enabled(s, e)
    ensures Safe(Apply(s, e))
  {
    hide Safe, PublishStep, SendAsset;
    match e
    case StartRun(_) => StatusStepSafe(s, e);
    case FinishRun(_, _) => StatusStepSafe(s, e);
    case FinishBuilder(_, _, _) => StatusStepSafe(s, e);
    case Create(request) => CreateSafe(s, request);
    case StartUpload(_, _, _, _, _) => StartUploadSafe(s, e);
    case UploadRequest(i) => SendAssetSafe(s, i);
    case AbortUpload(i) => AbortUploadSafe(s, i);
    case StartPublish(_) => JobBoundarySafe(s, e);
    case PublishRequest => PublishStepSafe(s);
    case CrashPublish => JobBoundarySafe(s, e);
  }

  lemma {:induction false} RunSafe(states: seq<State>, events: seq<Event>, n: nat)
    requires IsRun(states, events) && n < |states|
    ensures Safe(states[n])
    decreases n
  {
    if n > 0 {
      RunSafe(states, events, n - 1);
      StepSafe(states[n - 1], events[n - 1]);
      assert states[n - 1 + 1] == Apply(states[n - 1], events[n - 1]);
    }
  }

  /** In every reachable state, a channel feed that is present names a published release of that version
      with the matching marker, and its entry for each of the six platforms is that release's payload,
      whose payload and signature assets exist. */
  lemma ChannelFeedsComplete(states: seq<State>, events: seq<Event>, n: nat, channel: Channel)
    requires IsRun(states, events) && n < |states| && channel in Feeds(states[n].store)
    ensures var s, feed := states[n], Feeds(states[n].store)[channel];
            && Desktop(feed.version) in s.store.releases
            && var release := s.store.releases[Desktop(feed.version)];
               && !release.draft && release.marker == Some(feed.source) && feed.channel == channel
               && forall p :: p in UPDATE_PLATFORMS ==>
                    && p in feed.platforms && feed.platforms[p].signature.Some?
                    && feed.platforms[p].url.Download? && feed.platforms[p].url.tag == Desktop(feed.version)
                    && feed.platforms[p].url.name in release.assets
                    && Sidecar(feed.platforms[p].url.name) in release.assets
  {
    RunSafe(states, events, n);
    var s, feed := states[n], Feeds(states[n].store)[channel];
    assert Settled(s.store.releases, channel, feed);
    ReadFeedComplete(s.store.releases[Desktop(feed.version)], Build(channel, feed.version, feed.source));
  }

  /** In every reachable state, a desktop release is public only after the hosted run and every requested
      private builder of a request for exactly that version and source succeeded. */
  lemma PublishedOnlyWhenCleared(states: seq<State>, events: seq<Event>, n: nat, v: Version)
    requires IsRun(states, events) && n < |states|
    requires Desktop(v) in states[n].store.releases && !states[n].store.releases[Desktop(v)].draft
    ensures exists request ::
              && Cleared(states[n].runs, states[n].builders, request) && request.build.version == v
              && states[n].store.releases[Desktop(v)].marker == Some(request.build.source)
  {
    RunSafe(states, events, n);
    assert Cleared(states[n].runs, states[n].builders, states[n].cleared[v]);
  }

  /** A fragment's entry survives merging, so the feed's entry for a platform is its fragment's. */
  lemma FeedEntry(release: Release, build: Build, p: Platform)
    requires ReadFeed(release, build).Ok? && HonestRelease(Desktop(build.version), release)
    ensures p in UPDATE_PLATFORMS && Fragment(p) in release.assets && release.assets[Fragment(p)].FeedFile?
    ensures IsFragment(release.assets[Fragment(p)].feed, build.version, p)
    ensures p in ReadFeed(release, build).value.platforms
    ensures ReadFeed(release, build).value.platforms[p] == release.assets[Fragment(p)].feed.platforms[p]
  {
    var i := match p
      case DarwinAarch64 => 0
      case DarwinX8664 => 1
      case LinuxX8664 => 2
      case LinuxAarch64 => 3
      case WindowsX8664 => 4
      case WindowsAarch64 => 5;
    assert UPDATE_PLATFORMS[i] == p;
    assert HasFragment(release, p);
    MergeMeaning(Fragments(release), build);
    assert Fragments(release)[i] == release.assets[Fragment(p)].feed;
    assert p in Fragments(release)[i].platforms;
  }

  // ---------------------------------------------------------------------------------------------
  // Published releases are permanent
  // ---------------------------------------------------------------------------------------------

  /** No step changes or deletes a published release. */
  lemma PublishedReleasesPermanent(s: State, e: Event, tag: Tag)
    requires Safe(s) && Enabled(s, e)
    requires tag in s.store.releases && !s.store.releases[tag].draft
    ensures tag in Apply(s, e).store.releases && Apply(s, e).store.releases[tag] == s.store.releases[tag]
  {
    hide HonestReleases, SignaturesSound, PublishedCleared, FeedsSettled, JobSound, LatestSound, UploadsSound, IdsUsed,
      PublishStep, SendAsset;
    match e
    case UploadRequest(i) => UploadsSparePublished(s, i, tag);
    case PublishRequest => PublishingSparesPublished(s, tag);
    case _ =>
  }

  lemma UploadsSparePublished(s: State, i: nat, tag: Tag)
    requires Safe(s) && i in s.uploads && tag in s.store.releases && !s.store.releases[tag].draft
    ensures tag in SendAsset(s, i).store.releases && SendAsset(s, i).store.releases[tag] == s.store.releases[tag]
  {
    assert HonestRelease(tag, s.store.releases[tag]);
    assert InFlight(s.uploads, s.uploads[i].request.build.version);
  }

  /** Only the deletion of a draft removes a release, and publishing changes nothing but the draft flag. */
  lemma OtherStepsSparePublished(store: Store, build: Build, runs: map<nat, Run>, phase: Phase, tag: Tag)
    requires tag in store.releases && !store.releases[tag].draft && !phase.DeleteDraft?
    ensures var next := Step(store, build, runs, phase).0;
            tag in next.releases && next.releases[tag] == store.releases[tag]
  {
    hide ReadFeed, ChannelCheck, DraftListing, Abandoned, Superseded, Unchanged;
  }

  lemma PublishingSparesPublished(s: State, tag: Tag)
    requires JobSound(s) && s.job.Publishing? && tag in s.store.releases && !s.store.releases[tag].draft
    ensures tag in PublishStep(s).store.releases && PublishStep(s).store.releases[tag] == s.store.releases[tag]
  {
    if s.job.phase.DeleteDraft? {
      var candidates := s.job.phase.candidates;
      assert candidates != [] ==> candidates[0] in candidates;
    } else {
      OtherStepsSparePublished(s.store, s.job.request.build, RunsView(s.runs), s.job.phase, tag);
    }
  }
}
