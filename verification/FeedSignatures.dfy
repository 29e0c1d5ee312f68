/** When the signatures in a public feed fit the bytes stored for them, whatever uploads were started again and
    cut off: exactly if payload, signature file and fragment were last posted by uploads of the same bytes. */
module FeedSignatures {
  import opened Wrappers
  import opened Versions
  import opened Releases
  import opened Publication
  import opened ReleaseProtocol

  // ---------------------------------------------------------------------------------------------
  // Who posted an asset last
  // ---------------------------------------------------------------------------------------------

  /** The bytes being uploaded by the request that posts an asset of this name for the version, if this event
      is such a request. */
  ghost function PostedNow(s: State, e: Event, v: Version, name: AssetName): Option<nat>
    requires Enabled(s, e)
  {
    if e.UploadRequest? && s.uploads[e.upload].request.build.version == v && PostsName(s, s.uploads[e.upload], name)
    then Some(s.uploads[e.upload].digest) else None
  }

  ghost predicate PostsName(s: State, u: Upload, name: AssetName) {
    && Sending(s.store.releases, u) && Plan(u)[u.sent].0 == name
    && name !in s.store.releases[Desktop(u.request.build.version)].assets
  }

  /** The bytes that were being uploaded when an asset of this name was last posted for the version. */
  ghost function LastPosted(states: seq<State>, events: seq<Event>, n: nat, v: Version, name: AssetName): Option<nat>
    requires IsRun(states, events) && n < |states|
    decreases n
  {
    if n == 0 then None
    else
      var now := PostedNow(states[n - 1], events[n - 1], v, name);
      if now.Some? then now else LastPosted(states, events, n - 1, v, name)
  }

  /** What an upload of these bytes posts under a name. */
  ghost predicate Made(name: AssetName, content: Content, digest: nat) {
    match name
    case Payload(_, _) => content == Bytes(digest)
    case Installer(_, _) => content == Bytes(digest)
    case Sidecar(_) => content == SignatureOf(digest)
    case Fragment(p) =>
      content.FeedFile? && p in content.feed.platforms && content.feed.platforms[p].signature == Some(digest)
    case OtherName(_) => false
  }

  lemma PlanMakes(u: Upload, k: nat)
    requires k < |Plan(u)|
    ensures Made(Plan(u)[k].0, Plan(u)[k].1, u.digest)
  {}

  // ---------------------------------------------------------------------------------------------
  // One step
  // ---------------------------------------------------------------------------------------------

  ghost predicate Stored(releases: map<Tag, Release>, v: Version, name: AssetName) {
    Desktop(v) in releases && name in releases[Desktop(v)].assets
  }

  ghost function ContentOf(releases: map<Tag, Release>, v: Version, name: AssetName): Content
    requires Stored(releases, v, name)
  {
    releases[Desktop(v)].assets[name]
  }

  /** An asset that was there before, and is the same. */
  ghost predicate Kept(releases: map<Tag, Release>, next: map<Tag, Release>, v: Version, name: AssetName)
    requires Stored(next, v, name)
  {
    Stored(releases, v, name) && ContentOf(next, v, name) == ContentOf(releases, v, name)
  }

  lemma SendPosts(s: State, i: nat, v: Version, name: AssetName)
    requires i in s.uploads && Sending(s.store.releases, s.uploads[i])
    requires Stored(SentReleases(s.store.releases, s.uploads[i]), v, name)
    ensures var u, releases := s.uploads[i], SentReleases(s.store.releases, s.uploads[i]);
            if u.request.build.version == v && PostsName(s, u, name)
            then Made(name, ContentOf(releases, v, name), u.digest)
            else Kept(s.store.releases, releases, v, name)
  {
    PlanMakes(s.uploads[i], s.uploads[i].sent);
    hide UploadPlan, Made;
  }

  lemma UploadPosts(s: State, i: nat, v: Version, name: AssetName)
    requires i in s.uploads && Stored(SendAsset(s, i).store.releases, v, name)
    ensures var now, releases := PostedNow(s, UploadRequest(i), v, name), SendAsset(s, i).store.releases;
            if now.Some? then Made(name, ContentOf(releases, v, name), now.value)
            else Kept(s.store.releases, releases, v, name)
  {
    if Sending(s.store.releases, s.uploads[i]) {
      SentState(s, i);
      hide SendAsset, UploadPlan, Made, Send, SentReleases;
      SendPosts(s, i, v, name);
      hide PostsName, Kept, ContentOf;
    } else {
      hide UploadPlan, Made, Send;
    }
  }

  /** A publication's request changes no asset of a release. */
  lemma RequestKeepsAssets(store: Store, build: Build, runs: map<nat, Run>, phase: Phase, tag: Tag)
    ensures var next := Step(store, build, runs, phase).0;
            tag in next.releases ==> tag in store.releases && next.releases[tag].assets == store.releases[tag].assets
  {
    hide ReadFeed, ChannelCheck, DraftListing, Abandoned, Superseded, Unchanged;
  }

  lemma PublishKeepsAssets(s: State, v: Version, name: AssetName)
    requires s.job.Publishing? && Stored(PublishStep(s).store.releases, v, name)
    ensures Kept(s.store.releases, PublishStep(s).store.releases, v, name)
  {
    RequestKeepsAssets(s.store, s.job.request.build, RunsView(s.runs), s.job.phase, Desktop(v));
    hide Step;
  }

  /** After any step an asset is what the upload that posts it made it, or what it was. */
  lemma StepPosts(s: State, e: Event, v: Version, name: AssetName)
    requires Enabled(s, e) && Stored(Apply(s, e).store.releases, v, name)
    ensures var now, releases := PostedNow(s, e, v, name), Apply(s, e).store.releases;
            if now.Some? then Made(name, ContentOf(releases, v, name), now.value)
            else Kept(s.store.releases, releases, v, name)
  {
    hide PublishStep, SendAsset, PostsName, Made;
    match e
    case UploadRequest(i) => UploadPosts(s, i, v, name);
    case PublishRequest => PublishKeepsAssets(s, v, name);
    case _ =>
  }

  // ---------------------------------------------------------------------------------------------
  // Every run
  // ---------------------------------------------------------------------------------------------

  /** Whatever is stored under a name of a release is what the last upload that posted it made it. */
  lemma {:induction false} StoredIsLastPosted(states: seq<State>, events: seq<Event>, n: nat, v: Version,
                                              name: AssetName)
    requires IsRun(states, events) && n < |states| && Stored(states[n].store.releases, v, name)
    ensures var last := LastPosted(states, events, n, v, name);
            last.Some? && Made(name, ContentOf(states[n].store.releases, v, name), last.value)
    decreases n
  {
    if n > 0 {
      LastPostedStep(states, events, n, v, name);
      hide *;
      var s, e := states[n - 1], events[n - 1];
      StepPosts(s, e, v, name);
      if PostedNow(s, e, v, name).None? {
        KeptIsStored(s.store.releases, states[n].store.releases, v, name);
        StoredIsLastPosted(states, events, n - 1, v, name);
      }
    }
  }

  lemma KeptIsStored(releases: map<Tag, Release>, next: map<Tag, Release>, v: Version, name: AssetName)
    requires Stored(next, v, name) && Kept(releases, next, v, name)
    ensures Stored(releases, v, name) && ContentOf(next, v, name) == ContentOf(releases, v, name)
  {}

  lemma LastPostedStep(states: seq<State>, events: seq<Event>, n: nat, v: Version, name: AssetName)
    requires IsRun(states, events) && 0 < n < |states|
    ensures |states| == |events| + 1 && Enabled(states[n - 1], events[n - 1])
    ensures states[n] == Apply(states[n - 1], events[n - 1])
    ensures var now := PostedNow(states[n - 1], events[n - 1], v, name);
            LastPosted(states, events, n, v, name)
              == if now.Some? then now else LastPosted(states, events, n - 1, v, name)
  {
    hide Apply, Enabled;
    assert states[n - 1 + 1] == Apply(states[n - 1], events[n - 1]);
  }

  /** Payload and signature file are those of the bytes that `digest` names. */
  ghost predicate Fits(release: Release, v: Version, p: Platform, digest: nat) {
    && Payload(p, v) in release.assets && release.assets[Payload(p, v)] == Bytes(digest)
    && Sidecar(Payload(p, v)) in release.assets && release.assets[Sidecar(Payload(p, v))] == SignatureOf(digest)
  }

  /** A feed's entry for a platform is the fragment's, and names the payload, which is there with its signature. */
  lemma FeedNamesPayload(states: seq<State>, events: seq<Event>, n: nat, channel: Channel, p: Platform)
    requires IsRun(states, events) && n < |states| && channel in Feeds(states[n].store)
    ensures var s, feed := states[n], Feeds(states[n].store)[channel];
            var v := feed.version;
            && p in feed.platforms && feed.platforms[p].signature.Some?
            && feed.platforms[p].url == Download(Desktop(v), Payload(p, v))
            && Desktop(v) in s.store.releases && HonestReleases(s.store.releases)
            && var release := s.store.releases[Desktop(v)];
               && Payload(p, v) in release.assets && Sidecar(Payload(p, v)) in release.assets
               && Fragment(p) in release.assets && release.assets[Fragment(p)].FeedFile?
               && IsFragment(release.assets[Fragment(p)].feed, v, p)
               && feed.platforms[p] == release.assets[Fragment(p)].feed.platforms[p]
  {
    RunSafe(states, events, n);
    var s, feed := states[n], Feeds(states[n].store)[channel];
    hide JobSound, LatestSound, PublishedCleared, UploadsSound, IdsUsed, SignaturesSound, IsRun;
    assert Settled(s.store.releases, channel, feed);
    var release, build := s.store.releases[Desktop(feed.version)], Build(channel, feed.version, feed.source);
    assert HonestRelease(Desktop(feed.version), release);
    FeedEntry(release, build, p);
    ReadFeedComplete(release, build);
    hide ReadFeed;
  }

  /** In every reachable state a feed's entry for a platform names that platform's payload and carries the
      fragment's signature; payload and signature file fit it exactly if the uploads that last posted payload,
      signature file and fragment were of the same bytes. That is so, in particular, if no upload of the platform
      has changed something without one being completed since. */
  lemma ChannelFeedsSigned(states: seq<State>, events: seq<Event>, n: nat, channel: Channel, p: Platform)
    requires IsRun(states, events) && n < |states| && channel in Feeds(states[n].store)
    ensures var s, feed := states[n], Feeds(states[n].store)[channel];
            var v := feed.version;
            && p in feed.platforms && feed.platforms[p].signature.Some?
            && feed.platforms[p].url == Download(Desktop(v), Payload(p, v))
            && Desktop(v) in s.store.releases
            && var release, digest := s.store.releases[Desktop(v)], feed.platforms[p].signature.value;
               var payload := LastPosted(states, events, n, v, Payload(p, v));
               var sidecar := LastPosted(states, events, n, v, Sidecar(Payload(p, v)));
               var fragment := LastPosted(states, events, n, v, Fragment(p));
               && payload.Some? && sidecar.Some? && fragment == Some(digest)
               && (Fits(release, v, p, digest) <==> payload == sidecar == fragment)
               && ((v, p) !in s.unsettled ==> Fits(release, v, p, digest))
  {
    FeedNamesPayload(states, events, n, channel, p);
    var s, v := states[n], Feeds(states[n].store)[channel].version;
    StoredIsLastPosted(states, events, n, v, Payload(p, v));
    StoredIsLastPosted(states, events, n, v, Sidecar(Payload(p, v)));
    StoredIsLastPosted(states, events, n, v, Fragment(p));
    if (v, p) !in s.unsettled { SettledFits(states, events, n, v, p); }
    hide IsRun, LastPosted, HonestReleases;
  }

  lemma SettledFits(states: seq<State>, events: seq<Event>, n: nat, v: Version, p: Platform)
    requires IsRun(states, events) && n < |states| && (v, p) !in states[n].unsettled
    requires Stored(states[n].store.releases, v, Fragment(p))
    ensures var release := states[n].store.releases[Desktop(v)];
            && release.assets[Fragment(p)].FeedFile? && IsFragment(release.assets[Fragment(p)].feed, v, p)
            && Fits(release, v, p, release.assets[Fragment(p)].feed.platforms[p].signature.value)
  {
    RunSafe(states, events, n);
    hide JobSound, LatestSound, PublishedCleared, UploadsSound, IdsUsed, FeedsSettled, IsRun;
    assert HonestRelease(Desktop(v), states[n].store.releases[Desktop(v)]);
    assert Signed(states[n].store.releases[Desktop(v)], v, p);
  }
}
