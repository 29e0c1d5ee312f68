/** Two complete runs of the release protocol that show its guarantees need their conditions: a channel that
    goes back after a crash inside a feed's replacement, and a feed whose signature no longer fits its payload. */
module ReleaseWitnesses {
  import opened Wrappers
  import opened Versions
  import opened Releases
  import opened Publication
  import opened ReleaseProtocol
  import opened ChannelOrder

  // ---------------------------------------------------------------------------------------------
  // Putting runs together
  // ---------------------------------------------------------------------------------------------

  /** A run from any state. */
  ghost predicate Path(states: seq<State>, events: seq<Event>) {
    && |states| == |events| + 1
    && forall i :: 0 <= i < |events| ==> Enabled(states[i], events[i]) && states[i + 1] == Apply(states[i], events[i])
  }

  ghost predicate Leads(from: State, states: seq<State>, events: seq<Event>, to: State) {
    Path(states, events) && states[0] == from && states[|events|] == to
  }

  lemma Nothing(s: State) returns (states: seq<State>, events: seq<Event>)
    ensures Leads(s, states, events, s)
  {
    states, events := [s], [];
  }

  lemma One(s: State, e: Event) returns (states: seq<State>, events: seq<Event>)
    requires Enabled(s, e)
    ensures Leads(s, states, events, Apply(s, e))
  {
    states, events := [s, Apply(s, e)], [e];
  }

  lemma Join(a: State, states: seq<State>, events: seq<Event>, b: State, more: seq<State>, next: seq<Event>, c: State)
    returns (all: seq<State>, every: seq<Event>)
    requires Leads(a, states, events, b) && Leads(b, more, next, c)
    ensures Leads(a, all, every, c) && |events| < |all| && all[|events|] == b
  {
    hide Apply, Enabled;
    all, every := states + more[1..], events + next;
    forall i | 0 <= i < |every| ensures Enabled(all[i], every[i]) && all[i + 1] == Apply(all[i], every[i]) {
      if i < |events| {
        assert all[i] == states[i] && all[i + 1] == states[i + 1];
      } else {
        assert all[i] == more[i - |events|] && all[i + 1] == more[i - |events| + 1];
      }
    }
  }

  lemma Then(a: State, states: seq<State>, events: seq<Event>, b: State, e: Event)
    returns (all: seq<State>, every: seq<Event>)
    requires Leads(a, states, events, b) && Enabled(b, e)
    ensures Leads(a, all, every, Apply(b, e)) && |events| < |all| && all[|events|] == b
  {
    hide Apply, Enabled, Path;
    var more, next := One(b, e);
    all, every := Join(a, states, events, b, more, next, Apply(b, e));
  }

  // ---------------------------------------------------------------------------------------------
  // Uploading
  // ---------------------------------------------------------------------------------------------

  function PostAll(assets: map<AssetName, Content>, plan: seq<(AssetName, Content)>): map<AssetName, Content>
    decreases |plan|
  {
    if plan == [] then assets else PostAll(assets[plan[0].0 := plan[0].1], plan[1..])
  }

  /** The state with other assets in the release of `v`. */
  ghost function WithAssets(s: State, v: Version, assets: map<AssetName, Content>): State
    requires Desktop(v) in s.store.releases
  {
    var tag := Desktop(v);
    s.(store := s.store.(releases := s.store.releases[tag := s.store.releases[tag].(assets := assets)]))
  }

  ghost function AssetsOf(s: State, v: Version): map<AssetName, Content>
    requires Desktop(v) in s.store.releases
  {
    s.store.releases[Desktop(v)].assets
  }

  /** An upload whose remaining names are not taken. */
  ghost predicate Posting(s: State, i: nat) {
    && i in s.uploads && Sending(s.store.releases, s.uploads[i]) && !s.uploads[i].removed
    && forall k :: s.uploads[i].sent <= k < |Plan(s.uploads[i])| ==>
         Plan(s.uploads[i])[k].0 !in AssetsOf(s, s.uploads[i].request.build.version)
  }

  /** The state once the upload has posted the rest of its plan. */
  ghost function Uploaded(s: State, i: nat): State
    requires Posting(s, i)
  {
    var u := s.uploads[i];
    var v := u.request.build.version;
    WithAssets(s, v, PostAll(AssetsOf(s, v), Plan(u)[u.sent..])).(
      uploads := Drop(s.uploads, i), unsettled := s.unsettled - {(v, u.platform)})
  }

  lemma PostLast(s: State, i: nat)
    requires Posting(s, i) && s.uploads[i].sent + 1 == |Plan(s.uploads[i])|
    ensures SendAsset(s, i) == Uploaded(s, i)
  {
    hide UploadPlan;
    var u := s.uploads[i];
    var v, plan := u.request.build.version, Plan(u);
    var rest := plan[u.sent..];
    var (name, content) := plan[u.sent];
    assert rest[0] == plan[u.sent] && rest[1..] == [];
    assert PostAll(AssetsOf(s, v), rest) == AssetsOf(s, v)[name := content];
    assert SendAsset(s, i).store == Uploaded(s, i).store;
  }

  lemma SentNext(s: State, i: nat)
    requires Posting(s, i) && s.uploads[i].sent + 1 < |Plan(s.uploads[i])|
    ensures var u := s.uploads[i];
            var v, post := u.request.build.version, Plan(u)[u.sent];
            SendAsset(s, i) == WithAssets(s, v, AssetsOf(s, v)[post.0 := post.1]).(
                                 uploads := s.uploads[i := u.(sent := u.sent + 1)],
                                 unsettled := s.unsettled + {(v, u.platform)})
  {
    hide UploadPlan;
  }

  lemma PostNext(s: State, i: nat)
    requires Posting(s, i) && s.uploads[i].sent + 1 < |Plan(s.uploads[i])|
    ensures var u, s' := s.uploads[i], SendAsset(s, i);
            Posting(s', i) && Uploaded(s', i) == Uploaded(s, i) && s'.uploads[i] == u.(sent := u.sent + 1)
  {
    var u := s.uploads[i];
    var v := u.request.build.version;
    var plan, s' := Plan(u), SendAsset(s, i);
    forall k | u.sent + 1 <= k < |plan| ensures plan[k].0 != plan[u.sent].0 { DistinctPlanNames(u, u.sent, k); }
    SentNext(s, i);
    hide UploadPlan, SendAsset, Send;
    assert Plan(s'.uploads[i]) == plan;
    var rest := plan[u.sent..];
    assert rest[0] == plan[u.sent] && rest[1..] == plan[u.sent + 1..];
    assert Drop(s'.uploads, i) == Drop(s.uploads, i);
    assert s'.unsettled - {(v, u.platform)} == s.unsettled - {(v, u.platform)};
  }

  lemma PostOne(s: State, i: nat)
    requires Posting(s, i)
    ensures var u, s' := s.uploads[i], SendAsset(s, i);
            if u.sent + 1 == |Plan(u)| then s' == Uploaded(s, i)
            else Posting(s', i) && Uploaded(s', i) == Uploaded(s, i) && s'.uploads[i] == u.(sent := u.sent + 1)
  {
    if s.uploads[i].sent + 1 == |Plan(s.uploads[i])| { PostLast(s, i); } else { PostNext(s, i); }
    hide SendAsset, Uploaded, UploadPlan;
  }

  lemma {:induction false} PostRest(s: State, i: nat) returns (states: seq<State>, events: seq<Event>)
    requires Posting(s, i)
    ensures Leads(s, states, events, Uploaded(s, i))
    decreases |Plan(s.uploads[i])| - s.uploads[i].sent
  {
    PostOne(s, i);
    hide Posting, SendAsset, Uploaded, Path;
    var u := PostingUpload(s, i);
    states, events := One(s, UploadRequest(i));
    if u.sent + 1 < |Plan(u)| {
      var s' := SendAsset(s, i);
      var more, next := PostRest(s', i);
      states, events := Join(s, states, events, s', more, next, Uploaded(s, i));
    }
  }

  lemma PostingUpload(s: State, i: nat) returns (u: Upload)
    requires Posting(s, i)
    ensures i in s.uploads && u == s.uploads[i] && u.sent < |Plan(u)|
  {
    u := s.uploads[i];
  }

  /** What one platform's upload leaves, if nothing of it was there. */
  lemma UploadPlatform(s: State, request: Request, p: Platform, digest: nat)
    returns (states: seq<State>, events: seq<Event>)
    requires s.uploads == map[] && Enabled(s, StartUpload(0, request, p, digest, 0))
    requires forall name :: NameFor(name, request.build.version, p) ==> name !in AssetsOf(s, request.build.version)
    ensures var v := request.build.version;
            Leads(s, states, events,
                  WithAssets(s, v, PostAll(AssetsOf(s, v), UploadPlan(request.build, p, digest, 0))).(
                    unsettled := s.unsettled - {(v, p)}))
  {
    var start := Apply(s, StartUpload(0, request, p, digest, 0));
    var u := start.uploads[0];
    forall k | 0 <= k < |Plan(u)| ensures Plan(u)[k].0 !in AssetsOf(start, request.build.version) { PlanNames(u, k); }
    assert Posting(start, 0);
    assert Plan(u)[0..] == UploadPlan(request.build, p, digest, 0);
    assert Drop(start.uploads, 0) == map[];
    states, events := One(s, StartUpload(0, request, p, digest, 0));
    var more, next := PostRest(start, 0);
    states, events := Join(s, states, events, start, more, next, Uploaded(start, 0));
  }

  /** The assets of the first `n` platforms. */
  function Assets(build: Build, digest: nat, n: nat): map<AssetName, Content>
    requires n <= 6
  {
    if n == 0 then map[]
    else PostAll(Assets(build, digest, n - 1), UploadPlan(build, UPDATE_PLATFORMS[n - 1], digest, 0))
  }

  lemma {:induction false} PostedNames(assets: map<AssetName, Content>, plan: seq<(AssetName, Content)>,
                                       name: AssetName)
    ensures name in PostAll(assets, plan) <==> name in assets || exists k :: 0 <= k < |plan| && plan[k].0 == name
    ensures (forall k :: 0 <= k < |plan| ==> plan[k].0 != name) && name in assets ==>
              PostAll(assets, plan)[name] == assets[name]
    decreases |plan|
  {
    if plan != [] {
      PostedNames(assets[plan[0].0 := plan[0].1], plan[1..], name);
      assert plan == [plan[0]] + plan[1..];
    }
  }

  lemma {:induction false} PostedContent(assets: map<AssetName, Content>, plan: seq<(AssetName, Content)>, k: nat)
    requires k < |plan| && forall i, j :: 0 <= i < j < |plan| ==> plan[i].0 != plan[j].0
    ensures plan[k].0 in PostAll(assets, plan) && PostAll(assets, plan)[plan[k].0] == plan[k].1
    decreases |plan|
  {
    var more := assets[plan[0].0 := plan[0].1];
    if k == 0 {
      assert forall i :: 0 <= i < |plan[1..]| ==> plan[1..][i] == plan[i + 1];
      PostedNames(more, plan[1..], plan[0].0);
    } else {
      PostedContent(more, plan[1..], k - 1);
    }
  }

  /** An upload of the plan, to name its parts. */
  function Of(request: Request, p: Platform, digest: nat): Upload {
    Upload(request, p, 0, digest, 0, 0, false)
  }

  lemma PlatformsDiffer(i: nat, j: nat)
    requires i < 6 && j < 6 && i != j
    ensures UPDATE_PLATFORMS[i] != UPDATE_PLATFORMS[j]
  {}

  /** Nothing of a platform is there before its turn. */
  lemma {:induction false} NotYet(request: Request, digest: nat, n: nat, m: nat, name: AssetName)
    requires n <= m < 6 && NameFor(name, request.build.version, UPDATE_PLATFORMS[m])
    ensures name !in Assets(request.build, digest, n)
  {
    if n > 0 {
      NotYet(request, digest, n - 1, m, name);
      var u := Of(request, UPDATE_PLATFORMS[n - 1], digest);
      PostedNames(Assets(request.build, digest, n - 1), Plan(u), name);
      PlatformsDiffer(n - 1, m);
      forall k | 0 <= k < |Plan(u)| ensures Plan(u)[k].0 != name { PlanNames(u, k); }
    }
  }

  /** What a platform posted stays. */
  lemma {:induction false} Stays(request: Request, digest: nat, n: nat, m: nat, k: nat)
    requires m < n <= 6 && k < |Plan(Of(request, UPDATE_PLATFORMS[m], digest))|
    ensures var (name, content) := Plan(Of(request, UPDATE_PLATFORMS[m], digest))[k];
            name in Assets(request.build, digest, n) && Assets(request.build, digest, n)[name] == content
  {
    var u := Of(request, UPDATE_PLATFORMS[m], digest);
    var before := Assets(request.build, digest, n - 1);
    if n == m + 1 {
      forall i, j | 0 <= i < j < |Plan(u)| ensures Plan(u)[i].0 != Plan(u)[j].0 { DistinctPlanNames(u, i, j); }
      PostedContent(before, Plan(u), k);
    } else {
      Stays(request, digest, n - 1, m, k);
      PlanNames(u, k);
      PlatformsDiffer(n - 1, m);
      var w := Of(request, UPDATE_PLATFORMS[n - 1], digest);
      forall i | 0 <= i < |Plan(w)| ensures Plan(w)[i].0 != Plan(u)[k].0 { PlanNames(w, i); }
      PostedNames(before, Plan(w), Plan(u)[k].0);
    }
  }

  /** A draft waiting for its assets. */
  ghost predicate Waiting(s: State, request: Request) {
    && s.uploads == map[] && s.job.Idle? && ValidRequest(request) && MatchingDraft(s.store, request.build)
    && s.unsettled == {}
  }

  lemma UploadNext(s: State, request: Request, digest: nat, n: nat) returns (states: seq<State>, events: seq<Event>)
    requires n < 6 && Waiting(s, request) && AssetsOf(s, request.build.version) == Assets(request.build, digest, n)
    ensures var s' := WithAssets(s, request.build.version, Assets(request.build, digest, n + 1));
            && Leads(s, states, events, s') && Waiting(s', request)
            && AssetsOf(s', request.build.version) == Assets(request.build, digest, n + 1)
  {
    hide Leads, NameFor, UploadPlan;
    var v, p := request.build.version, UPDATE_PLATFORMS[n];
    forall name | NameFor(name, v, p) ensures name !in AssetsOf(s, v) { NotYet(request, digest, n, n, name); }
    states, events := UploadPlatform(s, request, p, digest);
    assert s.unsettled - {(v, p)} == s.unsettled;
  }

  lemma AssetsTwice(s: State, v: Version, earlier: map<AssetName, Content>, assets: map<AssetName, Content>)
    requires Desktop(v) in s.store.releases
    ensures WithAssets(WithAssets(s, v, earlier), v, assets) == WithAssets(s, v, assets)
    ensures assets == AssetsOf(s, v) ==> WithAssets(s, v, assets) == s
  {}

  lemma {:induction false} UploadAll(s: State, request: Request, digest: nat, n: nat)
    returns (states: seq<State>, events: seq<Event>)
    requires n <= 6 && Waiting(s, request) && AssetsOf(s, request.build.version) == Assets(request.build, digest, n)
    ensures Leads(s, states, events, WithAssets(s, request.build.version, Assets(request.build, digest, 6)))
    decreases 6 - n
  {
    hide Leads, Assets, AssetsOf, WithAssets;
    var v, all := request.build.version, Assets(request.build, digest, 6);
    if n == 6 {
      AssetsTwice(s, v, all, all);
      states, events := Nothing(s);
    } else {
      states, events := UploadNext(s, request, digest, n);
      var s' := WithAssets(s, v, Assets(request.build, digest, n + 1));
      var more, next := UploadAll(s', request, digest, n + 1);
      AssetsTwice(s, v, Assets(request.build, digest, n + 1), all);
      states, events := Join(s, states, events, s', more, next, WithAssets(s, v, all));
    }
  }

  // ---------------------------------------------------------------------------------------------
  // A complete release
  // ---------------------------------------------------------------------------------------------

  ghost predicate StableRequest(request: Request) {
    ValidRequest(request) && request.build.channel.StableChannel? && request.format == 3
  }

  lemma FragmentThere(request: Request, digest: nat, m: nat)
    requires m < 6
    ensures var build, p := request.build, UPDATE_PLATFORMS[m];
            var assets := Assets(build, digest, 6);
            && Fragment(p) in assets && assets[Fragment(p)] == FeedFile(FragmentFeed(build, p, digest, 0))
            && Payload(p, build.version) in assets && assets[Payload(p, build.version)] == Bytes(digest)
            && Sidecar(Payload(p, build.version)) in assets
  {
    var u := Of(request, UPDATE_PLATFORMS[m], digest);
    Stays(request, digest, 6, m, 0);
    Stays(request, digest, 6, m, 1);
    Stays(request, digest, 6, m, |Plan(u)| - 1);
  }

  /** The release with every platform's assets. */
  ghost function FullRelease(id: nat, draft: bool, build: Build, digest: nat): Release {
    Release(id, draft, Some(build.source), build.source.commit, Assets(build, digest, 6))
  }

  lemma FullFragments(request: Request, digest: nat, release: Release)
    requires release.assets == Assets(request.build, digest, 6)
    ensures forall p :: p in UPDATE_PLATFORMS ==> HasFragment(release, p)
    ensures forall i :: 0 <= i < 6 ==>
              Fragments(release)[i] == FragmentFeed(request.build, UPDATE_PLATFORMS[i], digest, 0)
  {
    forall i | 0 <= i < 6
      ensures HasFragment(release, UPDATE_PLATFORMS[i])
      ensures release.assets[Fragment(UPDATE_PLATFORMS[i])].feed
              == FragmentFeed(request.build, UPDATE_PLATFORMS[i], digest, 0)
    {
      FragmentThere(request, digest, i);
    }
    forall p | p in UPDATE_PLATFORMS ensures HasFragment(release, p) {
      var i :| 0 <= i < 6 && UPDATE_PLATFORMS[i] == p;
    }
  }

  ghost function FullEntry(build: Build, p: Platform, digest: nat): Entry {
    Entry(Download(Desktop(build.version), Payload(p, build.version)), Some(digest))
  }

  lemma FullMerge(request: Request, digest: nat, release: Release) returns (platforms: map<Platform, Entry>)
    requires release.assets == Assets(request.build, digest, 6)
    requires forall p :: p in UPDATE_PLATFORMS ==> HasFragment(release, p)
    ensures MergePlatforms(Fragments(release), request.build) == Ok(platforms)
    ensures forall p :: p in platforms && platforms[p] == FullEntry(request.build, p, digest)
  {
    FullFragments(request, digest, release);
    var fragments := Fragments(release);
    forall i, j | 0 <= i < j < |fragments| ensures fragments[i].platforms.Keys !! fragments[j].platforms.Keys {
      PlatformsDiffer(i, j);
      assert fragments[i].platforms.Keys == {UPDATE_PLATFORMS[i]};
    }
    MergeMeaning(fragments, request.build);
    platforms := MergePlatforms(fragments, request.build).value;
    forall p ensures p in platforms && platforms[p] == FullEntry(request.build, p, digest) {
      EveryPlatform(p);
      var i :| 0 <= i < 6 && UPDATE_PLATFORMS[i] == p;
      assert p in fragments[i].platforms;
    }
  }

  /** A complete release reads as the feed of its payloads. */
  lemma FullReads(request: Request, digest: nat, release: Release)
    requires StableRequest(request) && release.assets == Assets(request.build, digest, 6)
    ensures ReadFeed(release, request.build).Ok?
    ensures var platforms := ReadFeed(release, request.build).value.platforms;
            forall p :: p in platforms && platforms[p] == FullEntry(request.build, p, digest)
  {
    FullFragments(request, digest, release);
    var platforms := FullMerge(request, digest, release);
    var fragments := Fragments(release);
    forall p ensures EntryFault(platforms[p], release, request.build).None? {
      EveryPlatform(p);
      var i :| 0 <= i < 6 && UPDATE_PLATFORMS[i] == p;
      FragmentThere(request, digest, i);
    }
    FaultFree(EntryOrder(fragments), platforms, release, request.build);
    assert ValidFeed(Merged(fragments, request.build, platforms), request.build.channel);
  }

  function Merged(fragments: seq<Feed>, build: Build, platforms: map<Platform, Entry>): Feed
    requires fragments != []
  {
    Feed(build.version, build.channel, build.source, fragments[0].notes, fragments[0].pubDate, platforms)
  }

  /** Nothing of the request has happened yet, and nothing else is under way. */
  ghost predicate Untouched(s: State, request: Request) {
    && s.uploads == map[] && s.job.Idle? && s.unsettled == {} && StableRequest(request)
    && request.run !in s.runs && (forall b :: (request.run, b) !in s.builders)
    && Desktop(request.build.version) !in s.store.releases
  }

  /** The state once the request's release is complete and cleared. */
  ghost function Complete(s: State, request: Request, digest: nat): State {
    s.(store := s.store.(releases := s.store.releases[Desktop(request.build.version) :=
                                                       FullRelease(s.nextRelease, true, request.build, digest)]),
       nextRelease := s.nextRelease + 1, runs := s.runs[request.run := Succeeded],
       builders := s.builders[(request.run, Windows) := Succeeded][(request.run, MacOS) := Succeeded])
  }

  /** The state once the request's run is under way and its empty draft exists. */
  ghost function Opened(s: State, request: Request): State {
    var draft := Release(s.nextRelease, true, Some(request.build.source), request.build.source.commit, map[]);
    s.(store := s.store.(releases := s.store.releases[Desktop(request.build.version) := draft]),
       nextRelease := s.nextRelease + 1, runs := s.runs[request.run := InProgress])
  }

  lemma OpenDraft(s: State, request: Request) returns (states: seq<State>, events: seq<Event>)
    requires Untouched(s, request)
    ensures Leads(s, states, events, Opened(s, request)) && Waiting(Opened(s, request), request)
    ensures Desktop(request.build.version) in Opened(s, request).store.releases
  {
    hide Leads;
    var s1 := Apply(s, StartRun(request.run));
    states, events := One(s, StartRun(request.run));
    states, events := Then(s, states, events, s1, Create(request));
  }

  /** The state once the request's run and its builders have succeeded. */
  ghost function Passed(s: State, request: Request): State {
    s.(runs := s.runs[request.run := Succeeded],
       builders := s.builders[(request.run, Windows) := Succeeded][(request.run, MacOS) := Succeeded])
  }

  lemma ClearDraft(s: State, request: Request) returns (states: seq<State>, events: seq<Event>)
    requires StableRequest(request) && request.run in s.runs && s.runs[request.run] == InProgress
    requires forall b :: (request.run, b) !in s.builders
    ensures Leads(s, states, events, Passed(s, request))
    ensures Cleared(Passed(s, request).runs, Passed(s, request).builders, request)
  {
    hide Leads;
    var s1 := Apply(s, FinishRun(request.run, true));
    states, events := One(s, FinishRun(request.run, true));
    var s2 := Apply(s1, FinishBuilder(request.run, Windows, true));
    states, events := Then(s, states, events, s1, FinishBuilder(request.run, Windows, true));
    states, events := Then(s, states, events, s2, FinishBuilder(request.run, MacOS, true));
  }

  lemma BuildRelease(s: State, request: Request, digest: nat) returns (states: seq<State>, events: seq<Event>)
    requires Untouched(s, request)
    ensures Leads(s, states, events, Complete(s, request, digest))
    ensures Cleared(Complete(s, request, digest).runs, Complete(s, request, digest).builders, request)
  {
    hide Leads, Assets, Cleared, Waiting;
    var begun, v := Opened(s, request), request.build.version;
    states, events := OpenDraft(s, request);
    var filled := WithAssets(begun, v, Assets(request.build, digest, 6));
    assert Assets(request.build, digest, 0) == map[] by { NoAssets(request.build, digest); }
    var more, next := UploadAll(begun, request, digest, 0);
    states, events := Join(s, states, events, begun, more, next, filled);
    more, next := ClearDraft(filled, request);
    CompleteIs(s, request, digest);
    states, events := Join(s, states, events, filled, more, next, Passed(filled, request));
  }

  lemma NoAssets(build: Build, digest: nat)
    ensures Assets(build, digest, 0) == map[]
  {}

  lemma CompleteIs(s: State, request: Request, digest: nat)
    requires Desktop(request.build.version) in Opened(s, request).store.releases
    ensures var filled := WithAssets(Opened(s, request), request.build.version, Assets(request.build, digest, 6));
            Passed(filled, request) == Complete(s, request, digest)
  {
    hide Assets;
    var filled := WithAssets(Opened(s, request), request.build.version, Assets(request.build, digest, 6));
    assert filled.store.releases == Complete(s, request, digest).store.releases;
    assert Passed(filled, request).runs == Complete(s, request, digest).runs;
  }

  // ---------------------------------------------------------------------------------------------
  // Publishing
  // ---------------------------------------------------------------------------------------------

  /** What a publication's requests leave alone, what they only add to, and what they only take from. */
  ghost predicate Keeps(s: State, t: State) {
    && t.runs == s.runs && t.builders == s.builders && t.uploads == s.uploads && t.interrupted <= s.interrupted
    && t.unsettled == s.unsettled && t.nextRelease == s.nextRelease && s.latest.Keys <= t.latest.Keys
  }

  lemma OneRequest(s: State)
    requires s.job.Publishing?
    ensures var next := Step(s.store, s.job.request.build, RunsView(s.runs), s.job.phase);
            var t := Apply(s, PublishRequest);
            && Keeps(s, t) && t.store == next.0
            && t.job == if Terminal(next.1) then Idle else Publishing(s.job.request, next.1)
  {
    hide Step;
  }

  /** Run the publication to its end. */
  lemma {:induction false} RunToEnd(s: State) returns (states: seq<State>, events: seq<Event>, t: State)
    requires s.job.Publishing? && !Terminal(s.job.phase)
    ensures Leads(s, states, events, t) && Keeps(s, t) && t.job.Idle?
    ensures t.store == Finish(s.store, s.job.request.build, RunsView(s.runs), s.job.phase).0
    decreases Rank(s.job.phase).0, Rank(s.job.phase).1
  {
    OneRequest(s);
    FinishOne(s.store, s.job.request.build, RunsView(s.runs), s.job.phase);
    hide Step, Apply, Finish, Rank, Leads;
    t := Apply(s, PublishRequest);
    states, events := One(s, PublishRequest);
    if t.job.Publishing? {
      var s' := t;
      var more, next;
      more, next, t := RunToEnd(s');
      states, events := Join(s, states, events, s', more, next, t);
    }
  }

  lemma FinishOne(store: Store, build: Build, runs: map<nat, Run>, phase: Phase)
    requires !Terminal(phase)
    ensures var next := Step(store, build, runs, phase);
            && Finish(store, build, runs, phase) == Finish(next.0, build, runs, next.1)
            && (Rank(next.1).0 < Rank(phase).0 || (Rank(next.1).0 == Rank(phase).0 && Rank(next.1).1 < Rank(phase).1))
            && (Terminal(next.1) ==> Finish(next.0, build, runs, next.1) == next)
  {}

  /** Run the publication for `n` requests. */
  lemma {:induction false} RunFor(s: State, n: nat) returns (states: seq<State>, events: seq<Event>, t: State)
    requires s.job.Publishing? && !Terminal(s.job.phase)
    requires !Terminal(After(s.store, s.job.request.build, RunsView(s.runs), s.job.phase, n).1)
    ensures Leads(s, states, events, t) && Keeps(s, t)
    ensures var after := After(s.store, s.job.request.build, RunsView(s.runs), s.job.phase, n);
            t.store == after.0 && t.job == Publishing(s.job.request, after.1)
    decreases n
  {
    if n == 0 {
      t := s;
      states, events := Nothing(s);
    } else {
      OneRequest(s);
      TerminalStays(s.store, s.job.request.build, RunsView(s.runs), s.job.phase, n);
      hide Step, Apply;
      var s' := Apply(s, PublishRequest);
      states, events := One(s, PublishRequest);
      var more, next;
      more, next, t := RunFor(s', n - 1);
      states, events := Join(s, states, events, s', more, next, t);
    }
  }

  lemma TerminalStays(store: Store, build: Build, runs: map<nat, Run>, phase: Phase, n: nat)
    requires n > 0 && !Terminal(phase) && !Terminal(After(store, build, runs, phase, n).1)
    ensures var next := Step(store, build, runs, phase);
            !Terminal(next.1) && After(store, build, runs, phase, n) == After(next.0, build, runs, next.1, n - 1)
  {}

  /** A stable publication prunes nothing. */
  lemma StableOutcome(store: Store, build: Build, runs: map<nat, Run>)
    requires build.channel.StableChannel? && Preflight(store, build).Ok?
    ensures Finish(store, build, runs, FindRelease).0
         == Store(Undrafted(store, build), Some(Feeds(store)[build.channel := Preflight(store, build).value]))
  {
    PublicationOutcome(store, build, runs);
    assert Pruned(Undrafted(store, build), build, runs) == Undrafted(store, build);
  }

  /** Publish a cleared request whose checks pass. */
  lemma Publish(s: State, request: Request, feed: Feed) returns (states: seq<State>, events: seq<Event>, t: State)
    requires StableRequest(request) && Enabled(s, StartPublish(request))
             && Preflight(s.store, request.build) == Ok(feed)
    ensures Leads(s, states, events, t) && Keeps(s, t) && t.job.Idle?
    ensures t.store == Store(Undrafted(s.store, request.build), Some(Feeds(s.store)[request.build.channel := feed]))
  {
    StableOutcome(s.store, request.build, RunsView(s.runs));
    hide Preflight, Finish, Undrafted;
    var started := Apply(s, StartPublish(request));
    states, events := One(s, StartPublish(request));
    var more, next;
    more, next, t := RunToEnd(started);
    states, events := Join(s, states, events, started, more, next, t);
  }

  // ---------------------------------------------------------------------------------------------
  // A channel that goes back
  // ---------------------------------------------------------------------------------------------

  function Repeat(c: char, n: nat): (s: string)
    ensures |s| == n && forall i :: 0 <= i < n ==> s[i] == c
  {
    seq(n, _ => c)
  }

  const OLDER := Request(Build(StableChannel, Version(1, 0, 0, []), Source(Repeat('a', 40), Repeat('a', 64))), 1, 3)
  const NEWER := Request(Build(StableChannel, Version(1, 0, 1, []), Source(Repeat('b', 40), Repeat('b', 64))), 2, 3)

  const START := State(Store(map[], None), map[], map[], map[], Idle, 0, map[], map[], {}, {})

  lemma PathIsRun(states: seq<State>, events: seq<Event>, t: State)
    requires Leads(START, states, events, t)
    ensures IsRun(states, events) && Safe(t)
  {
    assert Initial(START);
    RunSafe(states, events, |events|);
  }

  /** The state in which both releases are complete, cleared and still drafts. */
  ghost function BothBuilt(): State {
    Complete(Complete(START, OLDER, 1), NEWER, 2)
  }

  /** Nothing is under way, and both requests are cleared. */
  ghost predicate BothCleared(s: State) {
    s.job.Idle? && s.uploads == map[] && Cleared(s.runs, s.builders, OLDER) && Cleared(s.runs, s.builders, NEWER)
  }

  lemma CanStart(s: State, request: Request)
    requires s.job.Idle? && s.uploads == map[] && Cleared(s.runs, s.builders, request)
    ensures Enabled(s, StartPublish(request))
  {}

  lemma StillCleared(s: State, t: State)
    requires BothCleared(s) && Keeps(s, t) && t.job.Idle?
    ensures BothCleared(t)
  {}

  lemma BuildBoth() returns (states: seq<State>, events: seq<Event>)
    ensures Leads(START, states, events, BothBuilt()) && BothCleared(BothBuilt())
  {
    hide Leads, Assets, Cleared, BothCleared, Untouched;
    var s := Complete(START, OLDER, 1);
    OneAfterOther();
    states, events := BuildRelease(START, OLDER, 1);
    var more, next := BuildRelease(s, NEWER, 2);
    BothAreCleared();
    states, events := Join(START, states, events, s, more, next, BothBuilt());
  }

  lemma OneAfterOther()
    ensures Untouched(START, OLDER) && Untouched(Complete(START, OLDER, 1), NEWER)
  {
    hide Assets;
  }

  lemma BothAreCleared()
    requires Cleared(Complete(START, OLDER, 1).runs, Complete(START, OLDER, 1).builders, OLDER)
    requires Cleared(BothBuilt().runs, BothBuilt().builders, NEWER)
    ensures BothCleared(BothBuilt())
  {
    hide Assets;
  }

  /** A store that holds both releases, the newer one published, and its feed. */
  ghost predicate NewerOut(store: Store, feed: Feed) {
    && Desktop(OLDER.build.version) in store.releases && Desktop(NEWER.build.version) in store.releases
    && store.releases[Desktop(OLDER.build.version)] == FullRelease(0, true, OLDER.build, 1)
    && store.releases[Desktop(NEWER.build.version)] == FullRelease(1, false, NEWER.build, 2)
    && store.updates == Some(map[StableChannel := feed])
    && ReadFeed(FullRelease(1, false, NEWER.build, 2), NEWER.build) == Ok(feed)
  }

  lemma NewerPasses(feed: Feed)
    requires ReadFeed(FullRelease(1, false, NEWER.build, 2), NEWER.build) == Ok(feed)
    ensures Preflight(BothBuilt().store, NEWER.build) == Ok(feed)
    ensures forall store :: NewerOut(store, feed) ==> Preflight(store, NEWER.build) == Ok(feed)
  {
    var published := FullRelease(1, false, NEWER.build, 2);
    DraftDoesNotMatter(published, NEWER.build, true);
    assert published.(draft := true) == FullRelease(1, true, NEWER.build, 2);
    ReadFeedComplete(published, NEWER.build);
    OrderDecides(NEWER.build.version, NEWER.build.version);
    hide ReadFeed, ValidFeed, Order;
  }

  lemma PublishNewer() returns (states: seq<State>, events: seq<Event>, t: State, feed: Feed)
    ensures Leads(START, states, events, t) && BothCleared(t) && NewerOut(t.store, feed)
  {
    hide *;
    feed := NewerReads();
    NewerPasses(feed);
    states, events := BuildBoth();
    BuiltCanStart();
    var more, next;
    more, next, t := Publish(BothBuilt(), NEWER, feed);
    states, events := Join(START, states, events, BothBuilt(), more, next, t);
    StillCleared(BothBuilt(), t);
    UndraftedBoth(feed);
  }

  lemma NewerReads() returns (feed: Feed)
    ensures ReadFeed(FullRelease(1, false, NEWER.build, 2), NEWER.build) == Ok(feed)
  {
    FullReads(NEWER, 2, FullRelease(1, false, NEWER.build, 2));
    feed := ReadFeed(FullRelease(1, false, NEWER.build, 2), NEWER.build).value;
  }

  lemma BuiltCanStart()
    requires BothCleared(BothBuilt())
    ensures StableRequest(NEWER) && Enabled(BothBuilt(), StartPublish(NEWER))
  {
    CanStart(BothBuilt(), NEWER);
  }

  lemma UndraftedBoth(feed: Feed)
    requires ReadFeed(FullRelease(1, false, NEWER.build, 2), NEWER.build) == Ok(feed)
    ensures Desktop(NEWER.build.version) in BothBuilt().store.releases
    ensures var store := BothBuilt().store;
            NewerOut(Store(Undrafted(store, NEWER.build), Some(Feeds(store)[NEWER.build.channel := feed])), feed)
  {
    hide ReadFeed, Assets, Repeat;
  }

  /** Publishing the newer build again, cut off after its feed was removed. */
  lemma CrashAfterRemoval(s: State, feed: Feed) returns (states: seq<State>, events: seq<Event>, t: State)
    requires NewerOut(s.store, feed) && BothCleared(s) && StableChannel in s.latest
    ensures Leads(s, states, events, t) && BothCleared(t)
    ensures t.store == s.store.(updates := Some(map[])) && StableChannel in t.interrupted
  {
    hide *;
    NewerCut(s.store, RunsView(s.runs), feed);
    NewerCanStart(s);
    var started := s.(job := Publishing(NEWER, FindRelease));
    states, events := One(s, StartPublish(NEWER));
    var more, next, cut;
    more, next, cut := RunFor(started, 7);
    states, events := Join(s, states, events, started, more, next, cut);
    Crashed(s, cut, feed);
    states, events := Then(s, states, events, cut, CrashPublish);
    t := Apply(cut, CrashPublish);
  }

  lemma NewerCut(store: Store, runs: map<nat, Run>, feed: Feed)
    requires NewerOut(store, feed)
    ensures After(store, NEWER.build, runs, FindRelease, 7) == (store.(updates := Some(map[])), PostFeed(feed))
    ensures !Terminal(FindRelease) && !Terminal(PostFeed(feed))
  {
    NewerPasses(feed);
    hide ReadFeed, Preflight;
    CutAfterRemoval(store, NEWER.build, runs, feed);
    assert store.updates.value - {StableChannel} == map[];
  }

  lemma NewerCanStart(s: State)
    requires BothCleared(s)
    ensures Enabled(s, StartPublish(NEWER))
            && Apply(s, StartPublish(NEWER)) == s.(job := Publishing(NEWER, FindRelease))
  {
    CanStart(s, NEWER);
  }

  lemma Crashed(s: State, cut: State, feed: Feed)
    requires BothCleared(s) && StableChannel in s.latest && Keeps(s.(job := Publishing(NEWER, FindRelease)), cut)
    requires cut.job == Publishing(NEWER, PostFeed(feed)) && cut.store == s.store.(updates := Some(map[]))
    ensures Enabled(cut, CrashPublish)
    ensures var t := Apply(cut, CrashPublish);
            BothCleared(t) && t.store == cut.store && StableChannel in t.interrupted
  {
    hide Cleared;
  }

  lemma OlderPasses(out: State, cut: State, newest: Feed) returns (feed: Feed)
    requires NewerOut(out.store, newest) && BothCleared(cut) && cut.store == out.store.(updates := Some(map[]))
    ensures Desktop(OLDER.build.version) in cut.store.releases && OLDER.build.channel == StableChannel
    ensures StableRequest(OLDER) && Enabled(cut, StartPublish(OLDER))
    ensures Preflight(cut.store, OLDER.build) == Ok(feed) && feed.version == OLDER.build.version
  {
    var release := FullRelease(0, true, OLDER.build, 1);
    FullReads(OLDER, 1, release);
    feed := ReadFeed(release, OLDER.build).value;
    ReadFeedComplete(release, OLDER.build);
    hide ReadFeed;
    CanStart(cut, OLDER);
  }

  /** A run, from nothing, in which the stable channel ends at an older version than it had: the older build is
      posted for the feed that a crash lost. */
  lemma ChannelGoesBack() returns (states: seq<State>, events: seq<Event>, i: nat, k: nat)
    ensures IsRun(states, events) && i <= k < |events| && GoesBack(states[k], events[k], StableChannel)
    ensures var before, after := states[i], states[|events|];
            && StableChannel in Feeds(before.store) && StableChannel in Feeds(after.store)
            && Order(Feeds(after.store)[StableChannel].version, Feeds(before.store)[StableChannel].version) < 0
  {
    var out, newest;
    states, events, out, newest := PublishNewer();
    PathIsRun(states, events, out);
    i := |events|;
    var more, next, t := GoBack(out, newest);
    states, events := Join(START, states, events, out, more, next, t);
    PathIsRun(states, events, t);
    k := WhereItWentBack(states, events, i);
    hide *;
  }

  lemma WhereItWentBack(states: seq<State>, events: seq<Event>, i: nat) returns (k: nat)
    requires IsRun(states, events) && i < |states|
    requires StableChannel in Feeds(states[i].store) && StableChannel in Feeds(states[|events|].store)
    requires Order(Feeds(states[|events|].store)[StableChannel].version,
                   Feeds(states[i].store)[StableChannel].version) < 0
    ensures i <= k < |events| && GoesBack(states[k], events[k], StableChannel)
  {
    hide GoesBack, Apply, Enabled, Order;
    if forall l :: i <= l < |events| ==> !GoesBack(states[l], events[l], StableChannel) {
      ChannelsOnlyAdvance(states, events, i, |events|, StableChannel);
      OrderDecides(Feeds(states[|events|].store)[StableChannel].version, Feeds(states[i].store)[StableChannel].version);
      assert false;
    }
    k :| i <= k < |events| && GoesBack(states[k], events[k], StableChannel);
  }

  /** The store that run passes through: the older build is refused, but not once a publication of the newer
      one was cut off after seven requests. */
  lemma RemovalWindowOpens(runs: map<nat, Run>) returns (store: Store)
    ensures Finish(store, OLDER.build, runs, FindRelease) == (store, Failed(Regression))
    ensures var cut := After(store, NEWER.build, runs, FindRelease, 7).0;
            && Finish(cut, OLDER.build, runs, FindRelease).1 == Published
            && StableChannel in Feeds(Finish(cut, OLDER.build, runs, FindRelease).0)
            && Feeds(Finish(cut, OLDER.build, runs, FindRelease).0)[StableChannel].version == OLDER.build.version
  {
    var _, _, t, feed := PublishNewer();
    store := t.store;
    NewerPasses(feed);
    FullReads(OLDER, 1, FullRelease(0, true, OLDER.build, 1));
    ReadFeedVersion(feed);
    hide ReadFeed, Preflight, Finish, After, Order;
    RemovalWindowForgetsOrder(store, NEWER.build, OLDER.build, runs);
  }

  /** From the newer build's feed to the older one's. */
  lemma GoBack(out: State, newest: Feed) returns (states: seq<State>, events: seq<Event>, t: State)
    requires NewerOut(out.store, newest) && BothCleared(out) && Safe(out)
    ensures Leads(out, states, events, t)
    ensures StableChannel in Feeds(out.store) && StableChannel in Feeds(t.store)
    ensures Order(Feeds(t.store)[StableChannel].version, Feeds(out.store)[StableChannel].version) < 0
  {
    hide *;
    StableHolds(out, newest);
    var cut;
    states, events, cut := CrashAfterRemoval(out, newest);
    var feed := OlderPasses(out, cut, newest);
    var more, next;
    more, next, t := Publish(cut, OLDER, feed);
    states, events := Join(out, states, events, cut, more, next, t);
    WentBack(out, cut, t, newest, feed);
  }

  lemma StableHolds(s: State, feed: Feed)
    requires Safe(s) && NewerOut(s.store, feed)
    ensures StableChannel in s.latest
  {
    LatestHolds(s);
    hide ReadFeed, Safe;
    assert StableChannel in Feeds(s.store);
  }

  lemma WentBack(out: State, cut: State, t: State, newest: Feed, feed: Feed)
    requires NewerOut(out.store, newest) && Keeps(cut, t)
    requires feed.version == OLDER.build.version && OLDER.build.channel == StableChannel
    requires Desktop(OLDER.build.version) in cut.store.releases
    requires t.store == Store(Undrafted(cut.store, OLDER.build), Some(Feeds(cut.store)[OLDER.build.channel := feed]))
    ensures StableChannel in Feeds(out.store) && StableChannel in Feeds(t.store)
    ensures Order(Feeds(t.store)[StableChannel].version, Feeds(out.store)[StableChannel].version) < 0
  {
    ReadFeedVersion(newest);
    hide ReadFeed, Order, Undrafted;
  }

  lemma LatestHolds(s: State)
    requires Safe(s)
    ensures forall c :: c in Feeds(s.store) ==> c in s.latest
  {}

  lemma ReadFeedVersion(feed: Feed)
    requires ReadFeed(FullRelease(1, false, NEWER.build, 2), NEWER.build) == Ok(feed)
    ensures feed.version == NEWER.build.version && Order(OLDER.build.version, feed.version) < 0
  {
    ReadFeedComplete(FullRelease(1, false, NEWER.build, 2), NEWER.build);
  }

  // ---------------------------------------------------------------------------------------------
  // A signature that no longer fits
  // ---------------------------------------------------------------------------------------------

  const REPLACED := Payload(LinuxX8664, NEWER.build.version)

  /** The complete release after an upload of other bytes was cut off behind the payload. */
  ghost function Mixed(): State {
    var s, v := Complete(START, NEWER, 1), NEWER.build.version;
    WithAssets(s, v, AssetsOf(s, v)[REPLACED := Bytes(2)]).(unsettled := {(v, LinuxX8664)})
  }

  /** The state once other bytes lie behind the payload's name. */
  ghost function Replaced(s: State, request: Request, p: Platform, digest: nat): State
    requires Desktop(request.build.version) in s.store.releases
  {
    var v := request.build.version;
    WithAssets(s, v, AssetsOf(s, v)[Payload(p, v) := Bytes(digest)]).(unsettled := s.unsettled + {(v, p)})
  }

  /** An upload of a platform that is all there: remove the payload, post other bytes, and stop. */
  lemma ReplacePayload(s: State, request: Request, p: Platform, digest: nat)
    returns (states: seq<State>, events: seq<Event>)
    requires s.uploads == map[] && Enabled(s, StartUpload(0, request, p, digest, 0))
    requires Desktop(request.build.version) in s.store.releases
    requires Payload(p, request.build.version) in AssetsOf(s, request.build.version)
    ensures Leads(s, states, events, Replaced(s, request, p, digest))
  {
    var u := StartsUpload(s, request, p, digest);
    hide *;
    var s1 := s.(uploads := map[0 := u]);
    states, events := One(s, StartUpload(0, request, p, digest, 0));
    RemovesPayload(s1, request, p);
    var s2 := Apply(s1, UploadRequest(0));
    states, events := Then(s, states, events, s1, UploadRequest(0));
    PostsPayload(s2, request, p);
    var s3 := Apply(s2, UploadRequest(0));
    states, events := Then(s, states, events, s2, UploadRequest(0));
    StopsUpload(s, request, p, u, s2, s3);
    states, events := Then(s, states, events, s3, AbortUpload(0));
  }

  lemma StartsUpload(s: State, request: Request, p: Platform, digest: nat) returns (u: Upload)
    requires s.uploads == map[] && Enabled(s, StartUpload(0, request, p, digest, 0))
    requires Payload(p, request.build.version) in AssetsOf(s, request.build.version)
    ensures u.digest == digest && Apply(s, StartUpload(0, request, p, digest, 0)) == s.(uploads := map[0 := u])
    ensures var s1 := s.(uploads := map[0 := u]);
            OnlyUpload(s1, request, p, false) && Enabled(s1, UploadRequest(0))
  {
    u := Upload(request, p, s.store.releases[Desktop(request.build.version)].id, digest, 0, 0, false);
  }

  lemma StopsUpload(s: State, request: Request, p: Platform, u: Upload, s2: State, s3: State)
    requires s.uploads == map[] && Desktop(request.build.version) in s.store.releases
    requires var v := request.build.version;
             s2 == WithAssets(s, v, Drop(AssetsOf(s, v), Payload(p, v))).(
                     uploads := map[0 := u.(removed := true)], unsettled := s.unsettled + {(v, p)})
    requires var v, w := request.build.version, u.(removed := true);
             s3 == WithAssets(s2, v, AssetsOf(s2, v)[Payload(p, v) := Bytes(w.digest)]).(
                     uploads := map[0 := w.(sent := 1, removed := false)], unsettled := s2.unsettled + {(v, p)})
    ensures Enabled(s3, AbortUpload(0)) && Apply(s3, AbortUpload(0)) == Replaced(s, request, p, u.digest)
  {
    hide UploadPlan, SendAsset, PublishStep;
    var v := request.build.version;
    var assets, name := AssetsOf(s, v), Payload(p, v);
    assert Drop(assets, name)[name := Bytes(u.digest)] == assets[name := Bytes(u.digest)];
    assert s3.store == Replaced(s, request, p, u.digest).store;
    assert Drop(s3.uploads, 0) == map[];
  }

  ghost predicate OnlyUpload(s: State, request: Request, p: Platform, removed: bool) {
    var v := request.build.version;
    && Desktop(v) in s.store.releases && s.uploads.Keys == {0} && s.uploads[0].request == request
    && s.uploads[0].platform == p && s.uploads[0].sent == 0 && s.uploads[0].removed == removed
    && s.uploads[0].release == s.store.releases[Desktop(v)].id
    && (Payload(p, v) in AssetsOf(s, v) <==> !removed)
  }

  lemma RemovesPayload(s: State, request: Request, p: Platform)
    requires OnlyUpload(s, request, p, false) && Enabled(s, UploadRequest(0))
    ensures var v, s' := request.build.version, Apply(s, UploadRequest(0));
            && s' == WithAssets(s, v, Drop(AssetsOf(s, v), Payload(p, v))).(
                       uploads := map[0 := s.uploads[0].(removed := true)], unsettled := s.unsettled + {(v, p)})
            && OnlyUpload(s', request, p, true) && Enabled(s', UploadRequest(0))
  {
    assert Plan(s.uploads[0])[0].0 == Payload(p, request.build.version);
    assert s.uploads[0 := s.uploads[0].(removed := true)] == map[0 := s.uploads[0].(removed := true)];
  }

  lemma PostsPayload(s: State, request: Request, p: Platform)
    requires OnlyUpload(s, request, p, true) && Enabled(s, UploadRequest(0))
    ensures var v, u, s' := request.build.version, s.uploads[0], Apply(s, UploadRequest(0));
            s' == WithAssets(s, v, AssetsOf(s, v)[Payload(p, v) := Bytes(u.digest)]).(
                    uploads := map[0 := u.(sent := 1, removed := false)], unsettled := s.unsettled + {(v, p)})
  {
    var u := s.uploads[0];
    assert Plan(u)[0] == (Payload(p, request.build.version), Bytes(u.digest)) && |Plan(u)| > 1;
    assert s.uploads[0 := u.(sent := 1, removed := false)] == map[0 := u.(sent := 1, removed := false)];
  }

  /** The complete release can still be uploaded to. */
  lemma NewerComplete()
    ensures var s := Complete(START, NEWER, 1);
            && Untouched(START, NEWER) && s.uploads == map[] && s.job.Idle? && s.unsettled == {}
            && Enabled(s, StartUpload(0, NEWER, LinuxX8664, 2, 0))
            && Desktop(NEWER.build.version) in s.store.releases
            && Payload(LinuxX8664, NEWER.build.version) in AssetsOf(s, NEWER.build.version) && StableRequest(NEWER)
  {
    FragmentThere(NEWER, 1, 2);
    assert UPDATE_PLATFORMS[2] == LinuxX8664;
    hide Assets;
  }

  /** A run, from nothing, that ends with a public feed whose signature for one platform is not that of the
      bytes stored for it: an upload of other bytes was begun and cut off before publication. */
  lemma SignatureStopsFitting() returns (states: seq<State>, events: seq<Event>)
    ensures IsRun(states, events) && Misfit(states[|events|].store)
  {
    hide *;
    var s := Complete(START, NEWER, 1);
    NewerComplete();
    states, events := BuildRelease(START, NEWER, 1);
    var more, next := ReplacePayload(s, NEWER, LinuxX8664, 2);
    MixedIs();
    states, events := Join(START, states, events, s, more, next, Mixed());
    var feed := MixedPasses();
    MixedCanStart();
    var t;
    more, next, t := Publish(Mixed(), NEWER, feed);
    states, events := Join(START, states, events, Mixed(), more, next, t);
    PathIsRun(states, events, t);
    LeadsTo(states, events, t);
    PublishedMisfit(t.store, feed);
  }

  lemma LeadsTo(states: seq<State>, events: seq<Event>, t: State)
    requires Leads(START, states, events, t)
    ensures |events| < |states| && states[|events|] == t
  {}

  /** The channel's feed signs other bytes than those stored. */
  ghost predicate Misfit(store: Store) {
    var v := NEWER.build.version;
    && StableChannel in Feeds(store) && Desktop(v) in store.releases
    && var feed, release := Feeds(store)[StableChannel], store.releases[Desktop(v)];
       && feed.version == v && LinuxX8664 in feed.platforms && feed.platforms[LinuxX8664].signature == Some(1)
       && feed.platforms[LinuxX8664].url == Download(Desktop(v), Payload(LinuxX8664, v))
       && Payload(LinuxX8664, v) in release.assets && release.assets[Payload(LinuxX8664, v)] == Bytes(2)
  }

  lemma MixedIs()
    ensures Desktop(NEWER.build.version) in Complete(START, NEWER, 1).store.releases
    ensures Replaced(Complete(START, NEWER, 1), NEWER, LinuxX8664, 2) == Mixed()
  {
    hide Assets;
  }

  lemma MixedCanStart()
    requires Cleared(Complete(START, NEWER, 1).runs, Complete(START, NEWER, 1).builders, NEWER)
    ensures Enabled(Mixed(), StartPublish(NEWER))
  {
    hide Cleared, Assets;
    CanStart(Mixed(), NEWER);
  }

  lemma PublishedMisfit(store: Store, feed: Feed)
    requires feed.version == NEWER.build.version && LinuxX8664 in feed.platforms
    requires feed.platforms[LinuxX8664] == FullEntry(NEWER.build, LinuxX8664, 1)
    requires Desktop(NEWER.build.version) in Mixed().store.releases
    requires store == Store(Undrafted(Mixed().store, NEWER.build),
                            Some(Feeds(Mixed().store)[NEWER.build.channel := feed]))
    ensures Misfit(store)
  {
    hide Assets;
  }

  lemma MixedPasses() returns (feed: Feed)
    ensures Preflight(Mixed().store, NEWER.build) == Ok(feed) && feed.version == NEWER.build.version
    ensures Desktop(NEWER.build.version) in Mixed().store.releases
    ensures LinuxX8664 in feed.platforms && feed.platforms[LinuxX8664] == FullEntry(NEWER.build, LinuxX8664, 1)
  {
    var v := NEWER.build.version;
    var release := FullRelease(0, true, NEWER.build, 1);
    FullReads(NEWER, 1, release);
    feed := ReadFeed(release, NEWER.build).value;
    ReadFeedComplete(release, NEWER.build);
    FragmentThere(NEWER, 1, 2);
    assert UPDATE_PLATFORMS[2] == LinuxX8664 && REPLACED in release.assets;
    PayloadBytesUnchecked(release, NEWER.build, REPLACED, 2);
    assert Mixed().store.releases[Desktop(v)] == release.(assets := release.assets[REPLACED := Bytes(2)]);
  }
}
