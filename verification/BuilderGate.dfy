/** When a release may be published, read off the private builders' workflow runs, and the removal of their
    handoffs afterwards. */
module BuilderGate {
  import opened Wrappers
  import opened Releases
  import opened ReleaseProtocol
  import opened ReleaseApi

  /** `builderRunName`, or any other title. */
  datatype Title = ReleaseTitle(builder: Builder, run: nat, attempt: nat) | OtherTitle(text: string)

  /** `trusted`: on main, in the builder repository, from the builder's own workflow file. */
  datatype BuilderRun = BuilderRun(id: nat, attempt: nat, title: Title, completed: bool, success: bool, trusted: bool)

  datatype Readiness = NotReady | Ready(run: nat, attempt: nat) | Rejected

  // ---------------------------------------------------------------------------------------------
  // One builder
  // ---------------------------------------------------------------------------------------------

  /** The first run of a title in a listing, which GitHub sorts newest first. */
  function First(listing: seq<BuilderRun>, title: Title): (r: Option<BuilderRun>)
    ensures r.Some? ==> r.value in listing && r.value.title == title
    ensures r.None? ==> forall run :: run in listing ==> run.title != title
  {
    if listing == [] then None else if listing[0].title == title then Some(listing[0]) else First(listing[1..], title)
  }

  function Judge(run: Option<BuilderRun>): Readiness {
    if run.None? || !run.value.completed then NotReady
    else if !run.value.success || !run.value.trusted then Rejected
    else Ready(run.value.id, run.value.attempt)
  }

  lemma {:induction false} FirstOfParts(a: seq<BuilderRun>, b: seq<BuilderRun>, title: Title)
    ensures First(a + b, title) == if First(a, title).Some? then First(a, title) else First(b, title)
    decreases |a|
  {
    if a == [] {
      assert a + b == b;
    } else {
      FirstOfParts(a[1..], b, title);
      assert (a + b)[1..] == a[1..] + b;
    }
  }

  lemma NoneOfNone(title: Title)
    ensures First([], title).None? && Judge(None) == NotReady
  {}

  /** resolveBuilderRun: page by page, up to the first run of the title. */
  method ResolveBuilderRun(listing: seq<BuilderRun>, title: Title) returns (r: Readiness)
    ensures r == Judge(First(listing, title))
  {
    hide First, Judge;
    NoneOfNone(title);
    var page := 1;
    while true
      invariant page >= 1 && (page - 1) * PER_PAGE <= |listing|
      invariant First(Pages(listing, page - 1), title).None?
      decreases |listing| + PER_PAGE - page * PER_PAGE
    {
      NextPage(listing, page);
      var runs := Page(listing, page);
      FirstOfParts(Pages(listing, page - 1), runs, title);
      var run := First(runs, title);
      if run.Some? {
        FirstOfParts(Pages(listing, page), listing[|Pages(listing, page)|..], title);
        assert listing == Pages(listing, page) + listing[|Pages(listing, page)|..];
        return Judge(run);
      }
      if |runs| < PER_PAGE { return NotReady; }
      page := page + 1;
    }
  }

  // ---------------------------------------------------------------------------------------------
  // All of them
  // ---------------------------------------------------------------------------------------------

  datatype Gate = Publish | Wait | Refuse

  function TitleOf(request: Request, attempt: nat, builder: Builder): Title {
    ReleaseTitle(builder, request.run, attempt)
  }

  /** What a builder's runs say about a request. */
  function Verdict(request: Request, attempt: nat, builder: Builder, listings: map<Builder, seq<BuilderRun>>)
    : Readiness
  {
    if builder in listings then Judge(First(listings[builder], TitleOf(request, attempt, builder))) else NotReady
  }

  /** The hosted run and every requested builder have succeeded. */
  ghost predicate Opens(request: Request, attempt: nat, hosted: Status, listings: map<Builder, seq<BuilderRun>>) {
    hosted.Succeeded? && forall b :: b in RequestedBuilders(request) ==> Verdict(request, attempt, b, listings).Ready?
  }

  /** The publish mode of main, with resolvePrivateBuilds. A builder that did not succeed refuses the release
      even while others still run. */
  method PublishGate(request: Request, attempt: nat, hosted: Status, listings: map<Builder, seq<BuilderRun>>)
    returns (gate: Gate)
    ensures gate.Publish? <==> Opens(request, attempt, hosted, listings)
    ensures gate.Refuse? <==>
              || hosted == Status.Unsuccessful
              || (hosted.Succeeded?
                  && exists b :: b in RequestedBuilders(request) && Verdict(request, attempt, b, listings).Rejected?)
  {
    if hosted.InProgress? { return Wait; }
    if !hosted.Succeeded? { return Refuse; }
    var ready, refused := true, false;
    var left := RequestedBuilders(request);
    while left != {}
      invariant left <= RequestedBuilders(request)
      invariant ready <==>
                  forall b :: b in RequestedBuilders(request) - left ==> Verdict(request, attempt, b, listings).Ready?
      invariant refused <==>
                  exists b :: b in RequestedBuilders(request) - left && Verdict(request, attempt, b, listings).Rejected?
      decreases left
    {
      var builder :| builder in left;
      var verdict := NotReady;
      if builder in listings { verdict := ResolveBuilderRun(listings[builder], TitleOf(request, attempt, builder)); }
      assert RequestedBuilders(request) - (left - {builder}) == RequestedBuilders(request) - left + {builder};
      ready := ready && verdict.Ready?;
      refused := refused || verdict.Rejected?;
      left := left - {builder};
    }
    if refused { return Refuse; }
    return if ready then Publish else Wait;
  }

  /** The statuses the release protocol is gated on, as the listings give them. */
  function BuilderStatus(verdict: Readiness): Status {
    match verdict
    case NotReady => InProgress
    case Ready(_, _) => Succeeded
    case Rejected => Status.Unsuccessful
  }

  // ---------------------------------------------------------------------------------------------
  // The release protocol behind the gate
  // ---------------------------------------------------------------------------------------------

  /** The protocol's state, and the builders' runs as GitHub lists them. */
  datatype Gated = Gated(state: State, listings: map<Builder, seq<BuilderRun>>)

  /** A builder's run appears, and completes; the publish mode is tried; anything else happens. */
  datatype GatedEvent =
    | Dispatch(builder: Builder, run: BuilderRun)
    | Complete(builder: Builder, index: nat, success: bool)
    | TryPublish(request: Request)
    | Other(event: Event)

  function Listing(g: Gated, builder: Builder): seq<BuilderRun> {
    ListingOf(g.listings, builder)
  }

  function ListingOf(listings: map<Builder, seq<BuilderRun>>, builder: Builder): seq<BuilderRun> {
    if builder in listings then listings[builder] else []
  }

  /** The request a builder's run works for: its title names the run and that run's attempt. */
  predicate WorksFor(builder: Builder, title: Title, attempts: nat -> nat) {
    title.ReleaseTitle? && title.builder == builder && title.attempt == attempts(title.run)
  }

  /** A title is dispatched once, and a completed run stays as it is. */
  ghost predicate CanHappen(g: Gated, e: GatedEvent, attempts: nat -> nat) {
    match e
    case Dispatch(builder, run) => !run.completed && First(Listing(g, builder), run.title).None?
    case Complete(builder, index, _) => index < |Listing(g, builder)| && !Listing(g, builder)[index].completed
    case TryPublish(request) =>
      && g.state.job.Idle? && ValidRequest(request) && request.run in g.state.runs
      && !InFlight(g.state.uploads, request.build.version)
    case Other(event) => !event.FinishBuilder? && !event.StartPublish? && Enabled(g.state, event)
  }

  function Completed(run: BuilderRun, success: bool): BuilderRun {
    run.(completed := true, success := success)
  }

  /** What an event means for the protocol. */
  ghost function Meaning(g: Gated, e: GatedEvent, attempts: nat -> nat): Option<Event>
    requires CanHappen(g, e, attempts)
  {
    match e
    case Dispatch(_, _) => None
    case Complete(builder, index, success) =>
      var run := Listing(g, builder)[index];
      if WorksFor(builder, run.title, attempts) then Some(FinishBuilder(run.title.run, builder, success && run.trusted))
      else None
    case TryPublish(request) =>
      if Opens(request, attempts(request.run), g.state.runs[request.run], g.listings) then Some(StartPublish(request))
      else None
    case Other(event) => Some(event)
  }

  ghost function NextListings(g: Gated, e: GatedEvent, attempts: nat -> nat): map<Builder, seq<BuilderRun>>
    requires CanHappen(g, e, attempts)
  {
    match e
    case Dispatch(builder, run) => g.listings[builder := [run] + Listing(g, builder)]
    case Complete(builder, index, success) =>
      g.listings[builder := Listing(g, builder)[index := Completed(Listing(g, builder)[index], success)]]
    case TryPublish(_) => g.listings
    case Other(_) => g.listings
  }

  ghost predicate Happens(g: Gated, e: GatedEvent, attempts: nat -> nat, next: Gated) {
    && CanHappen(g, e, attempts) && next.listings == NextListings(g, e, attempts)
    && var event := Meaning(g, e, attempts);
       if event.Some? then Enabled(g.state, event.value) && next.state == Apply(g.state, event.value)
       else next.state == g.state
  }

  ghost predicate ListedOnce(listing: seq<BuilderRun>) {
    forall i, j :: 0 <= i < j < |listing| ==> listing[i].title != listing[j].title
  }

  /** What a builder's listing says of a run. */
  function StatusIn(listing: seq<BuilderRun>, builder: Builder, run: nat, attempts: nat -> nat): Status {
    BuilderStatus(Judge(First(listing, ReleaseTitle(builder, run, attempts(run)))))
  }

  ghost predicate Agrees(listing: seq<BuilderRun>, builder: Builder, builders: map<(nat, Builder), Status>,
                         attempts: nat -> nat) {
    forall run: nat ::
      var status := StatusIn(listing, builder, run, attempts);
      if (run, builder) in builders then status == builders[(run, builder)] && status != InProgress
      else status == InProgress
  }

  /** The statuses the protocol holds are those the listings give, and titles are listed once. */
  ghost predicate Reports(g: Gated, attempts: nat -> nat) {
    forall b: Builder :: ListedOnce(Listing(g, b)) && Agrees(Listing(g, b), b, g.state.builders, attempts)
  }

  /** The gate opens exactly when the protocol calls the request cleared. */
  lemma GateIsCleared(g: Gated, request: Request, attempts: nat -> nat)
    requires Reports(g, attempts) && ValidRequest(request) && request.run in g.state.runs
    ensures Opens(request, attempts(request.run), g.state.runs[request.run], g.listings)
       <==> Cleared(g.state.runs, g.state.builders, request)
  {
    forall b: Builder
      ensures Verdict(request, attempts(request.run), b, g.listings)
           == Judge(First(Listing(g, b), ReleaseTitle(b, request.run, attempts(request.run))))
      ensures Agrees(Listing(g, b), b, g.state.builders, attempts)
    {}
  }

  lemma {:induction false} FirstAt(listing: seq<BuilderRun>, k: nat)
    requires k < |listing| && forall i, j :: 0 <= i < j < |listing| ==> listing[i].title != listing[j].title
    ensures First(listing, listing[k].title) == Some(listing[k])
  {
    if k > 0 { FirstAt(listing[1..], k - 1); }
  }

  lemma {:induction false} FirstAfterUpdate(listing: seq<BuilderRun>, k: nat, run: BuilderRun, title: Title)
    requires k < |listing| && run.title == listing[k].title && title != run.title
    ensures First(listing[k := run], title) == First(listing, title)
  {
    var updated := listing[k := run];
    if k == 0 {
      assert updated[1..] == listing[1..];
    } else {
      FirstAfterUpdate(listing[1..], k - 1, run, title);
      assert updated[1..] == listing[1..][k - 1 := run];
    }
  }

  lemma DispatchKeeps(listing: seq<BuilderRun>, run: BuilderRun, builder: Builder,
                      builders: map<(nat, Builder), Status>, attempts: nat -> nat)
    requires ListedOnce(listing) && Agrees(listing, builder, builders, attempts)
    requires !run.completed && First(listing, run.title).None?
    ensures ListedOnce([run] + listing) && Agrees([run] + listing, builder, builders, attempts)
  {
    var longer := [run] + listing;
    assert longer[1..] == listing;
    forall i, j | 0 <= i < j < |longer| ensures longer[i].title != longer[j].title {
      assert longer[j] == listing[j - 1] && listing[j - 1] in listing;
    }
    forall r: nat ensures StatusIn(longer, builder, r, attempts) == StatusIn(listing, builder, r, attempts) {}
  }

  lemma CompleteKeeps(listing: seq<BuilderRun>, index: nat, success: bool, builder: Builder,
                      builders: map<(nat, Builder), Status>, attempts: nat -> nat)
    requires ListedOnce(listing) && Agrees(listing, builder, builders, attempts)
    requires index < |listing| && !listing[index].completed
    ensures var run := listing[index];
            var updated := listing[index := Completed(run, success)];
            && ListedOnce(updated)
            && if WorksFor(builder, run.title, attempts) then
                 var status := if success && run.trusted then Succeeded else Status.Unsuccessful;
                 && (run.title.run, builder) !in builders
                 && Agrees(updated, builder, builders[(run.title.run, builder) := status], attempts)
               else Agrees(updated, builder, builders, attempts)
  {
    var run := listing[index];
    var done := Completed(run, success);
    var updated := listing[index := done];
    FirstAt(listing, index);
    FirstAt(updated, index);
    forall r: nat | ReleaseTitle(builder, r, attempts(r)) != run.title
      ensures StatusIn(updated, builder, r, attempts) == StatusIn(listing, builder, r, attempts)
    {
      FirstAfterUpdate(listing, index, done, ReleaseTitle(builder, r, attempts(r)));
    }
    if WorksFor(builder, run.title, attempts) {
      assert StatusIn(listing, builder, run.title.run, attempts) == InProgress;
    }
  }

  /** Every step keeps the protocol's statuses and the listings in agreement, and is a step of the protocol or
      none at all. */
  lemma StepMeans(g: Gated, e: GatedEvent, attempts: nat -> nat, next: Gated) returns (event: Option<Event>)
    requires Reports(g, attempts) && Happens(g, e, attempts, next)
    ensures if event.Some? then Enabled(g.state, event.value) && next.state == Apply(g.state, event.value)
            else next.state == g.state
    ensures Reports(next, attempts)
  {
    event := Meaning(g, e, attempts);
    match e
    case Dispatch(builder, run) =>
      DispatchKeeps(Listing(g, builder), run, builder, g.state.builders, attempts);
      OtherListings(g, next, builder, attempts);
    case Complete(builder, index, success) =>
      CompleteKeeps(Listing(g, builder), index, success, builder, g.state.builders, attempts);
      OtherListings(g, next, builder, attempts);
    case TryPublish(_) =>
      SameReports(g, next, attempts);
    case Other(other) =>
      SameReports(g, next, attempts);
  }

  /** No event behind the gate is held up: when the gate opens, or a builder's run completes, the protocol can
      take the step. */
  lemma NothingHeldUp(g: Gated, e: GatedEvent, attempts: nat -> nat)
    requires Reports(g, attempts) && CanHappen(g, e, attempts)
    ensures Meaning(g, e, attempts).Some? ==> Enabled(g.state, Meaning(g, e, attempts).value)
  {
    match e
    case Dispatch(_, _) =>
    case Complete(builder, index, success) =>
      CompleteKeeps(Listing(g, builder), index, success, builder, g.state.builders, attempts);
    case TryPublish(request) => GateIsCleared(g, request, attempts);
    case Other(_) =>
  }

  lemma SameReports(g: Gated, next: Gated, attempts: nat -> nat)
    requires Reports(g, attempts) && next.listings == g.listings && next.state.builders == g.state.builders
    ensures Reports(next, attempts)
  {
    hide Agrees, ListedOnce;
    forall b: Builder
      ensures ListedOnce(Listing(next, b)) && Agrees(Listing(next, b), b, next.state.builders, attempts)
    {
      assert Listing(next, b) == Listing(g, b);
    }
  }

  /** Only one builder's listing and statuses have changed. */
  lemma OtherListings(g: Gated, next: Gated, builder: Builder, attempts: nat -> nat)
    requires Reports(g, attempts)
    requires forall b: Builder :: b != builder ==> Listing(next, b) == Listing(g, b)
    requires forall run: nat, b: Builder :: b != builder ==>
               ((run, b) in next.state.builders <==> (run, b) in g.state.builders)
               && ((run, b) in g.state.builders ==> next.state.builders[(run, b)] == g.state.builders[(run, b)])
    requires ListedOnce(Listing(next, builder))
             && Agrees(Listing(next, builder), builder, next.state.builders, attempts)
    ensures Reports(next, attempts)
  {
    forall b: Builder
      ensures ListedOnce(Listing(next, b)) && Agrees(Listing(next, b), b, next.state.builders, attempts)
    {
      if b != builder { assert Agrees(Listing(g, b), b, g.state.builders, attempts); }
    }
  }

  ghost predicate IsGatedRun(gs: seq<Gated>, es: seq<GatedEvent>, attempts: nat -> nat) {
    && |gs| == |es| + 1 && Initial(gs[0].state) && gs[0].listings == map[]
    && forall i :: 0 <= i < |es| ==> Happens(gs[i], es[i], attempts, gs[i + 1])
  }

  /** Whatever the builders' listings go through, the releases behind the gate go through a run of the release
      protocol, so all its guarantees hold of them; and the gate opens exactly on cleared requests. */
  lemma {:induction false} GatedRunsAreRuns(gs: seq<Gated>, es: seq<GatedEvent>, attempts: nat -> nat, n: nat)
    returns (states: seq<State>, events: seq<Event>)
    requires IsGatedRun(gs, es, attempts) && n < |gs|
    ensures IsRun(states, events) && states[|events|] == gs[n].state && Reports(gs[n], attempts)
    decreases n
  {
    hide Reports, Apply, Enabled, Happens;
    if n == 0 {
      FreshReports(gs[0], attempts);
      states, events := [gs[0].state], [];
    } else {
      states, events := GatedRunsAreRuns(gs, es, attempts, n - 1);
      assert Happens(gs[n - 1], es[n - 1], attempts, gs[n - 1 + 1]);
      var event := StepMeans(gs[n - 1], es[n - 1], attempts, gs[n]);
      if event.Some? {
        states, events := Extend(states, events, event.value, gs[n].state);
      }
    }
  }

  lemma FreshReports(g: Gated, attempts: nat -> nat)
    requires Initial(g.state) && g.listings == map[]
    ensures Reports(g, attempts)
  {}

  lemma Extend(states: seq<State>, events: seq<Event>, e: Event, next: State)
    returns (longer: seq<State>, more: seq<Event>)
    requires IsRun(states, events) && Enabled(states[|events|], e) && next == Apply(states[|events|], e)
    ensures IsRun(longer, more) && longer[|more|] == next
  {
    hide Apply, Enabled;
    longer, more := states + [next], events + [e];
    forall i | 0 <= i < |more| ensures Enabled(longer[i], more[i]) && longer[i + 1] == Apply(longer[i], more[i]) {
      if i < |events| { assert longer[i] == states[i] && longer[i + 1] == states[i + 1]; }
    }
  }

  // ---------------------------------------------------------------------------------------------
  // Removing the handoffs
  // ---------------------------------------------------------------------------------------------

  datatype ArtifactName = Output(builder: Builder, run: nat, attempt: nat) | Qualification(run: nat, attempt: nat)
                        | OtherArtifact(text: string)

  datatype Artifact = Artifact(run: nat, name: ArtifactName)

  function Names(request: Request, attempt: nat, builder: Builder): set<ArtifactName> {
    {Output(builder, request.run, attempt)} + if builder.Windows? then {Qualification(request.run, attempt)} else {}
  }

  /** An artifact that a requested builder's run left for this request. */
  ghost predicate Handoff(a: Artifact, request: Request, attempt: nat, listings: map<Builder, seq<BuilderRun>>) {
    exists b :: b in RequestedBuilders(request) && Verdict(request, attempt, b, listings).Ready?
                && a.run == Verdict(request, attempt, b, listings).run && a.name in Names(request, attempt, b)
  }

  /** It comes from a requested builder's own successful, trusted run, and is that builder's output for the request's
      run and attempt, or the Windows builder's qualification. */
  lemma HandoffExactly(a: Artifact, request: Request, attempt: nat, listings: map<Builder, seq<BuilderRun>>)
    ensures Handoff(a, request, attempt, listings)
       <==> exists b ::
              && b in RequestedBuilders(request) && b in listings
              && (a.name == Output(b, request.run, attempt)
                  || (b == Windows && a.name == Qualification(request.run, attempt)))
              && var first := First(listings[b], ReleaseTitle(b, request.run, attempt));
                 first.Some? && first.value.completed && first.value.success && first.value.trusted
                 && a.run == first.value.id
  {
    hide First;
  }

  /** The matching release is out, and every requested builder has finished. */
  ghost predicate MayClean(release: Option<Release>, request: Request, attempt: nat,
                           listings: map<Builder, seq<BuilderRun>>) {
    && release.Some? && !release.value.draft && release.value.marker == Some(request.build.source)
    && forall b :: b in RequestedBuilders(request) ==> Verdict(request, attempt, b, listings).Ready?
  }

  class ArtifactStore {
    var artifacts: map<nat, Artifact>

    constructor (artifacts: map<nat, Artifact>)
      ensures this.artifacts == artifacts
    {
      this.artifacts := artifacts;
    }

    /** cleanupPublishedBuildArtifacts: collect everything first, then delete; `budget` deletions succeed
        before the client is cut off. Nothing but handoffs of a published release ever goes, and a run that
        ends has removed them all. */
    method Cleanup(release: Option<Release>, request: Request, attempt: nat, listings: map<Builder, seq<BuilderRun>>,
                   budget: nat) returns (done: bool)
      modifies this
      ensures !MayClean(release, request, attempt, listings) ==> !done && artifacts == old(artifacts)
      ensures forall id :: id in artifacts ==> id in old(artifacts) && artifacts[id] == old(artifacts)[id]
      ensures forall id :: id in old(artifacts) && id !in artifacts ==>
                Handoff(old(artifacts)[id], request, attempt, listings)
      ensures done ==> forall id :: id in artifacts ==> !Handoff(artifacts[id], request, attempt, listings)
      ensures MayClean(release, request, attempt, listings) && !done ==> |old(artifacts)| - |artifacts| == budget
      ensures |old(artifacts)| - |artifacts| <= budget
    {
      hide First, Judge, Names, RequestedBuilders;
      if release.None? || release.value.draft || release.value.marker != Some(request.build.source) { return false; }
      var handoffs: set<nat> := {};
      var left := RequestedBuilders(request);
      while left != {}
        invariant left <= RequestedBuilders(request) && artifacts == old(artifacts)
        invariant forall b :: b in RequestedBuilders(request) - left ==> Verdict(request, attempt, b, listings).Ready?
        invariant forall id :: id in handoffs <==>
                    id in artifacts
                    && exists b :: b in RequestedBuilders(request) - left
                         && Verdict(request, attempt, b, listings).Ready?
                         && artifacts[id].run == Verdict(request, attempt, b, listings).run
                         && artifacts[id].name in Names(request, attempt, b)
        decreases left
      {
        var builder :| builder in left;
        var run := NotReady;
        if builder in listings { run := ResolveBuilderRun(listings[builder], TitleOf(request, attempt, builder)); }
        if !run.Ready? { return false; }
        assert RequestedBuilders(request) - (left - {builder}) == RequestedBuilders(request) - left + {builder};
        handoffs := handoffs + set id | id in artifacts && artifacts[id].run == run.run
                                        && artifacts[id].name in Names(request, attempt, builder);
        left := left - {builder};
      }
      done := DeleteAll(handoffs, budget);
    }

    /** The deletions, of which `budget` succeed before the client is cut off. */
    method DeleteAll(handoffs: set<nat>, budget: nat) returns (done: bool)
      requires handoffs <= artifacts.Keys
      modifies this
      ensures artifacts.Keys <= old(artifacts).Keys && old(artifacts).Keys - artifacts.Keys <= handoffs
      ensures forall id :: id in artifacts ==> artifacts[id] == old(artifacts)[id]
      ensures done ==> artifacts.Keys !! handoffs
      ensures |old(artifacts)| - |artifacts| <= budget && (!done ==> |old(artifacts)| - |artifacts| == budget)
    {
      var left, allowed := handoffs, budget;
      while left != {}
        invariant left <= handoffs && left <= artifacts.Keys && artifacts.Keys !! (handoffs - left)
        invariant artifacts.Keys <= old(artifacts).Keys && old(artifacts).Keys - artifacts.Keys <= handoffs
        invariant forall id :: id in artifacts ==> artifacts[id] == old(artifacts)[id]
        invariant |old(artifacts)| - |artifacts| == budget - allowed
        decreases left
      {
        var id :| id in left;
        if allowed == 0 { return false; }
        allowed := allowed - 1;
        artifacts := artifacts - {id};
        left := left - {id};
      }
      return true;
    }
  }
}
