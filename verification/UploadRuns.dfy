/** How an upload ends that is left alone, whatever its release held before: every name of its plan holds what the plan
    says, and nothing else has changed. */
module UploadRuns {
  import opened Wrappers
  import opened Versions
  import opened Releases
  import opened Publication
  import opened ReleaseProtocol
  import opened ReleaseWitnesses

  /** At most `n` requests of the upload, as long as it goes on. */
  ghost function SendMany(s: State, i: nat, n: nat): State
    decreases n
  {
    if n == 0 || i !in s.uploads then s else SendMany(SendAsset(s, i), i, n - 1)
  }

  /** The upload's release is there, and the name it removed last has not been taken again. */
  ghost predicate Undisturbed(s: State, i: nat) {
    && i in s.uploads && Sending(s.store.releases, s.uploads[i])
    && (s.uploads[i].removed ==>
          Plan(s.uploads[i])[s.uploads[i].sent].0 !in AssetsOf(s, s.uploads[i].request.build.version))
  }

  /** The state once the rest of the plan is posted over what was there. */
  ghost function Replaced(s: State, i: nat): State
    requires Undisturbed(s, i)
  {
    var u := s.uploads[i];
    var v := u.request.build.version;
    WithAssets(s, v, PostAll(AssetsOf(s, v), Plan(u)[u.sent..])).(
      uploads := Drop(s.uploads, i), unsettled := s.unsettled - {(v, u.platform)})
  }

  /** A name that is taken is freed first. */
  lemma FreeName(s: State, i: nat)
    requires Undisturbed(s, i) && !s.uploads[i].removed
    requires Plan(s.uploads[i])[s.uploads[i].sent].0 in AssetsOf(s, s.uploads[i].request.build.version)
    ensures var u, s' := s.uploads[i], SendAsset(s, i);
            && Undisturbed(s', i) && s'.uploads[i] == u.(removed := true) && Replaced(s', i) == Replaced(s, i)
  {
    hide UploadPlan;
    var u := s.uploads[i];
    var v, s' := u.request.build.version, SendAsset(s, i);
    var rest := Plan(u)[u.sent..];
    var (name, content) := Plan(u)[u.sent];
    assert rest[0] == (name, content);
    assert Drop(AssetsOf(s, v), name)[name := content] == AssetsOf(s, v)[name := content];
    assert Plan(s'.uploads[i]) == Plan(u) && Drop(s'.uploads, i) == Drop(s.uploads, i);
    assert s'.unsettled - {(v, u.platform)} == s.unsettled - {(v, u.platform)};
  }

  /** A name that is free is posted; the last one ends the upload. */
  lemma PostName(s: State, i: nat)
    requires Undisturbed(s, i)
    requires Plan(s.uploads[i])[s.uploads[i].sent].0 !in AssetsOf(s, s.uploads[i].request.build.version)
    ensures var u, s' := s.uploads[i], SendAsset(s, i);
            if u.sent + 1 == |Plan(u)| then s' == Replaced(s, i) && i !in s'.uploads
            else Undisturbed(s', i) && s'.uploads[i] == u.(sent := u.sent + 1, removed := false)
                 && Replaced(s', i) == Replaced(s, i)
  {
    hide UploadPlan;
    var u := s.uploads[i];
    var v, s' := u.request.build.version, SendAsset(s, i);
    var rest := Plan(u)[u.sent..];
    assert rest[0] == Plan(u)[u.sent] && rest[1..] == Plan(u)[u.sent + 1..];
    if u.sent + 1 == |Plan(u)| {
      assert rest[1..] == [];
      var (name, content) := Plan(u)[u.sent];
      assert PostAll(AssetsOf(s, v), rest) == AssetsOf(s, v)[name := content];
      assert s'.store == Replaced(s, i).store;
    } else {
      assert Plan(s'.uploads[i]) == Plan(u) && Drop(s'.uploads, i) == Drop(s.uploads, i);
      assert s'.unsettled - {(v, u.platform)} == s.unsettled - {(v, u.platform)};
    }
  }

  /** Left alone, an upload needs at most two requests for every name left, and then has replaced exactly those names,
      whether they were taken before or not. */
  lemma {:induction false} UploadCompletes(s: State, i: nat) returns (n: nat)
    requires Undisturbed(s, i)
    ensures n <= 2 * (|Plan(s.uploads[i])| - s.uploads[i].sent) - (if s.uploads[i].removed then 1 else 0)
    ensures SendMany(s, i, n) == Replaced(s, i)
    decreases 2 * (|Plan(s.uploads[i])| - s.uploads[i].sent) - if s.uploads[i].removed then 1 else 0
  {
    hide SendAsset, Replaced, UploadPlan;
    var u, s' := s.uploads[i], SendAsset(s, i);
    if Plan(u)[u.sent].0 in AssetsOf(s, u.request.build.version) {
      FreeName(s, i);
      n := UploadCompletes(s', i);
      n := n + 1;
    } else {
      PostName(s, i);
      if u.sent + 1 == |Plan(u)| {
        n := 1;
        assert SendMany(s', i, 0) == s';
      } else {
        n := UploadCompletes(s', i);
        n := n + 1;
      }
    }
  }

  /** A name that was taken again in between ends the upload and stays as it is. */
  lemma TakenAgainFails(s: State, i: nat)
    requires i in s.uploads && Sending(s.store.releases, s.uploads[i]) && s.uploads[i].removed
    requires Plan(s.uploads[i])[s.uploads[i].sent].0 in AssetsOf(s, s.uploads[i].request.build.version)
    ensures SendAsset(s, i).store == s.store && SendAsset(s, i).uploads == Drop(s.uploads, i)
  {
    hide UploadPlan;
  }
}
