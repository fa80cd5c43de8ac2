// What a disposal stops and removes at the provider: what its session saw there
// of the manifest that was admitted, and nothing else.
module DisposalProvider {
  import opened Options
  import opened DisposalPlan
  import opened DisposalSafety

  predicate AtProvider(step: Step) { step.StopContainers? || step.RemoveContainers? || step.RemoveVolumes? || step.RemoveNetwork? }

  // A container of the manifest that the session saw, in its own namespace.
  predicate IsOwnContainer(call: Call, manifest: Manifest, id: string) {
    && id in manifest.containers
    && (exists c :: c in call.answers.containers && c.id == id)
    && (forall c :: c in call.answers.containers && c.id == id ==> c.project == call.namespace)
  }

  // A volume of the manifest that the session saw, with the recorded backing,
  // and that no container outside the manifest mounts.
  predicate IsOwnVolume(call: Call, manifest: Manifest, name: string) {
    && name in manifest.volumes && name in call.answers.volumeNames
    && name in call.answers.backings && call.answers.backings[name] == manifest.volumes[name]
    && (forall c :: c in call.answers.containers && name in c.mounts ==> c.id in manifest.containers)
  }

  predicate TouchesOnlyOwn(call: Call, manifest: Manifest, step: Step) {
    match step
    case StopContainers(ids) => forall id :: id in ids ==> IsOwnContainer(call, manifest, id)
    case RemoveContainers(ids) => forall id :: id in ids ==> IsOwnContainer(call, manifest, id)
    case RemoveVolumes(names) => forall name :: name in names ==> IsOwnVolume(call, manifest, name)
    case RemoveNetwork(id) => id == manifest.networkId && manifest.networkName in call.answers.networkNames && call.answers.networkFits
    case _ => true
  }

  // Something of the manifest was in sight.
  predicate IsLeft(call: Call, manifest: Manifest) {
    || (exists c :: c in call.answers.containers && c.id in manifest.containers)
    || (exists name :: name in manifest.volumes && name in call.answers.volumeNames)
    || manifest.networkName in call.answers.networkNames
  }

  // The session was told to apply a review, no container in sight holds the
  // custody, and where copies are recorded none of its own is busy and, while
  // anything is left, they are the reviewed ones and were verified again.
  predicate MayTouch(call: Call, manifest: Manifest) {
    && call.apply && call.review.Some?
    && (forall c :: c in call.answers.containers ==> !c.holdsCustody)
    && (call.copies != [] ==>
          && (forall c :: c in call.answers.containers && c.id in manifest.containers ==> c.idle)
          && (IsLeft(call, manifest) ==> call.answers.verifiedAgain && call.answers.publishedAgain && call.copies == manifest.recovery))
  }

  lemma ProceedingMayTouch(fingerprint: Fingerprint, state: State, call: Call)
    requires Decide(fingerprint, state, call).Proceed?
    ensures MayTouch(call, Decide(fingerprint, state, call).admitted.manifest)
  {
    hide Resolves, Built, OwnershipHolds;
    Admission(fingerprint, state, call);
    var a, manifest := call.answers, Decide(fingerprint, state, call).admitted.manifest;
    assert MayStart(state, call);
    hide Decide;
    if call.copies != [] {
      forall c | c in a.containers && c.id in manifest.containers
        ensures c.idle && c.id in RemainingOf(a.containers, manifest)
      {
        var i :| 0 <= i < |a.containers| && a.containers[i] == c;
      }
      if name :| name in manifest.volumes && name in a.volumeNames {
        assert name in manifest.volumes.Keys * a.volumeNames;
      }
    }
  }

  // The manifest was saved under the session's own prefix and review.
  ghost predicate AdmittedBefore(log: seq<Event>, i: nat, k: nat, call: Call, manifest: Manifest) {
    && k < i < |log| && log[k].step.SaveMarker? && log[k].step.prefix == PrefixOf(call.kind)
    && log[k].step.admitted.manifest == manifest && call.review == Some(log[k].step.admitted.review)
  }

  // The same session has stopped the container, and then removed it.
  ghost predicate Cleared(log: seq<Event>, i: nat, id: string) {
    exists s, r :: 0 <= s < r < i < |log| && log[s].session == log[i].session && log[r].session == log[i].session
                && log[s].step.StopContainers? && id in log[s].step.ids && log[r].step.RemoveContainers? && id in log[r].step.ids
  }

  // No volume or network goes before every container of the manifest in sight.
  ghost predicate ClearedFirst(log: seq<Event>, i: nat, call: Call, manifest: Manifest) {
    i < |log| && (log[i].step.RemoveVolumes? || log[i].step.RemoveNetwork?) ==>
      forall c :: c in call.answers.containers && c.id in manifest.containers ==> Cleared(log, i, c.id)
  }

  // ----- the steps of one removal -----

  lemma RemainingIsOwn(call: Call, manifest: Manifest)
    requires OwnershipHolds(call, manifest)
    ensures forall id :: id in RemainingOf(call.answers.containers, manifest) ==> IsOwnContainer(call, manifest, id)
  {
    var containers := call.answers.containers;
    forall id | id in RemainingOf(containers, manifest)
      ensures IsOwnContainer(call, manifest, id)
    {
      var i :| 0 <= i < |containers| && containers[i].id == id;
      assert containers[i] in containers;
    }
  }

  lemma VolumesAreOwn(call: Call, manifest: Manifest)
    requires OwnershipHolds(call, manifest)
    ensures forall name :: name in manifest.volumes.Keys * call.answers.volumeNames ==> IsOwnVolume(call, manifest, name)
  {
    var containers := call.answers.containers;
    forall name, c | name in manifest.volumes.Keys * call.answers.volumeNames && c in containers && name in c.mounts
      ensures c.id in manifest.containers
    {
      var i :| 0 <= i < |containers| && containers[i] == c;
      assert c.id !in manifest.containers ==> name in c.mounts * manifest.volumes.Keys;
    }
  }

  // A removal without the files: containers, volumes, network.
  lemma RemovalSplits(state: State, call: Call, manifest: Manifest) returns (front: seq<Step>)
    ensures Removal(state, call, manifest) == front + Destruction(state, call, manifest)
    ensures forall i :: 0 <= i < |Destruction(state, call, manifest)| ==> !AtProvider(Destruction(state, call, manifest)[i])
    ensures var a, remaining := call.answers, RemainingOf(call.answers.containers, manifest);
            front == (if remaining != {} then [StopContainers(remaining), RemoveContainers(remaining)] else [])
                     + [RemoveVolumes(manifest.volumes.Keys * a.volumeNames)]
                     + (if manifest.networkName in a.networkNames then [RemoveNetwork(manifest.networkId)] else [])
  {
    hide RemainingOf, AllAbsent, DeletionOf;
    var a, remaining := call.answers, RemainingOf(call.answers.containers, manifest);
    front := (if remaining != {} then [StopContainers(remaining), RemoveContainers(remaining)] else [])
             + [RemoveVolumes(manifest.volumes.Keys * a.volumeNames)]
             + (if manifest.networkName in a.networkNames then [RemoveNetwork(manifest.networkId)] else []);
    DeletionSteps(state, call.kind, call.answers.listing);
    var destruction := Destruction(state, call, manifest);
    assert forall i :: 0 < i < |destruction| ==> destruction[i] in DeletionOf(state, call.kind, call.answers.listing);
  }

  lemma RemovalTouchesOnlyOwn(state: State, call: Call, manifest: Manifest)
    requires OwnershipHolds(call, manifest)
    ensures forall i :: 0 <= i < |Removal(state, call, manifest)| ==> TouchesOnlyOwn(call, manifest, Removal(state, call, manifest)[i])
  {
    var front := RemovalSplits(state, call, manifest);
    RemainingIsOwn(call, manifest);
    VolumesAreOwn(call, manifest);
    hide Removal, RemainingOf, IsOwnContainer, IsOwnVolume, Destruction;
    assert forall i :: 0 <= i < |front| ==> TouchesOnlyOwn(call, manifest, front[i]);
  }

  // Containers come first.
  lemma RemovalClears(state: State, call: Call, manifest: Manifest, c: Container)
    requires c in call.answers.containers && c.id in manifest.containers
    ensures var removal := Removal(state, call, manifest);
            && |removal| > 2 && removal[0].StopContainers? && c.id in removal[0].ids && removal[1].RemoveContainers? && c.id in removal[1].ids
  {
    var front := RemovalSplits(state, call, manifest);
    var i :| 0 <= i < |call.answers.containers| && call.answers.containers[i] == c;
    assert c.id in RemainingOf(call.answers.containers, manifest);
  }

  // ----- the steps of one session -----

  lemma SessionSteps(fingerprint: Fingerprint, state: State, call: Call, i: nat) returns (manifest: Manifest)
    requires i < |Steps(fingerprint, state, call)| && AtProvider(Steps(fingerprint, state, call)[i])
    ensures var steps, prefix := Steps(fingerprint, state, call), PrefixOf(call.kind);
            && TouchesOnlyOwn(call, manifest, steps[i]) && MayTouch(call, manifest)
            && (if prefix in state.markers then state.markers[prefix].manifest == manifest && call.review == Some(state.markers[prefix].review)
                else i > 0 && steps[0].SaveMarker? && steps[0].prefix == prefix && steps[0].admitted.manifest == manifest
                     && call.review == Some(steps[0].admitted.review))
            && (steps[i].RemoveVolumes? || steps[i].RemoveNetwork? ==>
                  forall c :: c in call.answers.containers && c.id in manifest.containers ==> ClearsBy(steps, i, c.id))
  {
    hide Removal, OwnershipHolds, RecoveryHolds, Decide, MayTouch;
    var steps, prefix, decision := Steps(fingerprint, state, call), PrefixOf(call.kind), Decide(fingerprint, state, call);
    manifest := decision.admitted.manifest;
    Admission(fingerprint, state, call);
    ProceedingMayTouch(fingerprint, state, call);
    RemovalTouchesOnlyOwn(state, call, manifest);
    var removal := Removal(state, call, manifest);
    var offset := if prefix in state.markers then 0 else 1;
    assert forall j :: offset <= j < |steps| ==> steps[j] == removal[j - offset];
    forall c | c in call.answers.containers && c.id in manifest.containers && (steps[i].RemoveVolumes? || steps[i].RemoveNetwork?)
      ensures ClearsBy(steps, i, c.id)
    {
      RemovalClears(state, call, manifest, c);
      assert steps[offset] == removal[0] && steps[offset + 1] == removal[1];
    }
  }

  // Among the first `i` steps the container is stopped, and then removed.
  ghost predicate ClearsBy(steps: seq<Step>, i: nat, id: string) {
    exists s, r :: 0 <= s < r < i < |steps| && steps[s].StopContainers? && id in steps[s].ids && steps[r].RemoveContainers? && id in steps[r].ids
  }

  lemma EventOfStep(fingerprint: Fingerprint, state: State, call: Call, patience: nat, i: nat)
    ensures var log, steps := Dispose(fingerprint, state, call, patience).log, Steps(fingerprint, state, call);
            && state.log <= log && |log| - |state.log| == (if patience < |steps| then patience else |steps|)
            && (|state.log| <= i < |log| ==> log[i] == Event(state.sessions + 1, steps[i - |state.log|]))
  {
    hide Steps;
    var steps := Steps(fingerprint, state, call);
    PlayLogs(Begin(state), steps, patience);
  }

  lemma NewEventIsOwn(fingerprint: Fingerprint, state: State, call: Call, patience: nat, i: nat) returns (k: nat, manifest: Manifest)
    requires MarkersSaved(state)
    requires var log := Dispose(fingerprint, state, call, patience).log; |state.log| <= i < |log| && AtProvider(log[i].step)
    ensures var log := Dispose(fingerprint, state, call, patience).log;
            && AdmittedBefore(log, i, k, call, manifest) && MayTouch(call, manifest)
            && TouchesOnlyOwn(call, manifest, log[i].step) && ClearedFirst(log, i, call, manifest)
  {
    hide Steps, Dispose, TouchesOnlyOwn, MayTouch;
    var steps, prefix, n := Steps(fingerprint, state, call), PrefixOf(call.kind), |state.log|;
    var log := Dispose(fingerprint, state, call, patience).log;
    EventOfStep(fingerprint, state, call, patience, i);
    manifest := SessionSteps(fingerprint, state, call, i - n);
    if prefix in state.markers {
      k :| 0 <= k < n && state.log[k].step == SaveMarker(prefix, state.markers[prefix]);
      assert log[k] == state.log[k];
    } else {
      k := n;
      EventOfStep(fingerprint, state, call, patience, n);
    }
    forall c | c in call.answers.containers && c.id in manifest.containers && (log[i].step.RemoveVolumes? || log[i].step.RemoveNetwork?)
      ensures Cleared(log, i, c.id)
    {
      StepsAreEvents(fingerprint, state, call, patience, i, c.id);
    }
  }

  lemma StepsAreEvents(fingerprint: Fingerprint, state: State, call: Call, patience: nat, i: nat, id: string)
    requires var log := Dispose(fingerprint, state, call, patience).log; |state.log| <= i < |log|
    requires ClearsBy(Steps(fingerprint, state, call), i - |state.log|, id)
    ensures Cleared(Dispose(fingerprint, state, call, patience).log, i, id)
  {
    hide Steps, Dispose;
    var steps, n := Steps(fingerprint, state, call), |state.log|;
    var s, r :| 0 <= s < r < i - n < |steps| && steps[s].StopContainers? && id in steps[s].ids && steps[r].RemoveContainers? && id in steps[r].ids;
    EventOfStep(fingerprint, state, call, patience, i);
    EventOfStep(fingerprint, state, call, patience, n + s);
    EventOfStep(fingerprint, state, call, patience, n + r);
    var log := Dispose(fingerprint, state, call, patience).log;
    assert log[n + s].step == steps[s] && log[n + r].step == steps[r];
  }

  lemma EarlierIsOwn(log: seq<Event>, longer: seq<Event>, i: nat, k: nat, call: Call, manifest: Manifest)
    requires log <= longer && AdmittedBefore(log, i, k, call, manifest) && ClearedFirst(log, i, call, manifest)
    ensures longer[i] == log[i] && AdmittedBefore(longer, i, k, call, manifest) && ClearedFirst(longer, i, call, manifest)
  {
    assert longer[i] == log[i] && longer[k] == log[k];
    forall c | c in call.answers.containers && c.id in manifest.containers && (log[i].step.RemoveVolumes? || log[i].step.RemoveNetwork?)
      ensures Cleared(longer, i, c.id)
    {
      assert Cleared(log, i, c.id);
      var s, r :| && 0 <= s < r < i < |log| && log[s].session == log[i].session && log[r].session == log[i].session
                  && log[s].step.StopContainers? && c.id in log[s].step.ids && log[r].step.RemoveContainers? && c.id in log[r].step.ids;
      assert longer[s] == log[s] && longer[r] == log[r];
    }
  }

  // ----- every run -----

  // Over every run: what a session stops or removes is part of a manifest that
  // was admitted before under its own prefix, and is there under the session's
  // own look: containers of its namespace, volumes with the recorded backing
  // that nothing else mounts, and the recorded network.  Nothing in sight holds
  // the custody or is busy, and recorded copies were verified again.  Volumes
  // and network go only after that session removed every container of the
  // manifest it saw.
  lemma {:induction false} ProviderKeepsOthers(fingerprint: Fingerprint, entries: set<Entry>, sessions: seq<Session>, i: nat)
      returns (call: Call, k: nat, manifest: Manifest)
    requires var log := Run(fingerprint, State(entries, {}, map[], map[], 0, []), sessions).log;
             i < |log| && AtProvider(log[i].step)
    ensures var log := Run(fingerprint, State(entries, {}, map[], map[], 0, []), sessions).log;
            && IsOf(sessions, log[i], call) && AdmittedBefore(log, i, k, call, manifest) && MayTouch(call, manifest)
            && TouchesOnlyOwn(call, manifest, log[i].step) && ClearedFirst(log, i, call, manifest)
    decreases |sessions|
  {
    hide Dispose, TouchesOnlyOwn, ClearedFirst, AdmittedBefore, MarkersSaved, Ordered, MayTouch;
    var start := State(entries, {}, map[], map[], 0, []);
    var n := |sessions| - 1;
    var before := Run(fingerprint, start, sessions[..n]);
    var log := Run(fingerprint, start, sessions).log;
    RunIsOrdered(fingerprint, sessions[..n]);
    if sessions[n].Disposing? {
      EventOfStep(fingerprint, before, sessions[n].call, sessions[n].patience, i);
    }
    if i < |before.log| {
      call, k, manifest := ProviderKeepsOthers(fingerprint, entries, sessions[..n], i);
      EarlierIsOwn(before.log, log, i, k, call, manifest);
    } else {
      call := sessions[n].call;
      k, manifest := NewEventIsOwn(fingerprint, before, call, sessions[n].patience, i);
    }
  }

  // ----- a session that is not cut short -----

  // It stops and removes every container of the manifest that it saw, then
  // removes every volume of the manifest that it saw, and then the network.
  lemma SessionClears(fingerprint: Fingerprint, state: State, call: Call, patience: nat) returns (v: nat)
    requires Decide(fingerprint, state, call).Proceed? && patience >= |Steps(fingerprint, state, call)|
    ensures var log, manifest := Dispose(fingerprint, state, call, patience).log, Decide(fingerprint, state, call).admitted.manifest;
            && |state.log| <= v < |log| && log[v].session == state.sessions + 1 && log[v].step.RemoveVolumes?
            && (forall c :: c in call.answers.containers && c.id in manifest.containers ==> Cleared(log, v, c.id))
            && (forall name :: name in manifest.volumes && name in call.answers.volumeNames ==> name in log[v].step.names)
            && (manifest.networkName in call.answers.networkNames ==>
                  v + 1 < |log| && log[v + 1] == Event(state.sessions + 1, RemoveNetwork(manifest.networkId)))
  {
    hide Decide, Removal, Dispose, RemainingOf;
    var steps, prefix, decision := Steps(fingerprint, state, call), PrefixOf(call.kind), Decide(fingerprint, state, call);
    var manifest := decision.admitted.manifest;
    var removal := Removal(state, call, manifest);
    var front := RemovalSplits(state, call, manifest);
    var offset := if prefix in state.markers then 0 else 1;
    assert forall j :: offset <= j < |steps| ==> steps[j] == removal[j - offset];
    var first := if RemainingOf(call.answers.containers, manifest) != {} then 2 else 0;
    assert first < |front| && front[first] == RemoveVolumes(manifest.volumes.Keys * call.answers.volumeNames);
    assert steps[offset + first] == front[first];
    v := |state.log| + offset + first;
    EventOfStep(fingerprint, state, call, patience, v);
    hide Steps;
    forall c | c in call.answers.containers && c.id in manifest.containers
      ensures Cleared(Dispose(fingerprint, state, call, patience).log, v, c.id)
    {
      RemovalClears(state, call, manifest, c);
      assert first == 2;
      assert steps[offset] == removal[0] && steps[offset + 1] == removal[1];
      StepsAreEvents(fingerprint, state, call, patience, v, c.id);
    }
    if manifest.networkName in call.answers.networkNames {
      assert front[first + 1] == RemoveNetwork(manifest.networkId) && steps[offset + first + 1] == front[first + 1];
      EventOfStep(fingerprint, state, call, patience, v + 1);
    }
  }

  // ----- what a disposal is admitted on -----

  // The manifest is what the inspection found, under the reviewed binding.
  ghost predicate IsInspected(fingerprint: Fingerprint, call: Call, admitted: Admitted) {
    var a, manifest := call.answers, admitted.manifest;
    && call.apply && call.review == Some(admitted.review) && call.hostBinding == fingerprint(manifest) && a.inspected
    && manifest.binding == call.binding && manifest.root == a.root && manifest.recovery == call.copies
    && manifest.containers == a.own && manifest.volumes == a.ownVolumes
    && manifest.networkName == a.networkName && manifest.networkId == a.networkId
  }

  // Which phases record which copies: the initial source, then the final one,
  // then the final upgrade.
  predicate CopiesFit(call: Call) {
    var roles := seq(|call.copies|, i requires 0 <= i < |call.copies| => call.copies[i].role);
    || (roles == [Source] && call.phase == Upgraded)
    || (roles == [Source, FinalSource] && (call.phase == Switched || (call.phase == Rebuilding && call.kind.Preserve?)))
    || (roles == [Source, FinalSource, FinalUpgrade] && call.phase == Retired && call.kind.Retain?)
  }

  lemma RolesFit(entries: set<Entry>, call: Call)
    ensures Disposable(call) && LaterPhase(entries, call, call.answers.verified, call.answers.published) ==> CopiesFit(call)
  {
    hide IsSettledEffect;
    if Disposable(call) && LaterPhase(entries, call, call.answers.verified, call.answers.published) {
      var roles := seq(|call.copies|, i requires 0 <= i < |call.copies| => call.copies[i].role);
      assert roles == RolesOf(call).value;
    }
  }

  // The recorded copies are those of a settled phase and were verified, the capture is over, and
  // every effect that started is settled; without copies, the first effect is
  // unfinished or was never started, and no later snapshot was made.
  predicate CustodyIsKnown(entries: set<Entry>, call: Call) {
    if call.copies != [] then
      && CopiesFit(call) && call.answers.verified && call.answers.published && CaptureReceipt in entries && CapturePending !in entries
      && (forall c :: c in call.copies ==> SnapshotDir(c.role) in entries)
      && (forall e :: e in entries && e.SnapshotDir? ==> exists c :: c in call.copies && c.role == e.role)
      && (forall e :: e in entries && e.StartedFile? ==>
            AbandonedName(call.kind) == Some(e.name) || e.name in call.archived || ReceiptFile(e.name) in entries)
    else
      && call.phase == Prepared
      && (if call.unused then NeverStarted(entries) else StartedFile("execute") in entries && ReceiptFile("execute") !in entries)
      && (forall e :: e in entries && e.SnapshotDir? ==> e.role == Source)
  }

  lemma LaterPhaseIsKnown(entries: set<Entry>, call: Call)
    requires call.copies != [] && Disposable(call) && LaterPhase(entries, call, call.answers.verified, call.answers.published)
    ensures CustodyIsKnown(entries, call)
  {
    RolesFit(entries, call);
    forall c | c in call.copies
      ensures SnapshotDir(c.role) in entries
    {
      var i :| 0 <= i < |call.copies| && call.copies[i] == c;
    }
    forall e | e in entries && e.SnapshotDir?
      ensures exists c :: c in call.copies && c.role == e.role
    {
      var i :| 0 <= i < |call.copies| && RolesOf(call).value[i] == e.role;
      assert call.copies[i] in call.copies;
    }
    forall e | e in entries && e.StartedFile?
      ensures AbandonedName(call.kind) == Some(e.name) || e.name in call.archived || ReceiptFile(e.name) in entries
    {
      assert IsSettledEffect(entries, call, e.name);
    }
  }

  lemma NewAdmission(fingerprint: Fingerprint, state: State, call: Call)
    requires Decide(fingerprint, state, call).Proceed? && PrefixOf(call.kind) !in state.markers
    ensures IsInspected(fingerprint, call, Decide(fingerprint, state, call).admitted) && CustodyIsKnown(state.entries, call)
  {
    Admission(fingerprint, state, call);
    assert MayStart(state, call);
    hide Decide, OwnershipHolds, RecoveryHolds, MayStart;
    if call.copies != [] {
      MayStartOnlyPrepared(state, call);
      LaterPhaseIsKnown(state.entries, call);
    } else {
      MayStartOnlyPrepared(state, call);
      assert InitialFailure(state.entries, call);
    }
  }

  lemma MayStartOnlyPrepared(state: State, call: Call)
    ensures MayStart(state, call) ==> Disposable(call) && (call.copies == [] ==> call.phase == Prepared && (call.unused ==> NeverStarted(state.entries)))
  {}

  // Over every run: a manifest is admitted as inspected, under its review, and
  // on what is in the private directory at that time.
  lemma {:induction false} AdmissionIsGrounded(fingerprint: Fingerprint, entries: set<Entry>, sessions: seq<Session>, i: nat) returns (call: Call)
    requires var log := Run(fingerprint, State(entries, {}, map[], map[], 0, []), sessions).log;
             i < |log| && log[i].step.SaveMarker?
    ensures var start := State(entries, {}, map[], map[], 0, []);
            var event := Run(fingerprint, start, sessions).log[i];
            && IsOf(sessions, event, call) && event.step.prefix == PrefixOf(call.kind)
            && IsInspected(fingerprint, call, event.step.admitted)
            && CustodyIsKnown(Run(fingerprint, start, sessions[..event.session - 1]).entries, call)
    decreases |sessions|
  {
    hide Dispose, IsInspected, CustodyIsKnown, MarkersSaved, Ordered;
    var start := State(entries, {}, map[], map[], 0, []);
    var n := |sessions| - 1;
    var before := Run(fingerprint, start, sessions[..n]);
    RunIsOrdered(fingerprint, sessions[..n]);
    if sessions[n].Disposing? {
      EventOfStep(fingerprint, before, sessions[n].call, sessions[n].patience, i);
    }
    if i < |before.log| {
      call := AdmissionIsGrounded(fingerprint, entries, sessions[..n], i);
      var s := before.log[i].session - 1;
      assert sessions[..n][..s] == sessions[..s];
    } else {
      call := sessions[n].call;
      StepFacts(fingerprint, before, call);
      NewAdmission(fingerprint, before, call);
    }
  }
}
