// What disposal keeps, over all crashes, resumptions and foreign steps.
module DisposalSafety {
  import opened Options
  import opened DisposalPlan

  predicate Destroys(step: Step) { step.Damage? || step.Delete? }

  // Whatever the step destroys is what this kind of disposal is about.
  ghost predicate OnlyDooms(kind: Kind, step: Step) {
    forall target :: step == Damage(target) || step == Delete(target) ==> IsDoomed(kind, target)
  }

  // ----- what each step of a session is -----

  lemma {:induction false} DeletionSteps(state: State, kind: Kind, listing: seq<Target>)
    ensures forall step :: step in DeletionOf(state, kind, listing) ==> Destroys(step) && OnlyDooms(kind, step)
    decreases |listing|
  {
    hide IsDoomed, Exists, Remove;
    if listing != [] {
      DeletionSteps(state, kind, listing[1..]);
      DeletionSteps(Remove(state, listing[0]), kind, listing[1..]);
    }
  }

  // A removal works on the provider first; it destroys only after it has seen
  // everything of the manifest absent.
  lemma RemovalSteps(state: State, call: Call, manifest: Manifest)
    ensures var steps := Removal(state, call, manifest);
            forall i :: 0 <= i < |steps| ==>
                          && !steps[i].SaveRefusals? && !steps[i].SaveMarker?
                          && OnlyDooms(call.kind, steps[i])
                          && (Destroys(steps[i]) ==> exists j :: 0 <= j < i && steps[j] == SawAbsent(manifest, SightingOf(call)))
                          && (steps[i].SawAbsent? ==> steps[i] == SawAbsent(manifest, SightingOf(call)) && AllAbsent(SightingOf(call), manifest))
  {
    hide IsDoomed, AllAbsent, DeletionOf;
    var destruction := Destruction(state, call, manifest);
    var steps := Removal(state, call, manifest);
    var front := steps[..|steps| - |destruction|];
    assert steps == front + destruction;
    DeletionSteps(state, call.kind, call.answers.listing);
    assert destruction != [] ==> steps[|front|] == SawAbsent(manifest, SightingOf(call));
    assert forall i :: |front| < i < |steps| ==> steps[i] in DeletionOf(state, call.kind, call.answers.listing);
  }

  // A session goes on only under a manifest that was reviewed, whose review
  // was never refused, and that is the admitted one if there is one; a new one
  // is admitted only when the custody resolves to it.
  lemma Admission(fingerprint: Fingerprint, state: State, call: Call)
    requires Decide(fingerprint, state, call).Proceed?
    ensures var admitted, prefix := Decide(fingerprint, state, call).admitted, PrefixOf(call.kind);
            && call.apply && call.review == Some(admitted.review) && call.hostBinding == fingerprint(admitted.manifest)
            && admitted.review !in RejectedBy(state, call).reviews
            && (if prefix in state.markers then state.markers[prefix] == admitted
                else Resolves(state.entries, call) && admitted.manifest == Built(call))
            && OwnershipHolds(call, admitted.manifest) && RecoveryHolds(state, call, admitted.manifest)
  {
    hide OwnershipHolds, RecoveryHolds, Resolves, Built;
  }

  // Every step of a session, by its kind.
  lemma StepFacts(fingerprint: Fingerprint, state: State, call: Call)
    ensures var steps, prefix := Steps(fingerprint, state, call), PrefixOf(call.kind);
            forall i :: 0 <= i < |steps| ==>
                          && (steps[i].SaveMarker? ==> prefix !in state.markers && steps[i].prefix == prefix && i == 0
                                                       && Decide(fingerprint, state, call) == Proceed(steps[i].admitted))
                          && OnlyDooms(call.kind, steps[i])
  {
    hide IsDoomed, Decide, Removal;
    var steps, prefix, decision := Steps(fingerprint, state, call), PrefixOf(call.kind), Decide(fingerprint, state, call);
    if decision.Proceed? {
      RemovalSteps(state, call, decision.admitted.manifest);
      var offset := if prefix in state.markers then 0 else 1;
      assert forall i :: offset <= i < |steps| ==> steps[i] == Removal(state, call, decision.admitted.manifest)[i - offset];
    }
  }

  // ----- the frame -----

  // A session destroys only what its kind is about: preserving keeps every
  // recovery snapshot, retaining keeps all but the initial source.
  ghost predicate KeepsFiles(kind: Kind, state: State, after: State) {
    forall target :: !IsDoomed(kind, target) && Exists(state, target) ==>
                       Exists(after, target) && (target.Custody? && target.entry !in state.damaged ==> target.entry !in after.damaged)
  }

  lemma StepKeepsFiles(state: State, step: Step, kind: Kind)
    ensures OnlyDooms(kind, step) ==> KeepsFiles(kind, state, Do(state, step))
  {
    hide IsDoomed;
  }

  lemma {:induction false} PlayKeepsFiles(state: State, steps: seq<Step>, patience: nat, kind: Kind)
    requires forall i :: 0 <= i < |steps| ==> OnlyDooms(kind, steps[i])
    ensures KeepsFiles(kind, state, Play(state, steps, patience))
    decreases |steps|
  {
    hide IsDoomed, Exists, Do;
    if steps != [] && patience > 0 {
      StepKeepsFiles(state, steps[0], kind);
      PlayKeepsFiles(Do(state, steps[0]), steps[1..], patience - 1, kind);
    }
  }

  lemma DisposalKeeps(fingerprint: Fingerprint, state: State, call: Call, patience: nat)
    ensures KeepsFiles(call.kind, state, Dispose(fingerprint, state, call, patience))
  {
    hide IsDoomed;
    var steps := Steps(fingerprint, state, call);
    StepFacts(fingerprint, state, call);
    hide Steps;
    PlayKeepsFiles(Begin(state), steps, patience, call.kind);
    assert forall target :: Exists(Begin(state), target) == Exists(state, target);
  }

  // Preserving keeps every recovery snapshot, undamaged; retaining keeps all
  // but the initial source.
  lemma SnapshotsAreKept(fingerprint: Fingerprint, state: State, call: Call, patience: nat, role: Role)
    requires call.kind.Preserve? || (call.kind.Retain? && role != Source)
    requires SnapshotDir(role) in state.entries && SnapshotDir(role) !in state.damaged
    ensures SnapshotDir(role) in Dispose(fingerprint, state, call, patience).entries - Dispose(fingerprint, state, call, patience).damaged
  {
    hide Dispose;
    DisposalKeeps(fingerprint, state, call, patience);
    assert Exists(state, Custody(SnapshotDir(role))) && !IsDoomed(call.kind, Custody(SnapshotDir(role)));
  }

  // ----- the manifest is fixed -----

  lemma {:induction false} PlayKeepsMarker(state: State, steps: seq<Step>, patience: nat, kind: Kind, prefix: Prefix)
    requires forall i :: 0 <= i < |steps| ==> OnlyDooms(kind, steps[i])
    requires forall i :: 0 <= i < |steps| && steps[i].SaveMarker? ==> steps[i].prefix != prefix
    requires !IsDoomed(kind, Marker(prefix)) && prefix in state.markers
    ensures prefix in Play(state, steps, patience).markers && Play(state, steps, patience).markers[prefix] == state.markers[prefix]
    decreases |steps|
  {
    hide IsDoomed;
    if steps != [] && patience > 0 {
      PlayKeepsMarker(Do(state, steps[0]), steps[1..], patience - 1, kind, prefix);
    }
  }

  lemma SessionKeepsMarker(fingerprint: Fingerprint, state: State, session: Session, prefix: Prefix)
    requires prefix in state.markers && (prefix == Incomplete || session.Working? || !session.call.kind.Full?)
    ensures prefix in Take(fingerprint, state, session).markers
    ensures Take(fingerprint, state, session).markers[prefix] == state.markers[prefix]
  {
    hide IsDoomed;
    if session.Disposing? {
      var call := session.call;
      var steps := Steps(fingerprint, state, call);
      StepFacts(fingerprint, state, call);
      hide Steps;
      NotDoomed(call.kind, prefix);
      PlayKeepsMarker(Begin(state), steps, session.patience, call.kind, prefix);
    }
  }

  lemma NotDoomed(kind: Kind, prefix: Prefix)
    ensures IsDoomed(kind, Marker(prefix)) <==> kind.Full? && prefix != Incomplete
  {}

  // Once saved, a manifest is fixed: the one of a full or retaining disposal
  // for good, that of an abandonment until a full disposal removes it.
  lemma {:induction false} ManifestIsFixed(fingerprint: Fingerprint, state: State, sessions: seq<Session>, prefix: Prefix)
    requires prefix in state.markers
    requires prefix == Incomplete || forall i :: 0 <= i < |sessions| && sessions[i].Disposing? ==> !sessions[i].call.kind.Full?
    ensures prefix in Run(fingerprint, state, sessions).markers
    ensures Run(fingerprint, state, sessions).markers[prefix] == state.markers[prefix]
  {
    hide Take;
    if sessions != [] {
      var n := |sessions| - 1;
      ManifestIsFixed(fingerprint, state, sessions[..n], prefix);
      SessionKeepsMarker(fingerprint, Run(fingerprint, state, sessions[..n]), sessions[n], prefix);
    }
  }

  // ----- refused reviews are remembered -----

  // The reviews refused so far, for the same binding.
  ghost predicate Remembers(state: State, later: State, prefix: Prefix) {
    prefix in state.refusals ==>
      && prefix in later.refusals && later.refusals[prefix].binding == state.refusals[prefix].binding
      && state.refusals[prefix].reviews <= later.refusals[prefix].reviews
  }

  lemma {:induction false} PlayKeepsRefusals(state: State, steps: seq<Step>, patience: nat, kind: Kind, prefix: Prefix)
    requires forall i :: 0 <= i < |steps| ==> OnlyDooms(kind, steps[i]) && !steps[i].SaveRefusals?
    requires !IsDoomed(kind, Refusals(prefix))
    ensures Remembers(state, Play(state, steps, patience), prefix)
    decreases |steps|
  {
    hide IsDoomed;
    if steps != [] && patience > 0 {
      PlayKeepsRefusals(Do(state, steps[0]), steps[1..], patience - 1, kind, prefix);
    }
  }

  lemma ProceedingSavesNoRefusals(fingerprint: Fingerprint, state: State, call: Call)
    requires !Decide(fingerprint, state, call).Refuse?
    ensures forall i :: 0 <= i < |Steps(fingerprint, state, call)| ==> !Steps(fingerprint, state, call)[i].SaveRefusals?
  {
    hide Decide, Removal;
    var decision := Decide(fingerprint, state, call);
    if decision.Proceed? {
      RemovalSteps(state, call, decision.admitted.manifest);
    }
  }

  // A session forgets no refused review, and records the one it refuses; a
  // full disposal removes those of an abandonment.
  lemma SessionKeepsRefusals(fingerprint: Fingerprint, state: State, session: Session, prefix: Prefix)
    requires prefix == Incomplete || session.Working? || !session.call.kind.Full?
    ensures Remembers(state, Take(fingerprint, state, session), prefix)
    ensures session.Disposing? && session.patience > 0 && Decide(fingerprint, state, session.call).Refuse? ==>
              && PrefixOf(session.call.kind) in Take(fingerprint, state, session).refusals && session.call.review.Some?
              && session.call.review.value in Take(fingerprint, state, session).refusals[PrefixOf(session.call.kind)].reviews
  {
    hide Removal, ManifestFor, OwnershipHolds, RecoveryHolds;
    if session.Disposing? {
      var call, began := session.call, Begin(state);
      var steps, decision := Steps(fingerprint, state, call), Decide(fingerprint, state, call);
      if decision.Refuse? {
        if session.patience > 0 {
          assert Play(began, steps, session.patience) == Do(began, steps[0]);
        }
      } else {
        ProceedingSavesNoRefusals(fingerprint, state, call);
        StepFacts(fingerprint, state, call);
        hide Steps, Decide;
        RefusalsNotDoomed(call.kind, prefix);
        PlayKeepsRefusals(began, steps, session.patience, call.kind, prefix);
      }
    }
  }

  lemma RefusalsNotDoomed(kind: Kind, prefix: Prefix)
    ensures IsDoomed(kind, Refusals(prefix)) <==> kind.Full? && prefix != Incomplete
  {}

  // So a review refused once stays refused, for good or, under an abandonment,
  // until a full disposal; and no session admits it meanwhile.
  lemma {:induction false} RefusalsAreKept(fingerprint: Fingerprint, state: State, sessions: seq<Session>, prefix: Prefix)
    requires prefix == Incomplete || forall i :: 0 <= i < |sessions| && sessions[i].Disposing? ==> !sessions[i].call.kind.Full?
    ensures Remembers(state, Run(fingerprint, state, sessions), prefix)
  {
    hide Take;
    if sessions != [] {
      var n := |sessions| - 1;
      RefusalsAreKept(fingerprint, state, sessions[..n], prefix);
      SessionKeepsRefusals(fingerprint, Run(fingerprint, state, sessions[..n]), sessions[n], prefix);
    }
  }

  // ----- a refused review is never the admitted one -----

  ghost predicate NoRefusedReview(state: State) {
    forall p :: p in state.markers && p in state.refusals ==> state.markers[p].review !in state.refusals[p].reviews
  }

  lemma {:induction false} RemovalKeepsReviews(state: State, steps: seq<Step>, patience: nat)
    requires NoRefusedReview(state) && forall i :: 0 <= i < |steps| ==> !steps[i].SaveRefusals? && !steps[i].SaveMarker?
    ensures NoRefusedReview(Play(state, steps, patience))
    decreases |steps|
  {
    if steps != [] && patience > 0 {
      RemovalKeepsReviews(Do(state, steps[0]), steps[1..], patience - 1);
    }
  }

  lemma SessionKeepsReviews(fingerprint: Fingerprint, state: State, call: Call, patience: nat)
    requires NoRefusedReview(state)
    ensures NoRefusedReview(Dispose(fingerprint, state, call, patience))
  {
    hide Removal, Resolves, Built;
    var steps, prefix, began := Steps(fingerprint, state, call), PrefixOf(call.kind), Begin(state);
    var decision := Decide(fingerprint, state, call);
    if patience > 0 && decision.Refuse? {
      RefusalMeansUnadmitted(fingerprint, state, call);
      assert Play(began, steps, patience) == Do(began, steps[0]);
    } else if patience > 0 && decision.Proceed? {
      Admission(fingerprint, state, call);
      hide Decide;
      var removal := Removal(state, call, decision.admitted.manifest);
      RemovalSteps(state, call, decision.admitted.manifest);
      if prefix in state.markers {
        assert steps == removal;
        RemovalKeepsReviews(began, removal, patience);
      } else {
        assert steps[1..] == removal;
        RemovalKeepsReviews(Do(began, steps[0]), removal, patience - 1);
      }
    }
  }

  lemma RefusalMeansUnadmitted(fingerprint: Fingerprint, state: State, call: Call)
    ensures Decide(fingerprint, state, call).Refuse? ==> PrefixOf(call.kind) !in state.markers
  {
    hide OwnershipHolds, RecoveryHolds, Resolves, Built;
  }

  lemma {:induction false} RefusedIsNeverAdmitted(fingerprint: Fingerprint, state: State, sessions: seq<Session>)
    requires NoRefusedReview(state)
    ensures NoRefusedReview(Run(fingerprint, state, sessions))
  {
    hide NoRefusedReview, Dispose;
    if sessions != [] {
      var n := |sessions| - 1;
      RefusedIsNeverAdmitted(fingerprint, state, sessions[..n]);
      var before := Run(fingerprint, state, sessions[..n]);
      if sessions[n].Disposing? {
        SessionKeepsReviews(fingerprint, before, sessions[n].call, sessions[n].patience);
      } else {
        SameReceipts(before, Take(fingerprint, before, sessions[n]));
      }
    }
  }

  lemma SameReceipts(state: State, later: State)
    ensures NoRefusedReview(state) && later.markers == state.markers && later.refusals == state.refusals ==>
              NoRefusedReview(later)
  {}

  // ----- custody is destroyed last -----

  function Events(session: nat, steps: seq<Step>, patience: nat): seq<Event> {
    var n := if patience < |steps| then patience else |steps|;
    seq(n, i requires 0 <= i < n => Event(session, steps[i]))
  }

  lemma {:induction false} PlayLogs(state: State, steps: seq<Step>, patience: nat)
    ensures Play(state, steps, patience).log == state.log + Events(state.sessions, steps, patience)
    ensures Play(state, steps, patience).sessions == state.sessions
    decreases |steps|
  {
    if steps != [] && patience > 0 {
      PlayLogs(Do(state, steps[0]), steps[1..], patience - 1);
      assert Events(state.sessions, steps, patience)
          == [Event(state.sessions, steps[0])] + Events(state.sessions, steps[1..], patience - 1);
    }
  }

  // The disposal that logged this event.
  predicate IsOf(sessions: seq<Session>, event: Event, call: Call) {
    0 < event.session <= |sessions| && sessions[event.session - 1].Disposing? && sessions[event.session - 1].call == call
  }

  // Nothing of the manifest, and nothing else of the namespace, is in sight.
  predicate NothingInSight(manifest: Manifest, sighting: Sighting) {
    && (forall c :: c in sighting.containers ==> c.id !in manifest.containers && c.project != sighting.namespace)
    && (forall name :: name in manifest.volumes ==> name !in sighting.volumes)
    && manifest.networkName !in sighting.networks
  }

  // What a session destroys is what its kind is about, and comes after that
  // session saw everything of a manifest absent.
  ghost predicate DestroysLast(sessions: seq<Session>, log: seq<Event>, i: nat) {
    i < |log| && Destroys(log[i].step) ==>
      && (exists call :: IsOf(sessions, log[i], call) && OnlyDooms(call.kind, log[i].step))
      && (exists j :: 0 <= j < i && log[j].session == log[i].session && log[j].step.SawAbsent?)
  }

  // What was seen is the session's own look after its removals, nothing of the
  // manifest was in it, and the manifest was admitted under the session's own
  // prefix before.
  ghost predicate SeesAdmitted(sessions: seq<Session>, log: seq<Event>, i: nat) {
    i < |log| && log[i].step.SawAbsent? ==>
      exists call, k :: && IsOf(sessions, log[i], call) && log[i].step.sighting == SightingOf(call)
                        && NothingInSight(log[i].step.manifest, log[i].step.sighting)
                        && 0 <= k < i && log[k].step.SaveMarker? && log[k].step.prefix == PrefixOf(call.kind)
                        && log[k].step.admitted.manifest == log[i].step.manifest
  }

  ghost predicate Ordered(sessions: seq<Session>, log: seq<Event>) {
    forall i: nat :: i < |log| ==> DestroysLast(sessions, log, i) && SeesAdmitted(sessions, log, i)
  }

  ghost predicate Saved(log: seq<Event>, prefix: Prefix, admitted: Admitted) {
    exists k :: 0 <= k < |log| && log[k].step == SaveMarker(prefix, admitted)
  }

  // Every marker was saved by some session.
  ghost predicate MarkersSaved(state: State) { forall p :: p in state.markers ==> Saved(state.log, p, state.markers[p]) }

  lemma SavedGrows(log: seq<Event>, more: seq<Event>, prefix: Prefix, admitted: Admitted)
    ensures Saved(log, prefix, admitted) ==> Saved(log + more, prefix, admitted)
  {
    if Saved(log, prefix, admitted) {
      var k :| 0 <= k < |log| && log[k].step == SaveMarker(prefix, admitted);
      assert (log + more)[k] == log[k];
    }
  }

  lemma DoKeepsSaved(state: State, step: Step)
    requires MarkersSaved(state)
    ensures MarkersSaved(Do(state, step))
  {
    hide Saved;
    var later := Do(state, step);
    forall p | p in later.markers
      ensures Saved(later.log, p, later.markers[p])
    {
      if step.SaveMarker? && step.prefix == p {
        NewlySaved(state, step);
      } else {
        SavedGrows(state.log, [Event(state.sessions, step)], p, state.markers[p]);
      }
    }
  }

  lemma NewlySaved(state: State, step: Step)
    ensures step.SaveMarker? ==> Saved(Do(state, step).log, step.prefix, step.admitted)
  {
    if step.SaveMarker? {
      assert Do(state, step).log[|state.log|].step == step;
    }
  }

  lemma {:induction false} PlayKeepsSaved(state: State, steps: seq<Step>, patience: nat)
    requires MarkersSaved(state)
    ensures MarkersSaved(Play(state, steps, patience))
    decreases |steps|
  {
    hide MarkersSaved;
    if steps != [] && patience > 0 {
      DoKeepsSaved(state, steps[0]);
      PlayKeepsSaved(Do(state, steps[0]), steps[1..], patience - 1);
    }
  }

  // Within one session, by the position of the step.
  ghost predicate InOrder(fingerprint: Fingerprint, state: State, call: Call, steps: seq<Step>, i: nat) {
    var decision := Decide(fingerprint, state, call);
    && i < |steps|
    && (Destroys(steps[i]) ==> OnlyDooms(call.kind, steps[i]) && exists j :: 0 <= j < i && steps[j].SawAbsent?)
    && (steps[i].SawAbsent? ==>
          && decision.Proceed? && steps[i] == SawAbsent(decision.admitted.manifest, SightingOf(call))
          && AllAbsent(SightingOf(call), decision.admitted.manifest)
          && (PrefixOf(call.kind) !in state.markers ==> i > 0 && steps[0] == SaveMarker(PrefixOf(call.kind), decision.admitted)))
  }

  lemma StepOrder(fingerprint: Fingerprint, state: State, call: Call)
    ensures var steps := Steps(fingerprint, state, call);
            forall i: nat :: i < |steps| ==> InOrder(fingerprint, state, call, steps, i)
  {
    hide IsDoomed, Decide, Removal, AllAbsent;
    var steps, prefix, decision := Steps(fingerprint, state, call), PrefixOf(call.kind), Decide(fingerprint, state, call);
    if decision.Proceed? {
      var removal := Removal(state, call, decision.admitted.manifest);
      var offset := if prefix in state.markers then 0 else 1;
      assert steps[offset..] == removal;
      RemovalSteps(state, call, decision.admitted.manifest);
      forall i: nat | i < |steps|
        ensures InOrder(fingerprint, state, call, steps, i)
      {
        if i >= offset {
          assert steps[i] == removal[i - offset];
          if Destroys(steps[i]) {
            var j :| 0 <= j < i - offset && removal[j] == SawAbsent(decision.admitted.manifest, SightingOf(call));
            assert steps[j + offset] == removal[j];
          }
        }
      }
    }
  }

  // The last of the sessions, and an event it logged.
  ghost predicate IsLast(sessions: seq<Session>, state: State, call: Call, patience: nat) {
    sessions != [] && sessions[|sessions| - 1] == Disposing(call, patience) && state.sessions + 1 == |sessions|
  }

  lemma NewEventsDestroyLast(fingerprint: Fingerprint, sessions: seq<Session>, state: State, call: Call, patience: nat)
    requires IsLast(sessions, state, call, patience)
    ensures var log := Dispose(fingerprint, state, call, patience).log;
            forall i: nat :: |state.log| <= i < |log| ==> DestroysLast(sessions, log, i)
  {
    hide Steps, AllAbsent, OnlyDooms;
    var steps, session := Steps(fingerprint, state, call), state.sessions + 1;
    PlayLogs(Begin(state), steps, patience);
    StepOrder(fingerprint, state, call);
    var log, n := Dispose(fingerprint, state, call, patience).log, |state.log|;
    forall i: nat | n <= i < |log|
      ensures DestroysLast(sessions, log, i)
    {
      assert log[i] == Events(session, steps, patience)[i - n];
      assert InOrder(fingerprint, state, call, steps, i - n);
      assert log[i] == Event(session, steps[i - n]) && IsOf(sessions, log[i], call);
      if Destroys(log[i].step) {
        var j :| 0 <= j < i - n && steps[j].SawAbsent?;
        assert log[n + j] == Event(session, steps[j]);
      }
    }
  }

  lemma NewEventsSeeAdmitted(fingerprint: Fingerprint, sessions: seq<Session>, state: State, call: Call, patience: nat)
    requires MarkersSaved(state) && IsLast(sessions, state, call, patience)
    ensures var log := Dispose(fingerprint, state, call, patience).log;
            forall i: nat :: |state.log| <= i < |log| ==> SeesAdmitted(sessions, log, i)
  {
    hide Steps, AllAbsent, Decide, NothingInSight;
    var steps, session, prefix := Steps(fingerprint, state, call), state.sessions + 1, PrefixOf(call.kind);
    PlayLogs(Begin(state), steps, patience);
    StepOrder(fingerprint, state, call);
    var log, n := Dispose(fingerprint, state, call, patience).log, |state.log|;
    forall i: nat | n <= i < |log| && log[i].step.SawAbsent?
      ensures SeesAdmitted(sessions, log, i)
    {
      assert log[i] == Events(session, steps, patience)[i - n];
      assert InOrder(fingerprint, state, call, steps, i - n);
      assert log[i] == Event(session, steps[i - n]) && IsOf(sessions, log[i], call);
      AbsentIsOutOfSight(SightingOf(call), log[i].step.manifest);
      if prefix in state.markers {
        Admission(fingerprint, state, call);
        var k :| 0 <= k < n && state.log[k].step == SaveMarker(prefix, state.markers[prefix]);
        assert log[k] == state.log[k];
      } else {
        assert log[n] == Event(session, steps[0]);
      }
    }
  }

  lemma AbsentIsOutOfSight(sighting: Sighting, manifest: Manifest)
    ensures AllAbsent(sighting, manifest) ==> NothingInSight(manifest, sighting)
  {
    if AllAbsent(sighting, manifest) {
      assert forall name :: name in manifest.volumes && name in sighting.volumes ==> name in manifest.volumes.Keys * sighting.volumes;
    }
  }

  // The sessions so far: markers are saved ones, events are in order, and each
  // event carries the number of its session.
  ghost predicate Tracked(sessions: seq<Session>, state: State) {
    MarkersSaved(state) && Ordered(sessions, state.log) && state.sessions == |sessions|
  }

  lemma SessionIsOrdered(fingerprint: Fingerprint, sessions: seq<Session>, state: State)
    requires sessions != [] && Tracked(sessions[..|sessions| - 1], state)
    ensures forall call, patience :: sessions[|sessions| - 1] == Disposing(call, patience) ==>
                                       Tracked(sessions, Dispose(fingerprint, state, call, patience))
  {
    if sessions[|sessions| - 1].Working? {
      return;
    }
    var call, patience := sessions[|sessions| - 1].call, sessions[|sessions| - 1].patience;
    hide MarkersSaved, DestroysLast, SeesAdmitted;
    SavedBegins(state);
    PlayKeepsSaved(Begin(state), Steps(fingerprint, state, call), patience);
    PlayLogs(Begin(state), Steps(fingerprint, state, call), patience);
    var log := Dispose(fingerprint, state, call, patience).log;
    hide Steps;
    NewEventsDestroyLast(fingerprint, sessions, state, call, patience);
    NewEventsSeeAdmitted(fingerprint, sessions, state, call, patience);
    forall i: nat | i < |state.log|
      ensures DestroysLast(sessions, log, i) && SeesAdmitted(sessions, log, i)
    {
      PrefixIsOrdered(sessions[..|sessions| - 1], sessions, state.log, log, i);
    }
  }

  lemma SavedBegins(state: State)
    ensures MarkersSaved(state) ==> MarkersSaved(Begin(state))
  {}

  lemma PrefixIsOrdered(sessions: seq<Session>, more: seq<Session>, log: seq<Event>, longer: seq<Event>, i: nat)
    ensures i < |log| && sessions <= more && log <= longer && DestroysLast(sessions, log, i) && SeesAdmitted(sessions, log, i) ==>
              DestroysLast(more, longer, i) && SeesAdmitted(more, longer, i)
  {
    hide OnlyDooms, NothingInSight;
    if i < |log| && sessions <= more && log <= longer && DestroysLast(sessions, log, i) && SeesAdmitted(sessions, log, i) {
      assert longer[i] == log[i];
      assert forall call :: IsOf(sessions, log[i], call) ==> IsOf(more, log[i], call);
      if Destroys(log[i].step) {
        var j :| 0 <= j < i && log[j].session == log[i].session && log[j].step.SawAbsent?;
        assert longer[j] == log[j];
      }
      if log[i].step.SawAbsent? {
        var call, k :| && IsOf(sessions, log[i], call) && log[i].step.sighting == SightingOf(call)
                       && NothingInSight(log[i].step.manifest, log[i].step.sighting)
                       && 0 <= k < i && log[k].step.SaveMarker? && log[k].step.prefix == PrefixOf(call.kind)
                       && log[k].step.admitted.manifest == log[i].step.manifest;
        assert longer[k] == log[k] && IsOf(more, longer[i], call);
      }
    }
  }

  lemma {:induction false} RunIsOrdered(fingerprint: Fingerprint, sessions: seq<Session>)
    ensures forall entries :: Tracked(sessions, Run(fingerprint, State(entries, {}, map[], map[], 0, []), sessions))
  {
    hide Dispose, Ordered, MarkersSaved;
    forall entries
      ensures Tracked(sessions, Run(fingerprint, State(entries, {}, map[], map[], 0, []), sessions))
    {
      var start := State(entries, {}, map[], map[], 0, []);
      if sessions == [] {
        NothingYet(start);
      } else {
        var n := |sessions| - 1;
        RunIsOrdered(fingerprint, sessions[..n]);
        var before := Run(fingerprint, start, sessions[..n]);
        SessionIsOrdered(fingerprint, sessions, before);
        if sessions[n].Working? {
          SavedWorks(before, Take(fingerprint, before, sessions[n]));
          OrderedWorks(sessions[..n], sessions, before.log);
        }
      }
    }
  }

  lemma NothingYet(state: State)
    ensures state.log == [] && state.markers == map[] ==> MarkersSaved(state) && Ordered([], state.log)
  {}

  lemma SavedWorks(state: State, later: State)
    ensures MarkersSaved(state) && later.markers == state.markers && later.log == state.log ==> MarkersSaved(later)
  {}

  lemma OrderedWorks(sessions: seq<Session>, more: seq<Session>, log: seq<Event>)
    ensures sessions <= more && Ordered(sessions, log) ==> Ordered(more, log)
  {
    hide DestroysLast, SeesAdmitted;
    if sessions <= more && Ordered(sessions, log) {
      forall i: nat | i < |log|
        ensures DestroysLast(more, log, i) && SeesAdmitted(more, log, i)
      {
        PrefixIsOrdered(sessions, more, log, log, i);
      }
    }
  }

  // Over every run: whatever a session destroys is what its kind is about, and
  // before that, in the same session, its own look at the provider showed no
  // container, volume or network of a manifest that had been admitted under
  // its own prefix, and no container of its namespace.
  lemma CustodyGoesLast(fingerprint: Fingerprint, entries: set<Entry>, sessions: seq<Session>, i: nat) returns (call: Call, j: nat, k: nat)
    requires var log := Run(fingerprint, State(entries, {}, map[], map[], 0, []), sessions).log;
             i < |log| && Destroys(log[i].step)
    ensures var log := Run(fingerprint, State(entries, {}, map[], map[], 0, []), sessions).log;
            && IsOf(sessions, log[i], call) && OnlyDooms(call.kind, log[i].step)
            && k < j < i && log[j].session == log[i].session
            && log[j].step.SawAbsent? && log[j].step.sighting == SightingOf(call)
            && NothingInSight(log[j].step.manifest, log[j].step.sighting)
            && log[k].step.SaveMarker? && log[k].step.prefix == PrefixOf(call.kind)
            && log[k].step.admitted.manifest == log[j].step.manifest
  {
    hide Run, OnlyDooms, NothingInSight;
    RunIsOrdered(fingerprint, sessions);
    var log := Run(fingerprint, State(entries, {}, map[], map[], 0, []), sessions).log;
    assert DestroysLast(sessions, log, i);
    call :| IsOf(sessions, log[i], call) && OnlyDooms(call.kind, log[i].step);
    j :| 0 <= j < i && log[j].session == log[i].session && log[j].step.SawAbsent?;
    assert SeesAdmitted(sessions, log, j);
    var same: Call;
    same, k :| && IsOf(sessions, log[j], same) && log[j].step.sighting == SightingOf(same)
               && NothingInSight(log[j].step.manifest, log[j].step.sighting)
               && 0 <= k < j && log[k].step.SaveMarker? && log[k].step.prefix == PrefixOf(same.kind)
               && log[k].step.admitted.manifest == log[j].step.manifest;
    assert same == call;
  }

  // A new disposal of recorded copies is admitted only when every effect that
  // ever started is settled.
  lemma AdmittedWhenSettled(fingerprint: Fingerprint, state: State, call: Call, name: string)
    requires Decide(fingerprint, state, call).Proceed? && PrefixOf(call.kind) !in state.markers && call.copies != []
    requires StartedFile(name) in state.entries
    ensures AbandonedName(call.kind) == Some(name) || name in call.archived || ReceiptFile(name) in state.entries
  {
    Admission(fingerprint, state, call);
    assert LaterPhase(state.entries, call, call.answers.verified, call.answers.published);
    assert IsSettledEffect(state.entries, call, StartedFile(name).name);
  }

  // An effect that started and is not settled keeps the whole custody: no new
  // disposal of recorded copies is admitted and nothing is deleted.
  lemma UncertainEffectRetainsCustody(fingerprint: Fingerprint, state: State, call: Call, patience: nat, name: string)
    requires PrefixOf(call.kind) !in state.markers && call.copies != [] && StartedFile(name) in state.entries
    requires AbandonedName(call.kind) != Some(name) && name !in call.archived && ReceiptFile(name) !in state.entries
    ensures var after := Dispose(fingerprint, state, call, patience);
            after.entries == state.entries && after.damaged == state.damaged && after.markers == state.markers
  {
    hide Decide, Removal;
    var decision := Decide(fingerprint, state, call);
    if decision.Proceed? {
      AdmittedWhenSettled(fingerprint, state, call, name);
    } else if decision.Refuse? && patience > 0 {
      var steps := Steps(fingerprint, state, call);
      assert Play(Begin(state), steps, patience) == Do(Begin(state), steps[0]);
    }
  }

  // ----- a session that is not cut short completes -----

  lemma {:induction false} PlayRemoves(start: State, state: State, kind: Kind, listing: seq<Target>, patience: nat, target: Target)
    requires patience >= |DeletionOf(start, kind, listing)|
    requires IsDoomed(kind, target) && (target in listing || !Exists(state, target)) && (Exists(state, target) ==> Exists(start, target))
    ensures !Exists(Play(state, DeletionOf(start, kind, listing), patience), target)
    decreases |listing|
  {
    hide IsDoomed;
    if listing != [] {
      var head := listing[0];
      if IsDoomed(kind, head) && Exists(start, head) {
        var rest := DeletionOf(Remove(start, head), kind, listing[1..]);
        var steps := DeletionOf(start, kind, listing);
        assert steps == [Damage(head), Delete(head)] + rest;
        assert steps[1..] == [Delete(head)] + rest && steps[1..][1..] == rest;
        PlayRemoves(Remove(start, head), Do(Do(state, Damage(head)), Delete(head)), kind, listing[1..], patience - 2, target);
      } else {
        PlayRemoves(start, state, kind, listing[1..], patience, target);
      }
    }
  }

  lemma {:induction false} PlayFront(state: State, front: seq<Step>, rest: seq<Step>, patience: nat)
    requires patience >= |front|
    ensures Play(state, front + rest, patience) == Play(Play(state, front, |front|), rest, patience - |front|)
    decreases |front|
  {
    if front == [] {
      assert front + rest == rest;
    } else {
      assert (front + rest)[1..] == front[1..] + rest;
      PlayFront(Do(state, front[0]), front[1..], rest, patience - 1);
    }
  }

  // If the session proceeds, sees everything absent, is not cut short and
  // lists the directory in full, all it is about is gone.
  lemma DisposalCompletes(fingerprint: Fingerprint, state: State, call: Call, patience: nat, target: Target)
    requires Decide(fingerprint, state, call).Proceed? && patience >= |Steps(fingerprint, state, call)|
    requires AllAbsent(SightingOf(call), Decide(fingerprint, state, call).admitted.manifest) && (call.kind.Retain? ==> call.answers.retainedIntact)
    requires IsDoomed(call.kind, target) && (Exists(state, target) ==> target in call.answers.listing)
    requires target != Marker(PrefixOf(call.kind))
    ensures !Exists(Dispose(fingerprint, state, call, patience), target)
  {
    hide Decide, AllAbsent, IsDoomed, DeletionOf, Removal, Exists;
    var steps := Steps(fingerprint, state, call);
    var deletion := DeletionOf(state, call.kind, call.answers.listing);
    var front := BeforeDeletion(fingerprint, state, call);
    PlayFront(Begin(state), front, deletion, patience);
    FrontKeepsFiles(Begin(state), front, |front|, PrefixOf(call.kind), target);
    BeginKeepsFiles(state, target);
    PlayRemoves(state, Play(Begin(state), front, |front|), call.kind, call.answers.listing, patience - |front|, target);
  }

  lemma BeginKeepsFiles(state: State, target: Target)
    ensures Exists(Begin(state), target) == Exists(state, target)
  {}

  lemma BeforeDeletion(fingerprint: Fingerprint, state: State, call: Call) returns (front: seq<Step>)
    requires Decide(fingerprint, state, call).Proceed?
    requires AllAbsent(SightingOf(call), Decide(fingerprint, state, call).admitted.manifest) && (call.kind.Retain? ==> call.answers.retainedIntact)
    ensures Steps(fingerprint, state, call) == front + DeletionOf(state, call.kind, call.answers.listing)
    ensures forall i :: 0 <= i < |front| ==>
                          !Destroys(front[i]) && !front[i].SaveRefusals? && (front[i].SaveMarker? ==> front[i].prefix == PrefixOf(call.kind))
  {
    hide Decide, AllAbsent, DeletionOf, Removal;
    var decision := Decide(fingerprint, state, call);
    var saved := if PrefixOf(call.kind) in state.markers then [] else [SaveMarker(PrefixOf(call.kind), decision.admitted)];
    var provider := BeforeFiles(state, call, decision.admitted.manifest);
    front := saved + provider;
    assert saved + (provider + DeletionOf(state, call.kind, call.answers.listing)) == front + DeletionOf(state, call.kind, call.answers.listing);
  }

  lemma BeforeFiles(state: State, call: Call, manifest: Manifest) returns (front: seq<Step>)
    requires AllAbsent(SightingOf(call), manifest) && (call.kind.Retain? ==> call.answers.retainedIntact)
    ensures Removal(state, call, manifest) == front + DeletionOf(state, call.kind, call.answers.listing)
    ensures forall i :: 0 <= i < |front| ==> !Destroys(front[i]) && !front[i].SaveRefusals? && !front[i].SaveMarker?
  {
    hide AllAbsent, DeletionOf, RemainingOf;
    var removal, deletion := Removal(state, call, manifest), DeletionOf(state, call.kind, call.answers.listing);
    front := removal[..|removal| - |deletion|];
    assert removal == front + deletion;
  }

  lemma {:induction false} FrontKeepsFiles(state: State, front: seq<Step>, patience: nat, prefix: Prefix, target: Target)
    requires forall i :: 0 <= i < |front| ==> !Destroys(front[i]) && !front[i].SaveRefusals? && (front[i].SaveMarker? ==> front[i].prefix == prefix)
    requires target != Marker(prefix)
    ensures Exists(Play(state, front, patience), target) == Exists(state, target)
    decreases |front|
  {
    if front != [] && patience > 0 {
      FrontKeepsFiles(Do(state, front[0]), front[1..], patience - 1, prefix, target);
    }
  }
}
