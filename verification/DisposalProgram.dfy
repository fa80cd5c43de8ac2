// One locked disposal session, step by step, dying when its steps run out.
module DisposalProgram {
  import opened Options
  import opened DisposalPlan

  lemma PlayFirst(state: State, step: Step, rest: seq<Step>, patience: nat)
    ensures Play(state, [step] + rest, patience) == if patience == 0 then state else Play(Do(state, step), rest, patience - 1)
  {
    assert ([step] + rest)[1..] == rest;
  }

  lemma PlayNothing(state: State, patience: nat)
    ensures Play(state, [], patience) == state
  {}

  class Disposer {
    var entries: set<Entry>
    ghost var damaged: set<Entry>
    var markers: map<Prefix, Admitted>
    var refusals: map<Prefix, Rejected>
    // Sessions begun and what they did, for the specification.
    ghost var sessions: nat
    ghost var log: seq<Event>
    // Steps left before the process dies.
    var patience: nat

    constructor (entries: set<Entry>)
      ensures View() == State(entries, {}, map[], map[], 0, [])
    {
      this.entries, damaged, markers, refusals, sessions, log := entries, {}, map[], map[], 0, [];
    }

    ghost function View(): State
      reads this
    {
      State(entries, damaged, markers, refusals, sessions, log)
    }

    method Take(step: Step) returns (alive: bool)
      modifies this
      ensures alive == (old(patience) > 0)
      ensures View() == if alive then Do(old(View()), step) else old(View())
      ensures patience == if alive then old(patience) - 1 else 0
    {
      if patience == 0 {
        return false;
      }
      patience := patience - 1;
      log := log + [Event(sessions, step)];
      if step.SaveRefusals? {
        refusals := refusals[step.prefix := step.rejected];
      } else if step.SaveMarker? {
        markers := markers[step.prefix := step.admitted];
      } else if step.Damage? && step.target.Custody? {
        damaged := damaged + {step.target.entry};
      } else if step.Delete? {
        match step.target {
          case Custody(entry) => entries, damaged := entries - {entry}, damaged - {entry};
          case Marker(prefix) => markers := markers - {prefix};
          case Refusals(prefix) => refusals := refusals - {prefix};
        }
      }
      return true;
    }

    predicate Held(target: Target)
      reads this
    {
      match target
      case Custody(entry) => entry in entries
      case Marker(prefix) => prefix in markers
      case Refusals(prefix) => prefix in refusals
    }

    // The private files, one by one, as the directory was listed.
    method DeleteListed(kind: Kind, listing: seq<Target>, ghost start: State)
      requires forall target :: IsDoomed(kind, target) ==> Exists(View(), target) == Exists(start, target)
      modifies this
      ensures View() == Play(old(View()), DeletionOf(start, kind, listing), old(patience))
    {
      hide Play, IsDoomed, DeletionOf;
      ghost var goal := Play(View(), DeletionOf(start, kind, listing), patience);
      ghost var left := start;
      assert listing[0..] == listing;
      for i := 0 to |listing|
        invariant goal == Play(View(), DeletionOf(left, kind, listing[i..]), patience)
        invariant forall target :: IsDoomed(kind, target) ==> Exists(View(), target) == Exists(left, target)
      {
        var target := listing[i];
        assert listing[i..][0] == target && listing[i..][1..] == listing[i + 1..];
        DeletionHead(left, kind, listing[i..]);
        if IsDoomed(kind, target) && Held(target) {
          ghost var rest := DeletionOf(Remove(left, target), kind, listing[i + 1..]);
          PlayFirst(View(), Damage(target), [Delete(target)] + rest, patience);
          var alive := Take(Damage(target));
          if !alive {
            return;
          }
          PlayFirst(View(), Delete(target), rest, patience);
          alive := Take(Delete(target));
          if !alive {
            return;
          }
          left := Remove(left, target);
        }
      }
      assert listing[|listing|..] == [];
      DeletionHead(left, kind, []);
      PlayNothing(View(), patience);
    }

    // Only what was seen absent lets the private files go.
    method DestroyCustody(call: Call, manifest: Manifest, ghost start: State)
      requires forall target :: IsDoomed(call.kind, target) ==> Exists(View(), target) == Exists(start, target)
      modifies this
      ensures View() == Play(old(View()), Destruction(start, call, manifest), old(patience))
    {
      hide Play, IsDoomed, DeletionOf, AllAbsent, Exists;
      PlayNothing(View(), patience);
      var sighting := Sighting(call.namespace, call.answers.containersAfter, call.answers.volumesAfter, call.answers.networksAfter);
      if !AllAbsent(sighting, manifest) {
        return;
      }
      ghost var deletion := if call.kind.Retain? && !call.answers.retainedIntact then [] else DeletionOf(start, call.kind, call.answers.listing);
      assert Destruction(start, call, manifest) == [SawAbsent(manifest, sighting)] + deletion;
      PlayFirst(View(), SawAbsent(manifest, sighting), deletion, patience);
      ghost var before := View();
      var alive := Take(SawAbsent(manifest, sighting));
      PlayNothing(View(), patience);
      if !alive || (call.kind.Retain? && !call.answers.retainedIntact) {
        return;
      }
      SameTargets(before, View());
      DeleteListed(call.kind, call.answers.listing, start);
    }

    // What is left at the provider goes first.
    method RemoveAll(call: Call, manifest: Manifest, ghost start: State)
      requires forall target :: IsDoomed(call.kind, target) ==> Exists(View(), target) == Exists(start, target)
      modifies this
      ensures View() == Play(old(View()), Removal(start, call, manifest), old(patience))
    {
      hide Play, IsDoomed, Destruction, Exists, RemainingOf;
      var a := call.answers;
      ghost var before := View();
      var remaining := RemainingOf(a.containers, manifest);
      ghost var destruction := Destruction(start, call, manifest);
      ghost var network := (if manifest.networkName in a.networkNames then [RemoveNetwork(manifest.networkId)] else []) + destruction;
      ghost var volumes := [RemoveVolumes(manifest.volumes.Keys * a.volumeNames)] + network;
      RemovalShape(start, call, manifest);
      var alive;
      if remaining != {} {
        PlayFirst(View(), StopContainers(remaining), [RemoveContainers(remaining)] + volumes, patience);
        alive := Take(StopContainers(remaining));
        if !alive {
          return;
        }
        PlayFirst(View(), RemoveContainers(remaining), volumes, patience);
        alive := Take(RemoveContainers(remaining));
        if !alive {
          return;
        }
      }
      PlayFirst(View(), RemoveVolumes(manifest.volumes.Keys * a.volumeNames), network, patience);
      alive := Take(RemoveVolumes(manifest.volumes.Keys * a.volumeNames));
      if !alive {
        return;
      }
      if manifest.networkName in a.networkNames {
        PlayFirst(View(), RemoveNetwork(manifest.networkId), destruction, patience);
        alive := Take(RemoveNetwork(manifest.networkId));
        if !alive {
          return;
        }
      } else {
        assert network == destruction;
      }
      SameTargets(before, View());
      DestroyCustody(call, manifest, start);
    }

    // ----- the checks, one branch or loop at a time -----

    // `later_phase_snapshots`: copies, snapshots and captures first, then every
    // marker in the directory.
    method CheckLaterPhase(call: Call, verified: bool, published: bool) returns (settled: bool)
      ensures settled == LaterPhase(old(entries), call, verified, published)
    {
      if RolesOf(call).None? || seq(|call.copies|, i requires 0 <= i < |call.copies| => call.copies[i].role) != RolesOf(call).value {
        return false;
      }
      var roles := RolesOf(call).value;
      if exists e :: e in entries && e.SnapshotDir? && e.role !in roles {
        return false;
      }
      if CapturePending in entries || CaptureReceipt !in entries {
        return false;
      }
      for i := 0 to |call.copies|
        invariant forall k :: 0 <= k < i ==> SnapshotDir(call.copies[k].role) in entries
      {
        if SnapshotDir(call.copies[i].role) !in entries {
          return false;
        }
      }
      if !verified {
        return false;
      }
      if call.kind.Preserve? {
        var effect := if call.phase == Switched then "validate-business" else if call.phase == Rebuilding then "rebuild-final" else "";
        if effect == "" || call.kind.effect != effect || StartedFile(AbandonedName(call.kind).value) !in entries {
          return false;
        }
      }
      var left := entries;
      while left != {}
        invariant left <= entries
        invariant forall e :: e in entries && e !in left && e.StartedFile? ==> IsSettledEffect(entries, call, e.name)
        decreases |left|
      {
        var e :| e in left;
        left := left - {e};
        if e.StartedFile? {
          if AbandonedName(call.kind) == Some(e.name) {
            if ReceiptFile(e.name) in entries || OutcomeFile(e.name) in entries || OutcomePendingFile(e.name) in entries {
              return false;
            }
          } else if e.name !in call.archived && ReceiptFile(e.name) !in entries {
            return false;
          }
        }
      }
      return published;
    }

    method CheckInitialFailure(call: Call) returns (failed: bool)
      ensures failed == InitialFailure(old(entries), call)
    {
      if !call.unused && (StartedFile("execute") !in entries || ReceiptFile("execute") in entries) {
        return false;
      }
      return SnapshotDir(Upgrade) !in entries && SnapshotDir(FinalSource) !in entries && SnapshotDir(FinalUpgrade) !in entries;
    }

    // What is left belongs to the manifest, and no other container uses it.
    method CheckOwnership(call: Call, manifest: Manifest) returns (owned: bool)
      ensures owned == OwnershipHolds(call, manifest) && View() == old(View())
    {
      var a := call.answers;
      if manifest.root != a.root {
        return false;
      }
      if exists i :: 0 <= i < |a.containers| && a.containers[i].project == call.namespace && a.containers[i].id !in manifest.containers {
        return false;
      }
      for i := 0 to |a.containers|
        invariant forall k :: 0 <= k < i && a.containers[k].id in manifest.containers ==> a.containers[k].project == call.namespace
      {
        if a.containers[i].id in manifest.containers && a.containers[i].project != call.namespace {
          return false;
        }
      }
      var volumes := manifest.volumes.Keys * a.volumeNames;
      if exists name :: name in volumes && (name !in a.backings || a.backings[name] != manifest.volumes[name]) {
        return false;
      }
      if manifest.networkName in a.networkNames && !a.networkFits {
        return false;
      }
      for i := 0 to |a.containers|
        invariant forall k :: 0 <= k < i && a.containers[k].id !in manifest.containers ==> a.containers[k].mounts * manifest.volumes.Keys == {}
      {
        if a.containers[i].id !in manifest.containers && a.containers[i].mounts * manifest.volumes.Keys != {} {
          return false;
        }
      }
      return true;
    }

    // While anything is left, the recorded snapshots must still be the reviewed
    // ones; and nothing may be running in what is left.
    method CheckRecovery(call: Call, manifest: Manifest) returns (holds: bool)
      ensures holds == RecoveryHolds(old(View()), call, manifest)
    {
      hide LaterPhase;
      var a := call.answers;
      if call.copies == [] {
        return true;
      }
      if RemainingOf(a.containers, manifest) != {} || manifest.volumes.Keys * a.volumeNames != {} || manifest.networkName in a.networkNames {
        var settled := CheckLaterPhase(call, a.verifiedAgain, a.publishedAgain);
        if !settled || call.copies != manifest.recovery {
          return false;
        }
      }
      return !exists i :: 0 <= i < |a.containers| && a.containers[i].id in manifest.containers && !a.containers[i].idle;
    }

    method CheckStart(call: Call) returns (may: bool)
      ensures may == MayStart(old(View()), call)
      ensures may && call.apply ==> call.review.Some?
    {
      if !Disposable(call) {
        return false;
      }
      if call.unused {
        if StartedFile("execute") in entries || ReceiptFile("execute") in entries || CaptureReceipt in entries
           || CapturePending in entries || RawSource in entries || exists e :: e in entries && e.SnapshotDir?
        {
          return false;
        }
        if exists e :: e in entries && e.StartedFile? && e.name != "prepare" {
          return false;
        }
      }
      var rejected := Rejected(call.binding, {});
      if PrefixOf(call.kind) in refusals {
        rejected := refusals[PrefixOf(call.kind)];
        if rejected.binding != call.binding {
          return false;
        }
      }
      if call.apply && (call.review.None? || call.review.value in rejected.reviews) {
        return false;
      }
      for i := 0 to |call.answers.containers|
        invariant forall k :: 0 <= k < i ==> !call.answers.containers[k].holdsCustody
      {
        if call.answers.containers[i].holdsCustody {
          return false;
        }
      }
      return true;
    }

    // The admitted manifest, or a new one that the custody resolves to.
    method FindManifest(call: Call) returns (manifest: Option<Manifest>)
      ensures manifest == ManifestFor(old(View()), call)
    {
      hide LaterPhase, InitialFailure;
      var prefix := PrefixOf(call.kind);
      if prefix in markers {
        var admitted := markers[prefix];
        if admitted.manifest.binding != call.binding || Some(admitted.review) != call.review {
          return None;
        }
        return Some(admitted.manifest);
      }
      var resolved;
      if call.copies != [] {
        resolved := CheckLaterPhase(call, call.answers.verified, call.answers.published);
      } else {
        resolved := CheckInitialFailure(call);
      }
      if !resolved || !call.answers.inspected {
        return None;
      }
      var a := call.answers;
      return Some(Manifest(call.binding, a.own, a.ownVolumes, a.networkName, a.networkId, a.root, call.copies));
    }

    method DecideSession(fingerprint: Fingerprint, call: Call) returns (decision: Decision)
      ensures decision == Decide(fingerprint, old(View()), call)
    {
      hide MayStart, ManifestFor, OwnershipHolds, RecoveryHolds;
      var may := CheckStart(call);
      if !may {
        return Stop;
      }
      var found := FindManifest(call);
      if found.None? {
        return Stop;
      }
      var manifest := found.value;
      var owned := CheckOwnership(call, manifest);
      if !owned {
        return Stop;
      }
      var recoverable := CheckRecovery(call, manifest);
      if !recoverable || !call.apply {
        return Stop;
      }
      if call.hostBinding == fingerprint(manifest) {
        return Proceed(Admitted(manifest, call.review.value));
      }
      var prefix := PrefixOf(call.kind);
      if prefix in markers {
        return Stop;
      }
      var reviews := if prefix in refusals then refusals[prefix].reviews else {};
      return Refuse(Rejected(call.binding, reviews + {call.review.value}));
    }

    method IncompleteRetirementLocked(fingerprint: Fingerprint, call: Call)
      modifies this
      ensures View() == Dispose(fingerprint, old(View()), call, old(patience))
    {
      hide Play, IsDoomed, Removal, Decide;
      ghost var start := View();
      var prefix := PrefixOf(call.kind);
      var decision := DecideSession(fingerprint, call);
      sessions := sessions + 1;
      PlayNothing(View(), patience);
      if decision.Stop? {
        return;
      }
      if decision.Refuse? {
        PlayFirst(View(), SaveRefusals(prefix, decision.rejected), [], patience);
        assert [SaveRefusals(prefix, decision.rejected)] + [] == [SaveRefusals(prefix, decision.rejected)];
        var alive := Take(SaveRefusals(prefix, decision.rejected));
        PlayNothing(View(), patience);
        return;
      }
      ghost var removal := Removal(start, call, decision.admitted.manifest);
      if prefix !in markers {
        PlayFirst(View(), SaveMarker(prefix, decision.admitted), removal, patience);
        var alive := Take(SaveMarker(prefix, decision.admitted));
        if !alive {
          return;
        }
      } else {
        assert [] + removal == removal;
      }
      OwnMarkerStays(call.kind);
      RemoveAll(call, decision.admitted.manifest, start);
    }
  }

  lemma SameTargets(state: State, later: State)
    ensures later.entries == state.entries && later.markers == state.markers && later.refusals == state.refusals ==>
              forall target :: Exists(later, target) == Exists(state, target)
  {}

  lemma RemovalShape(state: State, call: Call, manifest: Manifest)
    ensures var a, destruction := call.answers, Destruction(state, call, manifest);
            var remaining := RemainingOf(a.containers, manifest);
            var network := (if manifest.networkName in a.networkNames then [RemoveNetwork(manifest.networkId)] else []) + destruction;
            var volumes := [RemoveVolumes(manifest.volumes.Keys * a.volumeNames)] + network;
            Removal(state, call, manifest) ==
            if remaining != {} then [StopContainers(remaining)] + ([RemoveContainers(remaining)] + volumes) else volumes
  {
    hide Destruction, RemainingOf;
  }

  lemma DeletionHead(state: State, kind: Kind, listing: seq<Target>)
    ensures DeletionOf(state, kind, []) == []
    ensures listing != [] ==>
              DeletionOf(state, kind, listing) ==
              if IsDoomed(kind, listing[0]) && Exists(state, listing[0])
              then [Damage(listing[0])] + ([Delete(listing[0])] + DeletionOf(Remove(state, listing[0]), kind, listing[1..]))
              else DeletionOf(state, kind, listing[1..])
  {}

  lemma OwnMarkerStays(kind: Kind)
    ensures !IsDoomed(kind, Marker(PrefixOf(kind)))
  {}
}
