// Reviewed, resumable disposal of a rehearsal (`incomplete_retirement_locked`):
// the steps one locked session takes, given what its queries answer.
module DisposalPlan {
  import opened Options

  datatype Role = Source | Upgrade | FinalSource | FinalUpgrade

  datatype Prefix = Incomplete | Abandon(attempt: string)

  datatype Entry =
    | RawSource | SnapshotDir(role: Role) | CaptureReceipt | CapturePending
    | StartedFile(name: string) | ReceiptFile(name: string) | OutcomeFile(name: string) | OutcomePendingFile(name: string)
    | OtherFile(name: string)

  datatype Snapshot = Snapshot(role: Role, seal: string)

  datatype Manifest = Manifest(binding: string, containers: set<string>, volumes: map<string, string>, networkName: string,
                               networkId: string, root: string, recovery: seq<Snapshot>)

  datatype Admitted = Admitted(manifest: Manifest, review: string)

  datatype Rejected = Rejected(binding: string, reviews: set<string>)

  datatype Container = Container(id: string, project: string, idle: bool, holdsCustody: bool, mounts: set<string>)

  // One look at everything a manifest may name, under the session's namespace.
  datatype Sighting = Sighting(namespace: string, containers: seq<Container>, volumes: set<string>, networks: set<string>)

  // What a deletion can reach: private files, or the receipts of a disposal.
  datatype Target = Custody(entry: Entry) | Marker(prefix: Prefix) | Refusals(prefix: Prefix)

  datatype Step =
    | SaveRefusals(prefix: Prefix, rejected: Rejected)
    | SaveMarker(prefix: Prefix, admitted: Admitted)
    | StopContainers(ids: set<string>) | RemoveContainers(ids: set<string>)
    | RemoveVolumes(names: set<string>) | RemoveNetwork(id: string)
    | SawAbsent(manifest: Manifest, sighting: Sighting)
    | Damage(target: Target) | Delete(target: Target)

  // The step of the session with this number, counted from one.
  datatype Event = Event(session: nat, step: Step)

  // The private directory, and everything the sessions have done.
  datatype State = State(entries: set<Entry>, damaged: set<Entry>, markers: map<Prefix, Admitted>, refusals: map<Prefix, Rejected>,
                         sessions: nat, log: seq<Event>)

  // The answers of the queries of one session, at the times they are asked.
  datatype Answers = Answers(
    containers: seq<Container>, inspected: bool, own: set<string>, ownVolumes: map<string, string>,
    networkName: string, networkId: string, root: string,
    volumeNames: set<string>, backings: map<string, string>, networkNames: set<string>, networkFits: bool,
    verified: bool, published: bool, verifiedAgain: bool, publishedAgain: bool,
    containersAfter: seq<Container>, volumesAfter: set<string>, networksAfter: set<string>,
    retainedIntact: bool, listing: seq<Target>)

  datatype Kind = Full | Preserve(attempt: string, effect: string, abandoned: string) | Retain

  datatype Phase = Prepared | Upgraded | Rebuilding | Switched | Verified | Retired

  datatype Call = Call(kind: Kind, apply: bool, unused: bool, namespace: string, binding: string, review: Option<string>,
                       hostBinding: string, phase: Phase, copies: seq<Snapshot>, archived: set<string>, answers: Answers)

  function PrefixOf(kind: Kind): Prefix { if kind.Preserve? then Abandon(kind.attempt) else Incomplete }

  // ----- when a session may go on -----

  // Which record states may be disposed at all.
  predicate Disposable(call: Call) {
    || (call.phase == Prepared && call.copies == [])
    || ((call.phase == Upgraded || call.phase == Switched) && call.copies != [])
    || (call.kind.Preserve? && call.phase == Rebuilding && call.copies != [])
    || (call.kind.Retain? && call.phase == Retired && call.copies != [])
  }

  // Nothing but the preparation has ever begun.
  predicate NeverStarted(entries: set<Entry>) {
    && StartedFile("execute") !in entries && ReceiptFile("execute") !in entries && CaptureReceipt !in entries
    && CapturePending !in entries && RawSource !in entries
    && (forall e :: e in entries ==> !e.SnapshotDir? && (e.StartedFile? ==> e.name == "prepare"))
  }

  function EffectiveState(call: Call): Phase { if call.phase == Rebuilding && call.kind.Preserve? then Switched else call.phase }

  function RolesOf(call: Call): Option<seq<Role>> {
    var phase := EffectiveState(call);
    if call.kind.Retain? && phase == Retired then Some([Source, FinalSource, FinalUpgrade])
    else if phase == Upgraded then Some([Source])
    else if phase == Switched then Some([Source, FinalSource])
    else None
  }

  function AbandonedName(kind: Kind): Option<string> {
    if kind.Preserve? then Some(kind.effect + "-" + kind.abandoned) else None
  }

  // An effect that started is abandoned here without a recorded outcome, or
  // was abandoned before, or left its receipt.
  predicate IsSettledEffect(entries: set<Entry>, call: Call, name: string) {
    if AbandonedName(call.kind) == Some(name)
    then ReceiptFile(name) !in entries && OutcomeFile(name) !in entries && OutcomePendingFile(name) !in entries
    else name in call.archived || ReceiptFile(name) in entries
  }

  // The recorded recovery snapshots are exactly those of a settled later phase.
  predicate LaterPhase(entries: set<Entry>, call: Call, verified: bool, published: bool) {
    && RolesOf(call).Some?
    && |call.copies| == |RolesOf(call).value|
    && (forall i :: 0 <= i < |call.copies| ==> call.copies[i].role == RolesOf(call).value[i])
    && (forall e :: e in entries && e.SnapshotDir? ==> e.role in RolesOf(call).value)
    && CapturePending !in entries && CaptureReceipt in entries
    && (forall i :: 0 <= i < |call.copies| ==> SnapshotDir(call.copies[i].role) in entries)
    && verified
    && (call.kind.Preserve? ==>
          && ((call.phase == Switched && call.kind.effect == "validate-business")
              || (call.phase == Rebuilding && call.kind.effect == "rebuild-final"))
          && StartedFile(AbandonedName(call.kind).value) in entries)
    && (forall e :: e in entries && e.StartedFile? ==> IsSettledEffect(entries, call, e.name))
    && published
  }

  // The initial phase failed: its effect started, left no receipt, and no
  // later snapshot exists.
  predicate InitialFailure(entries: set<Entry>, call: Call) {
    && (call.unused || (StartedFile("execute") in entries && ReceiptFile("execute") !in entries))
    && (forall e :: e in entries && e.SnapshotDir? ==> e.role == Source)
  }

  predicate Resolves(entries: set<Entry>, call: Call) {
    call.answers.inspected
    && (if call.copies != [] then LaterPhase(entries, call, call.answers.verified, call.answers.published) else InitialFailure(entries, call))
  }

  function Built(call: Call): Manifest {
    var a := call.answers;
    Manifest(call.binding, a.own, a.ownVolumes, a.networkName, a.networkId, a.root, call.copies)
  }

  function RejectedBy(state: State, call: Call): Rejected {
    var prefix := PrefixOf(call.kind);
    if prefix in state.refusals then state.refusals[prefix] else Rejected(call.binding, {})
  }

  // The manifest this session works with: the admitted one, or a new one.
  function ManifestFor(state: State, call: Call): Option<Manifest> {
    var prefix := PrefixOf(call.kind);
    if prefix in state.markers then
      var admitted := state.markers[prefix];
      if admitted.manifest.binding == call.binding && Some(admitted.review) == call.review then Some(admitted.manifest) else None
    else if Resolves(state.entries, call) then Some(Built(call)) else None
  }

  predicate MayStart(state: State, call: Call) {
    && Disposable(call)
    && (call.unused ==> NeverStarted(state.entries))
    && RejectedBy(state, call).binding == call.binding
    && (call.apply ==> call.review.Some? && call.review.value !in RejectedBy(state, call).reviews)
    && (forall i :: 0 <= i < |call.answers.containers| ==> !call.answers.containers[i].holdsCustody)
  }

  function RemainingOf(containers: seq<Container>, manifest: Manifest): set<string> {
    set i | 0 <= i < |containers| && containers[i].id in manifest.containers :: containers[i].id
  }

  // What is left of the manifest belongs to it, and nothing else uses it.
  predicate OwnershipHolds(call: Call, manifest: Manifest) {
    var a := call.answers;
    && manifest.root == a.root
    && (forall i :: 0 <= i < |a.containers| ==>
                      (a.containers[i].project == call.namespace <==> a.containers[i].id in manifest.containers))
    && (forall name :: name in manifest.volumes && name in a.volumeNames ==> name in a.backings && a.backings[name] == manifest.volumes[name])
    && (manifest.networkName in a.networkNames ==> a.networkFits)
    && (forall i :: 0 <= i < |a.containers| && a.containers[i].id !in manifest.containers ==> a.containers[i].mounts * manifest.volumes.Keys == {})
  }

  predicate RecoveryHolds(state: State, call: Call, manifest: Manifest) {
    var a := call.answers;
    call.copies != [] ==>
      && (RemainingOf(a.containers, manifest) != {} || manifest.volumes.Keys * a.volumeNames != {} || manifest.networkName in a.networkNames
          ==> LaterPhase(state.entries, call, a.verifiedAgain, a.publishedAgain) && call.copies == manifest.recovery)
      && (forall i :: 0 <= i < |a.containers| && a.containers[i].id in manifest.containers ==> a.containers[i].idle)
  }

  // The look a session takes after it has removed everything at the provider.
  function SightingOf(call: Call): Sighting {
    Sighting(call.namespace, call.answers.containersAfter, call.answers.volumesAfter, call.answers.networksAfter)
  }

  predicate AllAbsent(sighting: Sighting, manifest: Manifest) {
    && (forall i :: 0 <= i < |sighting.containers| ==>
                      sighting.containers[i].id !in manifest.containers && sighting.containers[i].project != sighting.namespace)
    && manifest.volumes.Keys * sighting.volumes == {}
    && manifest.networkName !in sighting.networks
  }

  // ----- the steps -----

  // Which files a disposal of this kind is about.
  predicate IsDoomed(kind: Kind, target: Target) {
    match kind
    case Retain => target == Custody(RawSource) || target == Custody(SnapshotDir(Source))
    case Preserve(_, _, _) => target == Custody(RawSource)
    case Full => target != Marker(Incomplete) && target != Refusals(Incomplete)
  }

  predicate Exists(state: State, target: Target) {
    match target
    case Custody(entry) => entry in state.entries
    case Marker(prefix) => prefix in state.markers
    case Refusals(prefix) => prefix in state.refusals
  }

  function Remove(state: State, target: Target): State {
    match target
    case Custody(entry) => state.(entries := state.entries - {entry}, damaged := state.damaged - {entry})
    case Marker(prefix) => state.(markers := state.markers - {prefix})
    case Refusals(prefix) => state.(refusals := state.refusals - {prefix})
  }

  // A directory is emptied before it is removed.
  function DeletionOf(state: State, kind: Kind, listing: seq<Target>): seq<Step>
    decreases |listing|
  {
    if listing == [] then []
    else if IsDoomed(kind, listing[0]) && Exists(state, listing[0])
    then [Damage(listing[0]), Delete(listing[0])] + DeletionOf(Remove(state, listing[0]), kind, listing[1..])
    else DeletionOf(state, kind, listing[1..])
  }

  function Destruction(state: State, call: Call, manifest: Manifest): seq<Step> {
    if !AllAbsent(SightingOf(call), manifest) then []
    else [SawAbsent(manifest, SightingOf(call))] +
         (if call.kind.Retain? && !call.answers.retainedIntact then [] else DeletionOf(state, call.kind, call.answers.listing))
  }

  // Removing what is left at the provider, then the private files.
  function Removal(state: State, call: Call, manifest: Manifest): seq<Step> {
    var a := call.answers;
    var remaining := RemainingOf(a.containers, manifest);
    (if remaining != {} then [StopContainers(remaining), RemoveContainers(remaining)] else [])
    + [RemoveVolumes(manifest.volumes.Keys * a.volumeNames)]
    + (if manifest.networkName in a.networkNames then [RemoveNetwork(manifest.networkId)] else [])
    + Destruction(state, call, manifest)
  }

  type Fingerprint = Manifest -> string

  datatype Decision = Stop | Refuse(rejected: Rejected) | Proceed(admitted: Admitted)

  // What the checks of a session lead to.
  function Decide(fingerprint: Fingerprint, state: State, call: Call): Decision {
    if !MayStart(state, call) || ManifestFor(state, call).None? then Stop
    else
      var manifest := ManifestFor(state, call).value;
      if !OwnershipHolds(call, manifest) || !RecoveryHolds(state, call, manifest) || !call.apply then Stop
      else if call.hostBinding == fingerprint(manifest) then Proceed(Admitted(manifest, call.review.value))
      else if PrefixOf(call.kind) in state.markers then Stop
      else Refuse(Rejected(call.binding, RejectedBy(state, call).reviews + {call.review.value}))
  }

  function Steps(fingerprint: Fingerprint, state: State, call: Call): seq<Step> {
    var prefix, decision := PrefixOf(call.kind), Decide(fingerprint, state, call);
    if decision.Stop? then []
    else if decision.Refuse? then [SaveRefusals(prefix, decision.rejected)]
    else (if prefix in state.markers then [] else [SaveMarker(prefix, decision.admitted)]) + Removal(state, call, decision.admitted.manifest)
  }

  // ----- what the steps do -----

  function Do(state: State, step: Step): State {
    var logged := state.(log := state.log + [Event(state.sessions, step)]);
    match step
    case SaveRefusals(prefix, rejected) => logged.(refusals := state.refusals[prefix := rejected])
    case SaveMarker(prefix, admitted) => logged.(markers := state.markers[prefix := admitted])
    case Damage(target) => if target.Custody? then logged.(damaged := state.damaged + {target.entry}) else logged
    case Delete(target) => Remove(logged, target)
    case _ => logged
  }

  // A session may die after any number of its steps.
  function Play(state: State, steps: seq<Step>, patience: nat): State
    decreases |steps|
  {
    if steps == [] || patience == 0 then state else Play(Do(state, steps[0]), steps[1..], patience - 1)
  }

  function Begin(state: State): State { state.(sessions := state.sessions + 1) }

  function Dispose(fingerprint: Fingerprint, state: State, call: Call, patience: nat): State {
    Play(Begin(state), Steps(fingerprint, state, call), patience)
  }

  // Between sessions the rehearsal program may change any private file but
  // not the receipts of a disposal.
  datatype Session = Disposing(call: Call, patience: nat) | Working(entries: set<Entry>)

  function Take(fingerprint: Fingerprint, state: State, session: Session): State {
    match session
    case Disposing(call, patience) => Dispose(fingerprint, state, call, patience)
    case Working(entries) => Begin(state).(entries := entries, damaged := state.damaged * entries)
  }

  function Run(fingerprint: Fingerprint, state: State, sessions: seq<Session>): State {
    if sessions == [] then state
    else Take(fingerprint, Run(fingerprint, state, sessions[..|sessions| - 1]), sessions[|sessions| - 1])
  }
}
