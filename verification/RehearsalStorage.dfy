// The storage a rehearsal phase really takes, step by step, against the
// storage it is admitted for (`rehearsal_storage_capacity`).
module RehearsalStorage {
  import opened Options
  import opened StorageAccounts

  datatype Action = Execute | SimulateFinal | RebuildFinal | Verify

  datatype Place = DatabaseVolume | DataVolume | RunnerLayer | DatabaseLayer | Host

  datatype Role = Source | Upgrade | FinalSource | FinalUpgrade

  // Everything a phase writes. Records are the small files beside the copies.
  datatype Artifact =
    | Records
    | RawDump | RawTar | RawTree
    | RunnerDump
    | LayerDump(role: Role)
    | RestoreTree(role: Role)
    | SnapshotDump(role: Role)
    | SnapshotTar(role: Role)
    | DatabaseCopy(role: Role)
    | FilestoreCopy(role: Role)

  datatype Op = Write(artifact: Artifact) | Remove(artifact: Artifact)

  function PlaceOf(artifact: Artifact): Place {
    match artifact
    case DatabaseCopy(_) => DatabaseVolume
    case FilestoreCopy(_) => DataVolume
    case RunnerDump => RunnerLayer
    case LayerDump(_) => DatabaseLayer
    case _ => Host
  }

  // The reviewed bound of each artifact.
  function Limit(budget: Budget, artifact: Artifact): nat {
    match artifact
    case Records => budget.staging
    case RawDump => budget.database
    case RunnerDump => budget.database
    case LayerDump(_) => budget.database
    case SnapshotDump(_) => budget.database
    case DatabaseCopy(_) => budget.database
    case RawTar => budget.filestore
    case RawTree => budget.filestore
    case RestoreTree(_) => budget.filestore
    case SnapshotTar(_) => budget.filestore
    case FilestoreCopy(_) => budget.filestore
  }

  type Sizes = Artifact -> nat

  ghost predicate WithinLimits(budget: Budget, sizes: Sizes) { forall artifact :: sizes(artifact) <= Limit(budget, artifact) }

  // ----- what each phase does, in order -----

  function Capture(role: Role): seq<Op> {
    [Write(RawDump), Write(RawTar), Write(RawTree), Write(FilestoreCopy(role)), Write(RunnerDump), Write(DatabaseCopy(role)), Remove(RunnerDump)]
  }

  function Snapshot(role: Role): seq<Op> { [Write(SnapshotDump(role)), Write(SnapshotTar(role))] }

  function Clone(role: Role): seq<Op> { [Write(DatabaseCopy(role)), Write(FilestoreCopy(role))] }

  function Restore(role: Role): seq<Op> {
    [Write(LayerDump(role)), Write(DatabaseCopy(role)), Remove(LayerDump(role)), Write(RestoreTree(role)), Write(FilestoreCopy(role)), Remove(RestoreTree(role))]
  }

  function DiscardRaw(): seq<Op> { [Remove(RawDump), Remove(RawTar), Remove(RawTree)] }

  function Trace(action: Action): seq<Op> {
    [Write(Records)] +
    (match action
     case Execute => Capture(Source) + (Snapshot(Source) + (Clone(Upgrade) + DiscardRaw()))
     case SimulateFinal => Restore(FinalSource) + (Snapshot(FinalSource) + Clone(FinalUpgrade))
     case RebuildFinal => Restore(Source) + (Restore(FinalSource) + Clone(FinalUpgrade))
     case Verify => Snapshot(FinalUpgrade))
  }

  // ----- storage in use -----

  function Delta(op: Op, sizes: Sizes, place: Place): int {
    if PlaceOf(op.artifact) != place then 0 else if op.Write? then sizes(op.artifact) else 0 - sizes(op.artifact)
  }

  // After the first n steps.
  function UsedAfter(trace: seq<Op>, sizes: Sizes, place: Place, n: nat): int
    requires n <= |trace|
  {
    if n == 0 then 0 else UsedAfter(trace, sizes, place, n - 1) + Delta(trace[n - 1], sizes, place)
  }

  // A phase may stop anywhere: after n steps, with part of the next one written.
  ghost predicate IsInstant(trace: seq<Op>, sizes: Sizes, n: nat, part: nat) {
    n <= |trace| && part <= (if n < |trace| && trace[n].Write? then sizes(trace[n].artifact) else 0)
  }

  function UsedAt(trace: seq<Op>, sizes: Sizes, place: Place, n: nat, part: nat): int
    requires n <= |trace|
  {
    UsedAfter(trace, sizes, place, n) + (if n < |trace| && PlaceOf(trace[n].artifact) == place then part else 0)
  }

  // The most that is ever in use from step i on, beyond what is in use there.
  function PeakFrom(trace: seq<Op>, sizes: Sizes, place: Place, i: nat): nat
    requires i <= |trace|
    decreases |trace| - i
  {
    if i == |trace| then 0 else Max(0, Delta(trace[i], sizes, place) + PeakFrom(trace, sizes, place, i + 1))
  }

  function Peak(trace: seq<Op>, sizes: Sizes, place: Place): nat { PeakFrom(trace, sizes, place, 0) }

  function Net(trace: seq<Op>, sizes: Sizes, place: Place): int { UsedAfter(trace, sizes, place, |trace|) }

  lemma {:induction false} NeverAbovePeak(trace: seq<Op>, sizes: Sizes, place: Place, n: nat)
    requires n <= |trace|
    ensures UsedAfter(trace, sizes, place, n) + PeakFrom(trace, sizes, place, n) <= Peak(trace, sizes, place)
  {
    if n > 0 {
      NeverAbovePeak(trace, sizes, place, n - 1);
    }
  }

  lemma InstantBelowPeak(trace: seq<Op>, sizes: Sizes, place: Place, n: nat, part: nat)
    ensures IsInstant(trace, sizes, n, part) ==> UsedAt(trace, sizes, place, n, part) <= Peak(trace, sizes, place)
  {
    if IsInstant(trace, sizes, n, part) {
      NeverAbovePeak(trace, sizes, place, n);
    }
  }

  lemma {:induction false} UsedConcat(a: seq<Op>, b: seq<Op>, sizes: Sizes, place: Place, n: nat)
    requires n <= |a + b|
    ensures UsedAfter(a + b, sizes, place, n) ==
            if n <= |a| then UsedAfter(a, sizes, place, n) else Net(a, sizes, place) + UsedAfter(b, sizes, place, n - |a|)
  {
    if n > 0 {
      UsedConcat(a, b, sizes, place, n - 1);
    }
  }

  lemma {:induction false} PeakShift(a: seq<Op>, b: seq<Op>, sizes: Sizes, place: Place, i: nat)
    requires i <= |b|
    ensures PeakFrom(a + b, sizes, place, |a| + i) == PeakFrom(b, sizes, place, i)
    decreases |b| - i
  {
    if i < |b| {
      PeakShift(a, b, sizes, place, i + 1);
    }
  }

  lemma {:induction false} PeakJoin(a: seq<Op>, b: seq<Op>, sizes: Sizes, place: Place, i: nat)
    requires i <= |a|
    ensures PeakFrom(a + b, sizes, place, i) ==
            Max(PeakFrom(a, sizes, place, i), Net(a, sizes, place) - UsedAfter(a, sizes, place, i) + Peak(b, sizes, place))
    decreases |a| - i
  {
    if i < |a| {
      PeakJoin(a, b, sizes, place, i + 1);
    } else {
      PeakShift(a, b, sizes, place, 0);
    }
  }

  // Running b after a: the peak of either, b's on top of what a leaves.
  lemma Sequenced(a: seq<Op>, b: seq<Op>, sizes: Sizes, place: Place)
    ensures (Peak(a + b, sizes, place), Net(a + b, sizes, place)) ==
            (Max(Peak(a, sizes, place), Net(a, sizes, place) + Peak(b, sizes, place)), Net(a, sizes, place) + Net(b, sizes, place))
  {
    PeakJoin(a, b, sizes, place, 0);
    UsedConcat(a, b, sizes, place, |a + b|);
  }

  lemma One(op: Op, sizes: Sizes, place: Place)
    ensures (Peak([op], sizes, place), Net([op], sizes, place)) == (Max(0, Delta(op, sizes, place)), Delta(op, sizes, place))
  {
    assert PeakFrom([op], sizes, place, 1) == 0;
    assert UsedAfter([op], sizes, place, 0) == 0;
  }

  lemma First(op: Op, rest: seq<Op>, sizes: Sizes, place: Place)
    ensures (Peak([op] + rest, sizes, place), Net([op] + rest, sizes, place)) ==
            (Max(0, Delta(op, sizes, place) + Peak(rest, sizes, place)), Delta(op, sizes, place) + Net(rest, sizes, place))
  {
    One(op, sizes, place);
    Sequenced([op], rest, sizes, place);
  }

  // ----- the peak of each piece of work -----

  function At(here: Place, place: Place, bytes: int): int { if here == place then bytes else 0 }

  lemma OfSnapshot(role: Role, sizes: Sizes, place: Place)
    ensures Net(Snapshot(role), sizes, place) == At(Host, place, sizes(SnapshotDump(role)) + sizes(SnapshotTar(role)))
    ensures Peak(Snapshot(role), sizes, place) == Net(Snapshot(role), sizes, place)
  {
    First(Write(SnapshotDump(role)), [Write(SnapshotTar(role))], sizes, place);
    One(Write(SnapshotTar(role)), sizes, place);
    assert Snapshot(role) == [Write(SnapshotDump(role))] + [Write(SnapshotTar(role))];
  }

  lemma OfClone(role: Role, sizes: Sizes, place: Place)
    ensures Net(Clone(role), sizes, place) ==
            At(DatabaseVolume, place, sizes(DatabaseCopy(role))) + At(DataVolume, place, sizes(FilestoreCopy(role)))
    ensures Peak(Clone(role), sizes, place) == Net(Clone(role), sizes, place)
  {
    First(Write(DatabaseCopy(role)), [Write(FilestoreCopy(role))], sizes, place);
    One(Write(FilestoreCopy(role)), sizes, place);
    assert Clone(role) == [Write(DatabaseCopy(role))] + [Write(FilestoreCopy(role))];
  }

  // Writing something, working, and removing it again.
  lemma Held(artifact: Artifact, work: seq<Op>, sizes: Sizes, place: Place)
    ensures (Net([Write(artifact)] + (work + [Remove(artifact)]), sizes, place), Peak([Write(artifact)] + (work + [Remove(artifact)]), sizes, place)) ==
            (Net(work, sizes, place), Max(0, At(PlaceOf(artifact), place, sizes(artifact)) + Max(Peak(work, sizes, place), Net(work, sizes, place))))
  {
    hide Peak, Net;
    First(Write(artifact), work + [Remove(artifact)], sizes, place);
    Sequenced(work, [Remove(artifact)], sizes, place);
    One(Remove(artifact), sizes, place);
  }

  lemma OfRestore(role: Role, sizes: Sizes, place: Place)
    ensures Net(Restore(role), sizes, place) ==
            At(DatabaseVolume, place, sizes(DatabaseCopy(role))) + At(DataVolume, place, sizes(FilestoreCopy(role)))
    ensures Peak(Restore(role), sizes, place) ==
            Net(Restore(role), sizes, place) + At(DatabaseLayer, place, sizes(LayerDump(role))) + At(Host, place, sizes(RestoreTree(role)))
  {
    hide Peak, Net;
    var dump, tree := LayerDump(role), RestoreTree(role);
    var database, files := [Write(DatabaseCopy(role))], [Write(FilestoreCopy(role))];
    One(database[0], sizes, place);
    One(files[0], sizes, place);
    Held(dump, database, sizes, place);
    Held(tree, files, sizes, place);
    Sequenced([Write(dump)] + (database + [Remove(dump)]), [Write(tree)] + (files + [Remove(tree)]), sizes, place);
    assert Restore(role) == ([Write(dump)] + (database + [Remove(dump)])) + ([Write(tree)] + (files + [Remove(tree)]));
  }

  lemma OfCapture(role: Role, sizes: Sizes, place: Place)
    ensures Net(Capture(role), sizes, place) ==
            At(DatabaseVolume, place, sizes(DatabaseCopy(role))) + At(DataVolume, place, sizes(FilestoreCopy(role)))
            + At(Host, place, sizes(RawDump) + sizes(RawTar) + sizes(RawTree))
    ensures Peak(Capture(role), sizes, place) == Net(Capture(role), sizes, place) + At(RunnerLayer, place, sizes(RunnerDump))
  {
    hide Peak, Net;
    var database := [Write(DatabaseCopy(role))];
    var sanitize := [Write(RunnerDump)] + (database + [Remove(RunnerDump)]);
    One(database[0], sizes, place);
    Held(RunnerDump, database, sizes, place);
    First(Write(FilestoreCopy(role)), sanitize, sizes, place);
    First(Write(RawTree), [Write(FilestoreCopy(role))] + sanitize, sizes, place);
    First(Write(RawTar), [Write(RawTree)] + ([Write(FilestoreCopy(role))] + sanitize), sizes, place);
    First(Write(RawDump), [Write(RawTar)] + ([Write(RawTree)] + ([Write(FilestoreCopy(role))] + sanitize)), sizes, place);
    assert Capture(role) == [Write(RawDump)] + ([Write(RawTar)] + ([Write(RawTree)] + ([Write(FilestoreCopy(role))] + sanitize)));
  }

  lemma OfDiscard(sizes: Sizes, place: Place)
    ensures Net(DiscardRaw(), sizes, place) == -At(Host, place, sizes(RawDump) + sizes(RawTar) + sizes(RawTree))
    ensures Peak(DiscardRaw(), sizes, place) == 0
  {
    First(Remove(RawDump), [Remove(RawTar)] + [Remove(RawTree)], sizes, place);
    First(Remove(RawTar), [Remove(RawTree)], sizes, place);
    One(Remove(RawTree), sizes, place);
    assert DiscardRaw() == [Remove(RawDump)] + ([Remove(RawTar)] + [Remove(RawTree)]);
  }

  // ----- what the phase is admitted for -----

  function Working(action: Action): nat {
    match action
    case Execute => 2
    case SimulateFinal => 2
    case RebuildFinal => 3
    case Verify => 0
  }

  function HostBytes(budget: Budget, action: Action): nat {
    match action
    case Execute => budget.database + budget.filestore + budget.staging + budget.database + 2 * budget.filestore
    case SimulateFinal => budget.database + budget.filestore + budget.staging + budget.filestore
    case RebuildFinal => budget.filestore + budget.staging
    case Verify => budget.database + budget.filestore + budget.staging
  }

  function RehearsalRequest(budget: Budget, action: Action, paths: Paths): Request {
    Request(false,
            budget.(database := Working(action) * budget.database, filestore := Working(action) * budget.filestore),
            0, 0, Some(if action == Execute then budget.database else 0), Some(HostBytes(budget, action)),
            if action == SimulateFinal || action == RebuildFinal then budget.database else 0, 0, 0, false, paths)
  }

  method RehearsalStorageCapacity(pools: map<nat, string>, budget: Budget, action: Action, paths: Paths) returns (verdict: Verdict)
    ensures verdict == Sufficient <==> Admitted(pools, budget, action, paths)
  {
    hide Fits, Demands, Observed;
    var working := if action == RebuildFinal then 3 else if action == Execute || action == SimulateFinal then 2 else 0;
    var host := budget.database + budget.filestore + budget.staging;
    if action == Execute {
      host := host + budget.database + 2 * budget.filestore;
    } else if action == RebuildFinal {
      host := budget.filestore + budget.staging;
    } else if action == SimulateFinal {
      host := host + budget.filestore;
    }
    verdict := StorageCapacity(pools, Request(false,
                                              budget.(database := working * budget.database, filestore := working * budget.filestore),
                                              0, 0, Some(if action == Execute then budget.database else 0), Some(host),
                                              if action == SimulateFinal || action == RebuildFinal then budget.database else 0,
                                              0, 0, false, paths));
  }

  ghost predicate Admitted(pools: map<nat, string>, budget: Budget, action: Action, paths: Paths) {
    var request := RehearsalRequest(budget, action, paths);
    Observed(request) && Fits(Demands(pools, request), budget.reserve)
  }

  function Charge(budget: Budget, action: Action, place: Place): nat {
    match place
    case DatabaseVolume => Working(action) * budget.database
    case DataVolume => Working(action) * budget.filestore
    case RunnerLayer => if action == Execute then budget.database else 0
    case DatabaseLayer => if action == SimulateFinal || action == RebuildFinal then budget.database else 0
    case Host => HostBytes(budget, action)
  }

  // The exact peak of a phase, from the sizes its artifacts turn out to have.
  lemma PeakOfExecute(sizes: Sizes, place: Place)
    ensures Peak(Trace(Execute), sizes, place) ==
            At(Host, place, sizes(Records) + sizes(RawDump) + sizes(RawTar) + sizes(RawTree) + sizes(SnapshotDump(Source)) + sizes(SnapshotTar(Source)))
            + At(RunnerLayer, place, sizes(RunnerDump))
            + At(DatabaseVolume, place, sizes(DatabaseCopy(Source)) + sizes(DatabaseCopy(Upgrade)))
            + At(DataVolume, place, sizes(FilestoreCopy(Source)) + sizes(FilestoreCopy(Upgrade)))
  {
    hide Peak, Net, Capture, Snapshot, Clone, DiscardRaw;
    OfCapture(Source, sizes, place);
    OfSnapshot(Source, sizes, place);
    OfClone(Upgrade, sizes, place);
    OfDiscard(sizes, place);
    Sequenced(Clone(Upgrade), DiscardRaw(), sizes, place);
    Sequenced(Snapshot(Source), Clone(Upgrade) + DiscardRaw(), sizes, place);
    Sequenced(Capture(Source), Snapshot(Source) + (Clone(Upgrade) + DiscardRaw()), sizes, place);
    First(Write(Records), Capture(Source) + (Snapshot(Source) + (Clone(Upgrade) + DiscardRaw())), sizes, place);
  }

  lemma PeakOfSimulateFinal(sizes: Sizes, place: Place)
    ensures Peak(Trace(SimulateFinal), sizes, place) ==
            At(Host, place, sizes(Records) + Max(sizes(RestoreTree(FinalSource)), sizes(SnapshotDump(FinalSource)) + sizes(SnapshotTar(FinalSource))))
            + At(DatabaseLayer, place, sizes(LayerDump(FinalSource)))
            + At(DatabaseVolume, place, sizes(DatabaseCopy(FinalSource)) + sizes(DatabaseCopy(FinalUpgrade)))
            + At(DataVolume, place, sizes(FilestoreCopy(FinalSource)) + sizes(FilestoreCopy(FinalUpgrade)))
  {
    hide Peak, Net, Restore, Snapshot, Clone;
    OfRestore(FinalSource, sizes, place);
    OfSnapshot(FinalSource, sizes, place);
    OfClone(FinalUpgrade, sizes, place);
    Sequenced(Snapshot(FinalSource), Clone(FinalUpgrade), sizes, place);
    Sequenced(Restore(FinalSource), Snapshot(FinalSource) + Clone(FinalUpgrade), sizes, place);
    First(Write(Records), Restore(FinalSource) + (Snapshot(FinalSource) + Clone(FinalUpgrade)), sizes, place);
  }

  lemma PeakOfRebuildFinal(sizes: Sizes, place: Place)
    ensures Peak(Trace(RebuildFinal), sizes, place) ==
            At(Host, place, sizes(Records) + Max(sizes(RestoreTree(Source)), sizes(RestoreTree(FinalSource))))
            + At(DatabaseLayer, place, Max(sizes(LayerDump(Source)), sizes(LayerDump(FinalSource))))
            + At(DatabaseVolume, place, sizes(DatabaseCopy(Source)) + sizes(DatabaseCopy(FinalSource)) + sizes(DatabaseCopy(FinalUpgrade)))
            + At(DataVolume, place, sizes(FilestoreCopy(Source)) + sizes(FilestoreCopy(FinalSource)) + sizes(FilestoreCopy(FinalUpgrade)))
  {
    hide Peak, Net, Restore, Clone;
    OfRestore(Source, sizes, place);
    OfRestore(FinalSource, sizes, place);
    OfClone(FinalUpgrade, sizes, place);
    Sequenced(Restore(FinalSource), Clone(FinalUpgrade), sizes, place);
    Sequenced(Restore(Source), Restore(FinalSource) + Clone(FinalUpgrade), sizes, place);
    First(Write(Records), Restore(Source) + (Restore(FinalSource) + Clone(FinalUpgrade)), sizes, place);
  }

  lemma PeakOfVerify(sizes: Sizes, place: Place)
    ensures Peak(Trace(Verify), sizes, place) ==
            At(Host, place, sizes(Records) + sizes(SnapshotDump(FinalUpgrade)) + sizes(SnapshotTar(FinalUpgrade)))
  {
    hide Peak, Net, Snapshot;
    OfSnapshot(FinalUpgrade, sizes, place);
    First(Write(Records), Snapshot(FinalUpgrade), sizes, place);
  }

  lemma ExecuteWithin(budget: Budget, sizes: Sizes, place: Place)
    requires WithinLimits(budget, sizes)
    ensures Peak(Trace(Execute), sizes, place) <= Charge(budget, Execute, place)
    ensures Fills(budget, sizes) ==> Peak(Trace(Execute), sizes, place) == Charge(budget, Execute, place)
  {
    hide Peak, Trace;
    PeakOfExecute(sizes, place);
    match place
    case Host =>
      assert sizes(RawDump) <= budget.database && sizes(SnapshotDump(Source)) <= budget.database;
      assert sizes(RawTar) <= budget.filestore && sizes(RawTree) <= budget.filestore && sizes(SnapshotTar(Source)) <= budget.filestore;
    case _ =>
  }

  lemma SimulateFinalWithin(budget: Budget, sizes: Sizes, place: Place)
    requires WithinLimits(budget, sizes)
    ensures Peak(Trace(SimulateFinal), sizes, place) <= Charge(budget, SimulateFinal, place)
    ensures Fills(budget, sizes) ==>
              Peak(Trace(SimulateFinal), sizes, place) == Charge(budget, SimulateFinal, place) - At(Host, place, budget.filestore)
  {
    hide Peak, Trace;
    PeakOfSimulateFinal(sizes, place);
    match place
    case Host =>
      assert sizes(Records) <= budget.staging && sizes(RestoreTree(FinalSource)) <= budget.filestore;
      assert sizes(SnapshotDump(FinalSource)) <= budget.database && sizes(SnapshotTar(FinalSource)) <= budget.filestore;
    case _ =>
  }

  lemma RebuildFinalWithin(budget: Budget, sizes: Sizes, place: Place)
    requires WithinLimits(budget, sizes)
    ensures Peak(Trace(RebuildFinal), sizes, place) <= Charge(budget, RebuildFinal, place)
    ensures Fills(budget, sizes) ==> Peak(Trace(RebuildFinal), sizes, place) == Charge(budget, RebuildFinal, place)
  {
    hide Peak, Trace;
    PeakOfRebuildFinal(sizes, place);
    match place
    case Host =>
      assert sizes(RestoreTree(Source)) <= budget.filestore && sizes(RestoreTree(FinalSource)) <= budget.filestore;
    case _ =>
  }

  lemma VerifyWithin(budget: Budget, sizes: Sizes, place: Place)
    requires WithinLimits(budget, sizes)
    ensures Peak(Trace(Verify), sizes, place) <= Charge(budget, Verify, place)
    ensures Fills(budget, sizes) ==> Peak(Trace(Verify), sizes, place) == Charge(budget, Verify, place)
  {
    hide Peak, Trace;
    PeakOfVerify(sizes, place);
  }

  // Every artifact as large as it may be.
  ghost predicate Fills(budget: Budget, sizes: Sizes) { forall artifact :: sizes(artifact) == Limit(budget, artifact) }

  lemma PeakWithin(budget: Budget, action: Action, sizes: Sizes, place: Place)
    requires WithinLimits(budget, sizes)
    ensures Peak(Trace(action), sizes, place) <= Charge(budget, action, place)
    ensures Fills(budget, sizes) ==>
              Peak(Trace(action), sizes, place) ==
              Charge(budget, action, place) - (if action == SimulateFinal then At(Host, place, budget.filestore) else 0)
  {
    hide Peak, Trace, Charge, WithinLimits, Fills;
    match action
    case Execute => ExecuteWithin(budget, sizes, place);
    case SimulateFinal => SimulateFinalWithin(budget, sizes, place);
    case RebuildFinal => RebuildFinalWithin(budget, sizes, place);
    case Verify => VerifyWithin(budget, sizes, place);
  }

  // No instant of a phase uses more of a place than it was charged for.
  lemma WithinCharge(budget: Budget, action: Action, sizes: Sizes, place: Place, n: nat, part: nat)
    requires WithinLimits(budget, sizes) && IsInstant(Trace(action), sizes, n, part)
    ensures UsedAt(Trace(action), sizes, place, n, part) <= Charge(budget, action, place)
  {
    hide Peak, Trace, UsedAt, Charge, WithinLimits;
    InstantBelowPeak(Trace(action), sizes, place, n, part);
    PeakWithin(budget, action, sizes, place);
  }

  // The charge is the least one that would do, except that a simulated final
  // phase is charged for an extraction it no longer holds when it snapshots.
  lemma ChargeIsTight(budget: Budget, action: Action, sizes: Sizes, place: Place)
    requires Fills(budget, sizes)
    ensures Peak(Trace(action), sizes, place) ==
            Charge(budget, action, place) - (if action == SimulateFinal && place == Host then budget.filestore else 0)
  {
    hide Peak, Trace, Charge;
    PeakWithin(budget, action, sizes, place);
  }

  // ----- shared backings -----

  function ProbeAt(paths: Paths, place: Place): Option<Probe> {
    match place
    case DatabaseVolume => paths.database
    case DataVolume => paths.data
    case RunnerLayer => paths.runner
    case DatabaseLayer => paths.databaseLayer
    case Host => paths.host
  }

  predicate On(pools: map<nat, string>, paths: Paths, place: Place, backing: Backing) {
    ProbeAt(paths, place).Some? && BackingOf(pools, ProbeAt(paths, place).value.device) == backing
  }

  function UsedOn(pools: map<nat, string>, paths: Paths, place: Place, backing: Backing, used: int): int {
    if On(pools, paths, place, backing) then used else 0
  }

  // Everything the phase has in use on one backing.
  function UsedOfBacking(pools: map<nat, string>, paths: Paths, action: Action, sizes: Sizes, n: nat, part: nat, backing: Backing): int
    requires n <= |Trace(action)|
  {
    var trace := Trace(action);
    UsedOn(pools, paths, DatabaseVolume, backing, UsedAt(trace, sizes, DatabaseVolume, n, part))
    + UsedOn(pools, paths, DataVolume, backing, UsedAt(trace, sizes, DataVolume, n, part))
    + UsedOn(pools, paths, RunnerLayer, backing, UsedAt(trace, sizes, RunnerLayer, n, part))
    + UsedOn(pools, paths, DatabaseLayer, backing, UsedAt(trace, sizes, DatabaseLayer, n, part))
    + UsedOn(pools, paths, Host, backing, UsedAt(trace, sizes, Host, n, part))
  }

  function ChargeOfBacking(pools: map<nat, string>, paths: Paths, budget: Budget, action: Action, backing: Backing): int {
    UsedOn(pools, paths, DatabaseVolume, backing, Charge(budget, action, DatabaseVolume))
    + UsedOn(pools, paths, DataVolume, backing, Charge(budget, action, DataVolume))
    + UsedOn(pools, paths, RunnerLayer, backing, Charge(budget, action, RunnerLayer))
    + UsedOn(pools, paths, DatabaseLayer, backing, Charge(budget, action, DatabaseLayer))
    + UsedOn(pools, paths, Host, backing, Charge(budget, action, Host))
  }

  lemma TotalOfCharged(demands: seq<Demand>, pools: map<nat, string>, paths: Paths, place: Place, size: nat, backing: Backing)
    requires ProbeAt(paths, place).Some?
    ensures Total(demands + Charged(pools, ProbeAt(paths, place), size), backing) ==
            Total(demands, backing) + UsedOn(pools, paths, place, backing, size)
  {
    var probe := ProbeAt(paths, place).value;
    TotalSnoc(demands, Demand(BackingOf(pools, probe.device), probe.free, size), backing);
  }

  // What is demanded of a backing is what its places are charged for.
  lemma TotalIsCharge(pools: map<nat, string>, paths: Paths, budget: Budget, action: Action, backing: Backing)
    requires Observed(RehearsalRequest(budget, action, paths))
    ensures Total(Demands(pools, RehearsalRequest(budget, action, paths)), backing) == ChargeOfBacking(pools, paths, budget, action, backing)
  {
    hide Total, UsedOn, Charged;
    var d0: seq<Demand> := [];
    var d1 := d0 + Charged(pools, paths.database, Charge(budget, action, DatabaseVolume));
    var d2 := d1 + Charged(pools, paths.data, Charge(budget, action, DataVolume));
    var d3 := d2 + Charged(pools, paths.runner, Charge(budget, action, RunnerLayer));
    var d4 := d3 + Charged(pools, paths.host, Charge(budget, action, Host));
    TotalOfCharged(d0, pools, paths, DatabaseVolume, Charge(budget, action, DatabaseVolume), backing);
    TotalOfCharged(d1, pools, paths, DataVolume, Charge(budget, action, DataVolume), backing);
    TotalOfCharged(d2, pools, paths, RunnerLayer, Charge(budget, action, RunnerLayer), backing);
    TotalOfCharged(d3, pools, paths, Host, Charge(budget, action, Host), backing);
    NothingDemanded(pools, paths, backing);
    if Charge(budget, action, DatabaseLayer) > 0 {
      TotalOfCharged(d4, pools, paths, DatabaseLayer, Charge(budget, action, DatabaseLayer), backing);
      assert Demands(pools, RehearsalRequest(budget, action, paths)) ==
             d4 + Charged(pools, paths.databaseLayer, Charge(budget, action, DatabaseLayer));
    } else {
      assert Demands(pools, RehearsalRequest(budget, action, paths)) == d4;
    }
  }

  lemma NothingDemanded(pools: map<nat, string>, paths: Paths, backing: Backing)
    ensures Total([], backing) == 0 && UsedOn(pools, paths, DatabaseLayer, backing, 0) == 0
  {}

  // A place that is charged for something is one of the demands.
  lemma ChargedIsDemanded(pools: map<nat, string>, paths: Paths, budget: Budget, action: Action, place: Place)
    requires Observed(RehearsalRequest(budget, action, paths)) && Charge(budget, action, place) > 0
    ensures ProbeAt(paths, place).Some?
    ensures var probe := ProbeAt(paths, place).value;
            Demand(BackingOf(pools, probe.device), probe.free, Charge(budget, action, place)) in Demands(pools, RehearsalRequest(budget, action, paths))
  {
    hide BackingOf, VolumeDemands, StagingDemands, LayerDemands;
    var request := RehearsalRequest(budget, action, paths);
    var volumes, staging, layers := VolumeDemands(pools, request), StagingDemands(pools, request), LayerDemands(pools, request);
    PartsDemanded(pools, paths, budget, action, place);
    assert Demands(pools, request) == volumes + staging + layers;
  }

  lemma PartsDemanded(pools: map<nat, string>, paths: Paths, budget: Budget, action: Action, place: Place)
    requires Observed(RehearsalRequest(budget, action, paths)) && Charge(budget, action, place) > 0
    ensures ProbeAt(paths, place).Some?
    ensures var probe, request := ProbeAt(paths, place).value, RehearsalRequest(budget, action, paths);
            var demand := Demand(BackingOf(pools, probe.device), probe.free, Charge(budget, action, place));
            demand in VolumeDemands(pools, request) || demand in StagingDemands(pools, request) || demand in LayerDemands(pools, request)
  {
    hide BackingOf;
    var request := RehearsalRequest(budget, action, paths);
    if place == DatabaseVolume {
      assert VolumeDemands(pools, request)[0].size == Charge(budget, action, place);
    } else if place == DataVolume {
      assert VolumeDemands(pools, request)[1].size == Charge(budget, action, place);
    } else if place == RunnerLayer {
      assert StagingDemands(pools, request)[0].size == Charge(budget, action, place);
    } else if place == Host {
      assert StagingDemands(pools, request)[1].size == Charge(budget, action, place);
    } else {
      assert LayerDemands(pools, request)[0].size == Charge(budget, action, place);
    }
  }

  lemma DemandFits(demands: seq<Demand>, reserve: nat, demand: Demand)
    ensures Fits(demands, reserve) && demand in demands && demand.size > 0 ==>
              demand.free >= Total(demands, demand.backing) + reserve
  {
    hide Total;
  }

  lemma BackingWithinCharge(pools: map<nat, string>, paths: Paths, budget: Budget, action: Action, sizes: Sizes, n: nat, part: nat,
                            backing: Backing)
    requires WithinLimits(budget, sizes) && IsInstant(Trace(action), sizes, n, part)
    ensures UsedOfBacking(pools, paths, action, sizes, n, part, backing) <= ChargeOfBacking(pools, paths, budget, action, backing)
  {
    hide Trace, UsedAt, Charge, On, WithinLimits;
    WithinCharge(budget, action, sizes, DatabaseVolume, n, part);
    WithinCharge(budget, action, sizes, DataVolume, n, part);
    WithinCharge(budget, action, sizes, RunnerLayer, n, part);
    WithinCharge(budget, action, sizes, DatabaseLayer, n, part);
    WithinCharge(budget, action, sizes, Host, n, part);
  }

  // Admission bounds real use: at every instant of an admitted phase, every
  // place it is charged for keeps the reserve free, however the places share
  // backings.
  lemma AdmissionKeepsReserve(pools: map<nat, string>, paths: Paths, budget: Budget, action: Action, sizes: Sizes, n: nat, part: nat,
                              place: Place)
    requires WithinLimits(budget, sizes) && IsInstant(Trace(action), sizes, n, part)
    requires Admitted(pools, budget, action, paths) && Charge(budget, action, place) > 0
    ensures ProbeAt(paths, place).Some?
    ensures var probe := ProbeAt(paths, place).value;
            probe.free - UsedOfBacking(pools, paths, action, sizes, n, part, BackingOf(pools, probe.device)) >= budget.reserve
  {
    hide Trace, UsedAt, Charge, Demands, BackingOf, UsedOfBacking, ChargeOfBacking, Observed, RehearsalRequest, WithinLimits, Total, Fits;
    ChargedIsDemanded(pools, paths, budget, action, place);
    var probe := ProbeAt(paths, place).value;
    var backing := BackingOf(pools, probe.device);
    var request := RehearsalRequest(budget, action, paths);
    TotalIsCharge(pools, paths, budget, action, backing);
    DemandFits(Demands(pools, request), budget.reserve, Demand(backing, probe.free, Charge(budget, action, place)));
    BackingWithinCharge(pools, paths, budget, action, sizes, n, part, backing);
  }
}
