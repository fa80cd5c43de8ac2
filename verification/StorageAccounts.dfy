// Storage admission: how the demands of one operation are charged to the
// backings that the paths happen to share (`storage_capacity`).
module StorageAccounts {
  import opened Options

  // Every dataset of one ZFS pool draws on the same space.
  datatype Backing = Pool(name: string) | Device(number: nat)

  // What is observed of a path: its device and the free bytes reported there.
  datatype Probe = Probe(device: nat, free: nat)

  datatype Demand = Demand(backing: Backing, free: nat, size: nat)

  datatype Budget = Budget(database: nat, filestore: nat, staging: nat, reserve: nat)

  // A path that cannot be read is None.
  datatype Paths = Paths(database: Option<Probe>, data: Option<Probe>, runner: Option<Probe>, restoreParent: Option<Probe>,
                         host: Option<Probe>, databaseLayer: Option<Probe>, snapshot: Option<Probe>)

  datatype Request = Request(containerExport: bool, budget: Budget, staged: nat, assembly: nat, runnerStaging: Option<nat>,
                             hostStaging: Option<nat>, databaseStaging: nat, existingFilestore: nat, dataStaging: nat,
                             keepsSnapshot: bool, paths: Paths)

  datatype Verdict = Unobserved | Insufficient | Sufficient

  function BackingOf(pools: map<nat, string>, device: nat): Backing {
    if device in pools then Pool(pools[device]) else Device(device)
  }

  function Max(a: int, b: int): int { if a < b then b else a }

  // ----- what fitting means -----

  function Total(demands: seq<Demand>, backing: Backing): nat {
    if demands == [] then 0
    else Total(demands[..|demands| - 1], backing) + (if demands[|demands| - 1].backing == backing then demands[|demands| - 1].size else 0)
  }

  // Wherever something is demanded, the free space there covers everything
  // demanded of the same backing, and the reserve.
  ghost predicate Fits(demands: seq<Demand>, reserve: nat) {
    forall i :: 0 <= i < |demands| && demands[i].size > 0 ==> demands[i].free >= Total(demands, demands[i].backing) + reserve
  }

  ghost predicate Charges(demands: seq<Demand>, i: int, backing: Backing) {
    0 <= i < |demands| && demands[i].size > 0 && demands[i].backing == backing
  }

  lemma TotalSnoc(demands: seq<Demand>, last: Demand, backing: Backing)
    ensures Total(demands + [last], backing) == Total(demands, backing) + (if last.backing == backing then last.size else 0)
  {
    assert (demands + [last])[..|demands|] == demands;
  }

  lemma ChargesSnoc(demands: seq<Demand>, last: Demand, backing: Backing)
    ensures forall i :: Charges(demands + [last], i, backing)
                    <==> Charges(demands, i, backing) || (i == |demands| && last.size > 0 && last.backing == backing)
  {}

  lemma {:induction false} NothingCharged(demands: seq<Demand>, backing: Backing)
    ensures Total(demands, backing) > 0 <==> exists i :: Charges(demands, i, backing)
  {
    if demands != [] {
      var front, last := demands[..|demands| - 1], demands[|demands| - 1];
      NothingCharged(front, backing);
      ChargesSnoc(front, last, backing);
      assert demands == front + [last];
      assert last.size > 0 && last.backing == backing ==> Charges(demands, |demands| - 1, backing);
      forall i | Charges(front, i, backing)
        ensures Charges(demands, i, backing)
      {}
    }
  }

  // ----- the accounts -----

  // The books agree with the demands: totals, and the least free space seen.
  ghost predicate Balanced(required: map<Backing, nat>, available: map<Backing, nat>, demands: seq<Demand>) {
    required.Keys == available.Keys && forall b :: Settled(required, available, demands, b)
  }

  ghost predicate Settled(required: map<Backing, nat>, available: map<Backing, nat>, demands: seq<Demand>, b: Backing)
    requires required.Keys == available.Keys
  {
    && (b in required <==> exists i :: Charges(demands, i, b))
    && (b in required ==> required[b] == Total(demands, b))
    && (b in required ==> forall i :: Charges(demands, i, b) ==> available[b] <= demands[i].free)
    && (b in required ==> exists i :: Charges(demands, i, b) && demands[i].free == available[b])
  }

  // Booking one more demand keeps the books balanced.
  lemma Booked(required: map<Backing, nat>, available: map<Backing, nat>, demands: seq<Demand>, last: Demand, free: nat)
    requires Balanced(required, available, demands)
    requires free == if last.backing in available && available[last.backing] < last.free then available[last.backing] else last.free
    ensures var b := last.backing;
            Balanced(if last.size == 0 then required else required[b := (if b in required then required[b] else 0) + last.size],
                     if last.size == 0 then available else available[b := free], demands + [last])
  {
    hide Total, Charges;
    var own := last.backing;
    var required', available' := if last.size == 0 then required else required[own := (if own in required then required[own] else 0) + last.size],
                                 if last.size == 0 then available else available[own := free];
    forall b
      ensures Settled(required', available', demands + [last], b)
    {
      TotalSnoc(demands, last, b);
      ChargesSnoc(demands, last, b);
      NothingCharged(demands, b);
      assert Settled(required, available, demands, b);
      assert forall i :: Charges(demands, i, b) ==> 0 <= i < |demands| && (demands + [last])[i] == demands[i] by {
        ChargedWithin(demands, b);
      }
      if b in required {
        var i :| Charges(demands, i, b) && demands[i].free == available[b];
        assert Charges(demands + [last], i, b);
      }
      if last.size > 0 && b == own {
        assert Charges(demands + [last], |demands|, b) && (demands + [last])[|demands|] == last;
      }
    }
  }

  lemma ChargedWithin(demands: seq<Demand>, b: Backing)
    ensures forall i :: Charges(demands, i, b) ==> 0 <= i < |demands|
  {}

  class Accounts {
    const pools: map<nat, string>
    var required: map<Backing, nat>
    var available: map<Backing, nat>
    ghost var demands: seq<Demand>

    ghost predicate Valid()
      reads this
    {
      Balanced(required, available, demands)
    }

    constructor (pools: map<nat, string>)
      ensures Valid() && demands == [] && this.pools == pools
    {
      this.pools := pools;
      required, available, demands := map[], map[], [];
    }

    method Charge(probe: Probe, size: nat)
      requires Valid()
      modifies this
      ensures Valid()
      ensures demands == old(demands) + [Demand(BackingOf(pools, probe.device), probe.free, size)]
    {
      hide Total, Charges, Settled;
      var backing := BackingOf(pools, probe.device);
      var free := if backing in available && available[backing] < probe.free then available[backing] else probe.free;
      ghost var last := Demand(backing, probe.free, size);
      Booked(required, available, demands, last, free);
      if size > 0 {
        required := required[backing := (if backing in required then required[backing] else 0) + size];
        available := available[backing := free];
      }
      demands := demands + [last];
    }

    method HasRoom(reserve: nat) returns (room: bool)
      requires Valid()
      ensures room <==> Fits(demands, reserve)
    {
      hide Total;
      room := forall b :: b in required ==> available[b] >= required[b] + reserve;
      if room {
        forall i | 0 <= i < |demands| && demands[i].size > 0
          ensures demands[i].free >= Total(demands, demands[i].backing) + reserve
        {
          assert Charges(demands, i, demands[i].backing) && Settled(required, available, demands, demands[i].backing);
        }
      } else {
        ghost var b :| b in required && available[b] < required[b] + reserve;
        assert Settled(required, available, demands, b);
        ghost var i :| Charges(demands, i, b) && demands[i].free == available[b];
        assert !(demands[i].free >= Total(demands, demands[i].backing) + reserve);
      }
    }
  }

  // ----- one admission decision -----

  // Without a host budget, a copy streamed over SSH stages on the host.
  predicate StagesFilestore(request: Request) { request.hostStaging.None? && !request.containerExport }

  predicate Observed(request: Request) {
    && request.paths.database.Some? && request.paths.data.Some? && request.paths.runner.Some?
    && (StagesFilestore(request) ==> request.paths.restoreParent.Some?)
    && (request.hostStaging.Some? ==> request.paths.host.Some?)
    && (request.databaseStaging > 0 ==> request.paths.databaseLayer.Some?)
    && (request.keepsSnapshot ==> request.paths.snapshot.Some?)
  }

  function Charged(pools: map<nat, string>, probe: Option<Probe>, size: nat): seq<Demand> {
    if probe.None? then [] else [Demand(BackingOf(pools, probe.value.device), probe.value.free, size)]
  }

  function RunnerBytes(request: Request): nat {
    if request.runnerStaging.Some? then request.runnerStaging.value
    else if StagesFilestore(request) then request.budget.database
    else Max(request.assembly, request.budget.staging - request.staged)
  }

  // What the operation will write, location by location.
  function Demands(pools: map<nat, string>, request: Request): seq<Demand> {
    VolumeDemands(pools, request) + StagingDemands(pools, request) + LayerDemands(pools, request)
  }

  function FilestoreBytes(request: Request): nat {
    Max(0, (if StagesFilestore(request) then 0 else request.budget.filestore) - request.existingFilestore)
  }

  function VolumeDemands(pools: map<nat, string>, request: Request): seq<Demand> {
    Charged(pools, request.paths.database, request.budget.database) + Charged(pools, request.paths.data, FilestoreBytes(request))
    + (if request.dataStaging > 0 then Charged(pools, request.paths.data, request.dataStaging) else [])
  }

  function StagingDemands(pools: map<nat, string>, request: Request): seq<Demand> {
    Charged(pools, request.paths.runner, RunnerBytes(request))
    + (if StagesFilestore(request) then Charged(pools, request.paths.restoreParent, request.budget.staging)
       else if request.hostStaging.Some? then Charged(pools, request.paths.host, request.hostStaging.value)
       else [])
  }

  function LayerDemands(pools: map<nat, string>, request: Request): seq<Demand> {
    (if request.databaseStaging > 0 then Charged(pools, request.paths.databaseLayer, request.databaseStaging) else [])
    + (if request.keepsSnapshot then Charged(pools, request.paths.snapshot, request.budget.database + request.budget.filestore) else [])
  }

  predicate VolumesObserved(request: Request) { request.paths.database.Some? && request.paths.data.Some? }

  predicate StagingObserved(request: Request) {
    && request.paths.runner.Some? && (StagesFilestore(request) ==> request.paths.restoreParent.Some?)
    && (request.hostStaging.Some? ==> request.paths.host.Some?)
  }

  predicate LayersObserved(request: Request) {
    && (request.databaseStaging > 0 ==> request.paths.databaseLayer.Some?) && (request.keepsSnapshot ==> request.paths.snapshot.Some?)
  }

  method ChargeVolumes(accounts: Accounts, request: Request) returns (observed: bool)
    requires accounts.Valid()
    modifies accounts
    ensures accounts.Valid() && observed == VolumesObserved(request)
    ensures observed ==> accounts.demands == old(accounts.demands) + VolumeDemands(accounts.pools, request)
  {
    hide Balanced, BackingOf;
    var paths, budget := request.paths, request.budget;
    if paths.database.None? || paths.data.None? {
      return false;
    }
    accounts.Charge(paths.database.value, budget.database);
    accounts.Charge(paths.data.value, Max(0, (if StagesFilestore(request) then 0 else budget.filestore) - request.existingFilestore));
    if request.dataStaging > 0 {
      accounts.Charge(paths.data.value, request.dataStaging);
    }
    return true;
  }

  method ChargeStaging(accounts: Accounts, request: Request) returns (observed: bool)
    requires accounts.Valid()
    modifies accounts
    ensures accounts.Valid() && observed == StagingObserved(request)
    ensures observed ==> accounts.demands == old(accounts.demands) + StagingDemands(accounts.pools, request)
  {
    hide Balanced, BackingOf;
    var paths, budget := request.paths, request.budget;
    if paths.runner.None? {
      return false;
    }
    var staged := StagesFilestore(request);
    var runner := if request.runnerStaging.Some? then request.runnerStaging.value
                  else if staged then budget.database
                  else Max(request.assembly, budget.staging - request.staged);
    accounts.Charge(paths.runner.value, runner);
    if staged {
      if paths.restoreParent.None? {
        return false;
      }
      accounts.Charge(paths.restoreParent.value, budget.staging);
    } else if request.hostStaging.Some? {
      if paths.host.None? {
        return false;
      }
      accounts.Charge(paths.host.value, request.hostStaging.value);
    }
    return true;
  }

  method ChargeLayers(accounts: Accounts, request: Request) returns (observed: bool)
    requires accounts.Valid()
    modifies accounts
    ensures accounts.Valid() && observed == LayersObserved(request)
    ensures observed ==> accounts.demands == old(accounts.demands) + LayerDemands(accounts.pools, request)
  {
    hide Balanced, BackingOf;
    var paths, budget := request.paths, request.budget;
    if request.databaseStaging > 0 {
      if paths.databaseLayer.None? {
        return false;
      }
      accounts.Charge(paths.databaseLayer.value, request.databaseStaging);
    }
    if request.keepsSnapshot {
      if paths.snapshot.None? {
        return false;
      }
      accounts.Charge(paths.snapshot.value, budget.database + budget.filestore);
    }
    return true;
  }

  method StorageCapacity(pools: map<nat, string>, request: Request) returns (verdict: Verdict)
    ensures verdict == Unobserved <==> !Observed(request)
    ensures verdict == Sufficient <==> Observed(request) && Fits(Demands(pools, request), request.budget.reserve)
  {
    hide Balanced, Fits, VolumeDemands, StagingDemands, LayerDemands;
    var accounts := new Accounts(pools);
    var observed := ChargeVolumes(accounts, request);
    if observed {
      observed := ChargeStaging(accounts, request);
    }
    if observed {
      observed := ChargeLayers(accounts, request);
    }
    if !observed {
      return Unobserved;
    }
    assert accounts.demands == Demands(pools, request);
    var room := accounts.HasRoom(request.budget.reserve);
    return if room then Sufficient else Insufficient;
  }
}
