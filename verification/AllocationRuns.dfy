// Every run of the allocation protocol: executors that may stall anywhere,
// leases that expire and are taken over, and sends that happen long after the
// sender lost its lease.
module AllocationRuns {
  import opened Options
  import opened AllocationResume
  import opened AllocationStore

  datatype Next = Continue | Dispatch(path: Path)

  // Where one executor is.  A checkpoint is `Writing` before its reservation
  // row is written and `Half` before its progress row is.
  datatype Pc = Entered | Admitted | Ready | Writing(next: Next) | Half(next: Next)
              | Dispatching(path: Path) | Waiting(path: Path) | Stopped

  datatype Executor = Executor(key: string, pc: Pc, created: Phase)

  // Executors are named by their fence.  `sent` counts creates dispatched.
  datatype World = World(store: Store, executors: map<nat, Executor>, nextFence: nat, sent: map<Path, nat>)

  datatype Step =
    | Tick(elapsed: nat)
    | ForeignTarget(target: Option<string>)
    | Reserve(key: string, lease: nat)
    | Expire(key: string)
    | Retry(key: string, lease: nat)
    | Renew(fence: nat, lease: nat)
    | Abandon(fence: nat)
    | Crash(fence: nat)
    | Release(fence: nat)
    | Admit(fence: nat)
    | Read(fence: nat, sight: Sight)
    | Begin(fence: nat, path: Path, sight: Sight, undeployed: bool)
    | WriteRow(fence: nat, lease: nat)
    | WriteRest(fence: nat)
    | Send(fence: nat)
    | Acknowledge(fence: nat, id: Identity, defaultEnvironment: string, appName: string)
    | Verify(fence: nat, sight: Sight)
    | Adopt(fence: nat)
    | Complete(fence: nat)
    | Finish(key: string, target: Option<string>)
    | RetainNow(key: string, reservation: Row, expected: nat, ownerOk: bool)

  const START := World(Store(map[], None, 0, None), map[], 0, map[])

  function Times(sent: map<Path, nat>, path: Path): nat { if path in sent then sent[path] else 0 }

  function Outgoing(created: Phase, next: Next): Phase {
    match next
    case Continue => created
    case Dispatch(path) => created.(pending := Some(path))
  }

  function Move(w: World, fence: nat, e: Executor): World { w.(executors := w.executors[fence := e]) }

  // A row whose owner may still act on the provider target.
  predicate IsHeld(row: Row) { !row.state.Completed? }

  function Acquire(w: World, key: string, lease: nat): World {
    World(w.store.(rows := w.store.rows[key := Row(Running, w.nextFence, w.store.now + lease, None)]),
          w.executors[w.nextFence := Executor(key, Entered, NOTHING)], w.nextFence + 1, w.sent)
  }

  // The creates that are still missing, in the order they are asked for.
  predicate MayCreate(intent: Intent, created: Phase, path: Path, sight: Sight, undeployed: bool) {
    match path
    case ProjectCreate => intent.projectId == "" && intent.environmentId == "" && created.project == ""
    case EnvironmentCreate => intent.environmentId == "" && created.project != "" && created.environment == ""
    case ApplicationCreate => created.environment != "" && created.application == ""
    case MountCreate =>
      var live := Live(intent, sight, created.application, created.environment, created.appName);
      intent.volume && created.application != "" && live.Some? && !live.value.matches && !created.verified && undeployed
    case OtherPath(_) => false
  }

  function Acknowledged(created: Phase, path: Path, id: Identity, defaultEnvironment: string, appName: string): Phase {
    match path
    case ProjectCreate => created.(project := id, defaultEnvironment := defaultEnvironment)
    case EnvironmentCreate => created.(environment := id)
    case ApplicationCreate => created.(application := id, appName := appName)
    case _ => created
  }

  // One step, or `None` when the step is not possible in this world.
  function Do(intent: Intent, digest: Digest, w: World, step: Step): Option<World> {
    match step
    case Tick(elapsed) => Some(w.(store := w.store.(now := w.store.now + elapsed)))
    case ForeignTarget(target) => Some(w.(store := w.store.(target := target)))
    case Reserve(key, lease) =>
      if key in w.store.rows || (exists other :: other in w.store.rows && IsHeld(w.store.rows[other])) then None
      else Some(Acquire(w, key, lease))
    case Expire(key) =>
      if key !in w.store.rows || w.store.rows[key].state != Running || w.store.rows[key].expires > w.store.now then None
      else Some(SetState(w, key, ReconcileRequired))
    case Retry(key, lease) =>
      if key !in w.store.rows || w.store.rows[key].state != ReconcileRequired then None
      else Some(Acquire(w, key, lease))
    case Finish(key, target) =>
      // A row left for reconciliation is completed from what was observed: a
      // verified phase, and the lane's target as it was when it was read.
      if key !in w.store.rows || w.store.rows[key].state != ReconcileRequired || !Observed(EffectivePhase(w.store, w.store.rows[key].phase), target)
      then None
      else Some(SetState(w, key, Completed(Adopted)))
    case RetainNow(key, reservation, expected, ownerOk) =>
      var answer := Retain(digest, w.store, key, reservation, expected, ownerOk);
      if answer.Refused? then None else Some(w.(store := answer.store))
    case _ =>
      if step.fence !in w.executors || w.executors[step.fence].pc == Stopped then None
      else Act(intent, w, step, step.fence, w.executors[step.fence])
  }

  // The application was verified and the lane had adopted it.
  predicate Observed(phase: Option<Phase>, target: Option<string>) {
    phase.Some? && phase.value.verified && phase.value.application != "" && target == Some(phase.value.application)
  }

  predicate IsAct(step: Step) {
    !(step.Tick? || step.ForeignTarget? || step.Reserve? || step.Expire? || step.Retry? || step.Finish? || step.RetainNow?)
  }

  function SetState(w: World, key: string, state: RowState): World
    requires key in w.store.rows
  {
    w.(store := w.store.(rows := w.store.rows[key := w.store.rows[key].(state := state)]))
  }

  predicate Current(w: World, fence: nat, e: Executor) {
    e.key in w.store.rows && w.store.rows[e.key].state == Running && w.store.rows[e.key].fence == fence
  }

  // The row is still this attempt's, running or not.
  predicate Owns(w: World, fence: nat, e: Executor) {
    e.key in w.store.rows && w.store.rows[e.key].fence == fence && IsHeld(w.store.rows[e.key])
  }

  predicate MayRefuse(w: World, e: Executor) {
    e.pc.Entered? || ((e.pc.Admitted? || e.pc.Ready? || e.pc.Writing?) && ProgressPhase(w.store).None?)
  }

  // A step of the executor `e`.
  function Act(intent: Intent, w: World, step: Step, fence: nat, e: Executor): Option<World>
    requires IsAct(step)
  {
    match step
    case Renew(_, lease) =>
      if !Holds(w.store, e.key, fence) then None
      else Some(w.(store := w.store.(rows := w.store.rows[e.key := w.store.rows[e.key].(expires := w.store.now + lease)])))
    case Abandon(_) =>
      var stopped := Move(w, fence, e.(pc := Stopped));
      Some(if Current(w, fence, e) then SetState(stopped, e.key, ReconcileRequired) else stopped)
    case Crash(_) => Some(Move(w, fence, e.(pc := Stopped)))
    case Release(_) =>
      // Only a refusal before any effect of this attempt gives the row up, and
      // once the attempt has read its phase, only if there was none.
      if !MayRefuse(w, e) || !Current(w, fence, e) || w.store.rows[e.key].phase.Some? then None
      else Some(Move(w.(store := w.store.(rows := w.store.rows - {e.key})), fence, e.(pc := Stopped)))
    case Admit(_) =>
      if !e.pc.Entered? || !AcceptsProgress(w.store, e.key) then None
      else Some(Move(w, fence, e.(pc := Admitted)))
    case Read(_, sight) =>
      var phase := EffectivePhase(w.store, if e.key in w.store.rows then w.store.rows[e.key].phase else None);
      var resumed := Resume(intent, phase, sight);
      if !e.pc.Admitted? || resumed.None? then None
      else Some(Move(w, fence, Executor(e.key, if phase.Some? then Writing(Continue) else Ready, resumed.value)))
    case Begin(_, path, sight, undeployed) =>
      if !e.pc.Ready? then None
      else if Recorded(e.created, path) then Some(Move(w, fence, e.(pc := Writing(Continue))))
      else if !MayCreate(intent, e.created, path, sight, undeployed) then None
      else Some(Move(w, fence, e.(pc := Writing(Dispatch(path)))))
    case WriteRow(_, lease) =>
      if !e.pc.Writing? then None
      else
        var store := WriteEffect(w.store, e.key, fence, Outgoing(e.created, e.pc.next), lease);
        if store.None? then None else Some(Move(w.(store := store.value), fence, e.(pc := Half(e.pc.next))))
    case WriteRest(_) =>
      if !e.pc.Half? then None
      else
        var store := WriteProgress(w.store, e.key, fence, Outgoing(e.created, e.pc.next));
        var pc := if e.pc.next.Continue? then Ready else Dispatching(e.pc.next.path);
        if store.None? then None else Some(Move(w.(store := store.value), fence, e.(pc := pc)))
    case Send(_) =>
      // No lease is consulted between the checkpoint and the provider call.
      if !e.pc.Dispatching? then None
      else Some(Move(w.(sent := w.sent[e.pc.path := Times(w.sent, e.pc.path) + 1]), fence, e.(pc := Waiting(e.pc.path))))
    case Acknowledge(_, id, defaultEnvironment, appName) =>
      if !e.pc.Waiting? || e.pc.path.MountCreate? then None
      else Some(Move(w, fence, Executor(e.key, Writing(Continue), Acknowledged(e.created, e.pc.path, id, defaultEnvironment, appName))))
    case Verify(_, sight) =>
      var live := Live(intent, sight, e.created.application, e.created.environment, e.created.appName);
      if !(e.pc.Ready? || e.pc == Waiting(MountCreate)) || e.created.application == "" || live.None? || !live.value.matches then None
      else Some(Move(w, fence, e.(pc := Writing(Continue), created := e.created.(verified := true))))
    case Adopt(_) =>
      if !e.pc.Ready? || !e.created.verified then None
      else Some(w.(store := w.store.(target := Some(e.created.application))))
    case Complete(_) =>
      // A row that expired meanwhile, or was left for reconciliation, is adopted.
      if !e.pc.Ready? || !e.created.verified || !Owns(w, fence, e) || w.store.target != Some(e.created.application) then None
      else Some(SetState(Move(w, fence, e.(pc := Stopped)), e.key, Completed(Adopted)))
  }

  function Run(intent: Intent, digest: Digest, w: World, steps: seq<Step>): Option<World>
    decreases |steps|
  {
    if steps == [] then Some(w)
    else
      var next := Do(intent, digest, w, steps[0]);
      if next.None? then None else Run(intent, digest, next.value, steps[1..])
  }
}
