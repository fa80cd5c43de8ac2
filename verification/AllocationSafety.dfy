// Safety of every run of `AllocationRuns`: each create is sent at most once,
// recorded identities never change, and retention is final.
module AllocationSafety {
  import opened Options
  import opened AllocationResume
  import opened AllocationStore
  import opened AllocationRuns

  predicate HasRead(pc: Pc) { !pc.Entered? && !pc.Admitted? && !pc.Stopped? }

  // The create this executor is on its way to send, or has sent.
  predicate Sending(pc: Pc, path: Path) {
    pc == Writing(Dispatch(path)) || pc == Half(Dispatch(path)) || pc == Dispatching(path) || pc == Waiting(path)
  }

  predicate NamedOnlyWithApplication(phase: Phase) { phase.application == "" ==> phase.appName == "" }

  predicate Durable(phase: Option<Phase>) { phase.Some? ==> NamedOnlyWithApplication(phase.value) }

  // The progress row accounts for this create.
  predicate Covered(progress: Option<Progress>, path: Path) {
    progress.Some? && progress.value.phase.Some? && Covers(progress.value.phase.value, path)
  }

  predicate Knows(e: Executor, path: Path) {
    Recorded(e.created, path) || e.pc == Dispatching(path) || e.pc == Waiting(path)
  }

  ghost predicate ExecutorOk(e: Executor) {
    HasRead(e.pc) ==>
      && e.created.pending == None && NamedOnlyWithApplication(e.created)
      && (forall path :: Sending(e.pc, path) ==> !Recorded(e.created, path) && !path.OtherPath?)
  }

  // The one executor that can still write has seen everything that was written.
  ghost predicate UpToDate(w: World, fence: nat, e: Executor) {
    Current(w, fence, e) && HasRead(e.pc) && w.store.progress.Some? && w.store.progress.value.key == e.key
    && w.store.progress.value.phase.Some? ==>
      && (forall path :: Covered(w.store.progress, path) ==> Knows(e, path))
      && Keeps(w.store.progress.value.phase.value, e.created)
  }

  ghost predicate Fenced(w: World) {
    && (forall f :: f in w.executors ==> f < w.nextFence)
    && (forall key :: key in w.store.rows ==> w.store.rows[key].fence < w.nextFence && Durable(w.store.rows[key].phase))
    && Durable(ProgressPhase(w.store))
  }

  ghost predicate SentOnce(w: World) {
    && (forall path :: Times(w.sent, path) <= 1)
    && (forall path :: Times(w.sent, path) > 0 ==> Covered(w.store.progress, path))
    && (forall f :: f in w.executors && w.executors[f].pc.Dispatching? ==>
          Covered(w.store.progress, w.executors[f].pc.path) && Times(w.sent, w.executors[f].pc.path) == 0)
    && (forall f, g :: f in w.executors && g in w.executors && w.executors[f].pc.Dispatching? && w.executors[f].pc == w.executors[g].pc ==> f == g)
  }

  ghost predicate Inv(w: World) {
    && Fenced(w) && SentOnce(w)
    && (forall f :: f in w.executors ==> ExecutorOk(w.executors[f]) && UpToDate(w, f, w.executors[f]))
  }

  // Replacing one executor, when nothing durable changes, is safe if the new
  // one is no closer to sending and still up to date.
  lemma MoveKeeps(w: World, fence: nat, e: Executor)
    requires Inv(w) && fence in w.executors && e.key == w.executors[fence].key
    requires ExecutorOk(e) && UpToDate(Move(w, fence, e), fence, e)
    requires e.pc.Dispatching? ==> e.pc == w.executors[fence].pc
    ensures Inv(Move(w, fence, e))
  {
    var after := Move(w, fence, e);
    forall f | f in after.executors
      ensures UpToDate(after, f, after.executors[f])
    {
      if f != fence {
        assert UpToDate(w, f, w.executors[f]);
      }
    }
  }

  // Row changes that neither hand the lease to anyone nor touch progress.
  lemma RowsKeep(w: World, rows: map<string, Row>)
    requires Inv(w)
    requires forall key :: key in rows ==> rows[key].fence < w.nextFence && Durable(rows[key].phase)
    requires forall f :: f in w.executors && Current(w.(store := w.store.(rows := rows)), f, w.executors[f]) ==> Current(w, f, w.executors[f])
    ensures Inv(w.(store := w.store.(rows := rows)))
  {
    var after := w.(store := w.store.(rows := rows));
    forall f | f in after.executors
      ensures UpToDate(after, f, after.executors[f])
    {
      assert UpToDate(w, f, w.executors[f]);
    }
  }

  lemma AcquireKeeps(w: World, key: string, lease: nat)
    ensures Inv(w) ==> Inv(Acquire(w, key, lease))
  {
    if Inv(w) {
      var after := Acquire(w, key, lease);
      forall f | f in after.executors
        ensures ExecutorOk(after.executors[f]) && UpToDate(after, f, after.executors[f])
      {
        if f != w.nextFence {
          assert UpToDate(w, f, w.executors[f]);
        }
      }
    }
  }

  lemma ReadKeeps(intent: Intent, w: World, fence: nat, sight: Sight)
    requires Inv(w) && fence in w.executors && Act(intent, w, Read(fence, sight), fence, w.executors[fence]).Some?
    ensures Inv(Act(intent, w, Read(fence, sight), fence, w.executors[fence]).value)
  {
    var e := w.executors[fence];
    var phase := EffectivePhase(w.store, if e.key in w.store.rows then w.store.rows[e.key].phase else None);
    ResumeKeeps(intent, phase, sight);
    ResumeNames(intent, phase, sight);
    var next := Executor(e.key, if phase.Some? then Writing(Continue) else Ready, Resume(intent, phase, sight).value);
    MoveKeeps(w, fence, next);
  }

  lemma ResumeNames(intent: Intent, phase: Option<Phase>, sight: Sight)
    ensures Resume(intent, phase, sight).Some? && Durable(phase) ==>
              NamedOnlyWithApplication(Resume(intent, phase, sight).value)
  {}

  lemma WriteRowKeeps(intent: Intent, w: World, fence: nat, lease: nat)
    ensures Inv(w) && fence in w.executors && Act(intent, w, WriteRow(fence, lease), fence, w.executors[fence]).Some? ==>
              Inv(Act(intent, w, WriteRow(fence, lease), fence, w.executors[fence]).value)
  {
    if Inv(w) && fence in w.executors && Act(intent, w, WriteRow(fence, lease), fence, w.executors[fence]).Some? {
      var e := w.executors[fence];
      var store := WriteEffect(w.store, e.key, fence, Outgoing(e.created, e.pc.next), lease).value;
      RowsKeep(w, store.rows);
      var middle := w.(store := w.store.(rows := store.rows));
      assert UpToDate(middle, fence, e);
      MoveKeeps(middle, fence, e.(pc := Half(e.pc.next)));
    }
  }

  // The step that makes a create sendable: nothing else can be sending it.
  lemma WriteRestKeeps(intent: Intent, w: World, fence: nat)
    requires Inv(w) && fence in w.executors && Act(intent, w, WriteRest(fence), fence, w.executors[fence]).Some?
    ensures var after := Act(intent, w, WriteRest(fence), fence, w.executors[fence]).value;
            && Inv(after)
            && (ProgressPhase(w.store).Some? ==> Keeps(ProgressPhase(w.store).value, ProgressPhase(after.store).value))
            && (forall path :: Covered(w.store.progress, path) ==> Covered(after.store.progress, path))
  {
    var e := w.executors[fence];
    var after := Act(intent, w, WriteRest(fence), fence, e).value;
    var phase := Outgoing(e.created, e.pc.next);
    assert ProgressPhase(after.store) == Some(phase);
    assert UpToDate(w, fence, e);
    forall path | Covered(w.store.progress, path)
      ensures Covered(after.store.progress, path)
    {
      assert Recorded(e.created, path);
      assert Recorded(phase, path);
    }
    if e.pc.next.Dispatch? {
      var path := e.pc.next.path;
      assert Sending(e.pc, path) && !Recorded(e.created, path) && !Knows(e, path);
      assert !Covered(w.store.progress, path);
    }
    forall f | f in after.executors
      ensures ExecutorOk(after.executors[f]) && UpToDate(after, f, after.executors[f])
    {
      if f == fence {
        assert forall path :: Covers(phase, path) ==> Knows(after.executors[f], path);
      } else {
        assert UpToDate(w, f, w.executors[f]);
      }
    }
  }

  lemma SendKeeps(intent: Intent, w: World, fence: nat)
    requires Inv(w) && fence in w.executors && Act(intent, w, Send(fence), fence, w.executors[fence]).Some?
    ensures Inv(Act(intent, w, Send(fence), fence, w.executors[fence]).value)
  {
    var e := w.executors[fence];
    var after := Act(intent, w, Send(fence), fence, e).value;
    assert Times(w.sent, e.pc.path) == 0;
    assert forall path :: Times(after.sent, path) == if path == e.pc.path then 1 else Times(w.sent, path);
    forall f | f in after.executors
      ensures ExecutorOk(after.executors[f]) && UpToDate(after, f, after.executors[f])
    {
      assert UpToDate(w, f, w.executors[f]);
    }
    forall f | f in after.executors && after.executors[f].pc.Dispatching?
      ensures Times(after.sent, after.executors[f].pc.path) == 0
    {
      assert f != fence && w.executors[f].pc != e.pc;
    }
  }

  lemma LocalKeeps(intent: Intent, w: World, step: Step, fence: nat)
    requires Inv(w) && fence in w.executors && !w.executors[fence].pc.Stopped?
    requires step.Crash? || step.Admit? || step.Begin?
    requires Act(intent, w, step, fence, w.executors[fence]).Some?
    ensures Inv(Act(intent, w, step, fence, w.executors[fence]).value)
  {
    hide Live, Keeps;
    var e := w.executors[fence];
    assert UpToDate(w, fence, e);
    MoveKeeps(w, fence, Act(intent, w, step, fence, e).value.executors[fence]);
  }

  // An answer from the provider records the create that was being sent.
  lemma AnswerKeeps(intent: Intent, w: World, step: Step, fence: nat)
    requires Inv(w) && fence in w.executors && !w.executors[fence].pc.Stopped?
    requires step.Acknowledge? || step.Verify?
    requires Act(intent, w, step, fence, w.executors[fence]).Some?
    ensures Inv(Act(intent, w, step, fence, w.executors[fence]).value)
  {
    hide Live;
    var e := w.executors[fence];
    assert UpToDate(w, fence, e);
    if e.pc.Waiting? {
      assert Sending(e.pc, e.pc.path);
    }
    MoveKeeps(w, fence, Act(intent, w, step, fence, e).value.executors[fence]);
  }

  lemma RowStepKeeps(intent: Intent, w: World, step: Step, fence: nat)
    requires Inv(w) && fence in w.executors && !w.executors[fence].pc.Stopped?
    requires step.Renew? || step.Abandon? || step.Release? || step.Complete? || step.Adopt?
    requires Act(intent, w, step, fence, w.executors[fence]).Some?
    ensures Inv(Act(intent, w, step, fence, w.executors[fence]).value)
  {
    var e := w.executors[fence];
    var after := Act(intent, w, step, fence, e).value;
    if step.Adopt? {
      assert Inv(w.(store := w.store.(target := after.store.target))) by {
        forall f | f in w.executors
          ensures UpToDate(after, f, w.executors[f])
        {
          assert UpToDate(w, f, w.executors[f]);
        }
      }
    } else {
      RowsKeep(w, after.store.rows);
      var middle := w.(store := w.store.(rows := after.store.rows));
      if !step.Renew? {
        MoveKeeps(middle, fence, e.(pc := Stopped));
      }
    }
  }

  lemma RetainKeeps(digest: Digest, w: World, key: string, reservation: Row, expected: nat, ownerOk: bool)
    ensures Inv(w) && Retain(digest, w.store, key, reservation, expected, ownerOk).Granted? ==>
              Inv(w.(store := Retain(digest, w.store, key, reservation, expected, ownerOk).store))
  {
    if Inv(w) && Retain(digest, w.store, key, reservation, expected, ownerOk).Granted? {
      var store := Retain(digest, w.store, key, reservation, expected, ownerOk).store;
      RowsKeep(w, store.rows);
      var middle := w.(store := w.store.(rows := store.rows));
      var after := w.(store := store);
      assert forall path :: Covered(after.store.progress, path) <==> Covered(w.store.progress, path);
      forall f | f in after.executors
        ensures UpToDate(after, f, after.executors[f])
      {
        assert UpToDate(middle, f, middle.executors[f]);
      }
    }
  }

  // What one step may do to the durable record.
  ghost predicate Steady(before: World, after: World) {
    && (ProgressPhase(before.store).Some? ==>
          ProgressPhase(after.store).Some? && Keeps(ProgressPhase(before.store).value, ProgressPhase(after.store).value))
    && (forall path :: Covered(before.store.progress, path) ==> Covered(after.store.progress, path))
    && (forall key :: key in before.store.rows && before.store.rows[key].state.Completed? ==>
          key in after.store.rows && after.store.rows[key] == before.store.rows[key])
    && (IsRetained(before.store) ==>
          && after.store.progress == before.store.progress
          && (forall f :: f in after.executors && after.executors[f].pc.Dispatching? ==>
                f in before.executors && before.executors[f].pc == after.executors[f].pc))
  }

  lemma OutsideKeeps(w: World, now: nat, target: Option<string>)
    ensures Inv(w) ==> Inv(w.(store := w.store.(now := now, target := target)))
  {
    if Inv(w) {
      var after := w.(store := w.store.(now := now, target := target));
      forall f | f in w.executors
        ensures UpToDate(after, f, w.executors[f])
      {
        assert UpToDate(w, f, w.executors[f]);
      }
    }
  }

  lemma StepInv(intent: Intent, digest: Digest, w: World, step: Step)
    requires Inv(w) && Do(intent, digest, w, step).Some?
    ensures Inv(Do(intent, digest, w, step).value)
  {
    if IsAct(step) {
      ActInv(intent, w, step);
    } else {
      hide Retain;
      var after := Do(intent, digest, w, step).value;
      match step
      case Tick(_) => OutsideKeeps(w, after.store.now, w.store.target);
      case ForeignTarget(target) => OutsideKeeps(w, w.store.now, target);
      case Expire(key) => RowsKeep(w, after.store.rows);
      case Finish(key, _) => RowsKeep(w, after.store.rows);
      case Reserve(key, lease) => AcquireKeeps(w, key, lease);
      case Retry(key, lease) => AcquireKeeps(w, key, lease);
      case RetainNow(key, reservation, expected, ownerOk) => RetainKeeps(digest, w, key, reservation, expected, ownerOk);
    }
  }

  lemma ActInv(intent: Intent, w: World, step: Step)
    requires Inv(w) && IsAct(step) && step.fence in w.executors && !w.executors[step.fence].pc.Stopped?
    requires Act(intent, w, step, step.fence, w.executors[step.fence]).Some?
    ensures Inv(Act(intent, w, step, step.fence, w.executors[step.fence]).value)
  {
    hide Act, Inv;
    if step.Read? {
      ReadKeeps(intent, w, step.fence, step.sight);
    } else if step.WriteRow? {
      WriteRowKeeps(intent, w, step.fence, step.lease);
    } else if step.WriteRest? {
      WriteRestKeeps(intent, w, step.fence);
    } else if step.Send? {
      SendKeeps(intent, w, step.fence);
    } else if step.Crash? || step.Admit? || step.Begin? {
      LocalKeeps(intent, w, step, step.fence);
    } else if step.Acknowledge? || step.Verify? {
      AnswerKeeps(intent, w, step, step.fence);
    } else {
      RowStepKeeps(intent, w, step, step.fence);
    }
  }

  // A step that leaves progress alone is steady if it also leaves completed
  // rows alone and starts no sending.
  lemma SameProgress(before: World, after: World)
    requires after.store.progress == before.store.progress
    requires forall key :: key in before.store.rows && before.store.rows[key].state.Completed? ==>
               key in after.store.rows && after.store.rows[key] == before.store.rows[key]
    requires forall f :: f in after.executors && after.executors[f].pc.Dispatching? ==>
               f in before.executors && before.executors[f].pc == after.executors[f].pc
    ensures Steady(before, after)
  {}

  lemma RetainSteady(digest: Digest, w: World, key: string, reservation: Row, expected: nat, ownerOk: bool)
    ensures Retain(digest, w.store, key, reservation, expected, ownerOk).Granted? ==>
              Steady(w, w.(store := Retain(digest, w.store, key, reservation, expected, ownerOk).store))
  {
    if Retain(digest, w.store, key, reservation, expected, ownerOk).Granted? {
      var after := w.(store := Retain(digest, w.store, key, reservation, expected, ownerOk).store);
      assert forall path :: Covered(w.store.progress, path) ==> Covered(after.store.progress, path);
    }
  }

  lemma ActSteady(intent: Intent, w: World, step: Step)
    requires Inv(w) && IsAct(step) && step.fence in w.executors && !w.executors[step.fence].pc.Stopped?
    requires Act(intent, w, step, step.fence, w.executors[step.fence]).Some?
    ensures Steady(w, Act(intent, w, step, step.fence, w.executors[step.fence]).value)
  {
    hide Resume, Live, Inv, MayCreate, Steady;
    if step.WriteRest? {
      WriteRestSteady(intent, w, step.fence);
    } else {
      SameProgress(w, Act(intent, w, step, step.fence, w.executors[step.fence]).value);
    }
  }

  lemma WriteRestSteady(intent: Intent, w: World, fence: nat)
    ensures Inv(w) && fence in w.executors && Act(intent, w, WriteRest(fence), fence, w.executors[fence]).Some? ==>
              Steady(w, Act(intent, w, WriteRest(fence), fence, w.executors[fence]).value)
  {
    if Inv(w) && fence in w.executors && Act(intent, w, WriteRest(fence), fence, w.executors[fence]).Some? {
      WriteRestKeeps(intent, w, fence);
    }
  }

  lemma StepSteady(intent: Intent, digest: Digest, w: World, step: Step)
    requires Inv(w) && Do(intent, digest, w, step).Some?
    ensures Steady(w, Do(intent, digest, w, step).value)
  {
    hide Inv, Steady, Act, Retain;
    if IsAct(step) {
      ActSteady(intent, w, step);
    } else if step.RetainNow? {
      RetainSteady(digest, w, step.key, step.reservation, step.expected, step.ownerOk);
    } else {
      NewRowsFenced(w);
      SameProgress(w, Do(intent, digest, w, step).value);
    }
  }

  lemma NewRowsFenced(w: World)
    ensures Inv(w) ==> w.nextFence !in w.executors
  {}

  lemma {:induction false} RunKeeps(intent: Intent, digest: Digest, w: World, steps: seq<Step>)
    requires Inv(w)
    ensures forall later :: Run(intent, digest, w, steps) == Some(later) ==> Inv(later) && Steady(w, later)
    decreases |steps|
  {
    if steps != [] && Do(intent, digest, w, steps[0]).Some? {
      var next := Do(intent, digest, w, steps[0]).value;
      StepInv(intent, digest, w, steps[0]);
      StepSteady(intent, digest, w, steps[0]);
      RunKeeps(intent, digest, next, steps[1..]);
    }
  }

  // ----- every run from the empty store -----

  ghost predicate Reachable(intent: Intent, digest: Digest, w: World) {
    exists steps :: Run(intent, digest, START, steps) == Some(w)
  }

  // However many executors crash, stall, lose their lease or send late, each
  // create is sent at most once, and a sent create is on record.
  lemma SentAtMostOnce(intent: Intent, digest: Digest, w: World)
    requires Reachable(intent, digest, w)
    ensures forall path :: Times(w.sent, path) <= 1 && (Times(w.sent, path) == 1 ==> Covered(w.store.progress, path))
  {
    var before :| Run(intent, digest, START, before) == Some(w);
    RunKeeps(intent, digest, START, before);
  }

  // Retention freezes the progress row and lets no further create begin.
  lemma RetentionIsFinal(intent: Intent, digest: Digest, w: World, steps: seq<Step>)
    requires Reachable(intent, digest, w) && IsRetained(w.store) && Run(intent, digest, w, steps).Some?
    ensures var later := Run(intent, digest, w, steps).value;
            && later.store.progress == w.store.progress
            && (forall f :: f in later.executors && later.executors[f].pc.Dispatching? ==>
                  f in w.executors && w.executors[f].pc == later.executors[f].pc)
  {
    var before :| Run(intent, digest, START, before) == Some(w);
    RunKeeps(intent, digest, START, before);
    RunKeeps(intent, digest, w, steps);
  }

  // After a first grant, at any later moment of any run, the reviewed digest
  // gets the same answer and changes nothing, from the reviewed snapshot or
  // from the retained row, unless the lane has since adopted the application
  // or lost its owner.
  lemma RetentionReplays(intent: Intent, digest: Digest, w: World, key: string, reservation: Row, expected: nat,
                         steps: seq<Step>, fromRow: bool, ownerOk: bool)
    requires Reachable(intent, digest, w) && key in w.store.rows && !w.store.rows[key].state.Completed?
    requires Retain(digest, w.store, key, reservation, expected, true).Granted?
    requires var after := w.(store := Retain(digest, w.store, key, reservation, expected, true).store);
             Run(intent, digest, after, steps).Some?
    ensures var granted := Retain(digest, w.store, key, reservation, expected, true);
            var later := Run(intent, digest, w.(store := granted.store), steps).value.store;
            && key in later.rows
            && var shown := if fromRow then later.rows[key] else reservation;
               Retain(digest, later, key, shown, expected, ownerOk) ==
               if MayRetain(later, shown, ownerOk) then Granted(later, granted.receipt) else Refused
  {
    var before :| Run(intent, digest, START, before) == Some(w);
    RunKeeps(intent, digest, START, before);
    RetainKeeps(digest, w, key, reservation, expected, true);
    GrantRetains(digest, w.store, key, reservation, expected, true);
    var granted := Retain(digest, w.store, key, reservation, expected, true);
    var after := w.(store := granted.store);
    RunKeeps(intent, digest, after, steps);
    var later := Run(intent, digest, after, steps).value.store;
    assert RetainedAs(later, key, reservation.(state := Completed(granted.receipt)), granted.receipt);
    ReplayAgrees(digest, later, key, reservation, expected, granted.receipt, ownerOk, fromRow);
  }

  // ----- who writes, and for whom -----

  // The executor's row is running under its own fence and has not expired.
  predicate HoldsLease(w: World, fence: nat) {
    && fence in w.executors && w.executors[fence].key in w.store.rows
    && var row := w.store.rows[w.executors[fence].key];
       row.state == Running && row.fence == fence && row.expires > w.store.now
  }

  // A phase changes in a row or in the progress row only by a checkpoint of an
  // executor that holds its lease; the progress row then takes the phase of
  // that executor's row, and was its own or nobody's, and not retained.
  lemma OnlyHolderWrites(intent: Intent, digest: Digest, w: World, step: Step)
    requires Do(intent, digest, w, step).Some?
    ensures var later := Do(intent, digest, w, step).value;
            && (forall key :: key in w.store.rows && key in later.store.rows && later.store.rows[key].phase.Some?
                              && later.store.rows[key].phase != w.store.rows[key].phase ==>
                  step.WriteRow? && HoldsLease(w, step.fence) && key == w.executors[step.fence].key)
            && (ProgressPhase(later.store) != ProgressPhase(w.store) ==>
                  && step.WriteRest? && HoldsLease(w, step.fence)
                  && ProgressPhase(later.store) == w.store.rows[w.executors[step.fence].key].phase
                  && (w.store.progress.None? || (w.store.progress.value.key == w.executors[step.fence].key && !w.store.progress.value.retained)))
  {
    hide Resume, Live, MayCreate, Acknowledged, Outgoing, Act;
    if IsAct(step) {
      ActHolderWrites(intent, w, step);
    }
  }

  lemma ActHolderWrites(intent: Intent, w: World, step: Step)
    requires IsAct(step) && step.fence in w.executors && Act(intent, w, step, step.fence, w.executors[step.fence]).Some?
    ensures var later := Act(intent, w, step, step.fence, w.executors[step.fence]).value;
            && (forall key :: key in w.store.rows && key in later.store.rows && later.store.rows[key].phase != w.store.rows[key].phase ==>
                  step.WriteRow? && HoldsLease(w, step.fence) && key == w.executors[step.fence].key)
            && (ProgressPhase(later.store) != ProgressPhase(w.store) ==>
                  && step.WriteRest? && HoldsLease(w, step.fence)
                  && ProgressPhase(later.store) == w.store.rows[w.executors[step.fence].key].phase
                  && (w.store.progress.None? || (w.store.progress.value.key == w.executors[step.fence].key && !w.store.progress.value.retained)))
  {
    hide Resume, Live, MayCreate, Acknowledged, Outgoing;
  }

  ghost predicate OneHeld(w: World) {
    forall key, other :: key in w.store.rows && other in w.store.rows && IsHeld(w.store.rows[key]) && IsHeld(w.store.rows[other]) ==> key == other
  }

  lemma StepHoldsOne(intent: Intent, digest: Digest, w: World, step: Step)
    ensures OneHeld(w) && Do(intent, digest, w, step).Some? ==> OneHeld(Do(intent, digest, w, step).value)
  {
    hide Resume, Live, MayCreate, Acknowledged, Outgoing, MayRetain;
  }

  // At most one reservation of the lane may still act on the provider.
  lemma {:induction false} AtMostOneHeld(intent: Intent, digest: Digest, w: World, steps: seq<Step>)
    requires OneHeld(w)
    ensures forall later :: Run(intent, digest, w, steps) == Some(later) ==> OneHeld(later)
    decreases |steps|
  {
    hide Do, OneHeld;
    if steps != [] && Do(intent, digest, w, steps[0]).Some? {
      StepHoldsOne(intent, digest, w, steps[0]);
      AtMostOneHeld(intent, digest, Do(intent, digest, w, steps[0]).value, steps[1..]);
    }
  }

  // The checkpoints that are possible: the row is written exactly under the
  // lease, and then the progress row exactly under the lease, with the row's
  // phase, unless it is another key's or retained.
  lemma CheckpointsExactly(intent: Intent, digest: Digest, w: World, fence: nat)
    requires fence in w.executors
    ensures forall lease :: Do(intent, digest, w, WriteRow(fence, lease)).Some? <==> w.executors[fence].pc.Writing? && HoldsLease(w, fence)
    ensures Do(intent, digest, w, WriteRest(fence)).Some? <==>
              && w.executors[fence].pc.Half? && HoldsLease(w, fence)
              && w.store.rows[w.executors[fence].key].phase == Some(Outgoing(w.executors[fence].created, w.executors[fence].pc.next))
              && (w.store.progress.None? || (w.store.progress.value.key == w.executors[fence].key && !w.store.progress.value.retained))
  {}

  // What a step leaves of the lease on a row: the row stays running under the
  // same fence, unless its own executor gives it up or completes it.
  predicate LeaseStands(w: World, later: World, key: string, step: Step) {
    key in w.store.rows ==>
      || (key in later.store.rows && later.store.rows[key].state == Running && later.store.rows[key].fence == w.store.rows[key].fence)
      || ((step.Abandon? || step.Release? || step.Complete?) && step.fence == w.store.rows[key].fence)
  }

  // No step takes over a running row before it has expired, and none deletes a
  // row that records a phase.
  lemma UnexpiredLeaseStands(intent: Intent, digest: Digest, w: World, step: Step)
    requires Do(intent, digest, w, step).Some?
    ensures var later := Do(intent, digest, w, step).value;
            forall key :: key in w.store.rows ==>
              && (w.store.rows[key].state == Running && w.store.rows[key].expires > w.store.now ==> LeaseStands(w, later, key, step))
              && (w.store.rows[key].phase.Some? ==> key in later.store.rows)
  {
    hide Resume, Live, MayCreate, Acknowledged, Outgoing, MayRetain, Act;
    if IsAct(step) {
      ActLeaseStands(intent, w, step);
    }
  }

  lemma ActLeaseStands(intent: Intent, w: World, step: Step)
    requires IsAct(step) && step.fence in w.executors && Act(intent, w, step, step.fence, w.executors[step.fence]).Some?
    ensures var later := Act(intent, w, step, step.fence, w.executors[step.fence]).value;
            forall key :: key in w.store.rows ==>
              && (w.store.rows[key].state == Running ==> LeaseStands(w, later, key, step))
              && (w.store.rows[key].phase.Some? ==> key in later.store.rows)
  {
    hide Resume, Live, MayCreate, Acknowledged, Outgoing;
  }
}
