// Where the identities on record come from: an outstanding create is cleared
// only by an executor that was answered while it was outstanding.
module AllocationProvenance {
  import opened Options
  import opened AllocationResume
  import opened AllocationStore
  import opened AllocationRuns
  import opened AllocationSafety

  // The world after the first `i` steps of a run from the empty store.
  function At(intent: Intent, digest: Digest, steps: seq<Step>, i: nat): Option<World> {
    if i <= |steps| then Run(intent, digest, START, steps[..i]) else None
  }

  predicate IsOutstanding(w: World, path: Path) {
    ProgressPhase(w.store).Some? && ProgressPhase(w.store).value.pending == Some(path)
  }

  // What a phase has on record for a create.
  function RecordOf(phase: Phase, path: Path): string {
    match path
    case ProjectCreate => phase.project
    case EnvironmentCreate => phase.environment
    case ApplicationCreate => phase.application
    case MountCreate => if phase.verified then "true" else ""
    case OtherPath(_) => ""
  }

  // The step tells its executor the outcome of the create: the provider
  // acknowledges what it was sent, the mount is read back, or a new executor
  // finds the one resource that the create can have made.
  ghost predicate Answers(intent: Intent, w: World, step: Step, path: Path, answer: string) {
    && IsAct(step) && step.fence in w.executors
    && var pc := w.executors[step.fence].pc;
       match step
       case Acknowledge(_, id, _, _) => pc == Waiting(path) && answer == id
       case Verify(_, sight) => path == MountCreate && pc == Waiting(path) && answer == "true" && sight.live.Some? && sight.live.value.matches
       case Read(_, sight) => exists after :: UniquelyMatched(intent, sight, path, after) && answer == RecordOf(after, path)
       case _ => false
  }

  // Step `j` answered this executor, and the create has been outstanding from
  // before that step up to moment `c`.
  ghost predicate Answered(intent: Intent, digest: Digest, steps: seq<Step>, j: nat, c: nat, fence: nat, path: Path, answer: string) {
    && j < c <= |steps| && IsAct(steps[j]) && steps[j].fence == fence
    && (forall k :: j <= k <= c ==> At(intent, digest, steps, k).Some? && IsOutstanding(At(intent, digest, steps, k).value, path))
    && Answers(intent, At(intent, digest, steps, j).value, steps[j], path, answer)
  }

  ghost predicate WasAnswered(intent: Intent, digest: Digest, steps: seq<Step>, c: nat, fence: nat, path: Path, answer: string) {
    exists j :: Answered(intent, digest, steps, j, c, fence, path, answer)
  }

  // An executor that can still write and has the identity of a create that is
  // outstanding under its key.
  predicate Told(w: World, f: nat, path: Path) {
    && f in w.executors && Current(w, f, w.executors[f]) && HasRead(w.executors[f].pc)
    && IsOutstanding(w, path) && w.store.progress.value.key == w.executors[f].key
    && Recorded(w.executors[f].created, path)
  }

  // Whoever was told was told while the create was outstanding.
  ghost predicate Justified(intent: Intent, digest: Digest, steps: seq<Step>, c: nat, w: World) {
    forall f, path :: Told(w, f, path) ==> WasAnswered(intent, digest, steps, c, f, path, RecordOf(w.executors[f].created, path))
  }

  // ----- moments of a run -----

  lemma {:induction false} RunThen(intent: Intent, digest: Digest, w: World, steps: seq<Step>, step: Step)
    ensures Run(intent, digest, w, steps + [step]) ==
            var before := Run(intent, digest, w, steps);
            if before.None? then None else Do(intent, digest, before.value, step)
    decreases |steps|
  {
    hide Do;
    if steps == [] {
      assert steps + [step] == [step] && [step][1..] == [];
    } else {
      assert (steps + [step])[1..] == steps[1..] + [step];
      var next := Do(intent, digest, w, steps[0]);
      if next.Some? {
        RunThen(intent, digest, next.value, steps[1..], step);
      }
    }
  }

  lemma NextMoment(intent: Intent, digest: Digest, steps: seq<Step>, i: nat)
    requires i < |steps|
    ensures At(intent, digest, steps, i + 1) ==
            if At(intent, digest, steps, i).None? then None else Do(intent, digest, At(intent, digest, steps, i).value, steps[i])
  {
    hide Run, Do;
    RunThen(intent, digest, START, steps[..i], steps[i]);
    assert steps[..i + 1] == steps[..i] + [steps[i]];
  }

  lemma StartKeeps()
    ensures Inv(START)
  {}

  lemma {:induction false} EarlierMoment(intent: Intent, digest: Digest, steps: seq<Step>, i: nat, j: nat)
    requires i <= j <= |steps| && At(intent, digest, steps, j).Some?
    ensures At(intent, digest, steps, i).Some?
    decreases j - i
  {
    hide At, Do;
    if i < j {
      NextMoment(intent, digest, steps, j - 1);
      EarlierMoment(intent, digest, steps, i, j - 1);
    }
  }

  lemma MomentsKeep(intent: Intent, digest: Digest, steps: seq<Step>)
    ensures forall i: nat :: i <= |steps| && At(intent, digest, steps, i).Some? ==> Inv(At(intent, digest, steps, i).value)
  {
    hide Run;
    StartKeeps();
    hide Inv, Steady;
    forall i: nat | i <= |steps| && At(intent, digest, steps, i).Some?
      ensures Inv(At(intent, digest, steps, i).value)
    {
      RunKeeps(intent, digest, START, steps[..i]);
    }
  }

  // ----- what one step tells -----

  lemma ReadAnswers(intent: Intent, w: World, fence: nat, sight: Sight, path: Path)
    requires fence in w.executors && IsOutstanding(w, path) && Act(intent, w, Read(fence, sight), fence, w.executors[fence]).Some?
    ensures var after := Act(intent, w, Read(fence, sight), fence, w.executors[fence]).value;
            Answers(intent, w, Read(fence, sight), path, RecordOf(after.executors[fence].created, path))
  {
    hide Resume, UniquelyMatched;
    PendingNeedsUniqueMatch(intent, ProgressPhase(w.store).value, sight);
  }

  // What an executor was told after a step of its own.
  ghost predicate ToldBy(intent: Intent, w: World, step: Step, fence: nat, path: Path, later: Phase) {
    && fence in w.executors && IsOutstanding(w, path)
    && (Answers(intent, w, step, path, RecordOf(later, path))
        || (Told(w, fence, path) && RecordOf(w.executors[fence].created, path) == RecordOf(later, path)))
  }

  lemma AnswerStep(intent: Intent, w: World, step: Step, fence: nat, path: Path)
    requires Inv(w) && (step.Acknowledge? || step.Verify?) && step.fence == fence && fence in w.executors && !w.executors[fence].pc.Stopped?
    requires Act(intent, w, step, fence, w.executors[fence]).Some? && Told(Act(intent, w, step, fence, w.executors[fence]).value, fence, path)
    ensures ToldBy(intent, w, step, fence, path, Act(intent, w, step, fence, w.executors[fence]).value.executors[fence].created)
  {
    hide Keeps;
    var e := w.executors[fence];
    assert UpToDate(w, fence, e);
    assert Covered(w.store.progress, path);
  }

  lemma WriteStep(intent: Intent, w: World, step: Step, fence: nat, path: Path)
    requires Inv(w) && step.WriteRest? && step.fence == fence && fence in w.executors && !w.executors[fence].pc.Stopped?
    requires Act(intent, w, step, fence, w.executors[fence]).Some?
    ensures !Told(Act(intent, w, step, fence, w.executors[fence]).value, fence, path)
  {
    hide Keeps, UpToDate;
    var e := w.executors[fence];
    assert ExecutorOk(e) && (Sending(e.pc, path) ==> !Recorded(e.created, path));
  }

  lemma QuietStep(intent: Intent, w: World, step: Step, fence: nat, path: Path)
    requires IsAct(step) && !step.Acknowledge? && !step.Verify? && !step.WriteRest? && !step.Read?
    requires step.fence == fence && fence in w.executors && !w.executors[fence].pc.Stopped?
    requires Act(intent, w, step, fence, w.executors[fence]).Some? && Told(Act(intent, w, step, fence, w.executors[fence]).value, fence, path)
    ensures ToldBy(intent, w, step, fence, path, Act(intent, w, step, fence, w.executors[fence]).value.executors[fence].created)
  {
    hide Live, MayCreate, Answers;
  }

  // After a step of its own, what an executor knows of an outstanding create is
  // what the step answered or what it knew before.
  lemma OwnStep(intent: Intent, w: World, step: Step, fence: nat, path: Path)
    requires Inv(w) && IsAct(step) && step.fence == fence && fence in w.executors && !w.executors[fence].pc.Stopped?
    requires Act(intent, w, step, fence, w.executors[fence]).Some? && Told(Act(intent, w, step, fence, w.executors[fence]).value, fence, path)
    ensures ToldBy(intent, w, step, fence, path, Act(intent, w, step, fence, w.executors[fence]).value.executors[fence].created)
  {
    hide Act, Inv, Told, Answers;
    if step.Read? {
      ReadKeepsProgress(intent, w, fence, step.sight, path);
      ReadAnswers(intent, w, fence, step.sight, path);
    } else if step.WriteRest? {
      WriteStep(intent, w, step, fence, path);
    } else if step.Acknowledge? || step.Verify? {
      AnswerStep(intent, w, step, fence, path);
    } else {
      QuietStep(intent, w, step, fence, path);
    }
  }

  lemma ReadKeepsProgress(intent: Intent, w: World, fence: nat, sight: Sight, path: Path)
    requires fence in w.executors && Act(intent, w, Read(fence, sight), fence, w.executors[fence]).Some?
    requires Told(Act(intent, w, Read(fence, sight), fence, w.executors[fence]).value, fence, path)
    ensures IsOutstanding(w, path)
  {
    hide Resume;
  }

  lemma OtherAct(intent: Intent, w: World, step: Step, fence: nat, f: nat, path: Path)
    requires IsAct(step) && step.fence == fence && fence in w.executors && f != fence
    requires Act(intent, w, step, fence, w.executors[fence]).Some? && Told(Act(intent, w, step, fence, w.executors[fence]).value, f, path)
    ensures Told(w, f, path) && w.executors[f].created == Act(intent, w, step, fence, w.executors[fence]).value.executors[f].created
  {
    hide Resume, Live, MayCreate, Acknowledged;
  }

  // A step of anyone else leaves what an executor was told as it was.
  lemma OtherStep(intent: Intent, digest: Digest, w: World, step: Step, f: nat, path: Path)
    requires Fenced(w) && Do(intent, digest, w, step).Some? && (IsAct(step) ==> step.fence != f)
    requires Told(Do(intent, digest, w, step).value, f, path)
    ensures Told(w, f, path) && w.executors[f].created == Do(intent, digest, w, step).value.executors[f].created
  {
    hide Act;
    if IsAct(step) {
      hide Told, Fenced;
      OtherAct(intent, w, step, step.fence, f, path);
    }
  }

  // ----- every moment of every run -----

  lemma StillAnswered(intent: Intent, digest: Digest, steps: seq<Step>, j: nat, c: nat, fence: nat, path: Path, answer: string)
    requires Answered(intent, digest, steps, j, c, fence, path, answer) && c < |steps|
    requires At(intent, digest, steps, c + 1).Some? && IsOutstanding(At(intent, digest, steps, c + 1).value, path)
    ensures Answered(intent, digest, steps, j, c + 1, fence, path, answer)
  {
    hide At, Answers, IsOutstanding;
  }

  lemma NewlyAnswered(intent: Intent, digest: Digest, steps: seq<Step>, c: nat, fence: nat, path: Path, answer: string)
    requires c < |steps| && IsAct(steps[c]) && steps[c].fence == fence
    requires At(intent, digest, steps, c).Some? && IsOutstanding(At(intent, digest, steps, c).value, path)
    requires At(intent, digest, steps, c + 1).Some? && IsOutstanding(At(intent, digest, steps, c + 1).value, path)
    requires Answers(intent, At(intent, digest, steps, c).value, steps[c], path, answer)
    ensures Answered(intent, digest, steps, c, c + 1, fence, path, answer)
  {
    hide At, Answers, IsOutstanding;
  }

  lemma {:induction false} AlwaysJustified(intent: Intent, digest: Digest, steps: seq<Step>, c: nat)
    requires c <= |steps| && At(intent, digest, steps, c).Some?
    ensures Justified(intent, digest, steps, c, At(intent, digest, steps, c).value)
  {
    if c == 0 {
      assert steps[..0] == [];
      assert At(intent, digest, steps, 0) == Some(START);
    } else {
      hide At, Do, Inv;
      NextMoment(intent, digest, steps, c - 1);
      AlwaysJustified(intent, digest, steps, c - 1);
      MomentsKeep(intent, digest, steps);
      var w := At(intent, digest, steps, c).value;
      forall f, path | Told(w, f, path)
        ensures WasAnswered(intent, digest, steps, c, f, path, RecordOf(w.executors[f].created, path))
      {
        JustifiedStep(intent, digest, steps, c - 1, f, path);
      }
    }
  }

  lemma JustifiedStep(intent: Intent, digest: Digest, steps: seq<Step>, c: nat, f: nat, path: Path)
    requires c < |steps| && At(intent, digest, steps, c).Some? && Inv(At(intent, digest, steps, c).value)
    requires Justified(intent, digest, steps, c, At(intent, digest, steps, c).value)
    requires At(intent, digest, steps, c + 1) == Do(intent, digest, At(intent, digest, steps, c).value, steps[c])
    requires At(intent, digest, steps, c + 1).Some? && Told(At(intent, digest, steps, c + 1).value, f, path)
    ensures WasAnswered(intent, digest, steps, c + 1, f, path, RecordOf(At(intent, digest, steps, c + 1).value.executors[f].created, path))
  {
    hide At, Answers, Inv, Act, Current, Answered;
    var w, later, step := At(intent, digest, steps, c).value, At(intent, digest, steps, c + 1).value, steps[c];
    var answer := RecordOf(later.executors[f].created, path);
    assert Fenced(w) by {
      InvFences(w);
    }
    if IsAct(step) && step.fence == f {
      OwnStep(intent, w, step, f, path);
      if Answers(intent, w, step, path, answer) {
        NewlyAnswered(intent, digest, steps, c, f, path, answer);
        return;
      }
    } else {
      OtherStep(intent, digest, w, step, f, path);
    }
    assert Told(w, f, path) && RecordOf(w.executors[f].created, path) == answer;
    var j :| Answered(intent, digest, steps, j, c, f, path, answer);
    StillAnswered(intent, digest, steps, j, c, f, path, answer);
  }

  lemma InvFences(w: World)
    ensures Inv(w) ==> Fenced(w)
  {}

  lemma OnlyWritesClear(intent: Intent, digest: Digest, w: World, step: Step)
    ensures Do(intent, digest, w, step).Some? && !step.WriteRest? ==>
              ProgressPhase(Do(intent, digest, w, step).value.store) == ProgressPhase(w.store)
  {
    hide Resume, Live, MayCreate, Acknowledged;
  }

  lemma WriteClears(intent: Intent, w: World, fence: nat, path: Path)
    requires Inv(w) && fence in w.executors && Act(intent, w, WriteRest(fence), fence, w.executors[fence]).Some?
    requires IsOutstanding(w, path) && !IsOutstanding(Act(intent, w, WriteRest(fence), fence, w.executors[fence]).value, path)
    ensures Told(w, fence, path)
    ensures var later := ProgressPhase(Act(intent, w, WriteRest(fence), fence, w.executors[fence]).value.store);
            later.Some? && RecordOf(later.value, path) == RecordOf(w.executors[fence].created, path)
  {
    assert Covered(w.store.progress, path) && UpToDate(w, fence, w.executors[fence]);
    hide Inv, Keeps;
  }

  // A create stops being outstanding only when the executor that still holds
  // the lease writes an identity it was told.
  lemma ClearedByWrite(intent: Intent, digest: Digest, w: World, step: Step, path: Path)
    requires Inv(w) && Do(intent, digest, w, step).Some?
    requires IsOutstanding(w, path) && !IsOutstanding(Do(intent, digest, w, step).value, path)
    ensures step.WriteRest? && Told(w, step.fence, path)
    ensures var later := ProgressPhase(Do(intent, digest, w, step).value.store);
            later.Some? && RecordOf(later.value, path) == RecordOf(w.executors[step.fence].created, path)
  {
    hide Act, Inv, Told, RecordOf;
    if !step.WriteRest? {
      OnlyWritesClear(intent, digest, w, step);
    } else {
      WriteClears(intent, w, step.fence, path);
    }
  }

  lemma {:induction false} FirstCleared(intent: Intent, digest: Digest, steps: seq<Step>, a: nat, b: nat, path: Path) returns (c: nat)
    requires a <= b <= |steps| && At(intent, digest, steps, b).Some?
    requires At(intent, digest, steps, a).Some? && IsOutstanding(At(intent, digest, steps, a).value, path)
    requires !IsOutstanding(At(intent, digest, steps, b).value, path)
    ensures a <= c < b && At(intent, digest, steps, c).Some? && IsOutstanding(At(intent, digest, steps, c).value, path)
    ensures At(intent, digest, steps, c + 1).Some? && !IsOutstanding(At(intent, digest, steps, c + 1).value, path)
    decreases b - a
  {
    hide At, IsOutstanding;
    EarlierMoment(intent, digest, steps, a + 1, b);
    if !IsOutstanding(At(intent, digest, steps, a + 1).value, path) {
      c := a;
    } else {
      c := FirstCleared(intent, digest, steps, a + 1, b, path);
    }
  }

  // Whatever happens between two moments is steady.
  lemma SteadyBetween(intent: Intent, digest: Digest, steps: seq<Step>)
    requires Run(intent, digest, START, steps).Some?
    ensures forall a: nat, b: nat :: a <= b <= |steps| ==>
                                       && At(intent, digest, steps, a).Some? && At(intent, digest, steps, b).Some?
                                       && Steady(At(intent, digest, steps, a).value, At(intent, digest, steps, b).value)
  {
    MomentsKeep(intent, digest, steps);
    assert steps[..|steps|] == steps;
    hide Run, Inv, Steady;
    forall a: nat, b: nat | a <= b <= |steps|
      ensures At(intent, digest, steps, a).Some? && At(intent, digest, steps, b).Some?
      ensures Steady(At(intent, digest, steps, a).value, At(intent, digest, steps, b).value)
    {
      EarlierMoment(intent, digest, steps, b, |steps|);
      EarlierMoment(intent, digest, steps, a, b);
      RunSplits(intent, digest, START, steps[..a], steps[a..b]);
      assert steps[..a] + steps[a..b] == steps[..b];
      RunKeeps(intent, digest, At(intent, digest, steps, a).value, steps[a..b]);
    }
  }

  lemma {:induction false} RunSplits(intent: Intent, digest: Digest, w: World, front: seq<Step>, back: seq<Step>)
    requires Run(intent, digest, w, front).Some?
    ensures Run(intent, digest, w, front + back) == Run(intent, digest, Run(intent, digest, w, front).value, back)
    decreases |front|
  {
    hide Do;
    if front == [] {
      assert front + back == back;
    } else {
      assert (front + back)[1..] == front[1..] + back;
      RunSplits(intent, digest, Do(intent, digest, w, front[0]).value, front[1..], back);
    }
  }

  // What two moments of a run have to do with each other: whatever was on
  // record still is, and a create outstanding at the first and not at the
  // second was cleared in between by the write of an executor that had been
  // answered while it was outstanding, and is on record as answered.
  ghost predicate KeptBetween(intent: Intent, digest: Digest, steps: seq<Step>, a: nat, b: nat, path: Path) {
    && b <= |steps| && At(intent, digest, steps, a).Some? && At(intent, digest, steps, b).Some?
    && var early, later := At(intent, digest, steps, a).value, At(intent, digest, steps, b).value;
       ProgressPhase(early.store).Some? ==>
         && ProgressPhase(later.store).Some? && Keeps(ProgressPhase(early.store).value, ProgressPhase(later.store).value)
         && (IsOutstanding(early, path) && !IsOutstanding(later, path) ==>
               var answer := RecordOf(ProgressPhase(later.store).value, path);
               && Recorded(ProgressPhase(later.store).value, path)
               && exists j, c :: a <= c < b && steps[c].WriteRest? && Answered(intent, digest, steps, j, c, steps[c].fence, path, answer))
  }

  // Between any two moments of any run no recorded identity changes, and a
  // create is cleared only by an answer to it: the provider's acknowledgement,
  // the mount read back, or the only match a new executor finds.
  lemma RecordsAreKept(intent: Intent, digest: Digest, steps: seq<Step>)
    requires Run(intent, digest, START, steps).Some?
    ensures forall a: nat, b: nat, path :: a <= b <= |steps| ==> KeptBetween(intent, digest, steps, a, b, path)
  {
    hide Run, At, Answered, Do, Inv, Told;
    SteadyBetween(intent, digest, steps);
    MomentsKeep(intent, digest, steps);
    forall a: nat, b: nat, path | a <= b <= |steps|
      ensures KeptBetween(intent, digest, steps, a, b, path)
    {
      var early, later := At(intent, digest, steps, a).value, At(intent, digest, steps, b).value;
      if IsOutstanding(early, path) && !IsOutstanding(later, path) {
        var c := FirstCleared(intent, digest, steps, a, b, path);
        var w := At(intent, digest, steps, c).value;
        NextMoment(intent, digest, steps, c);
        ClearedByWrite(intent, digest, w, steps[c], path);
        AlwaysJustified(intent, digest, steps, c);
        ToldIsRecorded(w, steps[c].fence, path);
        var j :| Answered(intent, digest, steps, j, c, steps[c].fence, path, RecordOf(w.executors[steps[c].fence].created, path));
        RecordsStay(ProgressPhase(At(intent, digest, steps, c + 1).value.store).value, ProgressPhase(later.store).value, path);
      }
    }
  }

  lemma RecordsStay(early: Phase, later: Phase, path: Path)
    ensures Keeps(early, later) && RecordOf(early, path) != "" ==>
              RecordOf(later, path) == RecordOf(early, path) && Recorded(later, path)
  {}

  lemma ToldIsRecorded(w: World, f: nat, path: Path)
    ensures Told(w, f, path) ==> f in w.executors && RecordOf(w.executors[f].created, path) != ""
  {}
}
