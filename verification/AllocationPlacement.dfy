// Where a run places its project, environment and application: as requested,
// or where the provider acknowledged a create, or where a look at the provider
// found the only resource that the plan can mean; and that the lane is given
// only an application that was seen to match its configuration.
module AllocationPlacement {
  import opened Options
  import opened AllocationResume
  import opened AllocationStore
  import opened AllocationRuns
  import opened AllocationSafety
  import opened AllocationProvenance

  // A requested environment is the recorded one, and so is a requested project
  // when no environment was requested with it.
  predicate AsRequested(intent: Intent, project: string, environment: string) {
    && (intent.environmentId != "" ==> environment == intent.environmentId)
    && (intent.environmentId == "" && intent.projectId != "" ==> project == intent.projectId)
  }

  // The project is the only one listed that holds the requested environment,
  // or has the requested identity, or bears the reserved name.
  predicate IsOnlyProject(intent: Intent, projects: seq<Project>, p: Project) {
    p in projects &&
    if intent.environmentId != "" then
      && (exists e :: e in p.environments && e.id == intent.environmentId)
      && (forall q, e :: q in projects && e in q.environments && e.id == intent.environmentId ==> q == p)
    else if intent.projectId != "" then
      p.id == intent.projectId && forall q :: q in projects && q.id == intent.projectId ==> q == p
    else
      p.name == intent.projectMarker && forall q :: q in projects && q.name == intent.projectMarker ==> q == p
  }

  // The environment is the only one of its project that has the requested
  // identity, or bears the reserved name.
  predicate IsOnlyEnvironment(intent: Intent, p: Project, e: Environment) {
    e in p.environments &&
    if intent.environmentId != "" then
      e.id == intent.environmentId && forall o :: o in p.environments && o.id == intent.environmentId ==> o == e
    else
      e.name == intent.environmentMarker && forall o :: o in p.environments && o.name == intent.environmentMarker ==> o == e
  }

  // The target is the only application of its environment that bears the
  // reserved name.
  predicate IsOnlyTarget(intent: Intent, e: Environment, t: Target) {
    && t in e.targets && t.isApplication && t.name == intent.targetMarker
    && forall o :: o in e.targets && o.isApplication && o.name == intent.targetMarker ==> o == t
  }

  ghost predicate FindsProject(intent: Intent, sight: Sight, project: string) {
    sight.inventory.Some? && exists p :: IsOnlyProject(intent, sight.inventory.value.projects, p) && p.id == project
  }

  ghost predicate FindsEnvironment(intent: Intent, sight: Sight, project: string, environment: string) {
    sight.inventory.Some? && exists p, e :: IsOnlyProject(intent, sight.inventory.value.projects, p) && p.id == project
                                         && IsOnlyEnvironment(intent, p, e) && e.id == environment
  }

  ghost predicate FindsApplication(intent: Intent, sight: Sight, environment: string, application: string) {
    sight.inventory.Some? && exists p, e, t :: IsOnlyProject(intent, sight.inventory.value.projects, p) && IsOnlyEnvironment(intent, p, e)
                                            && e.id == environment && IsOnlyTarget(intent, e, t) && t.id == application
  }

  // The application itself was read, and its configuration is the planned one.
  predicate SeesMatch(intent: Intent, sight: Sight, application: string) {
    && sight.live.Some? && sight.live.value.id == application && sight.live.value.matches && !sight.aliased
    && (intent.serverId == "" || sight.live.value.server == intent.serverId)
  }

  // The step acknowledges the create of the project, or finds the project.
  ghost predicate NamesProject(intent: Intent, w: World, step: Step, project: string) {
    && IsAct(step) && step.fence in w.executors
    && match step
       case Acknowledge(f, id, _, _) => w.executors[f].pc == Waiting(ProjectCreate) && id == project
       case Read(_, sight) => FindsProject(intent, sight, project)
       case _ => false
  }

  // The step acknowledges a create in this project, or finds the environment
  // in this project.
  ghost predicate NamesEnvironment(intent: Intent, w: World, step: Step, project: string, environment: string) {
    && IsAct(step) && step.fence in w.executors
    && match step
       case Acknowledge(f, id, _, _) => w.executors[f].pc == Waiting(EnvironmentCreate) && w.executors[f].created.project == project && id == environment
       case Read(_, sight) => FindsEnvironment(intent, sight, project, environment)
       case _ => false
  }

  // The step acknowledges a create in this environment, or finds the
  // application in this environment.
  ghost predicate NamesApplication(intent: Intent, w: World, step: Step, environment: string, application: string) {
    && IsAct(step) && step.fence in w.executors
    && match step
       case Acknowledge(f, id, _, _) =>
         w.executors[f].pc == Waiting(ApplicationCreate) && w.executors[f].created.environment == environment && id == application
       case Read(_, sight) => FindsApplication(intent, sight, environment, application)
       case _ => false
  }

  ghost predicate SawMatch(intent: Intent, steps: seq<Step>, j: nat, application: string) {
    j < |steps| && (steps[j].Read? || steps[j].Verify?) && SeesMatch(intent, steps[j].sight, application)
  }

  ghost predicate NamedApplication(intent: Intent, digest: Digest, steps: seq<Step>, j: nat, environment: string, application: string) {
    j < |steps| && At(intent, digest, steps, j).Some? && NamesApplication(intent, At(intent, digest, steps, j).value, steps[j], environment, application)
  }

  ghost predicate NamedProject(intent: Intent, digest: Digest, steps: seq<Step>, j: nat, project: string) {
    j < |steps| && At(intent, digest, steps, j).Some? && NamesProject(intent, At(intent, digest, steps, j).value, steps[j], project)
  }

  ghost predicate NamedEnvironment(intent: Intent, digest: Digest, steps: seq<Step>, j: nat, project: string, environment: string) {
    j < |steps| && At(intent, digest, steps, j).Some? && NamesEnvironment(intent, At(intent, digest, steps, j).value, steps[j], project, environment)
  }

  // The project is the requested one, or some earlier step named it.
  ghost predicate ProjectIsKnown(intent: Intent, digest: Digest, steps: seq<Step>, c: nat, project: string) {
    project != "" && ((intent.environmentId == "" && project == intent.projectId) || exists j: nat :: j < c && NamedProject(intent, digest, steps, j, project))
  }

  // The environment is the requested one, or some earlier step named it in a
  // project that is requested or named.
  ghost predicate EnvironmentIsKnown(intent: Intent, digest: Digest, steps: seq<Step>, c: nat, project: string, environment: string) {
    environment != "" &&
    if intent.environmentId != "" then environment == intent.environmentId
    else ProjectIsKnown(intent, digest, steps, c, project) && exists j: nat :: j < c && NamedEnvironment(intent, digest, steps, j, project, environment)
  }

  // Some earlier step named the application in the environment on record.
  ghost predicate ApplicationIsKnown(intent: Intent, digest: Digest, steps: seq<Step>, c: nat, environment: string, application: string) {
    environment != "" && exists j: nat :: j < c && NamedApplication(intent, digest, steps, j, environment, application)
  }

  ghost predicate WasMatched(intent: Intent, steps: seq<Step>, c: nat, application: string) {
    application != "" && exists j: nat :: j < c && SawMatch(intent, steps, j, application)
  }

  // A phase that may stand on record at moment `c`.
  ghost predicate IsPlace(intent: Intent, digest: Digest, steps: seq<Step>, c: nat, phase: Phase) {
    && AsRequested(intent, phase.project, phase.environment)
    && (phase.project != "" ==> ProjectIsKnown(intent, digest, steps, c, phase.project))
    && (phase.environment != "" ==> EnvironmentIsKnown(intent, digest, steps, c, phase.project, phase.environment))
    && (phase.application != "" ==> ApplicationIsKnown(intent, digest, steps, c, phase.environment, phase.application))
    && (phase.verified ==> WasMatched(intent, steps, c, phase.application))
  }

  // What an executor is creating, it creates somewhere.
  predicate HasSomewhere(intent: Intent, e: Executor) {
    && (Sending(e.pc, ProjectCreate) ==> intent.environmentId == "" && intent.projectId == "")
    && (Sending(e.pc, EnvironmentCreate) ==> intent.environmentId == "" && e.created.project != "")
    && (Sending(e.pc, ApplicationCreate) ==> e.created.environment != "")
  }

  ghost predicate WellPlaced(intent: Intent, digest: Digest, steps: seq<Step>, c: nat, w: World) {
    && (forall key :: key in w.store.rows && w.store.rows[key].phase.Some? ==>
          IsPlace(intent, digest, steps, c, w.store.rows[key].phase.value))
    && (ProgressPhase(w.store).Some? ==>
          IsPlace(intent, digest, steps, c, ProgressPhase(w.store).value))
    && (forall f :: f in w.executors && HasRead(w.executors[f].pc) ==>
          && HasSomewhere(intent, w.executors[f])
          && IsPlace(intent, digest, steps, c, w.executors[f].created))
  }

  // ----- what one look finds -----

  lemma IsOnlyPlanned(intent: Intent, projects: seq<Project>, p: Project)
    ensures OnlyOne(projects, q => IsPlanned(intent, q), p) ==> IsOnlyProject(intent, projects, p)
  {
    if OnlyOne(projects, q => IsPlanned(intent, q), p) {
      assert IsPlanned(intent, p);
      assert forall q :: q in projects && IsPlanned(intent, q) ==> q == p;
      if intent.environmentId != "" {
        forall q, e | q in projects && e in q.environments && e.id == intent.environmentId
          ensures q == p
        {
          assert IsPlanned(intent, q);
        }
      }
    }
  }

  lemma OnlyPlanned(intent: Intent, sight: Sight, p: Project)
    ensures sight.inventory.Some? && OnlyOne(sight.inventory.value.projects, q => IsPlanned(intent, q), p) ==> FindsProject(intent, sight, p.id)
  {
    if sight.inventory.Some? && OnlyOne(sight.inventory.value.projects, q => IsPlanned(intent, q), p) {
      IsOnlyPlanned(intent, sight.inventory.value.projects, p);
    }
  }

  lemma OnlyPlannedEnvironment(intent: Intent, sight: Sight, p: Project, e: Environment)
    requires sight.inventory.Some?
    requires OnlyOne(sight.inventory.value.projects, q => IsPlanned(intent, q), p) && OnlyOne(p.environments, o => IsPlannedEnvironment(intent, o), e)
    ensures FindsEnvironment(intent, sight, p.id, e.id)
    ensures IsOnlyProject(intent, sight.inventory.value.projects, p) && IsOnlyEnvironment(intent, p, e)
  {
    IsOnlyPlanned(intent, sight.inventory.value.projects, p);
    assert IsPlannedEnvironment(intent, e);
    assert forall o :: o in p.environments && IsPlannedEnvironment(intent, o) ==> o == e;
  }

  lemma OnlyPlannedTarget(intent: Intent, sight: Sight, p: Project, e: Environment, t: Target)
    requires sight.inventory.Some?
    requires OnlyOne(sight.inventory.value.projects, q => IsPlanned(intent, q), p) && OnlyOne(p.environments, o => IsPlannedEnvironment(intent, o), e)
    requires OnlyOne(e.targets, o => IsPlannedTarget(intent, o), t)
    ensures FindsApplication(intent, sight, e.id, t.id)
  {
    OnlyPlannedEnvironment(intent, sight, p, e);
    assert IsPlannedTarget(intent, t);
    assert forall o :: o in e.targets && IsPlannedTarget(intent, o) ==> o == t;
    assert IsOnlyTarget(intent, e, t);
  }

  // Resuming records only what was requested or what the look found, and
  // verifies nothing that the look did not find matching.
  ghost predicate IsFound(intent: Intent, sight: Sight, after: Phase) {
    && FindsProject(intent, sight, after.project)
    && (after.environment != "" ==> FindsEnvironment(intent, sight, after.project, after.environment))
    && (after.environment != "" && after.application != "" ==> FindsApplication(intent, sight, after.environment, after.application))
    && (after.environment != "" && after.application != "" && after.verified ==> SeesMatch(intent, sight, after.application))
  }

  lemma ConfirmedIsFound(intent: Intent, sight: Sight, after: Phase)
    ensures Confirms(intent, sight, after) ==> IsFound(intent, sight, after)
  {
    hide IsPlanned, IsPlannedEnvironment, IsPlannedTarget, FindsProject, FindsEnvironment, FindsApplication, OnlyOne, OwnsName;
    if Confirms(intent, sight, after) {
      var p :| && OnlyOne(sight.inventory.value.projects, p => IsPlanned(intent, p), p) && after.project == p.id
               && (after.environment != "" ==>
                     exists e :: && OnlyOne(p.environments, e => IsPlannedEnvironment(intent, e), e) && after.environment == e.id
                                 && IsSeenIn(intent, sight, after, e));
      OnlyPlanned(intent, sight, p);
      if after.environment != "" {
        var e :| && OnlyOne(p.environments, e => IsPlannedEnvironment(intent, e), e) && after.environment == e.id
                 && IsSeenIn(intent, sight, after, e);
        OnlyPlannedEnvironment(intent, sight, p, e);
        if after.application != "" {
          var t :| OnlyOne(e.targets, t => IsPlannedTarget(intent, t), t) && after.application == t.id;
          OnlyPlannedTarget(intent, sight, p, e, t);
        }
      }
    }
  }

  // ----- what one step records -----

  lemma PlaceLasts(intent: Intent, digest: Digest, steps: seq<Step>, c: nat, d: nat)
    requires c <= d
    ensures forall phase :: IsPlace(intent, digest, steps, c, phase) ==> IsPlace(intent, digest, steps, d, phase)
  {
    hide NamedProject, NamedEnvironment, NamedApplication, SawMatch, AsRequested;
  }

  // Where a phase stands does not depend on what it still owes.
  lemma OwingIsPlace(intent: Intent, digest: Digest, steps: seq<Step>, c: nat)
    ensures forall phase, next :: IsPlace(intent, digest, steps, c, phase) ==> IsPlace(intent, digest, steps, c, Outgoing(phase, next))
  {
    hide ProjectIsKnown, EnvironmentIsKnown, ApplicationIsKnown, WasMatched, AsRequested;
  }

  lemma StartIsPlace(intent: Intent, digest: Digest, steps: seq<Step>)
    ensures forall c :: IsPlace(intent, digest, steps, c, Initial(intent))
  {
    hide NamedProject, NamedEnvironment;
  }

  lemma ResumeIsPlace(intent: Intent, digest: Digest, steps: seq<Step>, c: nat, sight: Sight, phase: Option<Phase>)
    requires c < |steps| && steps[c].Read? && steps[c].sight == sight
    requires At(intent, digest, steps, c).Some? && steps[c].fence in At(intent, digest, steps, c).value.executors
    requires phase.Some? ==> IsPlace(intent, digest, steps, c, phase.value)
    requires Resume(intent, phase, sight).Some?
    ensures forall d :: c < d ==> IsPlace(intent, digest, steps, d, Resume(intent, phase, sight).value)
  {
    hide At, IsPlace, ResumeEnvironment, Initial, Confirms, FindsProject, FindsEnvironment, FindsApplication, SeesMatch;
    var after := Resume(intent, phase, sight).value;
    if phase.None? || phase.value == NOTHING {
      StartIsPlace(intent, digest, steps);
    } else {
      hide Resume;
      ResumeConfirms(intent, phase.value, sight);
      ResumeKeeps(intent, phase, sight);
      ResumeStays(intent, phase.value, sight);
      ConfirmedIsFound(intent, sight, after);
      VerifiedIsApplication(intent, digest, steps, c, phase.value, sight);
      FoundIsPlace(intent, digest, steps, c, sight, phase.value, after);
    }
  }

  // Without an environment on record, nothing is found in one.
  lemma ResumeStays(intent: Intent, phase: Phase, sight: Sight)
    requires phase != NOTHING && Resume(intent, Some(phase), sight).Some?
    ensures var after := Resume(intent, Some(phase), sight).value;
            after.environment == "" ==> after.application == phase.application && after.verified == phase.verified
  {
    hide Matching, IsPlanned, IsPlannedEnvironment, IsPlannedTarget, OwnsName, Live;
  }

  lemma VerifiedIsApplication(intent: Intent, digest: Digest, steps: seq<Step>, c: nat, phase: Phase, sight: Sight)
    requires IsPlace(intent, digest, steps, c, phase) && phase != NOTHING && Resume(intent, Some(phase), sight).Some?
    ensures Resume(intent, Some(phase), sight).value.verified ==> Resume(intent, Some(phase), sight).value.application != ""
  {
    hide Matching, IsPlanned, IsPlannedEnvironment, IsPlannedTarget, OwnsName, Live, ProjectIsKnown, EnvironmentIsKnown, ApplicationIsKnown, SawMatch;
  }

  lemma FoundIsPlace(intent: Intent, digest: Digest, steps: seq<Step>, c: nat, sight: Sight, before: Phase, after: Phase)
    requires c < |steps| && steps[c].Read? && steps[c].sight == sight
    requires At(intent, digest, steps, c).Some? && steps[c].fence in At(intent, digest, steps, c).value.executors
    requires IsPlace(intent, digest, steps, c, before) && IsFound(intent, sight, after) && Keeps(before, after)
    requires after.environment == "" ==> after.application == before.application && after.verified == before.verified
    requires after.verified ==> after.application != ""
    ensures forall d :: c < d ==> IsPlace(intent, digest, steps, d, after)
  {
    assert after.project != "";
    hide At, FindsProject, FindsEnvironment, FindsApplication, SeesMatch;
    assert NamedProject(intent, digest, steps, c, after.project);
    if after.environment != "" {
      assert NamedEnvironment(intent, digest, steps, c, after.project, after.environment);
      if after.application != "" {
        assert NamedApplication(intent, digest, steps, c, after.environment, after.application);
        assert after.verified ==> SawMatch(intent, steps, c, after.application);
      }
    }
  }

  lemma AnswerNames(intent: Intent, digest: Digest, steps: seq<Step>, c: nat, e: Executor)
    requires c < |steps| && steps[c].Acknowledge? && At(intent, digest, steps, c).Some?
    requires var w := At(intent, digest, steps, c).value; steps[c].fence in w.executors && w.executors[steps[c].fence] == e
    ensures e.pc == Waiting(ProjectCreate) ==> NamedProject(intent, digest, steps, c, steps[c].id)
    ensures e.pc == Waiting(EnvironmentCreate) ==> NamedEnvironment(intent, digest, steps, c, e.created.project, steps[c].id)
    ensures e.pc == Waiting(ApplicationCreate) ==> NamedApplication(intent, digest, steps, c, e.created.environment, steps[c].id)
  {
    hide At;
  }

  lemma AnswerIsPlace(intent: Intent, digest: Digest, steps: seq<Step>, c: nat, e: Executor)
    requires c < |steps| && steps[c].Acknowledge? && At(intent, digest, steps, c).Some?
    requires var w := At(intent, digest, steps, c).value; steps[c].fence in w.executors && w.executors[steps[c].fence] == e
    requires e.pc.Waiting? && ExecutorOk(e) && HasSomewhere(intent, e)
    requires IsPlace(intent, digest, steps, c, e.created)
    ensures forall d :: c < d ==>
              IsPlace(intent, digest, steps, d, Acknowledged(e.created, e.pc.path, steps[c].id, steps[c].defaultEnvironment, steps[c].appName))
  {
    hide At, NamesProject, NamesEnvironment, NamesApplication;
    AnswerNames(intent, digest, steps, c, e);
    assert Sending(e.pc, e.pc.path) && !Recorded(e.created, e.pc.path);
  }

  lemma VerifyIsPlace(intent: Intent, digest: Digest, steps: seq<Step>, c: nat, e: Executor)
    requires c < |steps| && steps[c].Verify? && IsPlace(intent, digest, steps, c, e.created) && e.created.application != ""
    requires var live := Live(intent, steps[c].sight, e.created.application, e.created.environment, e.created.appName);
             live.Some? && live.value.matches
    ensures forall d :: c < d ==> IsPlace(intent, digest, steps, d, e.created.(verified := true))
  {
    hide At, OwnsName;
    assert SawMatch(intent, steps, c, e.created.application);
    forall d: nat | c < d
      ensures IsPlace(intent, digest, steps, d, e.created.(verified := true))
    {
      PlaceLasts(intent, digest, steps, c, d);
      hide ProjectIsKnown, EnvironmentIsKnown, ApplicationIsKnown, AsRequested;
      assert IsPlace(intent, digest, steps, d, e.created);
    }
  }

  // Replacing one executor by one that is in place.
  lemma MoveIsPlaced(intent: Intent, digest: Digest, steps: seq<Step>, c: nat, w: World, fence: nat, e: Executor)
    requires WellPlaced(intent, digest, steps, c, w)
    requires HasRead(e.pc) ==> HasSomewhere(intent, e) && IsPlace(intent, digest, steps, c + 1, e.created)
    ensures WellPlaced(intent, digest, steps, c + 1, Move(w, fence, e))
  {
    hide IsPlace, HasSomewhere;
    PlaceLasts(intent, digest, steps, c, c + 1);
  }

  lemma BeginIsPlaced(intent: Intent, digest: Digest, steps: seq<Step>, c: nat, w: World, step: Step, fence: nat)
    requires WellPlaced(intent, digest, steps, c, w) && step.Begin? && fence in w.executors
    requires Act(intent, w, step, fence, w.executors[fence]).Some?
    ensures WellPlaced(intent, digest, steps, c + 1, Act(intent, w, step, fence, w.executors[fence]).value)
  {
    hide IsPlace, Live;
    PlaceLasts(intent, digest, steps, c, c + 1);
    MoveIsPlaced(intent, digest, steps, c, w, fence, Act(intent, w, step, fence, w.executors[fence]).value.executors[fence]);
  }

  lemma CheckpointIsPlaced(intent: Intent, digest: Digest, steps: seq<Step>, c: nat, w: World, step: Step, fence: nat)
    requires WellPlaced(intent, digest, steps, c, w) && (step.WriteRow? || step.WriteRest?) && fence in w.executors
    requires Act(intent, w, step, fence, w.executors[fence]).Some?
    ensures WellPlaced(intent, digest, steps, c + 1, Act(intent, w, step, fence, w.executors[fence]).value)
  {
    hide IsPlace, Live, Recorded, Outgoing;
    PlaceLasts(intent, digest, steps, c, c + 1);
    OwingIsPlace(intent, digest, steps, c + 1);
  }

  lemma OtherIsPlaced(intent: Intent, digest: Digest, steps: seq<Step>, c: nat, w: World, step: Step, fence: nat)
    requires WellPlaced(intent, digest, steps, c, w) && IsAct(step) && fence in w.executors && !w.executors[fence].pc.Stopped?
    requires !step.Read? && !step.Acknowledge? && !step.Begin? && !step.WriteRow? && !step.WriteRest? && !step.Verify?
    requires Act(intent, w, step, fence, w.executors[fence]).Some?
    ensures WellPlaced(intent, digest, steps, c + 1, Act(intent, w, step, fence, w.executors[fence]).value)
  {
    hide IsPlace, Live, Recorded;
    PlaceLasts(intent, digest, steps, c, c + 1);
  }

  lemma ActIsPlaced(intent: Intent, digest: Digest, steps: seq<Step>, c: nat, w: World)
    requires c < |steps| && At(intent, digest, steps, c) == Some(w) && Inv(w) && WellPlaced(intent, digest, steps, c, w)
    requires IsAct(steps[c]) && steps[c].fence in w.executors && !w.executors[steps[c].fence].pc.Stopped?
    requires Act(intent, w, steps[c], steps[c].fence, w.executors[steps[c].fence]).Some?
    ensures WellPlaced(intent, digest, steps, c + 1, Act(intent, w, steps[c], steps[c].fence, w.executors[steps[c].fence]).value)
  {
    var step, fence := steps[c], steps[c].fence;
    var e := w.executors[fence];
    if step.Read? {
      hide At, IsPlace, Resume;
      var phase := EffectivePhase(w.store, if e.key in w.store.rows then w.store.rows[e.key].phase else None);
      ResumeIsPlace(intent, digest, steps, c, step.sight, phase);
      hide WellPlaced;
      MoveIsPlaced(intent, digest, steps, c, w, fence, Act(intent, w, step, fence, e).value.executors[fence]);
    } else if step.Acknowledge? {
      hide At, IsPlace;
      assert ExecutorOk(e);
      AnswerIsPlace(intent, digest, steps, c, e);
      hide WellPlaced;
      MoveIsPlaced(intent, digest, steps, c, w, fence, Act(intent, w, step, fence, e).value.executors[fence]);
    } else if step.Verify? {
      hide At, IsPlace, Live;
      VerifyIsPlace(intent, digest, steps, c, e);
      hide WellPlaced;
      MoveIsPlaced(intent, digest, steps, c, w, fence, Act(intent, w, step, fence, e).value.executors[fence]);
    } else {
      hide Act, At, WellPlaced, Inv;
      if step.Begin? {
        BeginIsPlaced(intent, digest, steps, c, w, step, fence);
      } else if step.WriteRow? || step.WriteRest? {
        CheckpointIsPlaced(intent, digest, steps, c, w, step, fence);
      } else {
        OtherIsPlaced(intent, digest, steps, c, w, step, fence);
      }
    }
  }

  lemma OutsideIsPlaced(intent: Intent, digest: Digest, steps: seq<Step>, c: nat, w: World, step: Step)
    requires WellPlaced(intent, digest, steps, c, w) && !IsAct(step) && Do(intent, digest, w, step).Some?
    ensures WellPlaced(intent, digest, steps, c + 1, Do(intent, digest, w, step).value)
  {
    hide IsPlace, HasSomewhere, Act;
    PlaceLasts(intent, digest, steps, c, c + 1);
    if step.RetainNow? {
      RetainIsPlaced(intent, digest, steps, c + 1, w, step);
    }
  }

  lemma RetainIsPlaced(intent: Intent, digest: Digest, steps: seq<Step>, d: nat, w: World, step: Step)
    requires WellPlaced(intent, digest, steps, d, w) && step.RetainNow? && Do(intent, digest, w, step).Some?
    ensures WellPlaced(intent, digest, steps, d, Do(intent, digest, w, step).value)
  {
    hide IsPlace, HasSomewhere, MayRetain;
  }

  lemma StepIsPlaced(intent: Intent, digest: Digest, steps: seq<Step>, c: nat, w: World)
    requires c < |steps| && At(intent, digest, steps, c) == Some(w) && Inv(w) && WellPlaced(intent, digest, steps, c, w)
    requires Do(intent, digest, w, steps[c]).Some?
    ensures WellPlaced(intent, digest, steps, c + 1, Do(intent, digest, w, steps[c]).value)
  {
    hide At, IsPlace, Act, Inv, WellPlaced;
    if IsAct(steps[c]) {
      ActIsPlaced(intent, digest, steps, c, w);
    } else {
      OutsideIsPlaced(intent, digest, steps, c, w, steps[c]);
    }
  }

  lemma FirstIsPlaced(intent: Intent, digest: Digest, steps: seq<Step>)
    ensures forall w :: At(intent, digest, steps, 0) == Some(w) ==> WellPlaced(intent, digest, steps, 0, w)
  {
    hide Do, IsPlace, HasSomewhere;
    assert steps[..0] == [];
  }

  lemma {:induction false} AlwaysPlaced(intent: Intent, digest: Digest, steps: seq<Step>, c: nat)
    requires c <= |steps|
    ensures forall w :: At(intent, digest, steps, c) == Some(w) ==> WellPlaced(intent, digest, steps, c, w)
  {
    hide At, Do, Inv, WellPlaced;
    if c == 0 {
      FirstIsPlaced(intent, digest, steps);
    } else if At(intent, digest, steps, c).Some? {
      EarlierMoment(intent, digest, steps, c - 1, c);
      NextMoment(intent, digest, steps, c - 1);
      AlwaysPlaced(intent, digest, steps, c - 1);
      MomentsKeep(intent, digest, steps);
      StepIsPlaced(intent, digest, steps, c - 1, At(intent, digest, steps, c - 1).value);
    }
  }

  // ----- every run -----

  // At the end of every run, every phase on record, and what every executor
  // goes by once it has read, is in the requested environment or project.
  lemma RequestedPlaceIsKept(intent: Intent, digest: Digest, steps: seq<Step>)
    ensures forall w :: Run(intent, digest, START, steps) == Some(w) ==>
              && (forall key :: key in w.store.rows && w.store.rows[key].phase.Some? ==>
                    AsRequested(intent, w.store.rows[key].phase.value.project, w.store.rows[key].phase.value.environment))
              && (ProgressPhase(w.store).Some? ==>
                    AsRequested(intent, ProgressPhase(w.store).value.project, ProgressPhase(w.store).value.environment))
              && (forall f :: f in w.executors && HasRead(w.executors[f].pc) ==>
                    AsRequested(intent, w.executors[f].created.project, w.executors[f].created.environment))
  {
    hide Run;
    assert steps[..|steps|] == steps;
    AlwaysPlaced(intent, digest, steps, |steps|);
  }

  // At the end of every run, an executor creates a project only if neither it
  // nor an environment was requested, an environment only in a project that was
  // requested or named by the provider, and an application only in the
  // environment that was requested, or that the provider named in such a
  // project.
  lemma CreatesAreInPlace(intent: Intent, digest: Digest, steps: seq<Step>)
    ensures forall w, f :: Run(intent, digest, START, steps) == Some(w) && f in w.executors ==>
              var e := w.executors[f];
              && (Sending(e.pc, ProjectCreate) ==> intent.environmentId == "" && intent.projectId == "")
              && (Sending(e.pc, EnvironmentCreate) ==>
                    intent.environmentId == "" && ProjectIsKnown(intent, digest, steps, |steps|, e.created.project))
              && (Sending(e.pc, ApplicationCreate) ==>
                    EnvironmentIsKnown(intent, digest, steps, |steps|, e.created.project, e.created.environment))
  {
    hide Run, ProjectIsKnown, EnvironmentIsKnown;
    assert steps[..|steps|] == steps;
    AlwaysPlaced(intent, digest, steps, |steps|);
  }

  // The phase that a lane is given its application from: that of the executor,
  // or the one on record when a row is finished from what was observed.
  function GivenFrom(w: World, step: Step): Option<Phase> {
    if (step.Adopt? || step.Complete?) && step.fence in w.executors then Some(w.executors[step.fence].created)
    else if step.Finish? && step.key in w.store.rows then EffectivePhase(w.store, w.store.rows[step.key].phase)
    else None
  }

  // The application is named in a known environment, and was seen to match.
  ghost predicate IsGiven(intent: Intent, digest: Digest, steps: seq<Step>, c: nat, phase: Phase) {
    && AsRequested(intent, phase.project, phase.environment)
    && EnvironmentIsKnown(intent, digest, steps, c, phase.project, phase.environment)
    && ApplicationIsKnown(intent, digest, steps, c, phase.environment, phase.application)
    && WasMatched(intent, steps, c, phase.application)
  }

  lemma MatchedIsGiven(intent: Intent, digest: Digest, steps: seq<Step>, c: nat)
    ensures forall phase :: IsPlace(intent, digest, steps, c, phase) && phase.verified ==> IsGiven(intent, digest, steps, c, phase)
  {
    hide NamedEnvironment, NamedApplication, SawMatch, AsRequested;
  }

  // Over every run: the lane is given an application, and an allocation counts
  // as adopted, only for an application that the provider named in a known
  // environment and that a step before had seen to match.
  lemma AdoptedIsMatched(intent: Intent, digest: Digest, steps: seq<Step>, i: nat)
    requires i < |steps| && (steps[i].Adopt? || steps[i].Complete? || steps[i].Finish?) && At(intent, digest, steps, i + 1).Some?
    ensures exists w, phase :: At(intent, digest, steps, i) == Some(w) && GivenFrom(w, steps[i]) == Some(phase)
              && IsGiven(intent, digest, steps, i, phase)
              && (if steps[i].Finish? then steps[i].target else At(intent, digest, steps, i + 1).value.store.target) == Some(phase.application)
  {
    EarlierMoment(intent, digest, steps, i, i + 1);
    NextMoment(intent, digest, steps, i);
    AlwaysPlaced(intent, digest, steps, i);
    MatchedIsGiven(intent, digest, steps, i);
    hide At, IsPlace, IsGiven;
    var w := At(intent, digest, steps, i).value;
    var phase := GivenFrom(w, steps[i]).value;
    assert IsPlace(intent, digest, steps, i, phase) && phase.verified;
    assert GivenFrom(w, steps[i]) == Some(phase) && IsGiven(intent, digest, steps, i, phase);
  }
}
