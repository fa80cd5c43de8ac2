// What an allocation durably records, and how an interrupted one is resumed.
//
// A phase is the decoded JSON checkpoint; an empty string stands for a key that
// is absent.  `Resume` answers from one look at the provider, and refuses
// (`None`) wherever the program raises.
module AllocationResume {
  import opened Options

  datatype Path = ProjectCreate | EnvironmentCreate | ApplicationCreate | MountCreate | OtherPath(name: string)

  datatype Phase = Phase(project: string, environment: string, application: string, appName: string,
                         defaultEnvironment: string, verified: bool, pending: Option<Path>)

  const NOTHING := Phase("", "", "", "", "", false, None)

  // The reviewed request together with the names reserved for its plan.
  datatype Intent = Intent(projectId: string, environmentId: string, serverId: string, volume: bool,
                           projectMarker: string, environmentMarker: string, targetMarker: string, appName: string)

  // The provider never lists a resource without an identity.
  type Identity = s: string | s != "" witness "id"

  datatype Target = Target(id: Identity, name: string, isApplication: bool)
  datatype Environment = Environment(id: Identity, name: string, targets: seq<Target>)
  datatype Project = Project(id: Identity, name: string, environments: seq<Environment>)
  datatype Inventory = Inventory(projects: seq<Project>, complete: bool)

  // One application as the provider describes it.  `matches` is the outcome of
  // the configuration comparison on this payload.
  datatype Application = Application(id: string, environment: string, appName: string, server: string, matches: bool)

  // Everything one resume attempt is told: `raw` and `live` are two reads of
  // the application, which may differ.
  datatype Sight = Sight(hostBound: bool, inventory: Option<Inventory>, raw: Option<Application>,
                         live: Option<Application>, aliased: bool)

  predicate IsSuffixChar(c: char) { 'a' <= c <= 'z' || '0' <= c <= '9' }

  // The provider may append "-" and six generated characters.
  predicate OwnsName(intent: Intent, name: string) {
    name == intent.appName ||
    (|name| == |intent.appName| + 7 && intent.appName + "-" <= name
     && forall i :: |intent.appName| + 1 <= i < |name| ==> IsSuffixChar(name[i]))
  }

  // `_live`: the payload, when it is the planned application in its planned place.
  function Live(intent: Intent, sight: Sight, application: string, environment: string, appName: string): Option<Application> {
    if OwnsName(intent, appName) && sight.hostBound && !sight.aliased && sight.live.Some?
       && sight.live.value.id == application && sight.live.value.environment == environment
       && sight.live.value.appName == appName
       && (intent.serverId == "" || sight.live.value.server == intent.serverId)
    then sight.live else None
  }

  function Initial(intent: Intent): Phase {
    NOTHING.(project := if intent.environmentId == "" then intent.projectId else "", environment := intent.environmentId)
  }

  predicate HasEnvironment(p: Project, id: string) { exists e :: e in p.environments && e.id == id }

  predicate IsPlanned(intent: Intent, p: Project) {
    if intent.environmentId != "" then HasEnvironment(p, intent.environmentId)
    else if intent.projectId != "" then p.id == intent.projectId
    else p.name == intent.projectMarker
  }

  predicate IsPlannedEnvironment(intent: Intent, e: Environment) {
    if intent.environmentId != "" then e.id == intent.environmentId else e.name == intent.environmentMarker
  }

  predicate IsPlannedTarget(intent: Intent, t: Target) { t.isApplication && t.name == intent.targetMarker }

  function Matching<T(!new)>(items: seq<T>, planned: T -> bool): (found: seq<T>)
    ensures forall t :: t in found <==> t in items && planned(t)
  {
    if items == [] then [] else
      var rest := Matching(items[1..], planned);
      if planned(items[0]) then [items[0]] + rest else rest
  }

  function ClearPending(data: Phase, path: Path): Phase {
    if data.pending == Some(path) then data.(pending := None) else data
  }

  function Resume(intent: Intent, phase: Option<Phase>, sight: Sight): Option<Phase> {
    var data := if phase.Some? then phase.value else NOTHING;
    if data == NOTHING then Some(Initial(intent))
    else if !sight.hostBound || sight.inventory.None? || !sight.inventory.value.complete then None
    else
      var projects := Matching(sight.inventory.value.projects, p => IsPlanned(intent, p));
      if |projects| != 1 || (data.project != "" && data.project != projects[0].id) then None
      else if data.project == "" && intent.environmentId == "" && data.pending != Some(ProjectCreate) then None
      else ResumeEnvironment(intent, ClearPending(data.(project := projects[0].id), ProjectCreate), projects[0], sight)
  }

  function ResumeEnvironment(intent: Intent, data: Phase, project: Project, sight: Sight): Option<Phase> {
    var environments := Matching(project.environments, e => IsPlannedEnvironment(intent, e));
    if data.environment == "" && data.pending == None then Some(data)
    else if |environments| != 1 || (data.environment != "" && data.environment != environments[0].id) then None
    else if data.environment == "" && data.pending != Some(EnvironmentCreate) then None
    else
      var next := ClearPending(data.(environment := environments[0].id), EnvironmentCreate);
      if next.application == "" && next.pending == None then Some(next)
      else ResumeApplication(intent, next, environments[0], sight)
  }

  function ResumeApplication(intent: Intent, data: Phase, environment: Environment, sight: Sight): Option<Phase> {
    var targets := Matching(environment.targets, t => IsPlannedTarget(intent, t));
    if |targets| != 1 || (data.application != "" && data.application != targets[0].id) then None
    else if data.application == "" && data.pending != Some(ApplicationCreate) then None
    else if sight.raw.None? || !OwnsName(intent, sight.raw.value.appName) then None
    else if data.appName != "" && data.appName != sight.raw.value.appName then None
    else
      var next := data.(application := targets[0].id, appName := sight.raw.value.appName);
      var live := Live(intent, sight, next.application, next.environment, next.appName);
      var owed := data.pending == Some(MountCreate) || data.verified;
      if live.None? || (owed && !live.value.matches) then None
      else if data.pending !in {None, Some(ApplicationCreate), Some(MountCreate)} then None
      else Some(next.(verified := owed, pending := None))
  }

  // ----- what resuming keeps -----

  // The identity or verification that a finished create leaves behind.
  predicate Recorded(phase: Phase, path: Path) {
    match path
    case ProjectCreate => phase.project != ""
    case EnvironmentCreate => phase.environment != ""
    case ApplicationCreate => phase.application != ""
    case MountCreate => phase.verified
    case OtherPath(_) => false
  }

  predicate Covers(phase: Phase, path: Path) { phase.pending == Some(path) || Recorded(phase, path) }

  // Every recorded identity of `before` is still recorded, unchanged, in `after`.
  predicate Keeps(before: Phase, after: Phase) {
    && (before.project != "" ==> after.project == before.project)
    && (before.environment != "" ==> after.environment == before.environment)
    && (before.application != "" ==> after.application == before.application)
    && (before.appName != "" ==> after.appName == before.appName)
    && (before.verified ==> after.verified)
  }

  // What one stage of resuming has settled.
  predicate Settles(before: Phase, after: Phase) {
    && after.pending == None && Keeps(before, after)
    && (before.pending.Some? ==> Recorded(after, before.pending.value))
  }

  lemma ApplicationSettles(intent: Intent, data: Phase, environment: Environment, sight: Sight)
    requires ResumeApplication(intent, data, environment, sight).Some?
    ensures Settles(data, ResumeApplication(intent, data, environment, sight).value)
  {}

  lemma EnvironmentSettles(intent: Intent, data: Phase, project: Project, sight: Sight)
    ensures ResumeEnvironment(intent, data, project, sight).Some? ==>
              Settles(data, ResumeEnvironment(intent, data, project, sight).value)
  {
    hide ResumeApplication;
    if ResumeEnvironment(intent, data, project, sight).Some? {
      var environments := Matching(project.environments, e => IsPlannedEnvironment(intent, e));
      if |environments| == 1 {
        var next := ClearPending(data.(environment := environments[0].id), EnvironmentCreate);
        if ResumeApplication(intent, next, environments[0], sight).Some? {
          ApplicationSettles(intent, next, environments[0], sight);
        }
      }
    }
  }

  // A resumed phase owes nothing, keeps what was recorded, and has recorded the
  // create that was outstanding.
  lemma ResumeKeeps(intent: Intent, phase: Option<Phase>, sight: Sight)
    requires Resume(intent, phase, sight).Some?
    ensures var after := Resume(intent, phase, sight).value;
            && after.pending == None
            && (phase.Some? ==> Keeps(phase.value, after))
            && (phase.Some? ==> forall path :: Covers(phase.value, path) ==> Recorded(after, path))
  {
    hide ResumeEnvironment;
    if phase.Some? && phase.value != NOTHING {
      var projects := Matching(sight.inventory.value.projects, p => IsPlanned(intent, p));
      var next := ClearPending(phase.value.(project := projects[0].id), ProjectCreate);
      EnvironmentSettles(intent, next, projects[0], sight);
    }
  }

  // Exactly one of the items is planned, and it is this one.
  ghost predicate OnlyOne<T(!new)>(items: seq<T>, planned: T -> bool, found: T) {
    && found in items && planned(found)
    && (forall t :: t in items && planned(t) ==> t == found)
    && (forall i, j :: 0 <= i < j < |items| ==> !planned(items[i]) || !planned(items[j]))
  }

  // The one resource this create can have made is the one that `after` records.
  ghost predicate UniquelyMatched(intent: Intent, sight: Sight, path: Path, after: Phase) {
    match path
    case ProjectCreate =>
      sight.inventory.Some?
      && exists p :: OnlyOne(sight.inventory.value.projects, p => IsPlanned(intent, p), p) && after.project == p.id
    case EnvironmentCreate =>
      sight.inventory.Some?
      && exists p, e :: OnlyOne(sight.inventory.value.projects, p => IsPlanned(intent, p), p) && after.project == p.id
                     && OnlyOne(p.environments, e => IsPlannedEnvironment(intent, e), e) && after.environment == e.id
    case ApplicationCreate =>
      sight.inventory.Some?
      && exists p, e, t :: OnlyOne(sight.inventory.value.projects, p => IsPlanned(intent, p), p) && after.project == p.id
                        && OnlyOne(p.environments, e => IsPlannedEnvironment(intent, e), e) && after.environment == e.id
                        && OnlyOne(e.targets, t => IsPlannedTarget(intent, t), t) && after.application == t.id
    case MountCreate => sight.live.Some? && sight.live.value.matches && sight.live.value.id == after.application && after.verified
    case OtherPath(_) => false
  }

  // An outstanding create is recovered only from the one resource it can have made.
  lemma PendingNeedsUniqueMatch(intent: Intent, phase: Phase, sight: Sight)
    requires phase.pending.Some? && Resume(intent, Some(phase), sight).Some?
    ensures UniquelyMatched(intent, sight, phase.pending.value, Resume(intent, Some(phase), sight).value)
  {
    var projects := Matching(sight.inventory.value.projects, p => IsPlanned(intent, p));
    OneMatch(sight.inventory.value.projects, p => IsPlanned(intent, p));
    var environments := Matching(projects[0].environments, e => IsPlannedEnvironment(intent, e));
    OneMatch(projects[0].environments, e => IsPlannedEnvironment(intent, e));
    if |environments| == 1 {
      OneMatch(environments[0].targets, t => IsPlannedTarget(intent, t));
    }
  }

  lemma {:induction false} MatchingOne<T(!new)>(items: seq<T>, planned: T -> bool, found: T)
    ensures Matching(items, planned) == [found] <==> OnlyOne(items, planned, found)
  {
    if items != [] {
      var rest := items[1..];
      MatchingOne(rest, planned, found);
      assert items == [items[0]] + rest;
      if planned(items[0]) {
        var others := Matching(rest, planned);
        if others == [] {
          forall t | t in rest
            ensures !planned(t)
          {
            assert planned(t) ==> t in others;
          }
        } else {
          assert others[0] in others && others[0] in rest;
          var i :| 0 <= i < |rest| && rest[i] == others[0];
          assert items[i + 1] == others[0];
        }
      } else if OnlyOne(rest, planned, found) {
        forall i, j | 0 <= i < j < |items|
          ensures !planned(items[i]) || !planned(items[j])
        {
          if i > 0 {
            assert rest[i - 1] == items[i] && rest[j - 1] == items[j];
          }
        }
      } else if OnlyOne(items, planned, found) {
        assert forall i :: 0 <= i < |rest| ==> rest[i] == items[i + 1];
      }
    }
  }

  lemma OneMatch<T(!new)>(items: seq<T>, planned: T -> bool)
    ensures |Matching(items, planned)| == 1 ==> OnlyOne(items, planned, Matching(items, planned)[0])
  {
    var found := Matching(items, planned);
    if |found| == 1 {
      assert found == [found[0]];
      MatchingOne(items, planned, found[0]);
    }
  }

  // The application on record was read in its place, under its name, on the
  // requested server and with no other lane's alias; if it counts as verified,
  // its configuration matched.
  predicate IsSeenLive(intent: Intent, sight: Sight, after: Phase) {
    && sight.raw.Some? && sight.raw.value.appName == after.appName && OwnsName(intent, after.appName)
    && sight.live.Some? && !sight.aliased && sight.live.value.id == after.application
    && sight.live.value.environment == after.environment && sight.live.value.appName == after.appName
    && (intent.serverId == "" || sight.live.value.server == intent.serverId)
    && (after.verified ==> sight.live.value.matches)
  }

  ghost predicate IsSeenIn(intent: Intent, sight: Sight, after: Phase, e: Environment) {
    after.application != "" ==>
      (exists t :: OnlyOne(e.targets, t => IsPlannedTarget(intent, t), t) && after.application == t.id) && IsSeenLive(intent, sight, after)
  }

  // Everything on record is confirmed by one complete look at the bound host:
  // the only planned project, the only planned environment in it, and the only
  // planned application in that.
  ghost predicate Confirms(intent: Intent, sight: Sight, after: Phase) {
    && sight.hostBound && sight.inventory.Some? && sight.inventory.value.complete
    && exists p :: && OnlyOne(sight.inventory.value.projects, p => IsPlanned(intent, p), p) && after.project == p.id
                   && (after.environment != "" ==>
                         exists e :: && OnlyOne(p.environments, e => IsPlannedEnvironment(intent, e), e) && after.environment == e.id
                                     && IsSeenIn(intent, sight, after, e))
  }

  lemma ApplicationIsSeen(intent: Intent, data: Phase, environment: Environment, sight: Sight)
    requires ResumeApplication(intent, data, environment, sight).Some? && sight.hostBound
    ensures var after := ResumeApplication(intent, data, environment, sight).value;
            after.project == data.project && after.environment == data.environment && IsSeenIn(intent, sight, after, environment)
  {
    hide OwnsName;
    OneMatch(environment.targets, t => IsPlannedTarget(intent, t));
  }

  lemma ResumeConfirms(intent: Intent, phase: Phase, sight: Sight)
    requires phase != NOTHING && Resume(intent, Some(phase), sight).Some?
    ensures Confirms(intent, sight, Resume(intent, Some(phase), sight).value)
  {
    hide ResumeApplication, IsSeenLive;
    var projects := Matching(sight.inventory.value.projects, p => IsPlanned(intent, p));
    OneMatch(sight.inventory.value.projects, p => IsPlanned(intent, p));
    var environments := Matching(projects[0].environments, e => IsPlannedEnvironment(intent, e));
    OneMatch(projects[0].environments, e => IsPlannedEnvironment(intent, e));
    if |environments| == 1 {
      var data := ClearPending(phase.(project := projects[0].id), ProjectCreate);
      var next := ClearPending(data.(environment := environments[0].id), EnvironmentCreate);
      if ResumeApplication(intent, next, environments[0], sight).Some? {
        ApplicationIsSeen(intent, next, environments[0], sight);
      }
    }
  }

  predicate IsSettled(phase: Phase) {
    phase.pending == None && phase.project != "" && phase.environment != "" && phase.application != "" && phase.appName != ""
  }

  lemma SeenApplicationResumes(intent: Intent, phase: Phase, environment: Environment, sight: Sight, t: Target)
    requires IsSettled(phase) && sight.hostBound && IsSeenLive(intent, sight, phase)
    requires OnlyOne(environment.targets, t => IsPlannedTarget(intent, t), t) && phase.application == t.id
    ensures ResumeApplication(intent, phase, environment, sight) == Some(phase)
  {
    hide IsPlannedTarget, OwnsName;
    MatchingOne(environment.targets, t => IsPlannedTarget(intent, t), t);
    hide OnlyOne;
  }

  lemma SeenEnvironmentResumes(intent: Intent, phase: Phase, project: Project, sight: Sight, e: Environment)
    requires IsSettled(phase) && OnlyOne(project.environments, e => IsPlannedEnvironment(intent, e), e) && phase.environment == e.id
    requires ResumeApplication(intent, phase, e, sight) == Some(phase)
    ensures ResumeEnvironment(intent, phase, project, sight) == Some(phase)
  {
    hide ResumeApplication, IsPlannedEnvironment;
    MatchingOne(project.environments, e => IsPlannedEnvironment(intent, e), e);
    hide OnlyOne;
    assert phase.(environment := e.id) == phase;
  }

  lemma SeenProjectResumes(intent: Intent, phase: Phase, sight: Sight, p: Project)
    requires IsSettled(phase) && sight.hostBound && sight.inventory.Some? && sight.inventory.value.complete
    requires OnlyOne(sight.inventory.value.projects, p => IsPlanned(intent, p), p) && phase.project == p.id
    requires ResumeEnvironment(intent, phase, p, sight) == Some(phase)
    ensures Resume(intent, Some(phase), sight) == Some(phase)
  {
    hide ResumeEnvironment, IsPlanned;
    MatchingOne(sight.inventory.value.projects, p => IsPlanned(intent, p), p);
    hide OnlyOne;
    assert phase.(project := p.id) == phase;
  }

  lemma SettledStays(intent: Intent, phase: Phase, sight: Sight)
    requires IsSettled(phase) && Resume(intent, Some(phase), sight).Some?
    ensures Resume(intent, Some(phase), sight) == Some(phase)
  {
    hide Matching, IsPlanned, IsPlannedEnvironment, IsPlannedTarget, OwnsName, Live;
  }

  // A settled allocation resumes, unchanged, exactly when one look confirms it.
  lemma SettledResumes(intent: Intent, phase: Phase, sight: Sight)
    requires IsSettled(phase)
    ensures Resume(intent, Some(phase), sight) == if Confirms(intent, sight, phase) then Some(phase) else None
  {
    if Resume(intent, Some(phase), sight).Some? {
      ResumeConfirms(intent, phase, sight);
      SettledStays(intent, phase, sight);
    }
    hide Resume, ResumeEnvironment, ResumeApplication, IsPlanned, IsPlannedEnvironment, IsPlannedTarget, IsSeenLive, OnlyOne;
    if Confirms(intent, sight, phase) {
      var p :| && OnlyOne(sight.inventory.value.projects, p => IsPlanned(intent, p), p) && phase.project == p.id
               && exists e :: && OnlyOne(p.environments, e => IsPlannedEnvironment(intent, e), e) && phase.environment == e.id
                              && IsSeenIn(intent, sight, phase, e);
      var e :| && OnlyOne(p.environments, e => IsPlannedEnvironment(intent, e), e) && phase.environment == e.id
               && IsSeenIn(intent, sight, phase, e);
      var t :| OnlyOne(e.targets, t => IsPlannedTarget(intent, t), t) && phase.application == t.id;
      SeenApplicationResumes(intent, phase, e, sight, t);
      SeenEnvironmentResumes(intent, phase, p, sight, e);
      SeenProjectResumes(intent, phase, sight, p);
    }
  }

  // Nothing is on record but the requested environment, or else the requested
  // project.
  predicate StartsAsRequested(intent: Intent, after: Phase) {
    && after.environment == intent.environmentId
    && after.project == (if intent.environmentId == "" then intent.projectId else "")
    && after.application == "" && after.appName == "" && after.defaultEnvironment == "" && !after.verified
  }

  // A recovered phase owes nothing, starts as requested, keeps what was
  // recorded, has recorded what was covered, recovers an outstanding create
  // from its only match, and records nothing that was not seen.
  ghost predicate Recovers(intent: Intent, phase: Option<Phase>, sight: Sight, after: Phase) {
    && after.pending == None
    && (phase.None? ==> StartsAsRequested(intent, after))
    && (phase.Some? ==> Keeps(phase.value, after) && forall path :: Covers(phase.value, path) ==> Recorded(after, path))
    && (phase.Some? && phase.value.pending.Some? ==> UniquelyMatched(intent, sight, phase.value.pending.value, after))
    && (phase.Some? && phase.value != NOTHING ==> Confirms(intent, sight, after))
  }

  lemma ResumeRecovers(intent: Intent, phase: Option<Phase>, sight: Sight)
    ensures Resume(intent, phase, sight).Some? ==> Recovers(intent, phase, sight, Resume(intent, phase, sight).value)
  {
    if Resume(intent, phase, sight).Some? {
      assert phase.None? ==> StartsAsRequested(intent, Resume(intent, phase, sight).value);
      hide Resume;
      ResumeKeeps(intent, phase, sight);
      if phase.Some? && phase.value.pending.Some? {
        PendingNeedsUniqueMatch(intent, phase.value, sight);
      }
      if phase.Some? && phase.value != NOTHING {
        ResumeConfirms(intent, phase.value, sight);
      }
    }
  }

  // ----- the program -----

  // The last stage of `_resume_phase`: the application and its mount.
  method ResumeTarget(intent: Intent, phase: Phase, environment: Environment, sight: Sight) returns (resumed: Option<Phase>)
    ensures resumed == ResumeApplication(intent, phase, environment, sight)
  {
    hide Live, OwnsName, Matching, IsPlannedTarget;
    var data := phase;
    var targets := Matching(environment.targets, t => IsPlannedTarget(intent, t));
    if |targets| != 1 || (data.application != "" && data.application != targets[0].id) {
      return None;
    }
    if data.application == "" && data.pending != Some(ApplicationCreate) {
      return None;
    }
    data := data.(application := targets[0].id);
    if sight.raw.None? || !OwnsName(intent, sight.raw.value.appName) {
      return None;
    }
    if data.appName != "" && data.appName != sight.raw.value.appName {
      return None;
    }
    data := data.(appName := sight.raw.value.appName);
    var live := Live(intent, sight, data.application, data.environment, data.appName);
    if live.None? {
      return None;
    }
    if data.pending == Some(MountCreate) || data.verified {
      if !live.value.matches {
        return None;
      }
      data := data.(verified := true);
    }
    if data.pending !in {None, Some(ApplicationCreate), Some(MountCreate)} {
      return None;
    }
    return Some(data.(pending := None));
  }

  // `_resume_phase`, which edits its decoded checkpoint in place.
  method ResumePhase(intent: Intent, phase: Option<Phase>, sight: Sight) returns (resumed: Option<Phase>)
    ensures resumed == Resume(intent, phase, sight)
    ensures resumed.Some? ==> Recovers(intent, phase, sight, resumed.value)
  {
    ResumeRecovers(intent, phase, sight);
    hide Recovers, ResumeApplication, Matching, IsPlanned, IsPlannedEnvironment;
    var data := NOTHING;
    if phase.Some? {
      data := phase.value;
    }
    if data == NOTHING {
      return Some(Initial(intent));
    }
    if !sight.hostBound || sight.inventory.None? || !sight.inventory.value.complete {
      return None;
    }
    var projects := Matching(sight.inventory.value.projects, p => IsPlanned(intent, p));
    if |projects| != 1 || (data.project != "" && data.project != projects[0].id) {
      return None;
    }
    var project := projects[0];
    if data.project == "" && intent.environmentId == "" && data.pending != Some(ProjectCreate) {
      return None;
    }
    data := data.(project := project.id);
    if data.pending == Some(ProjectCreate) {
      data := data.(pending := None);
    }
    var environments := Matching(project.environments, e => IsPlannedEnvironment(intent, e));
    if data.environment == "" && data.pending == None {
      return Some(data);
    }
    if |environments| != 1 || (data.environment != "" && data.environment != environments[0].id) {
      return None;
    }
    var environment := environments[0];
    if data.environment == "" && data.pending != Some(EnvironmentCreate) {
      return None;
    }
    data := data.(environment := environment.id);
    if data.pending == Some(EnvironmentCreate) {
      data := data.(pending := None);
    }
    if data.application == "" && data.pending == None {
      return Some(data);
    }
    resumed := ResumeTarget(intent, data, environment, sight);
  }
}
