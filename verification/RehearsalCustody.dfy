// The file protocol of the rehearsal host program: started markers, receipts,
// refusal files, the rebuild preparation and the disposals that remove them,
// all under one exclusive lock.
module RehearsalCustody {
  import opened Options

  datatype Action = Prepare | Execute | SimulateFinal | RebuildFinal | ValidateBusiness | Verify | Retire

  // A receipt action: rebuilds and validations have one per attempt.
  datatype Name = Name(action: Action, attempt: string)

  datatype Kind = Capacity | Artifact | RebuildCapacity | RebuildPrecheck | Precheck

  datatype File =
    | Started(name: Name)
    | Receipt(name: Name) | ReceiptPending(name: Name)
    | Outcome(name: Name) | OutcomePending(name: Name)
    | PreparedStarted(generation: string)
    | PreparedReceipt(generation: string) | PreparedPending(generation: string)
    | Refused(action: Action, attempt: string, binding: string, kind: Kind)

  // What reaches the container runtime.
  datatype Effect =
    | Ran(action: Action, attempt: string, binding: string)
    | RanPreparation(generation: string)

  datatype Act = Create(file: File) | Rename(from: File, to: File) | Perform(effect: Effect) | Delete(file: File)

  datatype Event = Began(effect: Effect) | Removed(file: File)

  // The directory, and what has been begun and removed so far.
  datatype Custody = Custody(files: set<File>, log: seq<Event>)

  // What the checks of one invocation find.
  datatype Answers = Answers(
    raised: bool,          // a read-only check or observation failed
    supported: bool,       // the image supports a migration copy
    roomy: bool,           // storage admission
    bothFinals: bool,      // both final copies are recorded
    abandoned: bool,       // a preserving abandonment with intact snapshots
    reusable: bool,        // the prepared runtime may be reused
    confirmed: bool)       // the business post-check holds

  // Which private files a disposal removes: all of them, or only captures and
  // snapshots, none of which is a file of this protocol.
  datatype Disposal = Full | Preserving | Retaining

  // archived: attempts of earlier rebuilds that were abandoned in the record.
  // listing: the directory as a disposal comes upon it; one that its checks
  // stop is cut before its first act.
  datatype Call =
    | Apply(action: Action, attempt: string, binding: string, generation: string, archived: set<string>, answers: Answers)
    | Observe(action: Action, attempt: string, lockHeld: bool, answers: Answers)
    | Dispose(disposal: Disposal, listing: seq<File>)

  // A call that applies an action.
  type Application = call: Call | call.Apply?
    witness Apply(Prepare, "", "", "", {}, Answers(false, false, false, false, false, false, false))

  function IsHexDigit(c: char): bool { '0' <= c <= '9' || 'a' <= c <= 'f' }

  predicate IsDigest(s: string) { |s| == 64 && forall i :: 0 <= i < |s| ==> IsHexDigit(s[i]) }

  function NameOf(action: Action, attempt: string): Name {
    if action == RebuildFinal || action == ValidateBusiness then Name(action, attempt) else Name(action, "")
  }

  const KINDS := [Artifact, Capacity, RebuildCapacity, RebuildPrecheck, Precheck]

  predicate HasRefusal(files: set<File>, action: Action, attempt: string, binding: string) {
    IsDigest(attempt) && IsDigest(binding) && exists kind :: kind in KINDS && Refused(action, attempt, binding, kind) in files
  }

  // Another rebuild that started, has no receipt and was not abandoned.
  predicate HasUncertainRebuild(files: set<File>, archived: set<string>) {
    exists file :: file in files && file.Started? && file.name.action == RebuildFinal
                   && file.name.attempt !in archived && Receipt(file.name) !in files
  }

  // ----- the acts of one invocation, in order -----

  // An exclusive temporary file, renamed into place; then the rest.
  function Save(files: set<File>, pending: File, file: File, rest: seq<Act>): seq<Act> {
    if pending in files then [] else [Create(pending), Rename(pending, file)] + rest
  }

  function Refuse(call: Application, kind: Kind): seq<Act> {
    if IsDigest(call.attempt) && IsDigest(call.binding) then [Create(Refused(call.action, call.attempt, call.binding, kind))] else []
  }

  // The marker, the effect, and the receipt.
  function Effectuate(files: set<File>, call: Application): seq<Act> {
    var name := NameOf(call.action, call.attempt);
    var publish := Save(files, ReceiptPending(name), Receipt(name), []);
    [Create(Started(name)), Perform(Ran(call.action, call.attempt, call.binding))]
    + (if call.action == ValidateBusiness
       then Save(files, OutcomePending(name), Outcome(name), if call.answers.confirmed then publish else [])
       else publish)
  }

  function Rebuild(files: set<File>, call: Application): seq<Act> {
    if call.answers.raised then Refuse(call, RebuildPrecheck)
    else if !call.answers.supported then Refuse(call, Artifact)
    else if !call.answers.roomy then Refuse(call, RebuildCapacity)
    else Effectuate(files, call)
  }

  function PrepareRebuild(files: set<File>, call: Application): seq<Act> {
    var generation := call.generation;
    if !IsDigest(generation) then []
    else if HasUncertainRebuild(files, call.archived) || PreparedPending(generation) in files then Refuse(call, RebuildPrecheck)
    else if PreparedReceipt(generation) in files then
      if call.answers.reusable then Rebuild(files, call) else Refuse(call, RebuildPrecheck)
    else if PreparedStarted(generation) in files then Refuse(call, RebuildPrecheck)
    else [Create(PreparedStarted(generation)), Perform(RanPreparation(generation))]
         + Save(files, PreparedPending(generation), PreparedReceipt(generation), Rebuild(files, call))
  }

  // Why an ordinary action is refused before its marker.
  function RefusalOf(action: Action, answers: Answers): Option<Kind> {
    if answers.raised then Some(Precheck)
    else if (action == Execute || action == SimulateFinal) && !answers.supported then Some(Artifact)
    else if (action == Execute || action == SimulateFinal || action == Verify) && !answers.roomy then Some(Capacity)
    else if action == Retire && !answers.bothFinals then Some(Precheck)
    else None
  }

  function Deletion(files: set<File>, listing: seq<File>): seq<Act>
    decreases |listing|
  {
    if listing == [] then []
    else if listing[0] in files then [Delete(listing[0])] + Deletion(files - {listing[0]}, listing[1..])
    else Deletion(files, listing[1..])
  }

  function Acts(files: set<File>, call: Call): seq<Act> {
    if call.Dispose? then if call.disposal.Full? then Deletion(files, call.listing) else []
    else LockedActs(files, call)
  }

  function LockedActs(files: set<File>, call: Call): seq<Act>
    requires !call.Dispose?
  {
    var name := NameOf(call.action, call.attempt);
    if call.Observe? then
      if Receipt(name) !in files && call.action == ValidateBusiness && Outcome(name) in files && call.lockHeld && call.answers.confirmed
      then Save(files, ReceiptPending(name), Receipt(name), [])
      else []
    else if Receipt(name) in files || Started(name) in files || HasRefusal(files, call.action, call.attempt, call.binding) then []
    else if call.action == Prepare then Effectuate(files, call)
    else if call.action == RebuildFinal then
      if !call.answers.abandoned then Refuse(call, RebuildPrecheck) else PrepareRebuild(files, call)
    else if RefusalOf(call.action, call.answers).Some? then Refuse(call, RefusalOf(call.action, call.answers).value)
    else Effectuate(files, call)
  }

  // ----- what acts do -----

  function Do(custody: Custody, act: Act): Custody {
    match act
    case Create(file) => custody.(files := custody.files + {file})
    case Rename(from, to) => custody.(files := custody.files - {from} + {to})
    case Perform(effect) => custody.(log := custody.log + [Began(effect)])
    case Delete(file) => Custody(custody.files - {file}, custody.log + [Removed(file)])
  }

  function DoAll(custody: Custody, acts: seq<Act>): Custody
    decreases |acts|
  {
    if acts == [] then custody else DoAll(Do(custody, acts[0]), acts[1..])
  }

  // An invocation may die after any number of its acts.
  function Cut(acts: seq<Act>, stop: nat): seq<Act> { if stop < |acts| then acts[..stop] else acts }

  function Invoke(custody: Custody, call: Call, stop: nat): Custody { DoAll(custody, Cut(Acts(custody.files, call), stop)) }

  // Invocations exclude one another, so a run is a sequence of them.
  function Run(calls: seq<(Call, nat)>): Custody {
    if calls == [] then Custody({}, [])
    else Invoke(Run(calls[..|calls| - 1]), calls[|calls| - 1].0, calls[|calls| - 1].1)
  }
}
