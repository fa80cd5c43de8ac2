// Why a refusal or the receipt of a validation is there, over every run.
module RehearsalReasons {
  import opened Options
  import opened RehearsalCustody

  // The file is made by this act.
  predicate Makes(act: Act, file: File) { act == Create(file) || (act.Rename? && act.to == file) }

  // What the checks of a call must have found for a refusal of this kind.
  predicate HasReason(call: Call, kind: Kind) {
    && call.Apply?
    && var a := call.answers;
       match kind
       case Artifact => !a.raised && !a.supported && call.action in {Execute, SimulateFinal, RebuildFinal}
       case Capacity => !a.raised && !a.roomy && (call.action == Verify || (call.action in {Execute, SimulateFinal} && a.supported))
       case RebuildCapacity => !a.raised && a.supported && !a.roomy && call.action == RebuildFinal
       case RebuildPrecheck => call.action == RebuildFinal
       case Precheck => call.action !in {Prepare, RebuildFinal} && (a.raised || (call.action == Retire && !a.bothFinals))
  }

  // The call may leave this file: a refusal for its reason, under the call's
  // own action, attempt and binding; the receipt of a validation only once the
  // business check behind it was confirmed, by the validation itself or by a
  // later observer that holds the lock and has its outcome.
  predicate MayLeave(call: Call, file: File) {
    && (file.Refused? ==>
          call.Apply? && file.action == call.action && file.attempt == call.attempt && file.binding == call.binding && HasReason(call, file.kind))
    && (file.Receipt? && file.name.action == ValidateBusiness ==>
          !call.Dispose? && call.action == ValidateBusiness && file.name == NameOf(ValidateBusiness, call.attempt) && call.answers.confirmed
          && (call.Observe? ==> call.lockHeld))
  }

  lemma {:induction false} DeletionMakesNothing(files: set<File>, listing: seq<File>)
    ensures forall act :: act in Deletion(files, listing) ==> act.Delete?
    decreases |listing|
  {
    if listing != [] {
      DeletionMakesNothing(files, listing[1..]);
      DeletionMakesNothing(files - {listing[0]}, listing[1..]);
    }
  }

  lemma EffectuateLeaves(files: set<File>, call: Application)
    ensures forall act, file :: act in Effectuate(files, call) && Makes(act, file) ==> MayLeave(call, file)
  {}

  lemma RebuildLeaves(files: set<File>, call: Application)
    ensures call.action == RebuildFinal ==>
              forall act, file :: act in Rebuild(files, call) && Makes(act, file) ==> MayLeave(call, file)
  {
    hide Effectuate;
    EffectuateLeaves(files, call);
  }

  lemma PrepareRebuildLeaves(files: set<File>, call: Application)
    ensures call.action == RebuildFinal ==>
              forall act, file :: act in PrepareRebuild(files, call) && Makes(act, file) ==> MayLeave(call, file)
  {
    hide Rebuild, HasUncertainRebuild;
    RebuildLeaves(files, call);
  }

  lemma ActsLeave(files: set<File>, call: Call)
    ensures forall act, file :: act in Acts(files, call) && Makes(act, file) ==> MayLeave(call, file)
  {
    hide Effectuate, PrepareRebuild, Deletion, HasRefusal;
    if call.Dispose? {
      DeletionMakesNothing(files, call.listing);
    } else if call.Apply? {
      EffectuateLeaves(files, call);
      PrepareRebuildLeaves(files, call);
    }
  }

  lemma {:induction false} MadeOrThere(custody: Custody, acts: seq<Act>, file: File)
    requires file in DoAll(custody, acts).files
    ensures file in custody.files || exists act :: act in acts && Makes(act, file)
    decreases |acts|
  {
    if acts != [] {
      MadeOrThere(Do(custody, acts[0]), acts[1..], file);
      assert acts[0] in acts && forall act :: act in acts[1..] ==> act in acts;
    }
  }

  lemma CutIsPart(acts: seq<Act>, stop: nat)
    ensures forall act :: act in Cut(acts, stop) ==> act in acts
  {}

  // Over every run, however its calls are cut: a refusal was written by a call
  // of its action, attempt and binding whose checks gave its reason, and the
  // receipt of a validation by a call that confirmed it.
  lemma {:induction false} FilesHaveReasons(calls: seq<(Call, nat)>, file: File)
    requires file in Run(calls).files
    ensures exists j :: 0 <= j < |calls| && MayLeave(calls[j].0, file)
    decreases |calls|
  {
    hide Acts, DoAll, MayLeave, Cut;
    if calls != [] {
      var n := |calls| - 1;
      var before, call, stop := Run(calls[..n]), calls[n].0, calls[n].1;
      MadeOrThere(before, Cut(Acts(before.files, call), stop), file);
      if file in before.files {
        FilesHaveReasons(calls[..n], file);
        var j :| 0 <= j < n && MayLeave(calls[..n][j].0, file);
        assert calls[j] == calls[..n][j];
      } else {
        CutIsPart(Acts(before.files, call), stop);
        ActsLeave(before.files, call);
      }
    }
  }
}
