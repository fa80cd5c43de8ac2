// When exactly an invocation begins an effect or a preparation, and what a full
// disposal lets begin again.
module RehearsalStarts {
  import opened Options
  import opened RehearsalCustody
  import opened RehearsalEffects

  // ----- when an effect or a preparation begins -----

  // The checks before the marker of a receipt action, on the custody that the
  // invocation finds.
  predicate Passes(files: set<File>, call: Call) {
    if !call.Apply? then false
    else if call.action == Prepare then true
    else if call.action == RebuildFinal then
      && MayPrepare(files, call) && PreparedPending(call.generation) !in files
      && (if PreparedReceipt(call.generation) in files then call.answers.reusable else PreparedStarted(call.generation) !in files)
      && !call.answers.raised && call.answers.supported && call.answers.roomy
    else RefusalOf(call.action, call.answers).None?
  }

  predicate MayPrepare(files: set<File>, call: Call) {
    call.Apply? && call.answers.abandoned && IsDigest(call.generation) && !HasUncertainRebuild(files, call.archived)
  }

  predicate NothingPrepared(files: set<File>, generation: string) {
    PreparedStarted(generation) !in files && PreparedReceipt(generation) !in files && PreparedPending(generation) !in files
  }

  predicate Unclaimed(files: set<File>, call: Call) {
    && call.Apply?
    && var name := NameOf(call.action, call.attempt);
       Receipt(name) !in files && Started(name) !in files && !HasRefusal(files, call.action, call.attempt, call.binding)
  }

  // What an invocation that is not cut short logs is what its acts are.
  lemma UncutLog(custody: Custody, call: Call, stop: nat, effect: Effect)
    requires stop >= |Acts(custody.files, call)|
    ensures LoggedSince(custody, Invoke(custody, call, stop), Began(effect)) <==> Perform(effect) in Acts(custody.files, call)
  {
    hide Acts;
    var acts := Acts(custody.files, call);
    assert Cut(acts, stop) == acts;
    ActsLog(custody, acts);
    assert forall act :: Logs(act, Began(effect)) <==> act == Perform(effect);
  }

  lemma EffectuateBegins(files: set<File>, call: Application, effect: Effect)
    ensures Perform(effect) in Effectuate(files, call) <==> effect == Ran(call.action, call.attempt, call.binding)
    ensures forall act :: act in Effectuate(files, call) && act.Create? ==> !act.file.Refused?
  {}

  lemma RefuseBegins(call: Application, kind: Kind, effect: Effect)
    ensures Perform(effect) !in Refuse(call, kind)
    ensures forall act :: act in Refuse(call, kind) ==> act == Create(Refused(call.action, call.attempt, call.binding, kind))
  {}

  lemma RebuildBegins(files: set<File>, call: Application, effect: Effect)
    requires call.action == RebuildFinal
    ensures Perform(effect) in Rebuild(files, call) <==>
            effect == Ran(call.action, call.attempt, call.binding) && !call.answers.raised && call.answers.supported && call.answers.roomy
  {
    hide Effectuate, Refuse;
    EffectuateBegins(files, call, effect);
    RefuseBegins(call, RebuildPrecheck, effect);
    RefuseBegins(call, Artifact, effect);
    RefuseBegins(call, RebuildCapacity, effect);
  }

  // Which rebuild acts begin the rebuild, and which the preparation.
  lemma PrepareRebuildBegins(files: set<File>, call: Application, effect: Effect)
    requires call.action == RebuildFinal && call.answers.abandoned
    ensures effect.Ran? ==>
              (Perform(effect) in PrepareRebuild(files, call) <==>
               effect == Ran(call.action, call.attempt, call.binding) && Passes(files, call))
    ensures effect.RanPreparation? ==>
              (Perform(effect) in PrepareRebuild(files, call) <==>
               effect.generation == call.generation && MayPrepare(files, call) && NothingPrepared(files, call.generation))
  {
    hide HasUncertainRebuild, IsDigest, Rebuild, Refuse;
    RefuseBegins(call, RebuildPrecheck, effect);
    RebuildBegins(files, call, effect);
  }

  // An uncut invocation begins the effect of its receipt action exactly when
  // no receipt, marker or refusal is there and its checks pass.
  lemma BeginsExactly(custody: Custody, call: Application, stop: nat)
    requires stop >= |Acts(custody.files, call)|
    ensures LoggedSince(custody, Invoke(custody, call, stop), Began(Ran(call.action, call.attempt, call.binding))) <==>
            Unclaimed(custody.files, call) && Passes(custody.files, call)
  {
    hide Invoke, Effectuate, PrepareRebuild, Refuse, HasRefusal, HasUncertainRebuild, IsDigest;
    var effect := Ran(call.action, call.attempt, call.binding);
    UncutLog(custody, call, stop, effect);
    EffectuateBegins(custody.files, call, effect);
    RefuseBegins(call, RebuildPrecheck, effect);
    if call.action == RebuildFinal && call.answers.abandoned {
      PrepareRebuildBegins(custody.files, call, effect);
    }
    if RefusalOf(call.action, call.answers).Some? {
      RefuseBegins(call, RefusalOf(call.action, call.answers).value, effect);
    }
  }

  // An uncut invocation prepares its generation exactly when it is an unclaimed
  // rebuild that may prepare and nothing of that generation is there.
  lemma PreparesExactly(custody: Custody, call: Application, stop: nat, generation: string)
    requires stop >= |Acts(custody.files, call)|
    ensures LoggedSince(custody, Invoke(custody, call, stop), Began(RanPreparation(generation))) <==>
            && call.action == RebuildFinal && Unclaimed(custody.files, call) && MayPrepare(custody.files, call)
            && generation == call.generation && NothingPrepared(custody.files, generation)
  {
    hide Invoke, Effectuate, PrepareRebuild, Refuse, HasRefusal, HasUncertainRebuild, IsDigest;
    var effect := RanPreparation(generation);
    UncutLog(custody, call, stop, effect);
    EffectuateBegins(custody.files, call, effect);
    RefuseBegins(call, RebuildPrecheck, effect);
    if call.action == RebuildFinal && call.answers.abandoned {
      PrepareRebuildBegins(custody.files, call, effect);
    }
    if RefusalOf(call.action, call.answers).Some? {
      RefuseBegins(call, RefusalOf(call.action, call.answers).value, effect);
    }
  }

  lemma {:induction false} CreatedBy(custody: Custody, acts: seq<Act>, file: File)
    requires file in DoAll(custody, acts).files && file !in custody.files && file.Refused?
    requires forall act :: act in acts && act.Rename? ==> !act.to.Refused?
    ensures Create(file) in acts
    decreases |acts|
  {
    assert acts == [acts[0]] + acts[1..];
    if acts[0] != Create(file) {
      CreatedBy(Do(custody, acts[0]), acts[1..], file);
    }
  }

  // A refusal speaks of the receipt action alone. An uncut invocation that
  // writes one has begun a preparation exactly when it is a rebuild under a
  // current abandonment of a digest generation, no other rebuild is uncertain
  // and nothing of the generation was there before.
  lemma RefusalMayFollowPreparation(custody: Custody, call: Application, stop: nat, file: File, generation: string)
    requires stop >= |Acts(custody.files, call)|
    requires file.Refused? && file in Invoke(custody, call, stop).files && file !in custody.files
    ensures LoggedSince(custody, Invoke(custody, call, stop), Began(RanPreparation(generation))) <==>
            && call.action == RebuildFinal && call.answers.abandoned && IsDigest(call.generation)
            && !HasUncertainRebuild(custody.files, call.archived)
            && generation == call.generation && NothingPrepared(custody.files, generation)
  {
    hide Acts, IsDigest, HasUncertainRebuild, HasRefusal;
    var acts := Acts(custody.files, call);
    assert Cut(acts, stop) == acts;
    RenamesNoRefusal(custody.files, call);
    CreatedBy(custody, acts, file);
    RefusedUnclaimed(custody.files, call, file);
    hide Invoke;
    PreparesExactly(custody, call, stop, generation);
  }

  lemma RefusedUnclaimed(files: set<File>, call: Application, file: File)
    ensures Create(file) in Acts(files, call) ==> Unclaimed(files, call)
  {
    hide HasRefusal, Effectuate, PrepareRebuild, Refuse;
  }

  // Such invocations exist over every custody: the checks after the
  // preparation refuse what has been prepared.
  lemma PreparedThenRefused(custody: Custody, call: Application, stop: nat)
    requires call.action == RebuildFinal && stop >= |Acts(custody.files, call)|
    requires IsDigest(call.attempt) && IsDigest(call.binding) && Unclaimed(custody.files, call)
    requires MayPrepare(custody.files, call) && NothingPrepared(custody.files, call.generation)
    requires !call.answers.raised && call.answers.supported && !call.answers.roomy
    ensures LoggedSince(custody, Invoke(custody, call, stop), Began(RanPreparation(call.generation)))
    ensures Refused(RebuildFinal, call.attempt, call.binding, RebuildCapacity) in Invoke(custody, call, stop).files
  {
    hide HasRefusal, HasUncertainRebuild, IsDigest;
    PreparesExactly(custody, call, stop, call.generation);
    var g := call.generation;
    var acts := [Create(PreparedStarted(g)), Perform(RanPreparation(g)), Create(PreparedPending(g)),
                 Rename(PreparedPending(g), PreparedReceipt(g)), Create(Refused(RebuildFinal, call.attempt, call.binding, RebuildCapacity))];
    assert Acts(custody.files, call) == acts;
    assert Cut(acts, stop) == acts;
    hide Acts;
    LastCreates(custody, acts, acts[4].file);
  }

  lemma {:induction false} LastCreates(custody: Custody, acts: seq<Act>, file: File)
    requires acts != [] && acts[|acts| - 1] == Create(file)
    ensures file in DoAll(custody, acts).files
    decreases |acts|
  {
    if |acts| > 1 {
      LastCreates(Do(custody, acts[0]), acts[1..], file);
    }
  }

  // ----- after a full disposal -----

  lemma {:induction false} DeletionClears(custody: Custody, listing: seq<File>)
    ensures DoAll(custody, Deletion(custody.files, listing)).files == custody.files - (set file | file in listing)
    decreases |listing|
  {
    if listing != [] {
      if listing[0] in custody.files {
        DeletionClears(Do(custody, Delete(listing[0])), listing[1..]);
        assert Deletion(custody.files, listing)[1..] == Deletion(custody.files - {listing[0]}, listing[1..]);
      } else {
        DeletionClears(custody, listing[1..]);
      }
      assert listing == [listing[0]] + listing[1..];
    }
  }

  // A full disposal that lists the directory and is not cut short forgets
  // everything: the next call that passes its checks begins its effect.
  lemma FullDisposalForgets(custody: Custody, listing: seq<File>, stop: nat, call: Application, again: nat)
    requires forall file :: file in custody.files ==> file in listing
    requires stop >= |Acts(custody.files, Dispose(Full, listing))| && again >= |Acts({}, call)| && Passes({}, call)
    ensures var empty := Invoke(custody, Dispose(Full, listing), stop);
            LoggedSince(empty, Invoke(empty, call, again), Began(Ran(call.action, call.attempt, call.binding)))
  {
    hide Passes, LockedActs, Deletion;
    var dispose := Dispose(Full, listing);
    var acts := Acts(custody.files, dispose);
    assert Cut(acts, stop) == acts;
    DeletionClears(custody, listing);
    var empty := Invoke(custody, dispose, stop);
    assert empty.files == {};
    assert !HasRefusal({}, call.action, call.attempt, call.binding);
    hide Acts, Invoke;
    BeginsExactly(empty, call, again);
  }

  predicate LoggedTwice(log: seq<Event>, event: Event) {
    exists i :: 0 <= i < |log| && log[i] == event && event in log[i + 1..]
  }

  // So after any run that began the effect of a call, a full disposal and the
  // same call begin it again.
  lemma {:induction false} RunsAgain(calls: seq<(Call, nat)>, listing: seq<File>, stop: nat, call: Application, again: nat)
    requires Began(Ran(call.action, call.attempt, call.binding)) in Run(calls).log
    requires forall file :: file in Run(calls).files ==> file in listing
    requires stop >= |Acts(Run(calls).files, Dispose(Full, listing))| && again >= |Acts({}, call)| && Passes({}, call)
    ensures LoggedTwice(Run(calls + [(Dispose(Full, listing), stop), (call, again)]).log, Began(Ran(call.action, call.attempt, call.binding)))
  {
    hide Invoke, Passes, Acts;
    var effect := Ran(call.action, call.attempt, call.binding);
    var all := calls + [(Dispose(Full, listing), stop), (call, again)];
    var disposed := calls + [(Dispose(Full, listing), stop)];
    assert all[..|all| - 1] == disposed && disposed[..|disposed| - 1] == calls;
    FullDisposalForgets(Run(calls), listing, stop, call, again);
    LogsGrow(Run(calls), Dispose(Full, listing), stop);
    LogsGrow(Run(disposed), call, again);
    var i :| 0 <= i < |Run(calls).log| && Run(calls).log[i] == Began(effect);
    var j :| |Run(disposed).log| <= j < |Run(all).log| && Run(all).log[j] == Began(effect);
    var log := Run(all).log;
    assert Run(disposed).log <= log;
    assert log[i + 1..][j - i - 1] == log[j];
    assert LoggedTwice(log, Began(effect));
  }

  lemma LogsGrow(custody: Custody, call: Call, stop: nat)
    ensures custody.log <= Invoke(custody, call, stop).log
  {
    hide Acts;
    ActsLog(custody, Cut(Acts(custody.files, call), stop));
  }

  // A full disposal killed right after a marker leaves the receipt without it.
  lemma ReceiptOutlivesMarker(custody: Custody, name: Name, rest: seq<File>)
    requires Started(name) in custody.files && Receipt(name) in custody.files
    ensures var later := Invoke(custody, Dispose(Full, [Started(name)] + rest), 1);
            Receipt(name) in later.files && Started(name) !in later.files
  {
    hide LockedActs;
    var listing := [Started(name)] + rest;
    assert listing[1..] == rest;
    var acts := Acts(custody.files, Dispose(Full, listing));
    assert acts == [Delete(Started(name))] + Deletion(custody.files - {Started(name)}, rest);
    var cut := Cut(acts, 1);
    assert cut == [Delete(Started(name))];
    assert DoAll(custody, cut) == DoAll(Do(custody, cut[0]), cut[1..]) == Do(custody, cut[0]);
  }

  // ----- rebuilds -----

  // A rebuild effect begins only when every other rebuild that started has its
  // receipt or was abandoned, and never on an uncertain preparation.
  lemma RebuildStartsAlone(custody: Custody, call: Call, stop: nat)
    requires Inv(custody)
    ensures forall effect: Effect ::
              effect.Ran? && effect.action == RebuildFinal && LoggedSince(custody, Invoke(custody, call, stop), Began(effect)) ==>
                && call.Apply? && effect == Ran(RebuildFinal, call.attempt, call.binding)
                && (forall t :: Started(Name(RebuildFinal, t)) in custody.files && t !in call.archived ==>
                      Receipt(Name(RebuildFinal, t)) in custody.files)
                && (PreparedReceipt(call.generation) in custody.files || Forgotten(custody.log, PreparedStarted(call.generation)))
  {
    hide Acts, HasUncertainRebuild, Invoke, Passes, Inv, Forgotten, HasRefusal;
    var acts := Acts(custody.files, call);
    forall effect: Effect | effect.Ran? && effect.action == RebuildFinal && LoggedSince(custody, Invoke(custody, call, stop), Began(effect))
      ensures call.Apply? && effect == Ran(RebuildFinal, call.attempt, call.binding)
      ensures !HasUncertainRebuild(custody.files, call.archived)
      ensures PreparedReceipt(call.generation) in custody.files || Forgotten(custody.log, PreparedStarted(call.generation))
    {
      CutLog(custody, call, stop, effect);
      EffectActs(custody.files, call, effect);
      UncutLog(custody, call, |acts|, effect);
      BeginsExactly(custody, call, |acts|);
      RebuildChecks(custody.files, call);
      if PreparedStarted(call.generation) !in custody.files {
        Unmarked(custody, PreparedStarted(call.generation));
      }
    }
    if call.Apply? && !HasUncertainRebuild(custody.files, call.archived) {
      NoneUncertain(custody.files, call.archived);
    }
  }

  lemma CutLog(custody: Custody, call: Call, stop: nat, effect: Effect)
    ensures LoggedSince(custody, Invoke(custody, call, stop), Began(effect)) ==>
              Perform(effect) in Acts(custody.files, call)
  {
    hide Acts;
    if LoggedSince(custody, Invoke(custody, call, stop), Began(effect)) {
      ActsLog(custody, Cut(Acts(custody.files, call), stop));
      CutActs(Acts(custody.files, call), stop);
    }
  }

  lemma RebuildChecks(files: set<File>, call: Application)
    requires call.action == RebuildFinal && Passes(files, call)
    ensures !HasUncertainRebuild(files, call.archived)
    ensures PreparedReceipt(call.generation) in files || PreparedStarted(call.generation) !in files
  {}

  lemma NoneUncertain(files: set<File>, archived: set<string>)
    ensures !HasUncertainRebuild(files, archived) ==>
              forall t :: Started(Name(RebuildFinal, t)) in files && t !in archived ==> Receipt(Name(RebuildFinal, t)) in files
  {}
}
