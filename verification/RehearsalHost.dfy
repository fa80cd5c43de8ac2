// The host program itself: one locked invocation, act by act, dying when its
// steps run out.
module RehearsalHost {
  import opened Options
  import opened RehearsalCustody

  // The acts of a plan performed with only so many steps left.
  function Play(custody: Custody, acts: seq<Act>, steps: nat): Custody
    decreases |acts|
  {
    if acts == [] || steps == 0 then custody else Play(Do(custody, acts[0]), acts[1..], steps - 1)
  }

  lemma {:induction false} PlayIsCut(custody: Custody, acts: seq<Act>, steps: nat)
    ensures Play(custody, acts, steps) == DoAll(custody, Cut(acts, steps))
    decreases |acts|
  {
    if acts != [] && steps > 0 {
      PlayIsCut(Do(custody, acts[0]), acts[1..], steps - 1);
      var cut := Cut(acts, steps);
      assert cut[0] == acts[0] && cut[1..] == Cut(acts[1..], steps - 1);
    }
  }

  lemma PlayFirst(custody: Custody, act: Act, rest: seq<Act>, steps: nat)
    ensures Play(custody, [act] + rest, steps) == if steps == 0 then custody else Play(Do(custody, act), rest, steps - 1)
  {
    assert ([act] + rest)[1..] == rest;
  }

  lemma PlayNothing(custody: Custody, steps: nat)
    ensures Play(custody, [], steps) == custody
  {}

  lemma PlaySave(custody: Custody, files: set<File>, pending: File, file: File, rest: seq<Act>, steps: nat)
    ensures Play(custody, Save(files, pending, file, rest), steps) ==
            if pending in files || steps == 0 then custody
            else if steps == 1 then Do(custody, Create(pending))
            else Play(Do(Do(custody, Create(pending)), Rename(pending, file)), rest, steps - 2)
  {
    if pending !in files {
      assert Save(files, pending, file, rest) == [Create(pending)] + ([Rename(pending, file)] + rest);
      PlayFirst(custody, Create(pending), [Rename(pending, file)] + rest, steps);
      if steps > 0 {
        PlayFirst(Do(custody, Create(pending)), Rename(pending, file), rest, steps - 1);
      }
    }
  }

  lemma DeletionHead(files: set<File>, listing: seq<File>)
    ensures Deletion(files, []) == []
    ensures listing != [] ==>
              Deletion(files, listing) ==
              if listing[0] in files then [Delete(listing[0])] + Deletion(files - {listing[0]}, listing[1..])
              else Deletion(files, listing[1..])
  {}

  class Host {
    var files: set<File>
    // What was begun and removed, for the specification.
    ghost var log: seq<Event>
    // Acts left before the process dies.
    var steps: nat

    constructor ()
      ensures View() == Custody({}, [])
    {
      files, log := {}, [];
    }

    ghost function View(): Custody
      reads this
    {
      Custody(files, log)
    }

    method Perform(act: Act) returns (alive: bool)
      modifies this
      ensures alive == (old(steps) > 0)
      ensures View() == if alive then Do(old(View()), act) else old(View())
      ensures steps == if alive then old(steps) - 1 else 0
    {
      if steps == 0 {
        return false;
      }
      steps := steps - 1;
      match act {
        case Create(file) => files := files + {file};
        case Rename(from, to) => files := files - {from} + {to};
        case Perform(effect) => log := log + [Began(effect)];
        case Delete(file) => files, log := files - {file}, log + [Removed(file)];
      }
      return true;
    }

    // An exclusive temporary file, renamed into place.
    method SaveFile(pending: File, file: File) returns (saved: bool)
      modifies this
      ensures saved == (pending !in old(files) && old(steps) >= 2)
      ensures saved ==> View() == Do(Do(old(View()), Create(pending)), Rename(pending, file)) && steps == old(steps) - 2
      ensures !saved ==> View() == if pending in old(files) || old(steps) == 0 then old(View()) else Do(old(View()), Create(pending))
    {
      if pending in files {
        return false;
      }
      var alive := Perform(Create(pending));
      if alive {
        alive := Perform(Rename(pending, file));
      }
      return alive;
    }

    method EmitRefusal(call: Application, kind: Kind)
      modifies this
      ensures View() == Play(old(View()), Refuse(call, kind), old(steps))
    {
      PlayNothing(View(), steps);
      if IsDigest(call.attempt) && IsDigest(call.binding) {
        var file := Refused(call.action, call.attempt, call.binding, kind);
        PlayFirst(View(), Create(file), [], steps);
        assert [Create(file)] + [] == [Create(file)];
        var alive := Perform(Create(file));
        PlayNothing(View(), steps);
      }
    }

    // The marker, the effect, and what it publishes. The files of the start of
    // the invocation are those the plan was made from.
    method RunEffect(call: Application, ghost start: set<File>)
      requires forall file :: file in files && file !in start ==> file.PreparedStarted? || file.PreparedReceipt?
      requires forall file :: file in start && (file.OutcomePending? || file.ReceiptPending?) ==> file in files
      modifies this
      ensures View() == Play(old(View()), Effectuate(start, call), old(steps))
    {
      hide Play, Save, IsDigest;
      var name := NameOf(call.action, call.attempt);
      ghost var publish := Save(start, ReceiptPending(name), Receipt(name), []);
      ghost var rest := if call.action == ValidateBusiness
      then Save(start, OutcomePending(name), Outcome(name), if call.answers.confirmed then publish else [])
      else publish;
      assert Effectuate(start, call) == [Create(Started(name))] + ([Act.Perform(Ran(call.action, call.attempt, call.binding))] + rest);
      PlayFirst(View(), Create(Started(name)), [Act.Perform(Ran(call.action, call.attempt, call.binding))] + rest, steps);
      var alive := Perform(Create(Started(name)));
      if !alive {
        return;
      }
      PlayFirst(View(), Act.Perform(Ran(call.action, call.attempt, call.binding)), rest, steps);
      alive := Perform(Act.Perform(Ran(call.action, call.attempt, call.binding)));
      if !alive {
        return;
      }
      if call.action == ValidateBusiness {
        PlaySave(View(), start, OutcomePending(name), Outcome(name), if call.answers.confirmed then publish else [], steps);
        alive := SaveFile(OutcomePending(name), Outcome(name));
        PlayNothing(View(), steps);
        if !alive || !call.answers.confirmed {
          return;
        }
      }
      PlaySave(View(), start, ReceiptPending(name), Receipt(name), [], steps);
      alive := SaveFile(ReceiptPending(name), Receipt(name));
      PlayNothing(View(), steps);
    }

    // The checks after the rebuild runtime is prepared, and the rebuild.
    method RunRebuild(call: Application, ghost start: set<File>)
      requires forall file :: file in files && file !in start ==> file.PreparedStarted? || file.PreparedReceipt?
      requires forall file :: file in start && (file.OutcomePending? || file.ReceiptPending?) ==> file in files
      modifies this
      ensures View() == Play(old(View()), Rebuild(start, call), old(steps))
    {
      hide Play, Refuse, Effectuate;
      if call.answers.raised {
        EmitRefusal(call, RebuildPrecheck);
        return;
      }
      if !call.answers.supported {
        EmitRefusal(call, Artifact);
        return;
      }
      if !call.answers.roomy {
        EmitRefusal(call, RebuildCapacity);
        return;
      }
      RunEffect(call, start);
    }

    method RunPrepareRebuild(call: Application)
      modifies this
      ensures View() == Play(old(View()), PrepareRebuild(old(files), call), old(steps))
    {
      hide Play, Refuse, Rebuild, Save, HasUncertainRebuild, IsDigest;
      ghost var start := files;
      var generation := call.generation;
      PlayNothing(View(), steps);
      if !IsDigest(generation) {
        return;
      }
      if HasUncertainRebuild(files, call.archived) || PreparedPending(generation) in files {
        EmitRefusal(call, RebuildPrecheck);
        return;
      }
      if PreparedReceipt(generation) in files {
        if call.answers.reusable {
          RunRebuild(call, start);
        } else {
          EmitRefusal(call, RebuildPrecheck);
        }
        return;
      }
      if PreparedStarted(generation) in files {
        EmitRefusal(call, RebuildPrecheck);
        return;
      }
      ghost var rest := Save(start, PreparedPending(generation), PreparedReceipt(generation), Rebuild(start, call));
      assert [Create(PreparedStarted(generation)), Act.Perform(RanPreparation(generation))] + rest
          == [Create(PreparedStarted(generation))] + ([Act.Perform(RanPreparation(generation))] + rest);
      PlayFirst(View(), Create(PreparedStarted(generation)), [Act.Perform(RanPreparation(generation))] + rest, steps);
      var alive := Perform(Create(PreparedStarted(generation)));
      if !alive {
        return;
      }
      PlayFirst(View(), Act.Perform(RanPreparation(generation)), rest, steps);
      alive := Perform(Act.Perform(RanPreparation(generation)));
      if !alive {
        return;
      }
      PlaySave(View(), start, PreparedPending(generation), PreparedReceipt(generation), Rebuild(start, call), steps);
      alive := SaveFile(PreparedPending(generation), PreparedReceipt(generation));
      if !alive {
        return;
      }
      RunRebuild(call, start);
    }

    // A full disposal deletes what it lists, file by file.
    method DeleteListed(listing: seq<File>)
      modifies this
      ensures View() == Play(old(View()), Deletion(old(files), listing), old(steps))
    {
      hide Play, Deletion;
      ghost var goal := Play(View(), Deletion(files, listing), steps);
      assert listing[0..] == listing;
      for i := 0 to |listing|
        invariant goal == Play(View(), Deletion(files, listing[i..]), steps)
      {
        assert listing[i..][0] == listing[i] && listing[i..][1..] == listing[i + 1..];
        DeletionHead(files, listing[i..]);
        if listing[i] in files {
          PlayFirst(View(), Delete(listing[i]), Deletion(files - {listing[i]}, listing[i + 1..]), steps);
          var alive := Perform(Delete(listing[i]));
          if !alive {
            return;
          }
        }
      }
      assert listing[|listing|..] == [];
      DeletionHead(files, []);
      PlayNothing(View(), steps);
    }

    // One invocation under the lock.
    method RunLocked(call: Call)
      modifies this
      ensures View() == Invoke(old(View()), call, old(steps))
    {
      hide Play, Refuse, Effectuate, PrepareRebuild, Save, HasRefusal, Cut, DoAll, Deletion;
      PlayIsCut(View(), Acts(files, call), steps);
      PlayNothing(View(), steps);
      ghost var start := files;
      if call.Dispose? {
        if call.disposal.Full? {
          DeleteListed(call.listing);
        }
        return;
      }
      var name := NameOf(call.action, call.attempt);
      if call.Observe? {
        if Receipt(name) !in files && call.action == ValidateBusiness && Outcome(name) in files
           && call.lockHeld && call.answers.confirmed
        {
          PlaySave(View(), files, ReceiptPending(name), Receipt(name), [], steps);
          var saved := SaveFile(ReceiptPending(name), Receipt(name));
          PlayNothing(View(), steps);
        }
        return;
      }
      if Receipt(name) in files || Started(name) in files || HasRefusal(files, call.action, call.attempt, call.binding) {
        return;
      }
      if call.action == Prepare {
        RunEffect(call, start);
        return;
      }
      if call.action == RebuildFinal {
        if !call.answers.abandoned {
          EmitRefusal(call, RebuildPrecheck);
        } else {
          RunPrepareRebuild(call);
        }
        return;
      }
      var why := RefusalOf(call.action, call.answers);
      if why.Some? {
        EmitRefusal(call, why.value);
        return;
      }
      RunEffect(call, start);
    }
  }
}
