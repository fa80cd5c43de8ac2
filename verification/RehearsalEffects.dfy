// Host effects run at most once, over every sequence of locked invocations
// that may each die after any act, until a full disposal removes their marker.
module RehearsalEffects {
  import opened Options
  import opened RehearsalCustody

  // ----- the invariant -----

  // The file that marks the receipt action, or the preparation, of an effect.
  function MarkerOf(effect: Effect): File {
    match effect
    case Ran(action, attempt, _) => Started(NameOf(action, attempt))
    case RanPreparation(generation) => PreparedStarted(generation)
  }

  // An event that begins work under this marker.
  predicate Begins(event: Event, marker: File) { event.Began? && MarkerOf(event.effect) == marker }

  ghost predicate HasRun(log: seq<Event>, marker: File) { exists i :: 0 <= i < |log| && Begins(log[i], marker) }

  predicate RemovedBetween(log: seq<Event>, i: int, j: int, file: File) {
    exists k :: 0 <= k < |log| && i < k < j && log[k] == Removed(file)
  }

  // Work begun twice has had its marker removed in between.
  ghost predicate AtMostOnce(log: seq<Event>) {
    forall i, j, marker :: 0 <= i < j < |log| && Begins(log[i], marker) && Begins(log[j], marker) ==> RemovedBetween(log, i, j, marker)
  }

  // Whatever was begun under this marker, the marker has been removed since.
  ghost predicate Forgotten(log: seq<Event>, marker: File) {
    forall i :: 0 <= i < |log| && Begins(log[i], marker) ==> RemovedBetween(log, i, |log|, marker)
  }

  // The work that a marker, a receipt or an outcome belongs to.
  function WorkOf(file: File): File {
    match file
    case Receipt(name) => Started(name)
    case ReceiptPending(name) => Started(name)
    case Outcome(name) => Started(name)
    case OutcomePending(name) => Started(name)
    case PreparedReceipt(generation) => PreparedStarted(generation)
    case PreparedPending(generation) => PreparedStarted(generation)
    case _ => file
  }

  // What the presence of a file says about its marker and about the log.
  ghost predicate Sound(custody: Custody, file: File) {
    if file.Refused? then
      && IsDigest(file.attempt) && IsDigest(file.binding)
      && (forall i :: 0 <= i < |custody.log| && custody.log[i] == Began(Ran(file.action, file.attempt, file.binding)) ==>
            RemovedBetween(custody.log, i, |custody.log|, Started(NameOf(file.action, file.attempt))))
    else if WorkOf(file) == file then true
    else HasRun(custody.log, WorkOf(file)) && (WorkOf(file) in custody.files || Removed(WorkOf(file)) in custody.log)
  }

  ghost predicate Inv(custody: Custody) {
    && (forall file :: file in custody.files ==> Sound(custody, file))
    && (forall i :: 0 <= i < |custody.log| && custody.log[i].Began? ==>
          var marker := MarkerOf(custody.log[i].effect); marker in custody.files || RemovedBetween(custody.log, i, |custody.log|, marker))
    && AtMostOnce(custody.log)
    && (forall a, t, b, k, k' :: Refused(a, t, b, k) in custody.files && Refused(a, t, b, k') in custody.files ==> k == k')
  }

  // ----- acts that keep it -----

  ghost predicate Enabled(custody: Custody, act: Act) {
    match act
    case Create(file) =>
      Sound(custody, file) && !file.Receipt? && !file.Outcome? && !file.PreparedReceipt?
      && (file.Refused? ==> forall k :: Refused(file.action, file.attempt, file.binding, k) !in custody.files)
    case Rename(from, to) =>
      from in custody.files
      && ((from.ReceiptPending? && to == Receipt(from.name)) || (from.OutcomePending? && to == Outcome(from.name))
          || (from.PreparedPending? && to == PreparedReceipt(from.generation)))
    case Perform(effect) =>
      && MarkerOf(effect) in custody.files && Forgotten(custody.log, MarkerOf(effect))
      && (effect.Ran? ==> forall k :: Refused(effect.action, effect.attempt, effect.binding, k) !in custody.files)
    case Delete(_) => true
  }

  lemma RemovalsGrow(log: seq<Event>, event: Event)
    ensures forall i, j, file :: j <= |log| && RemovedBetween(log, i, j, file) ==> RemovedBetween(log + [event], i, j, file)
    ensures forall i, file :: (RemovedBetween(log, i, |log|, file) || (i < |log| && event == Removed(file))) ==>
                                RemovedBetween(log + [event], i, |log| + 1, file)
  {
    var longer := log + [event];
    assert longer[|log|] == event;
    assert forall k :: 0 <= k < |log| ==> longer[k] == log[k];
    forall i, file | RemovedBetween(log, i, |log|, file) || (i < |log| && event == Removed(file))
      ensures RemovedBetween(longer, i, |log| + 1, file)
    {
      var k := if i < |log| && event == Removed(file) then |log| else
        var k :| 0 <= k < |log| && i < k < |log| && log[k] == Removed(file); k;
      assert longer[k] == Removed(file);
    }
  }

  lemma RunGrows(log: seq<Event>, event: Event, marker: File)
    ensures HasRun(log, marker) ==> HasRun(log + [event], marker)
  {
    if HasRun(log, marker) {
      var i :| 0 <= i < |log| && Begins(log[i], marker);
      assert Begins((log + [event])[i], marker);
    }
  }

  // What a file says stays true of a longer log.
  lemma SoundGrows(custody: Custody, event: Event, file: File)
    requires Sound(custody, file) && (file.Refused? ==> event != Began(Ran(file.action, file.attempt, file.binding)))
    ensures Sound(Custody(custody.files - (if event.Removed? then {event.file} else {}), custody.log + [event]), file)
  {
    hide RemovedBetween, HasRun, IsDigest;
    var log, longer := custody.log, custody.log + [event];
    if file.Refused? {
      var marker := Started(NameOf(file.action, file.attempt));
      forall i | 0 <= i < |longer| && longer[i] == Began(Ran(file.action, file.attempt, file.binding))
        ensures RemovedBetween(longer, i, |longer|, marker)
      {
        RemovalsGrow(log, event);
      }
    } else if WorkOf(file) != file {
      RunGrows(log, event, WorkOf(file));
      assert longer[|log|] == event;
    }
  }

  lemma OnceGrows(log: seq<Event>, event: Event)
    requires AtMostOnce(log) && (event.Began? ==> Forgotten(log, MarkerOf(event.effect)))
    ensures AtMostOnce(log + [event])
  {
    hide RemovedBetween;
    var longer := log + [event];
    forall i, j, marker | 0 <= i < j < |longer| && Begins(longer[i], marker) && Begins(longer[j], marker)
      ensures RemovedBetween(longer, i, j, marker)
    {
      RemovalsGrow(log, event);
    }
  }

  // An event is logged; a removal also takes the file away.
  lemma LoggingKeeps(custody: Custody, event: Event)
    requires Inv(custody)
    requires event.Began? ==> Enabled(custody, Perform(event.effect))
    ensures Inv(Do(custody, if event.Began? then Perform(event.effect) else Delete(event.file)))
  {
    hide RemovedBetween, Sound, AtMostOnce, Forgotten;
    var later := Do(custody, if event.Began? then Perform(event.effect) else Delete(event.file));
    var log := custody.log;
    OnceGrows(log, event);
    forall file | file in later.files
      ensures Sound(later, file)
    {
      SoundGrows(custody, event, file);
      assert later.files == custody.files - (if event.Removed? then {event.file} else {});
    }
    forall i | 0 <= i < |later.log| && later.log[i].Began?
      ensures var marker := MarkerOf(later.log[i].effect); marker in later.files || RemovedBetween(later.log, i, |later.log|, marker)
    {
      var marker := MarkerOf(later.log[i].effect);
      if i < |log| {
        RemovalsGrow(log, event);
        assert marker in custody.files || RemovedBetween(log, i, |log|, marker);
        assert RemovedBetween(log, i, |log|, marker) || event == Removed(marker) ==> RemovedBetween(log + [event], i, |log| + 1, marker);
      }
      assert later.log == log + [event] && |later.log| == |log| + 1;
    }
  }

  lemma FilesKeep(custody: Custody, files: set<File>)
    requires Inv(custody) && forall file :: file in custody.files && WorkOf(file) == file ==> file in files
    requires forall file :: file in files ==> Sound(custody, file)
    requires forall a, t, b, k, k' :: Refused(a, t, b, k) in files && Refused(a, t, b, k') in files ==> k == k'
    ensures Inv(custody.(files := files))
  {
    hide RemovedBetween, HasRun, AtMostOnce, IsDigest;
    assert forall file :: file in files ==> Sound(custody.(files := files), file);
  }

  lemma EnabledKeeps(custody: Custody)
    requires Inv(custody)
    ensures forall act :: Enabled(custody, act) ==> Inv(Do(custody, act))
  {
    forall act | Enabled(custody, act)
      ensures Inv(Do(custody, act))
    {
      match act
      case Perform(effect) => LoggingKeeps(custody, Began(effect));
      case Delete(file) => LoggingKeeps(custody, Removed(file));
      case Create(file) => FilesKeep(custody, custody.files + {file});
      case Rename(from, to) =>
        assert Sound(custody, from);
        FilesKeep(custody, custody.files - {from} + {to});
    }
  }

  ghost predicate Legal(custody: Custody, acts: seq<Act>)
    decreases |acts|
  {
    acts == [] || (Enabled(custody, acts[0]) && Legal(Do(custody, acts[0]), acts[1..]))
  }

  lemma {:induction false} LegalKeeps(custody: Custody, acts: seq<Act>)
    requires Inv(custody) && Legal(custody, acts)
    ensures forall n: nat :: n <= |acts| ==> Inv(DoAll(custody, acts[..n]))
    decreases |acts|
  {
    hide Inv, Enabled;
    if acts != [] {
      EnabledKeeps(custody);
      LegalKeeps(Do(custody, acts[0]), acts[1..]);
    }
    forall n: nat | n <= |acts|
      ensures Inv(DoAll(custody, acts[..n]))
    {
      if n > 0 {
        assert acts[..n][1..] == acts[1..][..n - 1];
      }
    }
  }

  lemma LegalFirst(custody: Custody, act: Act, rest: seq<Act>)
    ensures Enabled(custody, act) && Legal(Do(custody, act), rest) ==> Legal(custody, [act] + rest)
  {
    if Enabled(custody, act) && Legal(Do(custody, act), rest) {
      assert ([act] + rest)[1..] == rest;
    }
  }

  lemma LegalSave(custody: Custody, files: set<File>, pending: File, file: File, rest: seq<Act>)
    requires pending !in files ==>
               && Enabled(custody, Create(pending)) && Enabled(Do(custody, Create(pending)), Rename(pending, file))
               && Legal(Do(Do(custody, Create(pending)), Rename(pending, file)), rest)
    ensures Legal(custody, Save(files, pending, file, rest))
  {
    hide Enabled;
    if pending !in files {
      LegalFirst(Do(custody, Create(pending)), Rename(pending, file), rest);
      LegalFirst(custody, Create(pending), [Rename(pending, file)] + rest);
      assert Save(files, pending, file, rest) == [Create(pending)] + ([Rename(pending, file)] + rest);
    }
  }

  // ----- the acts of an invocation are legal -----

  lemma AllKinds(kind: Kind)
    ensures kind in KINDS
  {
    match kind
    case Artifact => assert KINDS[0] == kind;
    case Capacity => assert KINDS[1] == kind;
    case RebuildCapacity => assert KINDS[2] == kind;
    case RebuildPrecheck => assert KINDS[3] == kind;
    case Precheck => assert KINDS[4] == kind;
  }

  // What holds while an invocation has not reached its own marker: the
  // receipt action is fresh and no refusal of this attempt and binding exists.
  ghost predicate Fresh(custody: Custody, call: Application) {
    && Inv(custody)
    && Started(NameOf(call.action, call.attempt)) !in custody.files
    && (forall k :: Refused(call.action, call.attempt, call.binding, k) !in custody.files)
  }

  lemma FreshAtStart(custody: Custody, call: Application)
    requires Inv(custody) && Started(NameOf(call.action, call.attempt)) !in custody.files
    requires !HasRefusal(custody.files, call.action, call.attempt, call.binding)
    ensures Fresh(custody, call)
  {
    forall k
      ensures Refused(call.action, call.attempt, call.binding, k) !in custody.files
    {
      AllKinds(k);
      assert Refused(call.action, call.attempt, call.binding, k) in custody.files ==>
          Sound(custody, Refused(call.action, call.attempt, call.binding, k));
    }
  }

  // Without its marker, work that was begun has had the marker removed.
  lemma Unmarked(custody: Custody, marker: File)
    ensures Inv(custody) && marker !in custody.files ==> Forgotten(custody.log, marker)
  {}

  lemma RefuseIsLegal(custody: Custody, call: Application, kind: Kind)
    ensures Fresh(custody, call) ==> Legal(custody, Refuse(call, kind))
  {
    hide Inv, HasRun;
    if Fresh(custody, call) {
      Unmarked(custody, Started(NameOf(call.action, call.attempt)));
      if IsDigest(call.attempt) && IsDigest(call.binding) {
        LegalFirst(custody, Create(Refused(call.action, call.attempt, call.binding, kind)), []);
      }
    }
  }

  ghost predicate Recorded(custody: Custody, marker: File) {
    HasRun(custody.log, marker) && (marker in custody.files || Removed(marker) in custody.log)
  }

  // A saved receipt or outcome of a marked and begun receipt action.
  lemma SaveIsLegal(custody: Custody, files: set<File>, name: Name, outcome: bool, rest: seq<Act>)
    requires Recorded(custody, Started(name))
    requires var pending, file := if outcome then OutcomePending(name) else ReceiptPending(name), if outcome then Outcome(name) else Receipt(name);
             Legal(Do(Do(custody, Create(pending)), Rename(pending, file)), rest)
    ensures Legal(custody, Save(files, if outcome then OutcomePending(name) else ReceiptPending(name),
                                if outcome then Outcome(name) else Receipt(name), rest))
  {
    hide HasRun, Legal;
    var pending, file := if outcome then OutcomePending(name) else ReceiptPending(name), if outcome then Outcome(name) else Receipt(name);
    LegalSave(custody, files, pending, file, rest);
  }

  lemma EffectuateIsLegal(custody: Custody, files: set<File>, call: Application)
    requires Fresh(custody, call)
    ensures Legal(custody, Effectuate(files, call))
  {
    hide Inv, Legal, Save, HasRun;
    var name := NameOf(call.action, call.attempt);
    var effect := Ran(call.action, call.attempt, call.binding);
    var publish := Save(files, ReceiptPending(name), Receipt(name), []);
    var marked := Do(custody, Create(Started(name)));
    var begun := Do(marked, Perform(effect));
    BegunHasRun(custody, call);
    var rest := if call.action == ValidateBusiness
    then Save(files, OutcomePending(name), Outcome(name), if call.answers.confirmed then publish else [])
    else publish;
    NothingLeft(begun);
    if call.action == ValidateBusiness {
      var saved := Do(Do(begun, Create(OutcomePending(name))), Rename(OutcomePending(name), Outcome(name)));
      NothingLeft(saved);
      NothingLeft(Do(Do(saved, Create(ReceiptPending(name))), Rename(ReceiptPending(name), Receipt(name))));
      SaveIsLegal(saved, files, name, false, []);
      SaveIsLegal(begun, files, name, true, if call.answers.confirmed then publish else []);
    } else {
      NothingLeft(Do(Do(begun, Create(ReceiptPending(name))), Rename(ReceiptPending(name), Receipt(name))));
      SaveIsLegal(begun, files, name, false, []);
    }
    LegalFirst(marked, Perform(effect), rest);
    LegalFirst(custody, Create(Started(name)), [Perform(effect)] + rest);
    assert Effectuate(files, call) == [Create(Started(name))] + ([Perform(effect)] + rest);
  }

  lemma NothingLeft(custody: Custody)
    ensures Legal(custody, [])
  {}

  lemma BegunHasRun(custody: Custody, call: Application)
    requires Fresh(custody, call)
    ensures var name, effect := NameOf(call.action, call.attempt), Ran(call.action, call.attempt, call.binding);
            var marked := Do(custody, Create(Started(name)));
            && Enabled(custody, Create(Started(name))) && Enabled(marked, Perform(effect))
            && Recorded(Do(marked, Perform(effect)), Started(name))
  {
    hide Inv;
    var name, effect := NameOf(call.action, call.attempt), Ran(call.action, call.attempt, call.binding);
    Unmarked(custody, Started(name));
    var log := Do(Do(custody, Create(Started(name))), Perform(effect)).log;
    assert Begins(log[|log| - 1], Started(name));
  }

  lemma RebuildIsLegal(custody: Custody, files: set<File>, call: Application)
    ensures Fresh(custody, call) ==> Legal(custody, Rebuild(files, call))
  {
    hide Fresh, Legal, Refuse, Effectuate;
    if Fresh(custody, call) {
      RefuseIsLegal(custody, call, RebuildPrecheck);
      RefuseIsLegal(custody, call, Artifact);
      RefuseIsLegal(custody, call, RebuildCapacity);
      EffectuateIsLegal(custody, files, call);
    }
  }

  // Preparing a generation keeps the attempt fresh throughout.
  lemma PreparationIsLegal(custody: Custody, files: set<File>, call: Application)
    requires Fresh(custody, call) && PreparedStarted(call.generation) !in custody.files
    ensures var g := call.generation;
            Legal(custody, [Create(PreparedStarted(g)), Perform(RanPreparation(g))]
                           + Save(files, PreparedPending(g), PreparedReceipt(g), Rebuild(files, call)))
  {
    hide Legal, Save, Rebuild, Inv, Forgotten;
    var g := call.generation;
    var a1, a2, a3, a4 := Create(PreparedStarted(g)), Perform(RanPreparation(g)), Create(PreparedPending(g)),
        Rename(PreparedPending(g), PreparedReceipt(g));
    var c1 := Do(custody, a1);
    var c2 := Do(c1, a2);
    var c3 := Do(c2, a3);
    var c4 := Do(c3, a4);
    Unmarked(custody, PreparedStarted(g));
    assert Begins(c2.log[|c2.log| - 1], PreparedStarted(g));
    assert Enabled(custody, a1) && Enabled(c1, a2) && Enabled(c2, a3) && Enabled(c3, a4);
    EnabledKeeps(custody);
    EnabledKeeps(c1);
    EnabledKeeps(c2);
    EnabledKeeps(c3);
    RebuildIsLegal(c4, files, call);
    LegalSave(c2, files, PreparedPending(g), PreparedReceipt(g), Rebuild(files, call));
    var rest := Save(files, PreparedPending(g), PreparedReceipt(g), Rebuild(files, call));
    LegalFirst(c1, a2, rest);
    LegalFirst(custody, a1, [a2] + rest);
    assert [a1, a2] + rest == [a1] + ([a2] + rest);
  }

  lemma PrepareRebuildIsLegal(custody: Custody, call: Application)
    ensures Fresh(custody, call) ==> Legal(custody, PrepareRebuild(custody.files, call))
  {
    hide Fresh, Legal, Refuse, Rebuild, Save, HasUncertainRebuild;
    if Fresh(custody, call) {
      NothingLeft(custody);
      RefuseIsLegal(custody, call, RebuildPrecheck);
      RebuildIsLegal(custody, custody.files, call);
      if PreparedStarted(call.generation) !in custody.files {
        PreparationIsLegal(custody, custody.files, call);
      }
    }
  }

  lemma ObservationIsLegal(custody: Custody, name: Name)
    requires Inv(custody) && Outcome(name) in custody.files
    ensures Legal(custody, Save(custody.files, ReceiptPending(name), Receipt(name), []))
  {
    assert Sound(custody, Outcome(name));
    hide Inv, HasRun;
    NothingLeft(Do(Do(custody, Create(ReceiptPending(name))), Rename(ReceiptPending(name), Receipt(name))));
    SaveIsLegal(custody, custody.files, name, false, []);
  }

  lemma {:induction false} DeletionIsLegal(custody: Custody, files: set<File>, listing: seq<File>)
    ensures Legal(custody, Deletion(files, listing))
    decreases |listing|
  {
    if listing != [] {
      if listing[0] in files {
        DeletionIsLegal(Do(custody, Delete(listing[0])), files - {listing[0]}, listing[1..]);
        LegalFirst(custody, Delete(listing[0]), Deletion(files - {listing[0]}, listing[1..]));
      } else {
        DeletionIsLegal(custody, files, listing[1..]);
      }
    }
  }

  lemma ActsAreLegal(custody: Custody, call: Call)
    requires Inv(custody)
    ensures Legal(custody, Acts(custody.files, call))
  {
    hide Inv, Legal, Refuse, Effectuate, PrepareRebuild, Save, HasRefusal, Fresh, Deletion;
    NothingLeft(custody);
    if call.Dispose? {
      DeletionIsLegal(custody, custody.files, call.listing);
    } else if call.Observe? {
      var name := NameOf(call.action, call.attempt);
      if Outcome(name) in custody.files {
        ObservationIsLegal(custody, name);
      }
    } else if Started(NameOf(call.action, call.attempt)) !in custody.files
              && !HasRefusal(custody.files, call.action, call.attempt, call.binding) {
      FreshAtStart(custody, call);
      EffectuateIsLegal(custody, custody.files, call);
      PrepareRebuildIsLegal(custody, call);
      RefuseIsLegal(custody, call, RebuildPrecheck);
      var why := RefusalOf(call.action, call.answers);
      if why.Some? {
        RefuseIsLegal(custody, call, why.value);
      }
    }
  }

  lemma InvokeKeeps(custody: Custody, call: Call)
    requires Inv(custody)
    ensures forall stop: nat :: Inv(Invoke(custody, call, stop))
  {
    hide Inv, Acts, Legal;
    ActsAreLegal(custody, call);
    var acts := Acts(custody.files, call);
    LegalKeeps(custody, acts);
    forall stop: nat
      ensures Inv(Invoke(custody, call, stop))
    {
      assert acts[..|acts|] == acts;
      assert Cut(acts, stop) == acts[..if stop < |acts| then stop else |acts|];
    }
  }

  lemma {:induction false} RunKeeps(calls: seq<(Call, nat)>)
    ensures Inv(Run(calls))
  {
    if calls != [] {
      RunKeeps(calls[..|calls| - 1]);
      hide Inv, Invoke;
      InvokeKeeps(Run(calls[..|calls| - 1]), calls[|calls| - 1].0);
    }
  }

  // ----- what acts leave in the log -----

  predicate Logs(act: Act, event: Event) {
    if event.Began? then act == Perform(event.effect) else act == Delete(event.file)
  }

  predicate LoggedSince(custody: Custody, later: Custody, event: Event) {
    exists n :: |custody.log| <= n < |later.log| && later.log[n] == event
  }

  // The log grows by exactly the effects begun and the files deleted.
  lemma {:induction false} ActsLog(custody: Custody, acts: seq<Act>)
    ensures custody.log <= DoAll(custody, acts).log
    ensures forall event :: LoggedSince(custody, DoAll(custody, acts), event) <==> exists act :: act in acts && Logs(act, event)
    decreases |acts|
  {
    if acts != [] {
      var next, later := Do(custody, acts[0]), DoAll(custody, acts);
      ActsLog(next, acts[1..]);
      assert acts == [acts[0]] + acts[1..];
      forall event
        ensures LoggedSince(custody, later, event) <==> exists act :: act in acts && Logs(act, event)
      {
        if LoggedSince(custody, later, event) {
          var n :| |custody.log| <= n < |later.log| && later.log[n] == event;
          if n >= |next.log| {
            assert LoggedSince(next, later, event);
          } else {
            assert next.log[n] == event && Logs(acts[0], event) && acts[0] in acts;
          }
        }
        if Logs(acts[0], event) {
          assert next.log[|custody.log|] == event && later.log[|custody.log|] == event;
        }
        if LoggedSince(next, later, event) {
          var n :| |next.log| <= n < |later.log| && later.log[n] == event;
          assert |custody.log| <= n;
        }
      }
    }
  }

  lemma CutActs(acts: seq<Act>, stop: nat)
    ensures forall act :: act in Cut(acts, stop) ==> act in acts
  {}

  // ----- over whole runs -----

  ghost predicate NoFullDisposal(calls: seq<(Call, nat)>) {
    forall c :: 0 <= c < |calls| && calls[c].0.Dispose? ==> !calls[c].0.disposal.Full?
  }

  lemma {:induction false} DeletionDeletes(files: set<File>, listing: seq<File>)
    ensures forall act :: act in Deletion(files, listing) <==> act.Delete? && act.file in files && act.file in listing
    decreases |listing|
  {
    if listing != [] {
      assert listing == [listing[0]] + listing[1..];
      DeletionDeletes(files, listing[1..]);
      DeletionDeletes(files - {listing[0]}, listing[1..]);
    }
  }

  // An act that neither deletes nor renames a refusal.
  predicate IsPlain(act: Act) { !act.Delete? && (act.Rename? ==> !act.from.Refused? && !act.to.Refused?) }

  lemma EffectuateIsPlain(files: set<File>, call: Application)
    ensures forall act :: act in Effectuate(files, call) ==> IsPlain(act)
  {}

  lemma PrepareRebuildIsPlain(files: set<File>, call: Application)
    ensures forall act :: act in PrepareRebuild(files, call) ==> IsPlain(act)
  {
    hide Effectuate, HasUncertainRebuild, IsDigest;
    EffectuateIsPlain(files, call);
  }

  lemma OnlyDisposalsDelete(files: set<File>, call: Call)
    ensures !call.Dispose? ==> forall act :: act in Acts(files, call) ==> IsPlain(act)
  {
    hide HasRefusal, Effectuate, PrepareRebuild, IsDigest;
    if !call.Dispose? {
      if call.Apply? {
        EffectuateIsPlain(files, call);
        PrepareRebuildIsPlain(files, call);
      }
    }
  }

  // Only a full disposal removes a file, and only one that was listed.
  lemma {:induction false} RemovalsAreDisposals(calls: seq<(Call, nat)>, file: File)
    requires Removed(file) in Run(calls).log
    ensures exists c :: 0 <= c < |calls| && calls[c].0.Dispose? && calls[c].0.disposal.Full? && file in calls[c].0.listing
  {
    hide Acts;
    var front, last := calls[..|calls| - 1], calls[|calls| - 1];
    var before := Run(front);
    if Removed(file) in before.log {
      RemovalsAreDisposals(front, file);
      var c :| 0 <= c < |front| && front[c].0.Dispose? && front[c].0.disposal.Full? && file in front[c].0.listing;
      assert calls[c] == front[c];
    } else {
      ActsLog(before, Cut(Acts(before.files, last.0), last.1));
      CutActs(Acts(before.files, last.0), last.1);
      assert LoggedSince(before, Run(calls), Removed(file));
      DeletesInCall(before.files, last.0);
      assert calls[|calls| - 1].0 == last.0;
    }
  }

  lemma DeletesInCall(files: set<File>, call: Call)
    ensures forall file :: Delete(file) in Acts(files, call) ==> call.Dispose? && call.disposal.Full? && file in call.listing && file in files
  {
    hide LockedActs, Deletion;
    if call.Dispose? {
      DeletionDeletes(files, call.listing);
    } else {
      OnlyDisposalsDelete(files, call);
    }
  }

  lemma BegunTwice(custody: Custody, i: nat, j: nat)
    requires Inv(custody) && i < j < |custody.log| && custody.log[i].Began? && custody.log[j].Began?
    requires MarkerOf(custody.log[i].effect) == MarkerOf(custody.log[j].effect)
    ensures RemovedBetween(custody.log, i, j, MarkerOf(custody.log[i].effect))
    ensures Removed(MarkerOf(custody.log[i].effect)) in custody.log
  {
    hide Sound;
    var marker := MarkerOf(custody.log[i].effect);
    assert Begins(custody.log[i], marker) && Begins(custody.log[j], marker);
  }

  // Over every run, work that begins twice, a receipt action or the
  // preparation of a generation, has had its marker removed in between, by a
  // full disposal that listed it.
  lemma {:induction false} RepeatsFollowRemoval(calls: seq<(Call, nat)>)
    ensures var log := Run(calls).log;
            forall i, j, marker :: 0 <= i < j < |log| && Begins(log[i], marker) && Begins(log[j], marker) ==>
              && RemovedBetween(log, i, j, marker)
              && exists c :: 0 <= c < |calls| && calls[c].0.Dispose? && calls[c].0.disposal.Full? && marker in calls[c].0.listing
  {
    hide Run, RemovedBetween, Inv;
    RunKeeps(calls);
    var log := Run(calls).log;
    forall i: nat, j: nat, marker | i < j < |log| && Begins(log[i], marker) && Begins(log[j], marker)
      ensures RemovedBetween(log, i, j, marker)
      ensures exists c :: 0 <= c < |calls| && calls[c].0.Dispose? && calls[c].0.disposal.Full? && marker in calls[c].0.listing
    {
      BegunTwice(Run(calls), i, j);
      RemovalsAreDisposals(calls, marker);
    }
  }

  // Without a full disposal each receipt action begins its effect at most
  // once, and each rebuild generation is prepared at most once.
  lemma {:induction false} EffectsRunAtMostOnce(calls: seq<(Call, nat)>)
    requires NoFullDisposal(calls)
    ensures var log := Run(calls).log;
            forall i, j :: 0 <= i < j < |log| ==>
                             log[i].Began? && log[j].Began? && MarkerOf(log[i].effect) != MarkerOf(log[j].effect)
  {
    hide Run, Inv;
    NothingRemoved(calls);
    RunKeeps(calls);
    var log := Run(calls).log;
    forall i: nat, j: nat | i < j < |log|
      ensures MarkerOf(log[i].effect) != MarkerOf(log[j].effect)
    {
      var marker := MarkerOf(log[i].effect);
      assert Begins(log[i], marker);
      if Begins(log[j], marker) {
        BegunTwice(Run(calls), i, j);
      }
    }
  }

  lemma {:induction false} NothingRemoved(calls: seq<(Call, nat)>)
    requires NoFullDisposal(calls)
    ensures forall i :: 0 <= i < |Run(calls).log| ==> Run(calls).log[i].Began?
  {
    hide Run;
    var log := Run(calls).log;
    forall i | 0 <= i < |log|
      ensures log[i].Began?
    {
      if log[i].Removed? {
        RemovalsAreDisposals(calls, log[i].file);
      }
    }
  }

  // A receipt exists only after its effect began; its marker is there too,
  // unless a full disposal has removed it.
  lemma {:induction false} ReceiptsHaveMarkers(calls: seq<(Call, nat)>)
    ensures forall name :: Receipt(name) in Run(calls).files ==>
                             && HasRun(Run(calls).log, Started(name))
                             && (Started(name) in Run(calls).files || Removed(Started(name)) in Run(calls).log)
                             && (NoFullDisposal(calls) ==> Started(name) in Run(calls).files)
  {
    hide Run;
    RunKeeps(calls);
    assert forall name :: Receipt(name) in Run(calls).files ==> Sound(Run(calls), Receipt(name));
    if NoFullDisposal(calls) {
      NothingRemoved(calls);
    }
  }

  // ----- refusals -----

  // Nothing but a deletion takes a refusal away.
  lemma {:induction false} RefusalStays(custody: Custody, acts: seq<Act>, file: File)
    requires file in custody.files && file.Refused? && forall act :: act in acts && act.Rename? ==> !act.from.Refused?
    ensures file in DoAll(custody, acts).files || LoggedSince(custody, DoAll(custody, acts), Removed(file))
    decreases |acts|
  {
    ActsLog(custody, acts);
    if acts != [] && acts[0] == Delete(file) {
      assert acts[0] in acts && Logs(acts[0], Removed(file));
    } else if acts != [] {
      RefusalStays(Do(custody, acts[0]), acts[1..], file);
      ActsLog(Do(custody, acts[0]), acts[1..]);
      if LoggedSince(Do(custody, acts[0]), DoAll(custody, acts), Removed(file)) {
        var act :| act in acts[1..] && Logs(act, Removed(file));
        assert act in acts;
      }
    }
  }

  // The one place where a receipt action begins its effect.
  lemma EffectActs(files: set<File>, call: Call, effect: Effect)
    requires Perform(effect) in Acts(files, call) && effect.Ran?
    ensures call.Apply? && effect == Ran(call.action, call.attempt, call.binding)
    ensures Started(NameOf(call.action, call.attempt)) !in files && !HasRefusal(files, call.action, call.attempt, call.binding)
  {
    hide HasRefusal, HasUncertainRebuild, IsDigest, Deletion;
    if call.Dispose? {
      DeletionDeletes(files, call.listing);
    }
  }

  // One invocation leaves a refusal or removes it, and does not begin the
  // refused effect while the refusal is there.
  lemma RefusalHolds(custody: Custody, call: Call, stop: nat, file: File)
    requires Inv(custody) && file in custody.files && file.Refused?
    ensures var later := Invoke(custody, call, stop);
            && (file in later.files || LoggedSince(custody, later, Removed(file)))
            && !LoggedSince(custody, later, Began(Ran(file.action, file.attempt, file.binding)))
  {
    hide Acts, Inv, HasRefusal;
    var acts, effect := Acts(custody.files, call), Ran(file.action, file.attempt, file.binding);
    CutActs(acts, stop);
    RenamesNoRefusal(custody.files, call);
    RefusalStays(custody, Cut(acts, stop), file);
    ActsLog(custody, Cut(acts, stop));
    if Perform(effect) in acts {
      EffectActs(custody.files, call, effect);
      SeenRefusal(custody, file);
    }
  }

  lemma SeenRefusal(custody: Custody, file: File)
    ensures Inv(custody) && file in custody.files && file.Refused? ==>
              HasRefusal(custody.files, file.action, file.attempt, file.binding)
  {
    if Inv(custody) && file in custody.files && file.Refused? {
      assert Sound(custody, file);
      AllKinds(file.kind);
    }
  }

  lemma RenamesNoRefusal(files: set<File>, call: Call)
    ensures forall act :: act in Acts(files, call) && act.Rename? ==> !act.from.Refused? && !act.to.Refused?
  {
    hide LockedActs, Deletion;
    if call.Dispose? {
      DeletionDeletes(files, call.listing);
    } else {
      OnlyDisposalsDelete(files, call);
    }
  }

  // A moment of the log in which the effect begins or the file is removed.
  predicate LoggedFrom(log: seq<Event>, from: nat, to: int, event: Event) { exists n :: from <= n < to && n < |log| && log[n] == event }

  // From a moment at which an attempt and binding have a refusal file: the
  // effect begins only after a full disposal has removed that file.
  ghost predicate Barred(log: seq<Event>, from: nat, effect: Effect, file: File) {
    forall n :: from <= n < |log| && log[n] == Began(effect) ==> LoggedFrom(log, from, n, Removed(file))
  }

  lemma BarredGrows(custody: Custody, later: Custody, from: nat, effect: Effect, file: File)
    requires custody.log <= later.log && from <= |custody.log| && Barred(custody.log, from, effect, file)
    requires LoggedFrom(custody.log, from, |custody.log|, Removed(file)) || !LoggedSince(custody, later, Began(effect))
    ensures Barred(later.log, from, effect, file)
  {
    forall n | from <= n < |later.log| && later.log[n] == Began(effect)
      ensures LoggedFrom(later.log, from, n, Removed(file))
    {
      if n < |custody.log| {
        var k :| from <= k < n && k < |custody.log| && custody.log[k] == Removed(file);
        assert later.log[k] == Removed(file);
      } else {
        var k :| from <= k < |custody.log| && custody.log[k] == Removed(file);
        assert later.log[k] == Removed(file);
      }
    }
  }

  lemma {:induction false} RefusalBars(calls: seq<(Call, nat)>, more: seq<(Call, nat)>, file: File)
    requires file in Run(calls).files && file.Refused?
    ensures var log, from := Run(calls + more).log, |Run(calls).log|;
            && Run(calls).log <= log
            && (file in Run(calls + more).files || LoggedFrom(log, from, |log|, Removed(file)))
            && Barred(log, from, Ran(file.action, file.attempt, file.binding), file)
  {
    hide Invoke, Barred, Inv;
    if more == [] {
      assert calls + more == calls;
      NothingBarred(Run(calls).log, Ran(file.action, file.attempt, file.binding), file);
    } else {
      var front, last := more[..|more| - 1], more[|more| - 1];
      RefusalBars(calls, front, file);
      assert (calls + more)[..|calls + more| - 1] == calls + front;
      RunKeeps(calls + front);
      BarredThrough(Run(calls + front), last.0, last.1, |Run(calls).log|);
    }
  }

  lemma NothingBarred(log: seq<Event>, effect: Effect, file: File)
    ensures Barred(log, |log|, effect, file)
  {}

  lemma BarredThrough(custody: Custody, call: Call, stop: nat, from: nat)
    requires Inv(custody) && from <= |custody.log|
    ensures var later := Invoke(custody, call, stop);
            forall file: File ::
              && file.Refused? && Barred(custody.log, from, Ran(file.action, file.attempt, file.binding), file)
              && (file in custody.files || LoggedFrom(custody.log, from, |custody.log|, Removed(file))) ==>
                && custody.log <= later.log
                && (file in later.files || LoggedFrom(later.log, from, |later.log|, Removed(file)))
                && Barred(later.log, from, Ran(file.action, file.attempt, file.binding), file)
  {
    hide Inv, Barred, Acts, DoAll, Cut;
    var later := Invoke(custody, call, stop);
    ActsLog(custody, Cut(Acts(custody.files, call), stop));
    forall file: File | && file.Refused? && Barred(custody.log, from, Ran(file.action, file.attempt, file.binding), file)
                        && (file in custody.files || LoggedFrom(custody.log, from, |custody.log|, Removed(file)))
      ensures file in later.files || LoggedFrom(later.log, from, |later.log|, Removed(file))
      ensures Barred(later.log, from, Ran(file.action, file.attempt, file.binding), file)
    {
      if file in custody.files {
        RefusalHolds(custody, call, stop, file);
      }
      BarredGrows(custody, later, from, Ran(file.action, file.attempt, file.binding), file);
    }
  }

  // Once an attempt with its binding has a refusal file, its effect begins
  // only after a full disposal has removed that file, and nothing of it that
  // ran before still had its marker. So without a full disposal it never ran
  // and never will, and the file stays.
  lemma {:induction false} RefusedNeverRuns(calls: seq<(Call, nat)>, more: seq<(Call, nat)>, action: Action, attempt: string, binding: string, kind: Kind)
    requires Refused(action, attempt, binding, kind) in Run(calls).files
    ensures var log, from, refusal := Run(calls + more).log, |Run(calls).log|, Refused(action, attempt, binding, kind);
            && (forall n :: from <= n < |log| && log[n] == Began(Ran(action, attempt, binding)) ==> LoggedFrom(log, from, n, Removed(refusal)))
            && (forall n :: 0 <= n < from && Run(calls).log[n] == Began(Ran(action, attempt, binding)) ==>
                  RemovedBetween(Run(calls).log, n, from, Started(NameOf(action, attempt))))
    ensures NoFullDisposal(calls + more) ==>
              && Began(Ran(action, attempt, binding)) !in Run(calls + more).log
              && Refused(action, attempt, binding, kind) in Run(calls + more).files
  {
    hide Run, RemovedBetween;
    var refusal := Refused(action, attempt, binding, kind);
    RunKeeps(calls);
    assert Sound(Run(calls), refusal);
    RefusalBars(calls, more, refusal);
    if NoFullDisposal(calls + more) {
      NothingRemoved(calls + more);
      NeverBegan(Run(calls).log, Run(calls + more).log, Ran(action, attempt, binding), refusal);
    }
  }

  lemma NeverBegan(early: seq<Event>, log: seq<Event>, effect: Effect, refusal: File)
    requires early <= log && forall i :: 0 <= i < |log| ==> log[i].Began?
    requires forall n :: |early| <= n < |log| && log[n] == Began(effect) ==> LoggedFrom(log, |early|, n, Removed(refusal))
    requires forall n :: 0 <= n < |early| && early[n] == Began(effect) ==> RemovedBetween(early, n, |early|, MarkerOf(effect))
    ensures Began(effect) !in log
  {
    assert forall k :: 0 <= k < |early| ==> early[k] == log[k];
    assert forall n :: 0 <= n < |early| ==> early[n] != Began(effect);
  }

  // One attempt is refused for one reason only.
  lemma {:induction false} RefusedOnce(calls: seq<(Call, nat)>, action: Action, attempt: string, binding: string, kind: Kind, other: Kind)
    requires Refused(action, attempt, binding, kind) in Run(calls).files && Refused(action, attempt, binding, other) in Run(calls).files
    ensures kind == other
  {
    RunKeeps(calls);
  }
}
