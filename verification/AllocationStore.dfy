// The durable side of an allocation: the operation's reservation rows, the
// plan's single progress row, and what may be written to either.
module AllocationStore {
  import opened Options
  import opened AllocationResume

  datatype Receipt = Adopted | RetainedUncertain(originalKey: string, reviewed: nat, phase: Option<Phase>)
  datatype RowState = Running | ReconcileRequired | Completed(receipt: Receipt)

  // `fence` stands for the (record, owner, attempt) triple of one acquisition.
  datatype Row = Row(state: RowState, fence: nat, expires: nat, phase: Option<Phase>)
  datatype Progress = Progress(phase: Option<Phase>, key: string, retained: bool)
  datatype Store = Store(rows: map<string, Row>, progress: Option<Progress>, now: nat, target: Option<string>)

  // The current, unexpired execution lease of `key`.
  predicate Holds(store: Store, key: string, fence: nat) {
    key in store.rows && store.rows[key].state == Running && store.rows[key].fence == fence
    && store.rows[key].expires > store.now
  }

  // `lease.checkpoint_effect`: the first half of a checkpoint.
  function WriteEffect(store: Store, key: string, fence: nat, phase: Phase, lease: nat): Option<Store> {
    if !Holds(store, key, fence) then None
    else Some(store.(rows := store.rows[key := store.rows[key].(phase := Some(phase), expires := store.now + lease)]))
  }

  predicate AcceptsProgress(store: Store, key: string) {
    store.progress.None? || (store.progress.value.key == key && !store.progress.value.retained)
  }

  // `checkpoint_state_volume_progress`: the second half.
  function WriteProgress(store: Store, key: string, fence: nat, phase: Phase): Option<Store> {
    if !Holds(store, key, fence) || store.rows[key].phase != Some(phase) || !AcceptsProgress(store, key) then None
    else Some(store.(progress := Some(Progress(Some(phase), key, false))))
  }

  // `_progress_phase` without and with the reservation's phase as fallback.
  function ProgressPhase(store: Store): Option<Phase> {
    if store.progress.Some? then store.progress.value.phase else None
  }

  function EffectivePhase(store: Store, fallback: Option<Phase>): Option<Phase> {
    if ProgressPhase(store).Some? then ProgressPhase(store) else fallback
  }

  predicate IsRetained(store: Store) { store.progress.Some? && store.progress.value.retained }

  // An allocation that the lane already tracks is never retained.
  predicate MayRetain(store: Store, reservation: Row, ownerOk: bool) {
    var phase := EffectivePhase(store, reservation.phase);
    var application := if phase.Some? then phase.value.application else "";
    ownerOk && store.target != Some(application)
  }

  datatype Retention = Refused | Granted(store: Store, receipt: Receipt)

  type Digest = (string, Row, Option<Phase>) -> nat

  // `retain_state_volume_allocation`, for the reviewed `reservation` and digest.
  function Retain(digest: Digest, store: Store, key: string, reservation: Row, expected: nat, ownerOk: bool): Retention {
    if key !in store.rows || (store.progress.Some? && store.progress.value.key != key) then Refused
    else
      var current := store.rows[key];
      var phase := ProgressPhase(store);
      var supplied := digest(key, reservation, phase);
      if current.state.Completed? then
        var receipt := current.state.receipt;
        if !receipt.RetainedUncertain? then Refused
        else if supplied != expected && !(reservation == current && expected == receipt.reviewed) then Refused
        else if receipt != RetainedUncertain(key, receipt.reviewed, phase)
                || current != reservation.(state := current.state) then Refused
        else if !MayRetain(store, reservation, ownerOk) then Refused
        else Granted(store, receipt)
      else if supplied != expected || current != reservation || current.expires > store.now then Refused
      else if !MayRetain(store, reservation, ownerOk) then Refused
      else
        var receipt := RetainedUncertain(key, expected, phase);
        Granted(store.(rows := store.rows[key := current.(state := Completed(receipt))],
                       progress := Some(Progress(phase, key, true))), receipt)
  }

  // A grant leaves the row and progress that make every later replay agree.
  predicate RetainedAs(store: Store, key: string, row: Row, receipt: Receipt) {
    && key in store.rows && store.rows[key] == row && row.state == Completed(receipt)
    && receipt.RetainedUncertain? && receipt.originalKey == key
    && store.progress == Some(Progress(receipt.phase, key, true))
  }

  lemma GrantRetains(digest: Digest, store: Store, key: string, reservation: Row, expected: nat, ownerOk: bool)
    requires Retain(digest, store, key, reservation, expected, ownerOk).Granted?
    requires key in store.rows && !store.rows[key].state.Completed?
    ensures var granted := Retain(digest, store, key, reservation, expected, ownerOk);
            && RetainedAs(granted.store, key, reservation.(state := Completed(granted.receipt)), granted.receipt)
            && granted.receipt.reviewed == expected
    ensures store.rows[key].expires <= store.now && expected == digest(key, store.rows[key], ProgressPhase(store))
    ensures var phase := EffectivePhase(store, store.rows[key].phase);
            phase.Some? ==> store.target != Some(phase.value.application)
  {}

  // What a first grant asks for: the reviewed row, expired, under the reviewed
  // digest; the progress row of this allocation, if any; a known owner; and an
  // application that the lane does not track.
  predicate IsGrantable(digest: Digest, store: Store, key: string, reservation: Row, expected: nat, ownerOk: bool) {
    var phase := if store.progress.Some? then store.progress.value.phase else None;
    && key in store.rows && store.rows[key] == reservation && reservation.expires <= store.now
    && digest(key, reservation, phase) == expected
    && (store.progress.Some? ==> store.progress.value.key == key)
    && ownerOk
    && store.target != Some(if phase.Some? then phase.value.application else if reservation.phase.Some? then reservation.phase.value.application else "")
  }

  lemma GrantsExactly(digest: Digest, store: Store, key: string, reservation: Row, expected: nat, ownerOk: bool)
    ensures key in store.rows && !store.rows[key].state.Completed? ==>
              (Retain(digest, store, key, reservation, expected, ownerOk).Granted? <==> IsGrantable(digest, store, key, reservation, expected, ownerOk))
  {}

  // A lost answer replays, against the reviewed snapshot or the retained row;
  // it returns the first answer and changes nothing, exactly when the lane's
  // owner and target still allow retention.
  lemma ReplayAgrees(digest: Digest, store: Store, key: string, reservation: Row, expected: nat, receipt: Receipt, ownerOk: bool, fromRow: bool)
    requires RetainedAs(store, key, reservation.(state := Completed(receipt)), receipt)
    requires receipt.reviewed == expected && expected == digest(key, reservation, receipt.phase)
    ensures var shown := if fromRow then store.rows[key] else reservation;
            Retain(digest, store, key, shown, expected, ownerOk) ==
            if MayRetain(store, shown, ownerOk) then Granted(store, receipt) else Refused
  {}

  // The two tables and the clock, written in place.
  class Database {
    var rows: map<string, Row>
    var progress: Option<Progress>
    var now: nat
    var target: Option<string>

    function View(): Store
      reads this
    {
      Store(rows, progress, now, target)
    }

    constructor ()
      ensures View() == Store(map[], None, 0, None)
    {
      rows, progress, now, target := map[], None, 0, None;
    }

    method CheckpointEffect(key: string, fence: nat, phase: Phase, lease: nat) returns (written: bool)
      modifies this`rows
      ensures written == WriteEffect(old(View()), key, fence, phase, lease).Some?
      ensures View() == if written then WriteEffect(old(View()), key, fence, phase, lease).value else old(View())
    {
      if key !in rows {
        return false;
      }
      var current := rows[key];
      if current.state != Running || current.fence != fence || current.expires <= now {
        return false;
      }
      rows := rows[key := current.(phase := Some(phase), expires := now + lease)];
      return true;
    }

    method CheckpointProgress(key: string, fence: nat, phase: Phase) returns (written: bool)
      modifies this`progress
      ensures written == WriteProgress(old(View()), key, fence, phase).Some?
      ensures View() == if written then WriteProgress(old(View()), key, fence, phase).value else old(View())
    {
      if key !in rows || rows[key].state != Running || rows[key].fence != fence || rows[key].expires <= now {
        return false;
      }
      if rows[key].phase != Some(phase) {
        return false;
      }
      if progress.Some? && (progress.value.key != key || progress.value.retained) {
        return false;
      }
      progress := Some(Progress(Some(phase), key, false));
      return true;
    }

    method RetainAllocation(digest: Digest, key: string, reservation: Row, expected: nat, ownerOk: bool)
      returns (receipt: Option<Receipt>)
      modifies this`rows, this`progress
      ensures var answer := Retain(digest, old(View()), key, reservation, expected, ownerOk);
              && receipt == (if answer.Granted? then Some(answer.receipt) else None)
              && View() == (if answer.Granted? then answer.store else old(View()))
      // A first grant: the reviewed row, expired, with the reviewed digest.
      ensures receipt.Some? && !old(rows)[key].state.Completed? ==>
                && RetainedAs(View(), key, reservation.(state := Completed(receipt.value)), receipt.value)
                && old(rows)[key] == reservation && reservation.expires <= now && receipt.value.reviewed == expected
                && expected == digest(key, reservation, ProgressPhase(old(View())))
      ensures key in old(rows) && !old(rows)[key].state.Completed? ==>
                (receipt.Some? <==> IsGrantable(digest, old(View()), key, reservation, expected, ownerOk))
      // A replay: the first answer, and nothing changes.
      ensures receipt.Some? && old(rows)[key].state.Completed? ==>
                && View() == old(View()) && rows[key].state.receipt == receipt.value
                && receipt.value.RetainedUncertain? && receipt.value.originalKey == key && receipt.value.phase == ProgressPhase(View())
      ensures forall other :: other in old(rows) && other != key ==> other in rows && rows[other] == old(rows)[other]
      ensures receipt.Some? ==> ownerOk
      ensures receipt.None? ==> View() == old(View())
    {
      GrantsExactly(digest, View(), key, reservation, expected, ownerOk);
      if key !in rows {
        return None;
      }
      var current := rows[key];
      if progress.Some? && progress.value.key != key {
        return None;
      }
      var phase: Option<Phase> := None;
      if progress.Some? {
        phase := progress.value.phase;
      }
      var supplied := digest(key, reservation, phase);
      var result := RetainedUncertain(key, expected, phase);
      if current.state.Completed? {
        var saved := current.state.receipt;
        if !saved.RetainedUncertain? {
          return None;
        }
        if supplied != expected && !(reservation == current && expected == saved.reviewed) {
          return None;
        }
        result := result.(reviewed := saved.reviewed);
        if saved != result || current != reservation.(state := current.state) {
          return None;
        }
        if !MayRetain(View(), reservation, ownerOk) {
          return None;
        }
        return Some(result);
      }
      if supplied != expected || current != reservation || current.expires > now {
        return None;
      }
      if !MayRetain(View(), reservation, ownerOk) {
        return None;
      }
      rows := rows[key := current.(state := Completed(result))];
      progress := Some(Progress(phase, key, true));
      return Some(result);
    }
  }
}
