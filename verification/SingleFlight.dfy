/** Async handles around one shared `RefCell<Option<T>>` slot: an operation empties the slot
    before its await and refills it afterwards, or keeps it empty for good. */
module SingleFlight {
  import opened Wrappers

  /** How an admitted operation ends: the (changed) value goes back, or it is used up. */
  datatype Outcome<T> = Refill(value: T) | Spent

  // ------------------------------------------------------------ the slot itself

  class Slot<T> {
    var inner: Option<T>

    constructor (value: T)
      ensures inner == Some(value)
    {
      inner := Some(value);
    }

    /** `borrow_mut().take()`. */
    method Take() returns (taken: Option<T>)
      modifies this
      ensures taken == old(inner) && inner == None
    {
      taken := inner;
      inner := None;
    }

    /** `borrow_mut().replace(value)`, the end of an operation that gives the value back. */
    method Replace(value: T)
      modifies this
      ensures inner == Some(value)
    {
      inner := Some(value);
    }
  }

  /** An operation that nobody overlaps: it is rejected on an empty slot, and otherwise leaves
      behind what its outcome says. */
  method RunAlone<T>(slot: Slot<T>, run: T -> Outcome<T>) returns (admitted: bool)
    modifies slot
    ensures admitted <==> old(slot.inner).Some?
    ensures slot.inner == AfterRun(old(slot.inner), run)
  {
    var taken := slot.Take();
    if taken.None? {
      return false;
    }
    match run(taken.value) {
      case Refill(value) => slot.Replace(value);
      case Spent =>
    }
    return true;
  }

  function AfterRun<T>(slot: Option<T>, run: T -> Outcome<T>): Option<T> {
    match slot
    case None => None
    case Some(value) => match run(value)
                        case Refill(value') => Some(value')
                        case Spent => None
  }

  // ----------------------------------------------- any number of overlapping calls

  datatype Task<T> = Queued | Running(value: T) | Rejected | Finished

  /** The slot and every call made so far. `admitted` lists the calls that got the value, in
      order, `busy` the one holding it, `seen` the values that snapshots returned. */
  datatype Handle<T> = Handle(
    slot: Option<T>, tasks: map<nat, Task<T>>, busy: Option<nat>, admitted: seq<nat>, seen: seq<T>)

  datatype Step =
    | Call(id: nat)     // the promise is created
    | Poll(id: nat)     // its future runs up to the await: the slot is taken
    | Resolve(id: nat)  // the await completes
    | Snapshot          // a synchronous read of the slot
    | Tune(id: nat)     // a synchronous update of the value in the slot

  function Start<T>(value: T): Handle<T> { Handle(Some(value), map[], None, [], []) }

  ghost predicate Enabled<T>(run: (nat, T) -> Outcome<T>, st: Handle<T>, step: Step) {
    match step
    case Call(id) => id !in st.tasks
    case Poll(id) => id in st.tasks && st.tasks[id].Queued?
    case Resolve(id) => id in st.tasks && st.tasks[id].Running?
    case Snapshot => true
    case Tune(id) => id !in st.tasks && (st.slot.Some? ==> run(id, st.slot.value).Refill?)
  }

  function Next<T>(run: (nat, T) -> Outcome<T>, st: Handle<T>, step: Step): Handle<T>
    requires Enabled(run, st, step)
  {
    match step
    case Call(id) => st.(tasks := st.tasks[id := Queued])
    case Poll(id) =>
      if st.slot.None? then st.(tasks := st.tasks[id := Rejected])
      else
        st.(slot := None, tasks := st.tasks[id := Running(st.slot.value)], busy := Some(id),
            admitted := st.admitted + [id])
    case Resolve(id) =>
      st.(slot := match run(id, st.tasks[id].value) case Refill(value) => Some(value) case Spent => st.slot,
          tasks := st.tasks[id := Finished], busy := None)
    case Snapshot => if st.slot.None? then st else st.(seen := st.seen + [st.slot.value])
    case Tune(id) =>
      if st.slot.None? then st.(tasks := st.tasks[id := Rejected])
      else
        st.(slot := Some(run(id, st.slot.value).value), tasks := st.tasks[id := Finished],
            admitted := st.admitted + [id])
  }

  ghost predicate Reaches<T>(run: (nat, T) -> Outcome<T>, st: Handle<T>, steps: seq<Step>, st': Handle<T>)
    decreases |steps|
  {
    if steps == [] then st == st'
    else
      && Enabled(run, st, steps[0])
      && Reaches(run, Next(run, st, steps[0]), steps[1..], st')
  }

  /** Plain sequential execution of calls on one value; `None` once the value is used up. */
  function Sequential<T>(run: (nat, T) -> Outcome<T>, value: T, ids: seq<nat>): Option<T> {
    if ids == [] then Some(value)
    else match Sequential(run, value, ids[..|ids| - 1])
         case None => None
         case Some(v) => match run(ids[|ids| - 1], v)
                         case Refill(v') => Some(v')
                         case Spent => None
  }

  // ------------------------------------------------------------------- invariant

  /** The value is in exactly one place: the slot, the one running call, or nowhere any more. */
  ghost predicate OnePlace<T>(run: (nat, T) -> Outcome<T>, init: T, st: Handle<T>) {
    && (forall id :: id in st.tasks && st.tasks[id].Running? ==> st.busy == Some(id))
    && match st.busy
       case None => st.slot == Sequential(run, init, st.admitted)
       case Some(id) =>
         var n := |st.admitted|;
         && st.slot.None? && id in st.tasks && st.tasks[id].Running?
         && n > 0 && st.admitted[n - 1] == id
         && Sequential(run, init, st.admitted[..n - 1]) == Some(st.tasks[id].value)
  }

  ghost predicate Ledger<T>(st: Handle<T>) {
    && (forall i, j :: 0 <= i < j < |st.admitted| ==> st.admitted[i] != st.admitted[j])
    && (forall id :: id in st.admitted ==> id in st.tasks)
    && (forall id :: id in st.tasks ==> (id in st.admitted <==> st.tasks[id].Running? || st.tasks[id].Finished?))
  }

  /** Every admitted call found a value, so only the last one can have used it up. */
  ghost predicate NeverAfterSpent<T>(run: (nat, T) -> Outcome<T>, init: T, st: Handle<T>) {
    forall k :: 0 <= k < |st.admitted| ==> Sequential(run, init, st.admitted[..k]).Some?
  }

  ghost predicate BetweenCalls<T>(run: (nat, T) -> Outcome<T>, init: T, admitted: seq<nat>, v: T) {
    exists k :: 0 <= k <= |admitted| && Sequential(run, init, admitted[..k]) == Some(v)
  }

  ghost predicate SawOnlyBetween<T>(run: (nat, T) -> Outcome<T>, init: T, st: Handle<T>) {
    forall v :: v in st.seen ==> BetweenCalls(run, init, st.admitted, v)
  }

  ghost predicate Inv<T>(run: (nat, T) -> Outcome<T>, init: T, st: Handle<T>) {
    OnePlace(run, init, st) && Ledger(st) && NeverAfterSpent(run, init, st) && SawOnlyBetween(run, init, st)
  }

  lemma Extend<T>(run: (nat, T) -> Outcome<T>, init: T, st: Handle<T>, id: nat)
    requires NeverAfterSpent(run, init, st) && SawOnlyBetween(run, init, st)
    requires Sequential(run, init, st.admitted).Some?
    ensures NeverAfterSpent(run, init, st.(admitted := st.admitted + [id]))
    ensures SawOnlyBetween(run, init, st.(admitted := st.admitted + [id]))
  {
    var longer := st.admitted + [id];
    forall k | 0 <= k <= |st.admitted| ensures longer[..k] == st.admitted[..k] {}
    assert st.admitted[..|st.admitted|] == st.admitted;
    forall v | v in st.seen ensures BetweenCalls(run, init, longer, v) {
      var k :| 0 <= k <= |st.admitted| && Sequential(run, init, st.admitted[..k]) == Some(v);
      assert longer[..k] == st.admitted[..k];
    }
  }

  lemma AdmitKeepsLedger<T>(st: Handle<T>, id: nat, task: Task<T>)
    requires Ledger(st) && (id in st.tasks ==> st.tasks[id].Queued?)
    requires task.Running? || task.Finished?
    ensures Ledger(st.(tasks := st.tasks[id := task], admitted := st.admitted + [id]))
  {
  }

  lemma PollKeepsInv<T>(run: (nat, T) -> Outcome<T>, init: T, st: Handle<T>, id: nat)
    requires Inv(run, init, st) && Enabled(run, st, Poll(id)) && st.slot.Some?
    ensures Inv(run, init, Next(run, st, Poll(id)))
  {
    var st' := Next(run, st, Poll(id));
    Extend(run, init, st, id);
    AdmitKeepsLedger(st, id, st'.tasks[id]);
    assert st'.admitted[..|st.admitted|] == st.admitted;
    assert NeverAfterSpent(run, init, st') && SawOnlyBetween(run, init, st') && Ledger(st');
  }

  lemma TuneKeepsInv<T>(run: (nat, T) -> Outcome<T>, init: T, st: Handle<T>, id: nat)
    requires Inv(run, init, st) && Enabled(run, st, Tune(id)) && st.slot.Some?
    ensures Inv(run, init, Next(run, st, Tune(id)))
  {
    var st' := Next(run, st, Tune(id));
    Extend(run, init, st, id);
    AdmitKeepsLedger(st, id, st'.tasks[id]);
    SequentialSnoc(run, init, st.admitted, id);
    assert Ledger(st') && OnePlace(run, init, st');
    assert NeverAfterSpent(run, init, st') && SawOnlyBetween(run, init, st');
  }

  lemma SequentialSnoc<T>(run: (nat, T) -> Outcome<T>, init: T, ids: seq<nat>, id: nat)
    ensures Sequential(run, init, ids + [id]) == AfterRun(Sequential(run, init, ids), v => run(id, v))
  {
  }

  lemma ResolveKeepsInv<T>(run: (nat, T) -> Outcome<T>, init: T, st: Handle<T>, id: nat)
    requires Inv(run, init, st) && Enabled(run, st, Resolve(id))
    ensures Inv(run, init, Next(run, st, Resolve(id)))
  {
  }

  /** Calls that touch nothing but their own entry. */
  lemma InertKeepsInv<T>(run: (nat, T) -> Outcome<T>, init: T, st: Handle<T>, id: nat, task: Task<T>)
    requires Inv(run, init, st) && (id in st.tasks ==> st.tasks[id].Queued?)
    requires task.Queued? || task.Rejected?
    ensures Inv(run, init, st.(tasks := st.tasks[id := task]))
  {
    var st' := st.(tasks := st.tasks[id := task]);
    assert id !in st.admitted;
    assert Ledger(st') && OnePlace(run, init, st');
    assert NeverAfterSpent(run, init, st') && SawOnlyBetween(run, init, st');
  }

  lemma SnapshotKeepsInv<T>(run: (nat, T) -> Outcome<T>, init: T, st: Handle<T>)
    requires Inv(run, init, st)
    ensures Inv(run, init, Next(run, st, Snapshot))
  {
    if st.slot.Some? {
      assert st.admitted[..|st.admitted|] == st.admitted;
      assert BetweenCalls(run, init, st.admitted, st.slot.value);
      var st' := Next(run, st, Snapshot);
      assert NeverAfterSpent(run, init, st') && SawOnlyBetween(run, init, st');
      assert Ledger(st') && OnePlace(run, init, st');
    }
  }

  lemma StepKeepsInv<T>(run: (nat, T) -> Outcome<T>, init: T, st: Handle<T>, step: Step)
    requires Inv(run, init, st) && Enabled(run, st, step)
    ensures Inv(run, init, Next(run, st, step))
  {
    match step
    case Call(id) => InertKeepsInv(run, init, st, id, Queued);
    case Poll(id) =>
      if st.slot.Some? { PollKeepsInv(run, init, st, id); } else { InertKeepsInv(run, init, st, id, Rejected); }
    case Resolve(id) => ResolveKeepsInv(run, init, st, id);
    case Snapshot => SnapshotKeepsInv(run, init, st);
    case Tune(id) =>
      if st.slot.Some? { TuneKeepsInv(run, init, st, id); } else { InertKeepsInv(run, init, st, id, Rejected); }
  }

  lemma {:induction false} RunKeepsInv<T>(
    run: (nat, T) -> Outcome<T>, init: T, st: Handle<T>, steps: seq<Step>, st': Handle<T>)
    requires Inv(run, init, st) && Reaches(run, st, steps, st')
    ensures Inv(run, init, st')
    decreases |steps|
  {
    if steps != [] {
      StepKeepsInv(run, init, st, steps[0]);
      RunKeepsInv(run, init, Next(run, st, steps[0]), steps[1..], st');
    }
  }

  // -------------------------------------------------------------- what follows

  /** For every interleaving: the value is in one place, a replace never overwrites, the value is
      the sequential composition of the admitted calls, rejected calls had no part in it, and
      snapshots only ever saw values between two admitted calls. */
  lemma SingleFlight<T>(run: (nat, T) -> Outcome<T>, init: T, steps: seq<Step>, st: Handle<T>)
    requires Reaches(run, Start(init), steps, st)
    ensures st.busy.None? ==> st.slot == Sequential(run, init, st.admitted)
    ensures forall id :: id in st.tasks && st.tasks[id].Running? ==>
      st.slot.None? && st.busy == Some(id) && st.admitted != [] && st.admitted[|st.admitted| - 1] == id
      && Sequential(run, init, st.admitted[..|st.admitted| - 1]) == Some(st.tasks[id].value)
    ensures forall id :: id in st.tasks && st.tasks[id].Rejected? ==> id !in st.admitted
    ensures forall v :: v in st.seen ==> BetweenCalls(run, init, st.admitted, v)
  {
    RunKeepsInv(run, init, Start(init), steps, st);
  }

  /** At most one call uses the value up, and it is the last one ever admitted. */
  lemma SpentAtMostOnce<T>(run: (nat, T) -> Outcome<T>, init: T, steps: seq<Step>, st: Handle<T>, k: nat)
    requires Reaches(run, Start(init), steps, st) && k < |st.admitted|
    ensures Sequential(run, init, st.admitted[..k]).Some?
    ensures run(st.admitted[k], Sequential(run, init, st.admitted[..k]).value).Spent? ==> k == |st.admitted| - 1
  {
    RunKeepsInv(run, init, Start(init), steps, st);
    if k + 1 < |st.admitted| {
      var shorter := st.admitted[..k + 1];
      assert shorter[..k] == st.admitted[..k] && shorter[k] == st.admitted[k];
      assert Sequential(run, init, shorter).Some?;
    }
  }

  /** Once used up, the handle stays used up: later calls are all rejected. */
  lemma {:induction false} StaysSpent<T>(run: (nat, T) -> Outcome<T>, st: Handle<T>, steps: seq<Step>, st': Handle<T>)
    requires st.slot.None? && (forall id :: id in st.tasks ==> !st.tasks[id].Running?)
    requires Reaches(run, st, steps, st')
    ensures st'.slot.None? && st'.admitted == st.admitted && st'.seen == st.seen
    decreases |steps|
  {
    if steps != [] {
      StaysSpent(run, Next(run, st, steps[0]), steps[1..], st');
    }
  }

  // ---------------------------------------------------------- the four handles

  /** `EncryptedLinkHandle`: sends, receives and list sends give the link back whether they
      succeed or not; `close` keeps it. */
  datatype LinkCall = Operate | Close

  function LinkRun<L>(kind: nat -> LinkCall, effect: (nat, L) -> L): (nat, L) -> Outcome<L> {
    (id: nat, link: L) => match kind(id) case Operate => Refill(effect(id, link)) case Close => Spent
  }

  /** As long as no close was admitted the link survives every interleaving, in the slot or
      inside the one running call. */
  lemma LinkSurvives<L>(kind: nat -> LinkCall, effect: (nat, L) -> L, init: L, steps: seq<Step>, st: Handle<L>)
    requires Reaches(LinkRun(kind, effect), Start(init), steps, st)
    requires forall id :: id in st.admitted ==> kind(id).Operate?
    ensures st.slot.Some? || (st.busy.Some? && st.busy.value in st.tasks && st.tasks[st.busy.value].Running?)
  {
    RunKeepsInv(LinkRun(kind, effect), init, Start(init), steps, st);
    if st.busy.None? && st.admitted != [] {
      var n := |st.admitted| - 1;
      assert st.admitted[n] in st.admitted;
      assert Sequential(LinkRun(kind, effect), init, st.admitted[..n]).Some?;
    }
  }

  /** `LinkHandshakeHandle::advance`. */
  datatype Progress<H, L> = Pending(handshake: H) | Complete(link: L) | StepFailed

  function HandshakeRun<H, L>(advance: (nat, H) -> Progress<H, L>): (nat, H) -> Outcome<H> {
    (id: nat, h: H) =>
      match advance(id, h) case Pending(h') => Refill(h') case Complete(_) => Spent case StepFailed => Spent
  }

  /** A handshake handle yields at most one link, and none after a failed step. */
  lemma AtMostOneLink<H, L>(
    advance: (nat, H) -> Progress<H, L>, init: H, steps: seq<Step>, st: Handle<H>, j: nat, k: nat)
    requires Reaches(HandshakeRun(advance), Start(init), steps, st) && j < |st.admitted| && k < |st.admitted|
    ensures var run := HandshakeRun(advance);
      && Sequential(run, init, st.admitted[..j]).Some? && Sequential(run, init, st.admitted[..k]).Some?
      && (advance(st.admitted[j], Sequential(run, init, st.admitted[..j]).value).Pending?
          || advance(st.admitted[k], Sequential(run, init, st.admitted[..k]).value).Pending?
          || j == k)
  {
    SpentAtMostOnce(HandshakeRun(advance), init, steps, st, j);
    SpentAtMostOnce(HandshakeRun(advance), init, steps, st, k);
  }

  /** `AuthFlowHandle::await_approval`: whatever the flow answers, it is gone. */
  function AuthRun<F>(): (nat, F) -> Outcome<F> { (id: nat, flow: F) => Spent }

  /** Among any number of concurrent completions at most one reaches the flow. */
  lemma AtMostOneApproval<F>(init: F, steps: seq<Step>, st: Handle<F>)
    requires Reaches(AuthRun<F>(), Start(init), steps, st)
    ensures |st.admitted| <= 1
    ensures st.slot.None? <==> |st.admitted| == 1
  {
    RunKeepsInv(AuthRun<F>(), init, Start(init), steps, st);
    if |st.admitted| >= 1 { SpentAtMostOnce(AuthRun<F>(), init, steps, st, 0); }
    assert st.admitted == [] || st.admitted[..0] == [];
  }
}
