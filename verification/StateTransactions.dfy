/** Optimistic SDK state transactions over a platform blob store shared by any number of
    storage instances. */
module StateTransactions {
  import opened Wrappers

  const SDK_STATE_BLOB_VERSION := 1

  /** Blob bytes, seen through the codec: they decode to a versioned envelope or to nothing. */
  datatype Blob<S> = Malformed | Envelope(version: nat, state: S)

  datatype Snapshot<S> = Snapshot(blob: Blob<S>, revision: string)

  /** An SDK callback: a new state with a result, or an error. */
  type Callback<!S, R> = S -> Option<(S, R)>

  datatype Failure = LoadFailed | DecodeFailed | CallbackFailed | SaveFailed

  datatype Outcome<R> = Returned(result: R) | Failed(failure: Failure)

  function Encode<S>(state: S): Blob<S> { Envelope(SDK_STATE_BLOB_VERSION, state) }

  function Decode<S>(blob: Blob<S>): Option<S> {
    if blob.Envelope? && blob.version == SDK_STATE_BLOB_VERSION then Some(blob.state) else None
  }

  /** The state a transaction starts from; an empty store means the default state. */
  function Visible<S>(default: S, store: Option<Snapshot<S>>): Option<S> {
    match store
    case None => Some(default)
    case Some(snapshot) => Decode(snapshot.blob)
  }

  function Revision<S>(store: Option<Snapshot<S>>): Option<string> {
    match store
    case None => None
    case Some(snapshot) => Some(snapshot.revision)
  }

  /** What a transaction decides from the snapshot it loaded, before it touches the store again. */
  datatype Plan<S, R> = Abort(failure: Failure) | Keep(result: R) | Write(state: S, result: R)

  function Decide<S(==), R>(default: S, loaded: Option<Snapshot<S>>, f: Callback<S, R>): Plan<S, R> {
    match Visible(default, loaded)
    case None => Abort(DecodeFailed)
    case Some(initial) =>
      match f(initial)
      case None => Abort(CallbackFailed)
      case Some((updated, result)) => if updated == initial then Keep(result) else Write(updated, result)
  }

  /** How a request to the platform store fares: it may fail with or without having arrived. */
  datatype Fate = Arrives | Lost | AnswerLost

  /** The store contract: a save is rejected when the stored revision is not the expected one. */
  predicate Lands<S>(store: Option<Snapshot<S>>, expected: Option<string>, fate: Fate) {
    !fate.Lost? && Revision(store) == expected
  }

  function SaveOutcome<S>(
    store: Option<Snapshot<S>>, expected: Option<string>, fate: Fate, snapshot: Snapshot<S>)
    : (bool, Option<Snapshot<S>>)
  {
    if Lands(store, expected, fate) then (fate.Arrives?, Some(snapshot)) else (false, store)
  }

  /** One undisturbed transaction as a function of the store. */
  function Transact<S(==), R>(
    default: S, store: Option<Snapshot<S>>, f: Callback<S, R>, loadBreaks: bool, fate: Fate, revision: string)
    : (Outcome<R>, Option<Snapshot<S>>)
  {
    if loadBreaks then (Failed(LoadFailed), store)
    else match Decide(default, store, f)
         case Abort(failure) => (Failed(failure), store)
         case Keep(result) => (Returned(result), store)
         case Write(state, result) =>
           (if fate.Arrives? then Returned(result) else Failed(SaveFailed),
            if fate.Lost? then store else Some(Snapshot(Encode(state), revision)))
  }

  // ---------------------------------------------------------- one call, in place

  /** The platform store; which calls break, and the revision it assigns, are its own choice. */
  class BlobStore<S> {
    var current: Option<Snapshot<S>>

    constructor (current: Option<Snapshot<S>>)
      ensures this.current == current
    {
      this.current := current;
    }

    method SaveStateBlobAtomically(blob: Blob<S>, expected: Option<string>, fate: Fate, revision: string)
      returns (saved: bool)
      modifies this
      ensures (saved, current) == SaveOutcome(old(current), expected, fate, Snapshot(blob, revision))
    {
      if fate.Lost? || Revision(current) != expected {
        return false;
      }
      current := Some(Snapshot(blob, revision));
      return fate.Arrives?;
    }
  }

  /** `FfiSdkStorage::transaction_erased` when nobody else uses the store meanwhile. */
  method TransactionErased<S(==), R>(store: BlobStore<S>, default: S, f: Callback<S, R>,
                                     loadBreaks: bool, fate: Fate, revision: string)
    returns (outcome: Outcome<R>)
    modifies store
    ensures (outcome, store.current) == Transact(default, old(store.current), f, loadBreaks, fate, revision)
  {
    if loadBreaks {
      return Failed(LoadFailed);
    }
    var snapshot := store.current;
    var initial := Visible(default, snapshot);
    if initial.None? {
      return Failed(DecodeFailed);
    }
    var ran := f(initial.value);
    if ran.None? {
      return Failed(CallbackFailed);
    }
    if ran.value.0 != initial.value {
      var saved := store.SaveStateBlobAtomically(Encode(ran.value.0), Revision(snapshot), fate, revision);
      if !saved {
        return Failed(SaveFailed);
      }
    }
    return Returned(ran.value.1);
  }

  // ------------------------------------------------- any number of instances

  /** Transaction `id` runs callback `f(id)`. `since` counts the store values up to its load, `at`
      those up to its serialization point; both only record what happened. */
  datatype Phase<S, R> =
    | Loaded(snapshot: Option<Snapshot<S>>, at: nat)
    | Done(outcome: Outcome<R>, at: nat, since: nat)

  /** `hist` lists every value the store has held, `writers[k]` the transaction that replaced
      `hist[k]`; both only record what happened. */
  datatype System<S, R> = System(
    store: Option<Snapshot<S>>, txns: map<nat, Phase<S, R>>,
    hist: seq<Option<Snapshot<S>>>, writers: seq<nat>)

  datatype Step = Load(id: nat, breaks: bool) | Finish(id: nat, fate: Fate, revision: string)

  function Start<S, R>(store: Option<Snapshot<S>>): System<S, R> {
    System(store, map[], [store], [])
  }

  /** Equal revisions carry equal blobs: a platform may reuse a revision (a content hash, say),
      but only for the blob it stood for before. */
  predicate HonestRevision<S(==)>(hist: seq<Option<Snapshot<S>>>, s: Snapshot<S>) {
    forall i :: 0 <= i < |hist| && hist[i].Some? && hist[i].value.revision == s.revision ==> hist[i].value == s
  }

  ghost predicate Enabled<S, R>(f: nat -> Callback<S, R>, default: S, st: System<S, R>, step: Step) {
    match step
    case Load(id, _) => id !in st.txns
    case Finish(id, _, revision) =>
      && id in st.txns && st.txns[id].Loaded?
      && match Decide(default, st.txns[id].snapshot, f(id))
         case Write(state, _) => HonestRevision(st.hist, Snapshot(Encode(state), revision))
         case _ => true
  }

  ghost function Next<S, R>(f: nat -> Callback<S, R>, default: S, st: System<S, R>, step: Step): System<S, R>
    requires Enabled(f, default, st, step)
  {
    match step
    case Load(id, breaks) =>
      st.(txns := st.txns[id := if breaks then Done(Failed(LoadFailed), 0, 0) else Loaded(st.store, |st.hist|)])
    case Finish(id, fate, revision) =>
      var loaded := st.txns[id];
      match Decide(default, loaded.snapshot, f(id))
      case Abort(failure) => st.(txns := st.txns[id := Done(Failed(failure), loaded.at, loaded.at)])
      case Keep(result) => st.(txns := st.txns[id := Done(Returned(result), loaded.at, loaded.at)])
      case Write(state, result) =>
        var snapshot := Snapshot(Encode(state), revision);
        var (saved, store) := SaveOutcome(st.store, Revision(loaded.snapshot), fate, snapshot);
        if !Lands(st.store, Revision(loaded.snapshot), fate) then
          st.(txns := st.txns[id := Done(Failed(SaveFailed), loaded.at, loaded.at)])
        else
          var outcome := if saved then Returned(result) else Failed(SaveFailed);
          var txns := st.txns[id := Done(outcome, |st.hist|, loaded.at)];
          System(store, txns, st.hist + [store], st.writers + [id])
  }

  ghost predicate Reaches<S, R>(
    f: nat -> Callback<S, R>, default: S, st: System<S, R>, steps: seq<Step>, st': System<S, R>)
    decreases |steps|
  {
    if steps == [] then st == st'
    else
      && Enabled(f, default, st, steps[0])
      && Reaches(f, default, Next(f, default, st, steps[0]), steps[1..], st')
  }

  // ------------------------------------------------------------------ invariant

  /** Link `k` of the history: the writer ran its callback on exactly the state it replaced. */
  ghost predicate Link<S, R>(f: nat -> Callback<S, R>, default: S, before: Option<Snapshot<S>>, writer: nat,
                             after: Option<Snapshot<S>>)
  {
    && after.Some? && Visible(default, before).Some? && Visible(default, after).Some?
    && var s := Visible(default, before).value;
    && f(writer)(s).Some?
    && f(writer)(s).value.0 == Visible(default, after).value
    && f(writer)(s).value.0 != s
  }

  ghost predicate HistoryInv<S, R>(f: nat -> Callback<S, R>, default: S, st: System<S, R>) {
    && |st.hist| == |st.writers| + 1
    && st.hist[|st.writers|] == st.store
    && (forall k :: 0 <= k < |st.writers| ==> Link(f, default, st.hist[k], st.writers[k], st.hist[k + 1]))
    && (forall i, j :: 0 <= i < |st.hist| && 0 <= j < |st.hist| && st.hist[i].Some? && st.hist[j].Some? ==>
          st.hist[i].value.revision == st.hist[j].value.revision ==> st.hist[i] == st.hist[j])
  }

  /** What is known about one transaction, by phase. */
  ghost predicate TxnInv<S, R>(f: nat -> Callback<S, R>, default: S, st: System<S, R>, id: nat)
    requires id in st.txns
  {
    match st.txns[id]
    case Loaded(snapshot, at) => 1 <= at <= |st.hist| && st.hist[at - 1] == snapshot && id !in st.writers
    case Done(Failed(failure), at, _) =>
      id in st.writers ==> failure == SaveFailed && 1 <= at <= |st.writers| && st.writers[at - 1] == id
    case Done(Returned(result), at, since) =>
      && 1 <= since <= at <= |st.hist| && Visible(default, st.hist[at - 1]).Some?
      && var s := Visible(default, st.hist[at - 1]).value;
      && f(id)(s).Some? && f(id)(s).value.1 == result
      && if f(id)(s).value.0 == s then id !in st.writers else at <= |st.writers| && st.writers[at - 1] == id
  }

  ghost predicate Inv<S, R>(f: nat -> Callback<S, R>, default: S, st: System<S, R>) {
    && HistoryInv(f, default, st)
    && (forall id :: id in st.txns ==> TxnInv(f, default, st, id))
    && (forall id :: id in st.writers ==> id in st.txns)
    && (forall i, j :: 0 <= i < j < |st.writers| ==> st.writers[i] != st.writers[j])
  }

  /** A granted save replaces exactly the state its transaction read, even when the store has
      moved on and come back to the same revision. */
  lemma SaveReplacesWhatWasRead<S, R>(f: nat -> Callback<S, R>, default: S, st: System<S, R>, id: nat)
    requires Inv(f, default, st) && id in st.txns && st.txns[id].Loaded?
    requires Revision(st.store) == Revision(st.txns[id].snapshot)
    ensures st.store == st.txns[id].snapshot
  {
  }

  lemma HistoryGrows<S, R>(
    f: nat -> Callback<S, R>, default: S, st: System<S, R>, id: nat, store: Option<Snapshot<S>>,
    txns: map<nat, Phase<S, R>>)
    requires HistoryInv(f, default, st) && Link(f, default, st.store, id, store)
    requires HonestRevision(st.hist, store.value)
    ensures HistoryInv(f, default, System(store, txns, st.hist + [store], st.writers + [id]))
  {
    var hist, writers, n := st.hist + [store], st.writers + [id], |st.writers|;
    forall k | 0 <= k < |writers| ensures Link(f, default, hist[k], writers[k], hist[k + 1]) {
      if k < n { assert Link(f, default, st.hist[k], st.writers[k], st.hist[k + 1]); }
    }
  }

  lemma OtherStays<S, R>(
    f: nat -> Callback<S, R>, default: S, st: System<S, R>, id: nat, store: Option<Snapshot<S>>, phase: Phase<S, R>,
    other: nat)
    requires |st.hist| == |st.writers| + 1 && other in st.txns && other != id && TxnInv(f, default, st, other)
    ensures TxnInv(f, default, System(store, st.txns[id := phase], st.hist + [store], st.writers + [id]), other)
  {
    var hist, writers := st.hist + [store], st.writers + [id];
    assert other in writers <==> other in st.writers;
    assert forall k :: 0 <= k < |st.hist| ==> hist[k] == st.hist[k];
    assert forall k :: 0 <= k < |st.writers| ==> writers[k] == st.writers[k];
  }

  lemma WriterJoins<S, R>(
    f: nat -> Callback<S, R>, default: S, st: System<S, R>, id: nat, store: Option<Snapshot<S>>, phase: Phase<S, R>)
    requires Inv(f, default, st) && id in st.txns && id !in st.writers
    requires
      var st' := System(store, st.txns[id := phase], st.hist + [store], st.writers + [id]);
      HistoryInv(f, default, st') && TxnInv(f, default, st', id)
    ensures Inv(f, default, System(store, st.txns[id := phase], st.hist + [store], st.writers + [id]))
  {
    var st' := System(store, st.txns[id := phase], st.hist + [store], st.writers + [id]);
    forall other | other in st'.txns ensures TxnInv(f, default, st', other) {
      if other != id { OtherStays(f, default, st, id, store, phase, other); }
    }
  }

  lemma GrantedSave<S, R>(f: nat -> Callback<S, R>, default: S, st: System<S, R>, step: Step)
    requires Inv(f, default, st) && step.Finish? && Enabled(f, default, st, step)
    requires Decide(default, st.txns[step.id].snapshot, f(step.id)).Write?
    requires Lands(st.store, Revision(st.txns[step.id].snapshot), step.fate)
    ensures Inv(f, default, Next(f, default, st, step))
  {
    var id, st' := step.id, Next(f, default, st, step);
    assert TxnInv(f, default, st, id);
    SaveReplacesWhatWasRead(f, default, st, id);
    HistoryGrows(f, default, st, id, st'.store, st'.txns);
    assert TxnInv(f, default, st', id);
    WriterJoins(f, default, st, id, st'.store, st'.txns[id]);
  }

  lemma QuietStep<S, R>(f: nat -> Callback<S, R>, default: S, st: System<S, R>, step: Step)
    requires Inv(f, default, st) && Enabled(f, default, st, step)
    requires Next(f, default, st, step).writers == st.writers
    ensures Inv(f, default, Next(f, default, st, step))
  {
    assert step.id in st.txns ==> TxnInv(f, default, st, step.id);
    var st' := Next(f, default, st, step);
    assert st' == st.(txns := st.txns[step.id := st'.txns[step.id]]);
    assert TxnInv(f, default, st', step.id);
    Unaffected(f, default, st, step.id, st'.txns[step.id]);
  }

  /** A transaction's own entry changes and nothing else: the others do not notice. */
  lemma Unaffected<S, R>(f: nat -> Callback<S, R>, default: S, st: System<S, R>, id: nat, phase: Phase<S, R>)
    requires Inv(f, default, st)
    requires TxnInv(f, default, st.(txns := st.txns[id := phase]), id)
    ensures Inv(f, default, st.(txns := st.txns[id := phase]))
  {
    var st' := st.(txns := st.txns[id := phase]);
    assert HistoryInv(f, default, st');
    forall other | other in st'.txns ensures TxnInv(f, default, st', other) {
      if other != id { assert TxnInv(f, default, st, other); }
    }
  }

  lemma StepKeepsInv<S, R>(f: nat -> Callback<S, R>, default: S, st: System<S, R>, step: Step)
    requires Inv(f, default, st) && Enabled(f, default, st, step)
    ensures Inv(f, default, Next(f, default, st, step))
  {
    if step.Finish? && Decide(default, st.txns[step.id].snapshot, f(step.id)).Write?
       && Lands(st.store, Revision(st.txns[step.id].snapshot), step.fate) {
      GrantedSave(f, default, st, step);
    } else {
      QuietStep(f, default, st, step);
    }
  }

  lemma {:induction false} RunKeepsInv<S, R>(
    f: nat -> Callback<S, R>, default: S, st: System<S, R>, steps: seq<Step>, st': System<S, R>)
    requires Inv(f, default, st) && Reaches(f, default, st, steps, st')
    ensures Inv(f, default, st')
    decreases |steps|
  {
    if steps != [] {
      StepKeepsInv(f, default, st, steps[0]);
      RunKeepsInv(f, default, Next(f, default, st, steps[0]), steps[1..], st');
    }
  }

  // -------------------------------------------------------------- serializability

  /** Running callbacks one after another, the plain sequential meaning of a list of writers. */
  ghost function Replay<S, R>(f: nat -> Callback<S, R>, state: S, ids: seq<nat>): Option<S> {
    if ids == [] then Some(state)
    else match Replay(f, state, ids[..|ids| - 1])
         case None => None
         case Some(s) => match f(ids[|ids| - 1])(s)
                         case None => None
                         case Some((updated, _)) => Some(updated)
  }

  lemma {:induction false} HistoryReplays<S, R>(
    f: nat -> Callback<S, R>, default: S, hist: seq<Option<Snapshot<S>>>, writers: seq<nat>)
    requires |hist| == |writers| + 1 && Visible(default, hist[0]).Some?
    requires forall k :: 0 <= k < |writers| ==> Link(f, default, hist[k], writers[k], hist[k + 1])
    ensures Visible(default, hist[|writers|]) == Replay(f, Visible(default, hist[0]).value, writers)
    decreases |writers|
  {
    if writers != [] {
      var n := |writers| - 1;
      assert Link(f, default, hist[n], writers[n], hist[n + 1]);
      forall k | 0 <= k < n ensures Link(f, default, hist[..n + 1][k], writers[..n][k], hist[..n + 1][k + 1]) {
        assert Link(f, default, hist[k], writers[k], hist[k + 1]);
      }
      HistoryReplays(f, default, hist[..n + 1], writers[..n]);
    }
  }

  /** Serializability of every interleaving. The stored state is the fold, in save order, of the
      callbacks of the writers, each of which read what it replaced; a transaction that returned without
      writing ran on a state of that history; one that failed left no trace, unless it was its save that
      failed after landing, and then it is one of the writers. */
  lemma Serializable<S, R>(
    f: nat -> Callback<S, R>, default: S, store: Option<Snapshot<S>>, steps: seq<Step>, st: System<S, R>)
    requires Reaches(f, default, Start(store), steps, st)
    ensures |st.hist| == |st.writers| + 1 && st.hist[0] == store && st.hist[|st.writers|] == st.store
    ensures Visible(default, store).Some? ==>
      Visible(default, st.store) == Replay(f, Visible(default, store).value, st.writers)
    ensures Visible(default, store).None? ==> st.store == store && st.writers == []
    ensures forall i, j :: 0 <= i < j < |st.writers| ==> st.writers[i] != st.writers[j]
    ensures forall k :: 0 <= k < |st.writers| ==> Link(f, default, st.hist[k], st.writers[k], st.hist[k + 1])
    ensures forall id :: id in st.txns && st.txns[id].Done? && st.txns[id].outcome.Failed? && id in st.writers ==>
      st.txns[id].outcome.failure == SaveFailed
    ensures forall id :: id in st.txns && st.txns[id].Done? && st.txns[id].outcome.Returned? ==>
      RanAt(f, default, st, id, st.txns[id].at - 1)
  {
    StartInv(f, default, store);
    RunKeepsInv(f, default, Start(store), steps, st);
    OnlyAppends(f, default, Start(store), steps, st);
    if st.writers != [] { assert Link(f, default, st.hist[0], st.writers[0], st.hist[1]); }
    if Visible(default, store).Some? { HistoryReplays(f, default, st.hist, st.writers); }
    forall id | id in st.txns && st.txns[id].Done? && st.txns[id].outcome.Returned?
      ensures RanAt(f, default, st, id, st.txns[id].at - 1)
    {
      RanAtItsPoint(f, default, st, id);
    }
  }

  lemma RanAtItsPoint<S, R>(f: nat -> Callback<S, R>, default: S, st: System<S, R>, id: nat)
    requires Inv(f, default, st) && id in st.txns && st.txns[id].Done? && st.txns[id].outcome.Returned?
    ensures RanAt(f, default, st, id, st.txns[id].at - 1)
  {
    assert TxnInv(f, default, st, id);
    var k := st.txns[id].at - 1;
    if k < |st.writers| { assert Link(f, default, st.hist[k], st.writers[k], st.hist[k + 1]); }
  }

  /** With nobody in between, load and finish of the machine are one sequential transaction. */
  lemma UndisturbedTransaction<S, R>(
    f: nat -> Callback<S, R>, default: S, st: System<S, R>, id: nat, fate: Fate, revision: string)
    requires id !in st.txns
    requires
      var loaded := Next(f, default, st, Load(id, false));
      Enabled(f, default, loaded, Finish(id, fate, revision))
    ensures
      var loaded := Next(f, default, st, Load(id, false));
      var done := Next(f, default, loaded, Finish(id, fate, revision));
      Transact(default, st.store, f(id), false, fate, revision) == (done.txns[id].outcome, done.store)
  {
  }

  /** State `k` of the history is the serialization point of a returned transaction: it gives exactly
      its result, is not older than its load, and the next state is its own write when it has one. */
  ghost predicate RanAt<S, R>(f: nat -> Callback<S, R>, default: S, st: System<S, R>, id: nat, k: int)
    requires id in st.txns && st.txns[id].Done? && st.txns[id].outcome.Returned?
  {
    && st.txns[id].since - 1 <= k < |st.hist| && 0 <= k && Visible(default, st.hist[k]).Some?
    && var s := Visible(default, st.hist[k]).value;
    && f(id)(s).Some? && f(id)(s).value.1 == st.txns[id].outcome.result
    && if f(id)(s).value.0 == s then id !in st.writers
       else && k < |st.writers| && st.writers[k] == id
            && k + 1 < |st.hist| && Visible(default, st.hist[k + 1]) == Some(f(id)(s).value.0)
  }

  // ------------------------------------------------------------------- real-time order

  /** The history only grows, and a finished transaction stays as it is. */
  lemma {:induction false} OnlyAppends<S, R>(
    f: nat -> Callback<S, R>, default: S, st: System<S, R>, steps: seq<Step>, st': System<S, R>)
    requires Reaches(f, default, st, steps, st')
    ensures st.hist <= st'.hist && st.writers <= st'.writers
    ensures forall id :: id in st.txns && st.txns[id].Done? ==> id in st'.txns && st'.txns[id] == st.txns[id]
    decreases |steps|
  {
    if steps != [] {
      OnlyAppends(f, default, Next(f, default, st, steps[0]), steps[1..], st');
    }
  }

  /** A transaction that starts in or after a state with `n` history entries serializes there or later. */
  ghost predicate NotBefore<S, R>(st: System<S, R>, id: nat, n: nat) {
    id in st.txns ==>
      match st.txns[id]
      case Loaded(_, at) => at >= n
      case Done(Failed(_), _, _) => true
      case Done(Returned(_), at, _) => at >= n
  }

  lemma {:induction false} LaterLoad<S, R>(
    f: nat -> Callback<S, R>, default: S, st: System<S, R>, steps: seq<Step>, st': System<S, R>, id: nat, n: nat)
    requires Reaches(f, default, st, steps, st') && n <= |st.hist| && NotBefore(st, id, n)
    ensures NotBefore(st', id, n)
    decreases |steps|
  {
    if steps != [] {
      LaterLoad(f, default, Next(f, default, st, steps[0]), steps[1..], st', id, n);
    }
  }

  /** Where a returned transaction stands in the history of its own time, wherever it is looked at later. */
  lemma PointStays<S, R>(f: nat -> Callback<S, R>, default: S, st: System<S, R>, st': System<S, R>, id: nat)
    requires Inv(f, default, st) && Inv(f, default, st') && st.hist <= st'.hist
    requires id in st.txns && st.txns[id].Done? && st.txns[id].outcome.Returned?
    requires id in st'.txns && st'.txns[id] == st.txns[id]
    ensures st.txns[id].at <= |st.hist|
    ensures id in st'.writers ==> st.txns[id].at < |st.hist|
  {
    assert TxnInv(f, default, st, id) && TxnInv(f, default, st', id);
    var k := st.txns[id].at - 1;
    assert st.hist[k] == st'.hist[k];
  }

  lemma LaterIsAfter<S, R>(
    f: nat -> Callback<S, R>, default: S, st: System<S, R>, steps: seq<Step>, st': System<S, R>,
    first: nat, second: nat)
    requires Inv(f, default, st) && Reaches(f, default, st, steps, st')
    requires first in st.txns && st.txns[first].Done? && st.txns[first].outcome.Returned?
    requires second !in st.txns
    requires second in st'.txns && st'.txns[second].Done? && st'.txns[second].outcome.Returned?
    ensures first in st'.txns && st'.txns[first] == st.txns[first]
    ensures st'.txns[first].at <= st'.txns[second].at
    ensures first in st'.writers ==> st'.txns[first].at < st'.txns[second].at
  {
    RunKeepsInv(f, default, st, steps, st');
    OnlyAppends(f, default, st, steps, st');
    PointStays(f, default, st, st', first);
    LaterLoad(f, default, st, steps, st', second, |st.hist|);
  }

  lemma StartInv<S, R>(f: nat -> Callback<S, R>, default: S, store: Option<Snapshot<S>>)
    ensures Inv(f, default, Start<S, R>(store))
  {
    assert HistoryInv(f, default, Start<S, R>(store));
  }

  /** Strictness over every run: when `first` has returned before `second` loads, `first` is not
      serialized later, and `second` sees its write. */
  lemma RealTimeOrder<S, R>(
    f: nat -> Callback<S, R>, default: S, store: Option<Snapshot<S>>, before: seq<Step>, st: System<S, R>,
    after: seq<Step>, st': System<S, R>, first: nat, second: nat)
    requires Reaches(f, default, Start(store), before, st) && Reaches(f, default, st, after, st')
    requires first in st.txns && st.txns[first].Done? && st.txns[first].outcome.Returned?
    requires second !in st.txns
    requires second in st'.txns && st'.txns[second].Done? && st'.txns[second].outcome.Returned?
    ensures first in st'.txns && st'.txns[first] == st.txns[first]
    ensures st'.txns[first].at <= st'.txns[second].at
    ensures first in st'.writers ==> st'.txns[first].at < st'.txns[second].at
  {
    StartInv(f, default, store);
    RunKeepsInv(f, default, Start(store), before, st);
    LaterIsAfter(f, default, st, after, st', first, second);
  }
}
