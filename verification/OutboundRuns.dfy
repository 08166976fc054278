/** Any number of workers on one outbound queue: what every interleaving keeps. */
module OutboundRuns {
  import opened Wrappers
  import opened OutboundQueue

  datatype Entry = Entry(peer: Peer, id: nat)

  function EntryOf(m: Message): Entry { Entry(m.peer, m.id) }

  /** The storage, the record each lease's worker has claimed and not yet saved, and the claims
      and recorded deliveries so far, in order. */
  datatype Run = Run(q: Queue, held: map<nat, Message>, claimed: seq<Entry>, sent: seq<Entry>)

  datatype Verdict = Delivered | Retryable(error: string) | Unsendable(error: string) | NeedsRecovery(error: string)

  /** The `mark_outbound_*` functions. */
  function Marked(m: Message, v: Verdict, now: int): Message {
    match v
    case Delivered => m.(status := Sent, sentAt := Some(now), updatedAt := now, lastError := None)
    case Retryable(e) => m.(status := Failed, updatedAt := now, lastError := Some(e))
    case Unsendable(e) => m.(status := Invalid, updatedAt := now, lastError := Some(e))
    case NeedsRecovery(e) => m.(status := RecoveryRequired, updatedAt := now, lastError := Some(e))
  }

  /** One storage transaction, or a worker that stops. Clock readings are arbitrary. */
  datatype Step =
    | Insert(peer: Peer, kind: string, rawJson: string, now: int)
    | Acquire(peer: Peer, now: int, expiresAt: int)
    | Release(peer: Peer, lease: nat)
    | Claim(peer: Peer, lease: nat, t: Times)
    | Save(lease: nat, verdict: Verdict, now: int)
    | Stop(lease: nat)

  /** A worker saves what it claimed before it claims again. */
  predicate Enabled(r: Run, step: Step) {
    match step
    case Claim(_, lease, _) => lease !in r.held
    case Save(lease, _, _) => lease in r.held
    case _ => true
  }

  function Claimed(r: Run, peer: Peer, lease: nat, t: Times): Run {
    if !Active(r.q, peer, lease) then r
    else
      var (messages, record) := ClaimNext(r.q.messages, peer, t);
      if record.None? then r.(q := r.q.(messages := messages))
      else
        r.(q := r.q.(messages := messages), held := r.held[lease := record.value],
           claimed := r.claimed + [EntryOf(record.value)])
  }

  function SavedUnder(r: Run, lease: nat, verdict: Verdict, now: int): Run
    requires lease in r.held
  {
    var m := r.held[lease];
    var r' := r.(held := r.held - {lease});
    if !Active(r.q, m.peer, lease) then r'
    else match Saved(r.q.messages, Marked(m, verdict, now))
         case None => r'
         case Some(messages) =>
           r'.(q := r.q.(messages := messages), sent := if verdict.Delivered? then r.sent + [EntryOf(m)] else r.sent)
  }

  function Next(r: Run, step: Step): Run
    requires Enabled(r, step)
  {
    match step
    case Insert(peer, kind, rawJson, now) => r.(q := Inserted(r.q, peer, kind, rawJson, now))
    case Acquire(peer, now, expiresAt) => r.(q := Acquired(r.q, peer, now, expiresAt))
    case Release(peer, lease) => r.(q := Released(r.q, peer, lease))
    case Claim(peer, lease, t) => Claimed(r, peer, lease, t)
    case Save(lease, verdict, now) => SavedUnder(r, lease, verdict, now)
    case Stop(lease) => r.(held := r.held - {lease})
  }

  ghost predicate Reaches(r: Run, steps: seq<Step>, r': Run)
    decreases |steps|
  {
    if steps == [] then r == r'
    else Enabled(r, steps[0]) && Reaches(Next(r, steps[0]), steps[1..], r')
  }

  function Start(): Run { Run(Queue([], 0, map[], 0), map[], [], []) }

  // ------------------------------------------------------------------------ invariant

  predicate IdsIncrease(q: Queue) {
    && (forall i :: 0 <= i < |q.messages| ==> q.messages[i].id < q.nextId)
    && (forall i, j :: 0 <= i < j < |q.messages| ==> q.messages[i].id < q.messages[j].id)
  }

  predicate LeasesDiffer(q: Queue) {
    && (forall p :: p in q.leases ==> q.leases[p].id < q.nextLeaseId)
    && (forall p, p' :: p in q.leases && p' in q.leases && p != p' ==> q.leases[p].id != q.leases[p'].id)
  }

  /** Every message of the peer below this id has reached a final status. */
  predicate Settled(ms: seq<Message>, peer: Peer, id: nat) {
    forall i :: 0 <= i < |ms| && ms[i].peer == peer && ms[i].id < id ==> !Open(ms[i].status)
  }

  /** While the lease is active its worker's record is the stored one, in flight, and the oldest
      open message of its peer. */
  predicate HeldIsHead(q: Queue, lease: nat, m: Message) {
    && lease < q.nextLeaseId
    && (Active(q, m.peer, lease) ==> m in q.messages && m.status.Sending? && Settled(q.messages, m.peer, m.id))
  }

  predicate AllHeld(r: Run) {
    forall lease :: lease in r.held ==> HeldIsHead(r.q, lease, r.held[lease]) && EntryOf(r.held[lease]) in r.claimed
  }

  predicate Logged(q: Queue, log: seq<Entry>) {
    forall k :: 0 <= k < |log| ==> log[k].id < q.nextId && Settled(q.messages, log[k].peer, log[k].id)
  }

  predicate InClaimOrder(claimed: seq<Entry>) {
    forall a, b :: 0 <= a < b < |claimed| && claimed[a].peer == claimed[b].peer ==> claimed[a].id <= claimed[b].id
  }

  predicate InSendOrder(sent: seq<Entry>) {
    forall a, b :: 0 <= a < b < |sent| && sent[a].peer == sent[b].peer ==> sent[a].id < sent[b].id
  }

  predicate SentExactly(q: Queue, sent: seq<Entry>) {
    forall i :: 0 <= i < |q.messages| ==> (q.messages[i].status.Sent? <==> EntryOf(q.messages[i]) in sent)
  }

  predicate Inv(r: Run) {
    && IdsIncrease(r.q) && LeasesDiffer(r.q) && AllHeld(r)
    && Logged(r.q, r.claimed) && Logged(r.q, r.sent)
    && InClaimOrder(r.claimed) && InSendOrder(r.sent)
    && SentExactly(r.q, r.sent) && (forall e :: e in r.sent ==> e in r.claimed)
  }

  // ------------------------------------------------------- how a step changes the messages

  /** Identity is kept, final statuses are final, and new messages come last with new ids. */
  predicate Evolves(q: Queue, q': Queue) {
    && |q.messages| <= |q'.messages| && q.nextId <= q'.nextId
    && (forall i :: 0 <= i < |q.messages| ==> EntryOf(q'.messages[i]) == EntryOf(q.messages[i]))
    && (forall i :: 0 <= i < |q.messages| && !Open(q.messages[i].status) ==> !Open(q'.messages[i].status))
    && (forall i :: |q.messages| <= i < |q'.messages| ==> q'.messages[i].id >= q.nextId)
  }

  lemma SettledStays(q: Queue, q': Queue, peer: Peer, id: nat)
    requires Evolves(q, q') && id <= q.nextId && Settled(q.messages, peer, id)
    ensures Settled(q'.messages, peer, id)
  {
  }

  lemma LoggedStays(q: Queue, q': Queue, log: seq<Entry>)
    requires Evolves(q, q') && Logged(q, log)
    ensures Logged(q', log)
  {
  }

  /** One message changed by a claim: kept apart from this peer, final stays final. */
  predicate ClaimChange(m: Message, m': Message, peer: Peer) {
    && EntryOf(m') == EntryOf(m)
    && (m.peer != peer || !Open(m.status) ==> m' == m)
    && (m'.status.Sent? ==> m.status.Sent?)
  }

  /** What a claim does: changes confined to open messages of the peer, and the record it returns
      is the peer's oldest open message, now in flight. */
  lemma ClaimEffect(ms: seq<Message>, peer: Peer, t: Times)
    ensures var (ms', record) := ClaimNext(ms, peer, t);
      && |ms'| == |ms|
      && (forall i :: 0 <= i < |ms| ==> ClaimChange(ms[i], ms'[i], peer))
      && (record.Some? ==>
            && record.value in ms' && record.value.peer == peer && record.value.status.Sending?
            && (exists i :: 0 <= i < |ms| && Open(ms[i].status) && EntryOf(ms[i]) == EntryOf(record.value))
            && Settled(ms', peer, record.value.id))
  {
    var swept := SupersedeAll(ms, peer, LatestList(Of(ms, peer)), t);
    SweepChange(ms, peer, LatestList(Of(ms, peer)), t);
    var first := First(swept, OpenFor(peer));
    if first.Some? && Claimable(swept[first.value], t) {
      HeadClaimed(swept, peer, first.value, AsClaimed(swept[first.value], t.now));
      assert swept[first.value] == ms[first.value];
    }
  }

  lemma SweepChange(ms: seq<Message>, peer: Peer, latest: Option<nat>, t: Times)
    ensures var swept := SupersedeAll(ms, peer, latest, t);
      forall i :: 0 <= i < |ms| ==>
        ClaimChange(ms[i], swept[i], peer) && (Open(swept[i].status) ==> swept[i] == ms[i])
  {
  }

  lemma HeadClaimed(swept: seq<Message>, peer: Peer, h: nat, m: Message)
    requires First(swept, OpenFor(peer)) == Some(h) && EntryOf(m) == EntryOf(swept[h])
    ensures Settled(swept[h := m], peer, m.id) && swept[h := m][h] == m && OpenFor(peer)(swept[h])
  {
    assert forall i :: 0 <= i < |swept| && OpenFor(peer)(swept[i]) ==> swept[h].id <= swept[i].id;
  }

  // ---------------------------------------------------------------------- step by step

  /** What is held stays the head as long as the step leaves the peer's messages alone. */
  lemma HeldStays(q: Queue, q': Queue, lease: nat, m: Message)
    requires Evolves(q, q') && IdsIncrease(q) && HeldIsHead(q, lease, m) && q.nextLeaseId <= q'.nextLeaseId
    requires Active(q', m.peer, lease) ==> Active(q, m.peer, lease) && (m in q.messages ==> m in q'.messages)
    ensures HeldIsHead(q', lease, m)
  {
  }

  lemma InsertKeeps(r: Run, peer: Peer, kind: string, rawJson: string, now: int)
    requires Inv(r)
    ensures Inv(r.(q := Inserted(r.q, peer, kind, rawJson, now)))
  {
    var q' := Inserted(r.q, peer, kind, rawJson, now);
    LoggedStays(r.q, q', r.claimed);
    LoggedStays(r.q, q', r.sent);
    forall lease | lease in r.held ensures HeldIsHead(q', lease, r.held[lease]) {
      HeldStays(r.q, q', lease, r.held[lease]);
    }
  }

  /** Taking, giving up or losing a lease touches no message. */
  lemma LeaseKeeps(r: Run, r': Run)
    requires Inv(r) && r'.q.messages == r.q.messages && r'.q.nextId == r.q.nextId
    requires r'.claimed == r.claimed && r'.sent == r.sent
    requires forall lease :: lease in r'.held ==> lease in r.held && r'.held[lease] == r.held[lease]
    requires r.q.nextLeaseId <= r'.q.nextLeaseId && LeasesDiffer(r'.q)
    requires forall p :: p in r'.q.leases ==> r'.q.leases[p].id >= r.q.nextLeaseId || Active(r.q, p, r'.q.leases[p].id)
    ensures Inv(r')
  {
  }

  lemma ClaimedMessages(r: Run, peer: Peer, t: Times)
    requires Inv(r)
    ensures var q' := r.q.(messages := ClaimNext(r.q.messages, peer, t).0);
      Evolves(r.q, q') && IdsIncrease(q') && SentExactly(q', r.sent)
  {
    ClaimEffect(r.q.messages, peer, t);
    ChangedMessages(r.q, ClaimNext(r.q.messages, peer, t).0, r.sent, peer);
  }

  lemma ChangedMessages(q: Queue, ms': seq<Message>, sent: seq<Entry>, peer: Peer)
    requires IdsIncrease(q) && SentExactly(q, sent) && |ms'| == |q.messages|
    requires forall i :: 0 <= i < |ms'| ==> ClaimChange(q.messages[i], ms'[i], peer)
    ensures var q' := q.(messages := ms'); Evolves(q, q') && IdsIncrease(q') && SentExactly(q', sent)
  {
    forall i | 0 <= i < |ms'| ensures ms'[i].status.Sent? <==> EntryOf(ms'[i]) in sent {
      assert ClaimChange(q.messages[i], ms'[i], peer);
    }
  }

  /** The workers of other peers keep their heads. */
  lemma ClaimedHeld(r: Run, peer: Peer, lease: nat, t: Times)
    requires Inv(r) && lease !in r.held && Active(r.q, peer, lease)
    ensures var q' := r.q.(messages := ClaimNext(r.q.messages, peer, t).0);
      forall l :: l in r.held ==> HeldIsHead(q', l, r.held[l])
  {
    ClaimEffect(r.q.messages, peer, t);
    ClaimedMessages(r, peer, t);
    var ms, ms' := r.q.messages, ClaimNext(r.q.messages, peer, t).0;
    var q' := r.q.(messages := ms');
    forall l | l in r.held ensures HeldIsHead(q', l, r.held[l]) {
      var m := r.held[l];
      if m in ms && m.peer != peer {
        var i :| 0 <= i < |ms| && ms[i] == m;
        assert ClaimChange(ms[i], ms'[i], peer);
      }
      HeldStays(r.q, q', l, m);
    }
  }

  lemma ClaimKeeps(r: Run, peer: Peer, lease: nat, t: Times)
    requires Inv(r) && lease !in r.held
    ensures Inv(Claimed(r, peer, lease, t))
  {
    if Active(r.q, peer, lease) {
      ClaimEffect(r.q.messages, peer, t);
      ClaimedMessages(r, peer, t);
      ClaimedHeld(r, peer, lease, t);
      var (messages, record) := ClaimNext(r.q.messages, peer, t);
      SweepKeeps(r, messages);
      if record.Some? {
        ClaimLogged(r, record.value);
        RecordKeeps(r.(q := r.q.(messages := messages)), lease, record.value);
      }
    }
  }

  lemma SweepKeeps(r: Run, messages: seq<Message>)
    requires Inv(r)
    requires var q' := r.q.(messages := messages);
      && Evolves(r.q, q') && IdsIncrease(q') && SentExactly(q', r.sent)
      && forall l :: l in r.held ==> HeldIsHead(q', l, r.held[l])
    ensures Inv(r.(q := r.q.(messages := messages)))
  {
  }

  lemma RecordKeeps(r: Run, lease: nat, m: Message)
    requires Inv(r) && Active(r.q, m.peer, lease) && InClaimOrder(r.claimed + [EntryOf(m)])
    requires m in r.q.messages && m.status.Sending? && Settled(r.q.messages, m.peer, m.id)
    ensures Inv(r.(held := r.held[lease := m], claimed := r.claimed + [EntryOf(m)]))
  {
  }

  lemma ClaimLogged(r: Run, m: Message)
    requires Logged(r.q, r.claimed) && InClaimOrder(r.claimed)
    requires exists i ::
      0 <= i < |r.q.messages| && Open(r.q.messages[i].status) && EntryOf(r.q.messages[i]) == EntryOf(m)
    ensures InClaimOrder(r.claimed + [EntryOf(m)])
  {
  }

  lemma SaveKeeps(r: Run, lease: nat, verdict: Verdict, now: int)
    requires Inv(r) && lease in r.held
    ensures Inv(SavedUnder(r, lease, verdict, now))
  {
    var m := r.held[lease];
    if !Active(r.q, m.peer, lease) {
      LeaseKeeps(r, r.(held := r.held - {lease}));
    } else {
      var i :| 0 <= i < |r.q.messages| && r.q.messages[i] == m;
      SavedAt(r.q.messages, Marked(m, verdict, now), i);
      SaveAt(r, lease, i, Marked(m, verdict, now));
    }
  }

  lemma SaveAt(r: Run, lease: nat, i: nat, m': Message)
    requires Inv(r) && lease in r.held && i < |r.q.messages| && r.q.messages[i] == r.held[lease]
    requires Active(r.q, r.held[lease].peer, lease)
    requires EntryOf(m') == EntryOf(r.held[lease])
    ensures var q' := r.q.(messages := r.q.messages[i := m']);
            Inv(Run(q', r.held - {lease}, r.claimed, if m'.status.Sent? then r.sent + [EntryOf(m')] else r.sent))
  {
    var q' := r.q.(messages := r.q.messages[i := m']);
    SavedLogs(r.q, i, m', r.claimed);
    SavedLogs(r.q, i, m', r.sent);
    forall l | l in r.held && l != lease ensures HeldIsHead(q', l, r.held[l]) {
      SaveHeld(r, lease, i, m', l);
    }
    SaveSent(r, i, m');
    assert Logged(q', [EntryOf(m')]);
  }

  /** Replacing the head by a record with its identity keeps the queue and every log, its own included. */
  lemma SavedLogs(q: Queue, i: nat, m': Message, log: seq<Entry>)
    requires IdsIncrease(q) && Logged(q, log) && i < |q.messages|
    requires Open(q.messages[i].status) && Settled(q.messages, m'.peer, m'.id) && EntryOf(m') == EntryOf(q.messages[i])
    ensures var q' := q.(messages := q.messages[i := m']);
      Evolves(q, q') && IdsIncrease(q') && Logged(q', log) && Logged(q', [EntryOf(m')])
  {
    var q' := q.(messages := q.messages[i := m']);
    LoggedStays(q, q', log);
    SettledStays(q, q', m'.peer, m'.id);
  }

  lemma SaveHeld(r: Run, lease: nat, i: nat, m': Message, l: nat)
    requires Inv(r) && lease in r.held && i < |r.q.messages| && r.q.messages[i] == r.held[lease]
    requires Active(r.q, r.held[lease].peer, lease)
    requires EntryOf(m') == EntryOf(r.held[lease]) && l in r.held && l != lease
    ensures HeldIsHead(r.q.(messages := r.q.messages[i := m']), l, r.held[l])
  {
    var q' := r.q.(messages := r.q.messages[i := m']);
    var m := r.held[l];
    if Active(r.q, m.peer, l) {
      var j :| 0 <= j < |r.q.messages| && r.q.messages[j] == m;
      assert j != i && q'.messages[j] == m;
    }
    HeldStays(r.q, q', l, m);
  }

  /** A newly recorded delivery is later than all recorded ones of its peer. */
  lemma SaveSent(r: Run, i: nat, m': Message)
    requires Inv(r) && i < |r.q.messages| && r.q.messages[i].status.Sending? && EntryOf(m') == EntryOf(r.q.messages[i])
    ensures var sent := if m'.status.Sent? then r.sent + [EntryOf(m')] else r.sent;
            InSendOrder(sent) && SentExactly(r.q.(messages := r.q.messages[i := m']), sent)
  {
  }

  lemma StepKeepsInv(r: Run, step: Step)
    requires Inv(r) && Enabled(r, step)
    ensures Inv(Next(r, step))
  {
    match step
    case Insert(peer, kind, rawJson, now) => InsertKeeps(r, peer, kind, rawJson, now);
    case Acquire(peer, now, expiresAt) => LeaseKeeps(r, Next(r, step));
    case Release(peer, lease) => LeaseKeeps(r, Next(r, step));
    case Claim(peer, lease, t) => ClaimKeeps(r, peer, lease, t);
    case Save(lease, verdict, now) => SaveKeeps(r, lease, verdict, now);
    case Stop(lease) => LeaseKeeps(r, Next(r, step));
  }

  lemma {:induction false} RunKeepsInv(r: Run, steps: seq<Step>, r': Run)
    requires Inv(r) && Reaches(r, steps, r')
    ensures Inv(r')
    decreases |steps|
  {
    if steps != [] {
      StepKeepsInv(r, steps[0]);
      RunKeepsInv(Next(r, steps[0]), steps[1..], r');
    }
  }

  // --------------------------------------------------------------------- whole-run results

  /** Each message is recorded as sent at most once, in id order per peer, only after a claim, and
      exactly those messages carry the status. */
  lemma SentOnceInOrder(steps: seq<Step>, r: Run)
    requires Reaches(Start(), steps, r)
    ensures InSendOrder(r.sent)
    ensures forall e :: e in r.sent ==> e in r.claimed && Settled(r.q.messages, e.peer, e.id)
    ensures SentExactly(r.q, r.sent)
  {
    RunKeepsInv(Start(), steps, r);
  }

  /** Claims never go back to an older message, and everything older than a claim is final. */
  lemma ClaimsAdvance(steps: seq<Step>, r: Run)
    requires Reaches(Start(), steps, r)
    ensures InClaimOrder(r.claimed)
    ensures forall e :: e in r.claimed ==> Settled(r.q.messages, e.peer, e.id)
  {
    RunKeepsInv(Start(), steps, r);
  }

  /** At most one worker per peer can change the queue, and what it would write is the head. */
  lemma OneWriterPerPeer(steps: seq<Step>, r: Run, a: nat, b: nat)
    requires Reaches(Start(), steps, r) && a in r.held && b in r.held
    requires Active(r.q, r.held[a].peer, a) && Active(r.q, r.held[b].peer, b)
    ensures r.held[a].peer == r.held[b].peer <==> a == b
    ensures r.held[a] in r.q.messages && r.held[a].status.Sending?
    ensures Settled(r.q.messages, r.held[a].peer, r.held[a].id)
  {
    RunKeepsInv(Start(), steps, r);
  }

  /** A lease that was lost stays lost, so its worker can never write again. */
  lemma {:induction false} LostLeaseStaysLost(r: Run, steps: seq<Step>, r': Run, peer: Peer, lease: nat)
    requires Inv(r) && Reaches(r, steps, r') && lease < r.q.nextLeaseId && !Active(r.q, peer, lease)
    ensures !Active(r'.q, peer, lease)
    decreases |steps|
  {
    if steps != [] {
      StepKeepsInv(r, steps[0]);
      LostLeaseStaysLost(Next(r, steps[0]), steps[1..], r', peer, lease);
    }
  }

  /** A worker whose lease was taken over changes nothing when it saves, whatever its verdict. */
  lemma StaleSaveIsHarmless(r: Run, lease: nat, verdict: Verdict, now: int)
    requires lease in r.held && !Active(r.q, r.held[lease].peer, lease)
    ensures Next(r, Save(lease, verdict, now)) == Next(r, Stop(lease))
  {
  }

  // ----------------------------------------------------------------------------- progress

  predicate NoneOpen(ms: seq<Message>, peer: Peer) {
    forall i :: 0 <= i < |ms| && ms[i].peer == peer ==> !Open(ms[i].status)
  }

  /** The latest attempt on any message. */
  function LastAttempt(ms: seq<Message>): (last: int)
    ensures forall i :: 0 <= i < |ms| ==> NotAfter(ms[i].lastAttemptAt, last)
  {
    if ms == [] then 0
    else
      var m, last := ms[|ms| - 1], LastAttempt(ms[..|ms| - 1]);
      assert forall i :: 0 <= i < |ms| - 1 ==> ms[..|ms| - 1][i] == ms[i];
      if NotAfter(m.lastAttemptAt, last) then last else m.lastAttemptAt.value
  }

  /** Late enough for every retry: a lease held by anyone has expired, and so has every attempt. */
  predicate LateEnough(q: Queue, peer: Peer, t: Times) {
    && Free(q, peer, t.now)
    && LastAttempt(q.messages) <= t.staleBefore && LastAttempt(q.messages) <= t.failedRetryAfter
  }

  /** Late enough, a claim returns a message or leaves none open. */
  lemma LateClaim(ms: seq<Message>, peer: Peer, t: Times)
    requires LastAttempt(ms) <= t.staleBefore && LastAttempt(ms) <= t.failedRetryAfter
    ensures ClaimNext(ms, peer, t).1.Some? || NoneOpen(ClaimNext(ms, peer, t).0, peer)
  {
    var swept := SupersedeAll(ms, peer, LatestList(Of(ms, peer)), t);
    var first := First(swept, OpenFor(peer));
    if first.Some? {
      var i := first.value;
      assert OpenFor(peer)(swept[i]) && swept[i] == ms[i] && NotAfter(ms[i].lastAttemptAt, LastAttempt(ms));
      assert Claimable(swept[i], t);
    } else {
      assert forall i :: 0 <= i < |swept| ==> !OpenFor(peer)(swept[i]);
    }
  }

  /** No worker, crashed or stuck, can block a peer: in every reachable run, late enough, anyone can take
      the lease and claim the next message, or nothing is open any more. */
  lemma Progress(r: Run, peer: Peer, t: Times, expiresAt: int)
    requires Inv(r) && LateEnough(r.q, peer, t)
    ensures
      var lease, r1 := r.q.nextLeaseId, Next(r, Acquire(peer, t.now, expiresAt));
      && Active(r1.q, peer, lease) && Enabled(r1, Claim(peer, lease, t))
      && var r2 := Next(r1, Claim(peer, lease, t));
      lease in r2.held || NoneOpen(r2.q.messages, peer)
  {
    LateClaim(r.q.messages, peer, t);
    assert r.q.nextLeaseId !in r.held;
  }

  /** Such times exist for every queue. */
  lemma LateTimes(q: Queue, peer: Peer) returns (t: Times)
    ensures LateEnough(q, peer, t)
  {
    var last := LastAttempt(q.messages);
    t := Times(if peer in q.leases then q.leases[peer].expiresAt else 0, last, last);
  }

  function OpenAt(ms: seq<Message>, peer: Peer): set<nat> {
    set i: nat | i < |ms| && ms[i].peer == peer && Open(ms[i].status)
  }

  /** What a delivering round may do to a message: nothing, supersede it, or record it as sent. */
  predicate RoundChange(peer: Peer, m: Message, m': Message) {
    && EntryOf(m') == EntryOf(m)
    && (m' == m || (m.peer == peer && Open(m.status) && (m'.status.Superseded? || m'.status.Sent?)))
  }

  predicate RoundChanges(peer: Peer, ms: seq<Message>, ms': seq<Message>) {
    |ms'| == |ms| && forall i :: 0 <= i < |ms| ==> RoundChange(peer, ms[i], ms'[i])
  }

  lemma RoundsCompose(peer: Peer, a: seq<Message>, b: seq<Message>, c: seq<Message>)
    requires RoundChanges(peer, a, b) && RoundChanges(peer, b, c)
    ensures RoundChanges(peer, a, c)
  {
    forall i | 0 <= i < |a| ensures RoundChange(peer, a[i], c[i]) {
      assert RoundChange(peer, a[i], b[i]) && RoundChange(peer, b[i], c[i]);
    }
  }

  /** What a claim leaves is such a change everywhere but at the message it returns. */
  lemma ClaimRound(ms: seq<Message>, peer: Peer, t: Times) returns (h: nat)
    ensures var (ms', record) := ClaimNext(ms, peer, t);
      && |ms'| == |ms|
      && (record.None? ==> RoundChanges(peer, ms, ms'))
      && (record.Some? ==>
            && h < |ms| && ms'[h] == record.value && EntryOf(ms'[h]) == EntryOf(ms[h]) && ms[h].peer == peer
            && Open(ms[h].status) && forall j :: 0 <= j < |ms| && j != h ==> RoundChange(peer, ms[j], ms'[j]))
  {
    var swept := SupersedeAll(ms, peer, LatestList(Of(ms, peer)), t);
    assert RoundChanges(peer, ms, swept);
    var first := First(swept, OpenFor(peer));
    h := if first.Some? then first.value else 0;
    if first.Some? {
      assert OpenFor(peer)(swept[h]) && swept[h] == ms[h];
      assert forall j :: 0 <= j < |ms| ==> RoundChange(peer, ms[j], swept[j]);
    }
  }

  /** Saving a claimed message as delivered closes it and changes no other. */
  lemma DeliveredSave(r: Run, lease: nat, now: int, h: nat)
    requires Inv(r) && lease in r.held && Active(r.q, r.held[lease].peer, lease)
    requires h < |r.q.messages| && r.q.messages[h] == r.held[lease]
    ensures Next(r, Save(lease, Delivered, now)).q
         == r.q.(messages := r.q.messages[h := Marked(r.held[lease], Delivered, now)])
  {
    SavedAt(r.q.messages, Marked(r.held[lease], Delivered, now), h);
  }

  lemma FewerOpen(ms: seq<Message>, ms': seq<Message>, peer: Peer, h: nat)
    requires RoundChanges(peer, ms, ms') && h < |ms| && ms[h].peer == peer && Open(ms[h].status) && !Open(ms'[h].status)
    ensures |OpenAt(ms', peer)| < |OpenAt(ms, peer)|
  {
    var before, after := OpenAt(ms, peer), OpenAt(ms', peer);
    forall i | i in after ensures i in before {
      assert RoundChange(peer, ms[i], ms'[i]);
    }
    assert h in before && h !in after;
    assert before == after + (before - after);
    assert |before| == |after| + |before - after|;
  }

  /** Lease and claim on an otherwise idle queue. */
  lemma ClaimedRound(r: Run, peer: Peer, t: Times) returns (h: nat, r2: Run)
    requires Inv(r) && LateEnough(r.q, peer, t)
    ensures var lease := r.q.nextLeaseId;
      && Reaches(r, [Acquire(peer, t.now, t.now), Claim(peer, lease, t)], r2) && Inv(r2)
      && |r2.q.messages| == |r.q.messages|
      && (lease !in r2.held ==> RoundChanges(peer, r.q.messages, r2.q.messages) && NoneOpen(r2.q.messages, peer))
      && (lease in r2.held ==>
            && Active(r2.q, peer, lease) && h < |r.q.messages| && r2.q.messages[h] == r2.held[lease]
            && EntryOf(r2.held[lease]) == EntryOf(r.q.messages[h]) && r.q.messages[h].peer == peer
            && Open(r.q.messages[h].status)
            && forall j :: 0 <= j < |r.q.messages| && j != h ==> RoundChange(peer, r.q.messages[j], r2.q.messages[j]))
  {
    var lease, acquire := r.q.nextLeaseId, Acquire(peer, t.now, t.now);
    Progress(r, peer, t, t.now);
    var r1 := Next(r, acquire);
    r2 := Next(r1, Claim(peer, lease, t));
    StepKeepsInv(r, acquire);
    StepKeepsInv(r1, Claim(peer, lease, t));
    h := ClaimRound(r.q.messages, peer, t);
    TwoSteps(r, acquire, Claim(peer, lease, t));
  }

  lemma TwoSteps(r: Run, a: Step, b: Step)
    requires Enabled(r, a) && Enabled(Next(r, a), b)
    ensures Reaches(r, [a, b], Next(Next(r, a), b))
  {
    var r1 := Next(r, a);
    assert [a, b][1..] == [b] && Reaches(Next(r1, b), [], Next(r1, b));
    assert Reaches(r1, [b], Next(r1, b));
  }

  /** Lease, claim and delivery: afterwards fewer messages are open, or none. */
  lemma Round(r: Run, peer: Peer, t: Times) returns (steps: seq<Step>, r': Run)
    requires Inv(r) && LateEnough(r.q, peer, t)
    ensures Reaches(r, steps, r') && Inv(r') && RoundChanges(peer, r.q.messages, r'.q.messages)
    ensures NoneOpen(r'.q.messages, peer) || |OpenAt(r'.q.messages, peer)| < |OpenAt(r.q.messages, peer)|
  {
    var h, r2 := ClaimedRound(r, peer, t);
    var lease := r.q.nextLeaseId;
    steps, r' := [Acquire(peer, t.now, t.now), Claim(peer, lease, t)], r2;
    if lease in r2.held {
      var m := r2.held[lease];
      r' := DeliveredRun(r2, lease, t.now, h);
      Continue(r, steps, r2, [Save(lease, Delivered, t.now)], r');
      steps := steps + [Save(lease, Delivered, t.now)];
      RoundIsChange(peer, r.q.messages, r2.q.messages, h, Marked(m, Delivered, t.now));
    }
  }

  lemma DeliveredRun(r: Run, lease: nat, now: int, h: nat) returns (r': Run)
    requires Inv(r) && lease in r.held && Active(r.q, r.held[lease].peer, lease)
    requires h < |r.q.messages| && r.q.messages[h] == r.held[lease]
    ensures Reaches(r, [Save(lease, Delivered, now)], r') && Inv(r')
    ensures r'.q.messages == r.q.messages[h := Marked(r.held[lease], Delivered, now)]
  {
    var save := Save(lease, Delivered, now);
    StepKeepsInv(r, save);
    DeliveredSave(r, lease, now, h);
    r' := Next(r, save);
    assert Reaches(r', [], r');
  }

  lemma RoundIsChange(peer: Peer, a: seq<Message>, b: seq<Message>, h: nat, m: Message)
    requires |a| == |b| && h < |a| && a[h].peer == peer && Open(a[h].status) && EntryOf(m) == EntryOf(a[h])
    requires forall j :: 0 <= j < |a| && j != h ==> RoundChange(peer, a[j], b[j])
    requires m.status.Sent?
    ensures RoundChanges(peer, a, b[h := m]) && |OpenAt(b[h := m], peer)| < |OpenAt(a, peer)|
  {
    FewerOpen(a, b[h := m], peer, h);
  }

  lemma {:induction false} Continue(r: Run, a: seq<Step>, r1: Run, b: seq<Step>, r2: Run)
    requires Reaches(r, a, r1) && Reaches(r1, b, r2)
    ensures Reaches(r, a + b, r2)
    decreases |a|
  {
    if a == [] {
      assert a + b == b;
    } else {
      Continue(Next(r, a[0]), a[1..], r1, b, r2);
      assert (a + b)[0] == a[0] && (a + b)[1..] == a[1..] + b;
    }
  }

  /** From every reachable run the queue of a peer can be emptied: some continuation leaves every message
      of the peer that was open sent or superseded, and no other message changed its status. */
  lemma {:induction false} Drain(r: Run, peer: Peer) returns (steps: seq<Step>, r': Run)
    requires Inv(r)
    ensures Reaches(r, steps, r') && RoundChanges(peer, r.q.messages, r'.q.messages) && NoneOpen(r'.q.messages, peer)
    decreases |OpenAt(r.q.messages, peer)|
  {
    var t := LateTimes(r.q, peer);
    var first, r1 := Round(r, peer, t);
    if NoneOpen(r1.q.messages, peer) {
      return first, r1;
    }
    var rest, last := Drain(r1, peer);
    Continue(r, first, r1, rest, last);
    RoundsCompose(peer, r.q.messages, r1.q.messages, last.q.messages);
    return first + rest, last;
  }

  /** So no run of any workers ever gets a peer stuck. */
  lemma AlwaysDrains(before: seq<Step>, r: Run, peer: Peer) returns (steps: seq<Step>, r': Run)
    requires Reaches(Start(), before, r)
    ensures Reaches(r, steps, r') && RoundChanges(peer, r.q.messages, r'.q.messages) && NoneOpen(r'.q.messages, peer)
  {
    RunKeepsInv(Start(), before, r);
    steps, r' := Drain(r, peer);
  }
}
