/** The outbound private message queue: superseding, claiming in order, and peer leases. */
module OutboundQueue {
  import opened Wrappers
  import PrivateList

  datatype Peer = Peer(counterparty: string, receiverPath: string)

  datatype Status = Pending | Sending | Sent | Failed | Invalid | RecoveryRequired | Superseded

  datatype Message = Message(
    id: nat, peer: Peer, kind: string, rawJson: string, status: Status, attemptCount: nat, createdAt: int,
    updatedAt: int, lastAttemptAt: Option<int>, sentAt: Option<int>, lastError: Option<string>)

  datatype Lease = Lease(id: nat, claimedAt: int, expiresAt: int)

  /** The current time, and the two thresholds computed from it. */
  datatype Times = Times(now: int, staleBefore: int, failedRetryAfter: int)

  const MAX_U32 := 0xFFFF_FFFF

  predicate Open(status: Status) { status.Pending? || status.Sending? || status.Failed? }

  predicate NotAfter(attempt: Option<int>, limit: int) { attempt.None? || attempt.value <= limit }

  predicate Stale(m: Message, staleBefore: int) { m.status.Sending? && NotAfter(m.lastAttemptAt, staleBefore) }

  predicate Claimable(m: Message, t: Times) {
    match m.status
    case Pending => true
    case Failed => NotAfter(m.lastAttemptAt, t.failedRetryAfter)
    case Sending => Stale(m, t.staleBefore)
    case _ => false
  }

  predicate IsList(m: Message) { m.kind == PrivateList.PRIVATE_LIST_KIND }

  predicate LiveList(m: Message) {
    IsList(m) && !m.status.Invalid? && !m.status.RecoveryRequired? && !m.status.Superseded?
  }

  // ------------------------------------------------------------- the queue as a value

  /** One peer's messages, in storage order. */
  function Of(ms: seq<Message>, peer: Peer): seq<Message> {
    if ms == [] then []
    else
      var m := ms[|ms| - 1];
      Of(ms[..|ms| - 1], peer) + if m.peer == peer then [m] else []
  }

  /** The largest id of a live Private Payment List. */
  function LatestList(ms: seq<Message>): (latest: Option<nat>)
    ensures latest.None? <==> forall i :: 0 <= i < |ms| ==> !LiveList(ms[i])
    ensures latest.Some? ==> exists i :: 0 <= i < |ms| && LiveList(ms[i]) && ms[i].id == latest.value
    ensures latest.Some? ==> forall i :: 0 <= i < |ms| && LiveList(ms[i]) ==> ms[i].id <= latest.value
  {
    if ms == [] then None
    else
      var m := ms[|ms| - 1];
      var latest := LatestList(ms[..|ms| - 1]);
      assert forall i :: 0 <= i < |ms| - 1 ==> ms[..|ms| - 1][i] == ms[i];
      if LiveList(m) && (latest.None? || latest.value < m.id) then Some(m.id) else latest
  }

  /** Smaller id first; among equal ids the one stored first, as a stable sort leaves them. */
  predicate Precedes(ms: seq<Message>, i: nat, j: nat)
    requires i < |ms| && j < |ms|
  {
    ms[i].id < ms[j].id || (ms[i].id == ms[j].id && i <= j)
  }

  /** The first kept message when the queue is sorted by id. */
  function First(ms: seq<Message>, keep: Message -> bool): (first: Option<nat>)
    ensures first.None? <==> forall i :: 0 <= i < |ms| ==> !keep(ms[i])
    ensures first.Some? ==> first.value < |ms| && keep(ms[first.value])
    ensures first.Some? ==> forall j :: 0 <= j < |ms| && keep(ms[j]) ==> Precedes(ms, first.value, j)
  {
    if ms == [] then None
    else
      var n := |ms| - 1;
      var first := First(ms[..n], keep);
      assert forall i :: 0 <= i < n ==> ms[..n][i] == ms[i];
      assert first.Some? ==> forall j :: 0 <= j < n && keep(ms[j]) ==> Precedes(ms[..n], first.value, j);
      if keep(ms[n]) && (first.None? || ms[n].id < ms[first.value].id) then Some(n) else first
  }

  predicate Outdated(m: Message, latest: Option<nat>, t: Times) {
    latest.Some? && IsList(m) && m.id < latest.value && !m.status.Sending? && Claimable(m, t)
  }

  function SupersedeOne(m: Message, peer: Peer, latest: Option<nat>, t: Times): Message {
    if m.peer == peer && Outdated(m, latest, t) then m.(status := Superseded, updatedAt := t.now, lastError := None)
    else m
  }

  function SupersedeAll(ms: seq<Message>, peer: Peer, latest: Option<nat>, t: Times): (r: seq<Message>)
    ensures |r| == |ms| && forall i :: 0 <= i < |ms| ==> r[i] == SupersedeOne(ms[i], peer, latest, t)
  {
    seq(|ms|, i requires 0 <= i < |ms| => SupersedeOne(ms[i], peer, latest, t))
  }

  function OpenFor(peer: Peer): Message -> bool { (m: Message) => m.peer == peer && Open(m.status) }

  function AsClaimed(m: Message, now: int): Message {
    m.(status := Sending, attemptCount := if m.attemptCount >= MAX_U32 then m.attemptCount else m.attemptCount + 1,
       lastAttemptAt := Some(now), updatedAt := now, lastError := None)
  }

  function ClaimNext(ms: seq<Message>, peer: Peer, t: Times): (seq<Message>, Option<Message>) {
    var swept := SupersedeAll(ms, peer, LatestList(Of(ms, peer)), t);
    match First(swept, OpenFor(peer))
    case None => (swept, None)
    case Some(i) =>
      if !Claimable(swept[i], t) then (swept, None)
      else (swept[i := AsClaimed(swept[i], t.now)], Some(AsClaimed(swept[i], t.now)))
  }

  function StillDue(
    latest: Option<nat>, t: Times): Message -> bool { (m: Message) => Open(m.status) && !Outdated(m, latest, t) }

  /** The read-only forecast over one peer's messages. */
  predicate HeadIsClaimable(ms: seq<Message>, t: Times) {
    match First(ms, StillDue(LatestList(ms), t))
    case None => false
    case Some(i) => Claimable(ms[i], t) || Stale(ms[i], t.staleBefore)
  }

  // ------------------------------------------------- the forecast is exact for every queue

  function DueFor(peer: Peer, latest: Option<nat>, t: Times): Message -> bool {
    (m: Message) => m.peer == peer && Open(m.status) && !Outdated(m, latest, t)
  }

  /** The first kept place depends only on ids and on which places are kept. */
  lemma SameFirst(ms: seq<Message>, keep: Message -> bool, ms': seq<Message>, keep': Message -> bool)
    requires |ms| == |ms'|
    requires forall i :: 0 <= i < |ms| ==> ms[i].id == ms'[i].id && (keep(ms[i]) <==> keep'(ms'[i]))
    ensures First(ms, keep) == First(ms', keep')
  {
    var a, b := First(ms, keep), First(ms', keep');
    if a.Some? && b.Some? {
      assert Precedes(ms, a.value, b.value) && Precedes(ms', b.value, a.value);
    }
  }

  lemma FirstAfterSweep(ms: seq<Message>, peer: Peer, latest: Option<nat>, t: Times)
    ensures First(SupersedeAll(ms, peer, latest, t), OpenFor(peer)) == First(ms, DueFor(peer, latest, t))
  {
    var swept := SupersedeAll(ms, peer, latest, t);
    forall i | 0 <= i < |ms|
      ensures swept[i].id == ms[i].id && (OpenFor(peer)(swept[i]) <==> DueFor(peer, latest, t)(ms[i]))
    {
      assert swept[i] == SupersedeOne(ms[i], peer, latest, t);
    }
    SameFirst(swept, OpenFor(peer), ms, DueFor(peer, latest, t));
  }

  /** The first kept place once one more message is stored. */
  function Extended(first: Option<nat>, ms: seq<Message>, m: Message, kept: bool): Option<nat>
    requires first.Some? ==> first.value < |ms|
  {
    if kept && (first.None? || m.id < ms[first.value].id) then Some(|ms|) else first
  }

  lemma FirstAppend(ms: seq<Message>, m: Message, keep: Message -> bool)
    ensures First(ms + [m], keep) == Extended(First(ms, keep), ms, m, keep(m))
  {
  }

  /** The two places hold the same message, or there is none in either queue. */
  predicate SameHead(a: Option<nat>, ms: seq<Message>, b: Option<nat>, ms': seq<Message>) {
    match (a, b)
    case (None, None) => true
    case (Some(i), Some(j)) => i < |ms| && j < |ms'| && ms[i] == ms'[j]
    case _ => false
  }

  lemma SameHeadExtended(a: Option<nat>, ms: seq<Message>, b: Option<nat>, ms': seq<Message>, m: Message, kept: bool)
    requires SameHead(a, ms, b, ms')
    ensures SameHead(Extended(a, ms, m, kept), ms + [m], Extended(b, ms', m, kept), ms' + [m])
  {
  }

  lemma {:induction false} FirstOfPeer(ms: seq<Message>, peer: Peer, latest: Option<nat>, t: Times)
    ensures SameHead(First(Of(ms, peer), StillDue(latest, t)), Of(ms, peer), First(ms, DueFor(peer, latest, t)), ms)
  {
    if ms != [] {
      var init, m := ms[..|ms| - 1], ms[|ms| - 1];
      FirstOfPeer(init, peer, latest, t);
      var due, mine := DueFor(peer, latest, t), StillDue(latest, t);
      assert ms == init + [m];
      FirstAppend(init, m, due);
      if m.peer == peer {
        FirstAppend(Of(init, peer), m, mine);
        assert due(m) == mine(m);
        SameHeadExtended(First(Of(init, peer), mine), Of(init, peer), First(init, due), init, m, due(m));
      } else {
        assert Of(ms, peer) == Of(init, peer) && !due(m);
      }
    }
  }

  /** The forecast on a peer's own messages says yes exactly when a claim would return one. */
  lemma ForecastExact(ms: seq<Message>, peer: Peer, t: Times)
    ensures HeadIsClaimable(Of(ms, peer), t) <==> ClaimNext(ms, peer, t).1.Some?
  {
    var latest := LatestList(Of(ms, peer));
    FirstAfterSweep(ms, peer, latest, t);
    FirstOfPeer(ms, peer, latest, t);
  }

  /** Superseding never touches the newest live list, another peer or a message in flight. */
  lemma NewestListSurvives(ms: seq<Message>, peer: Peer, t: Times, i: nat)
    requires i < |ms| && ClaimNext(ms, peer, t).0[i].status.Superseded? && !ms[i].status.Superseded?
    ensures ms[i].peer == peer && IsList(ms[i]) && !ms[i].status.Sending?
    ensures exists j :: 0 <= j < |ms| && ms[j].peer == peer && LiveList(ms[j]) && ms[i].id < ms[j].id
  {
    var latest := LatestList(Of(ms, peer));
    var k :| 0 <= k < |Of(ms, peer)| && LiveList(Of(ms, peer)[k]) && Of(ms, peer)[k].id == latest.value;
    OfMember(ms, peer, k);
  }

  lemma {:induction false} OfMember(ms: seq<Message>, peer: Peer, k: nat)
    requires k < |Of(ms, peer)|
    ensures exists j :: 0 <= j < |ms| && ms[j] == Of(ms, peer)[k] && ms[j].peer == peer
  {
    var n := |ms| - 1;
    if k < |Of(ms[..n], peer)| {
      OfMember(ms[..n], peer, k);
      var j :| 0 <= j < n && ms[..n][j] == Of(ms[..n], peer)[k] && ms[..n][j].peer == peer;
      assert ms[j] == Of(ms, peer)[k];
    } else {
      assert ms[n] == Of(ms, peer)[k];
    }
  }

  // ------------------------------------------------------------------------- storage

  datatype Queue = Queue(messages: seq<Message>, nextId: nat, leases: map<Peer, Lease>, nextLeaseId: nat)

  function NewMessage(id: nat, peer: Peer, kind: string, rawJson: string, now: int): Message {
    Message(id, peer, kind, rawJson, Pending, 0, now, now, None, None, None)
  }

  function Inserted(q: Queue, peer: Peer, kind: string, rawJson: string, now: int): Queue {
    q.(messages := q.messages + [NewMessage(q.nextId, peer, kind, rawJson, now)], nextId := q.nextId + 1)
  }

  predicate Free(q: Queue, peer: Peer, now: int) { peer !in q.leases || q.leases[peer].expiresAt <= now }

  function Acquired(q: Queue, peer: Peer, now: int, expiresAt: int): Queue {
    if !Free(q, peer, now) then q
    else q.(leases := q.leases[peer := Lease(q.nextLeaseId, now, expiresAt)], nextLeaseId := q.nextLeaseId + 1)
  }

  /** `require_peer_link_operation_lease`: expiry alone does not end a lease. */
  predicate Active(q: Queue, peer: Peer, lease: nat) { peer in q.leases && q.leases[peer].id == lease }

  function Released(q: Queue, peer: Peer, lease: nat): Queue {
    if Active(q, peer, lease) then q.(leases := q.leases - {peer}) else q
  }

  /** The first stored message with the record's id is replaced; an unknown id is an error. */
  function Saved(ms: seq<Message>, record: Message): Option<seq<Message>> {
    if ms == [] then None
    else if ms[0].id == record.id then Some([record] + ms[1..])
    else match Saved(ms[1..], record)
         case None => None
         case Some(rest) => Some([ms[0]] + rest)
  }

  lemma {:induction false} SavedAt(ms: seq<Message>, record: Message, i: nat)
    requires i < |ms| && ms[i].id == record.id && forall j :: 0 <= j < i ==> ms[j].id != record.id
    ensures Saved(ms, record) == Some(ms[i := record])
  {
    if i == 0 {
      assert ms[i := record] == [record] + ms[1..];
    } else {
      assert ms[0].id != record.id;
      SavedAt(ms[1..], record, i - 1);
      assert ms[i := record] == [ms[0]] + ms[1..][i - 1 := record];
    }
  }

  lemma {:induction false} SavedNowhere(ms: seq<Message>, record: Message)
    requires forall j :: 0 <= j < |ms| ==> ms[j].id != record.id
    ensures Saved(ms, record).None?
  {
    if ms != [] {
      assert ms[0].id != record.id;
      SavedNowhere(ms[1..], record);
    }
  }

  class Storage {
    var messages: seq<Message>
    var nextId: nat
    var leases: map<Peer, Lease>
    var nextLeaseId: nat

    function State(): Queue
      reads this
    {
      Queue(messages, nextId, leases, nextLeaseId)
    }

    constructor ()
      ensures State() == Queue([], 0, map[], 0)
    {
      messages, nextId, leases, nextLeaseId := [], 0, map[], 0;
    }

    method InsertOutboundPrivateMessage(peer: Peer, kind: string, rawJson: string, now: int) returns (record: Message)
      modifies this
      ensures State() == Inserted(old(State()), peer, kind, rawJson, now)
      ensures record == messages[|messages| - 1] && record.id == old(nextId)
    {
      var id := nextId;
      nextId := nextId + 1;
      record := NewMessage(id, peer, kind, rawJson, now);
      messages := messages + [record];
    }

    method ClaimPeerLinkOperation(peer: Peer, now: int, expiresAt: int) returns (lease: Option<Lease>)
      modifies this
      ensures State() == Acquired(old(State()), peer, now, expiresAt)
      ensures lease == if Free(old(State()), peer, now) then Some(leases[peer]) else None
    {
      if peer in leases {
        if leases[peer].expiresAt > now {
          return None;
        }
      }
      var granted := Lease(nextLeaseId, now, expiresAt);
      nextLeaseId := nextLeaseId + 1;
      leases := leases[peer := granted];
      return Some(granted);
    }

    method ReleasePeerLinkOperation(peer: Peer, lease: nat)
      modifies this
      ensures State() == Released(old(State()), peer, lease)
    {
      if peer in leases && leases[peer].id == lease {
        leases := leases - {peer};
      }
    }

    method Supersede(peer: Peer, t: Times)
      modifies this`messages
      ensures messages == SupersedeAll(old(messages), peer, LatestList(Of(old(messages), peer)), t)
    {
      var latest := LatestPrivateListId(messages, peer);
      ghost var was := messages;
      var i := 0;
      while i < |messages|
        invariant 0 <= i <= |messages| == |was|
        invariant forall j :: 0 <= j < i ==> messages[j] == SupersedeOne(was[j], peer, latest, t)
        invariant forall j :: i <= j < |was| ==> messages[j] == was[j]
      {
        var m := messages[i];
        if m.peer == peer && Outdated(m, latest, t) {
          messages := messages[i := m.(status := Superseded, updatedAt := t.now, lastError := None)];
        }
        i := i + 1;
      }
    }

    method ClaimNextOutboundPrivateMessage(peer: Peer, t: Times) returns (record: Option<Message>)
      modifies this`messages
      ensures (messages, record) == ClaimNext(old(messages), peer, t)
    {
      Supersede(peer, t);
      var head := FirstIndex(messages, OpenFor(peer));
      if head.None? {
        return None;
      }
      var m := messages[head.value];
      if !Claimable(m, t) {
        return None;
      }
      messages := messages[head.value := AsClaimed(m, t.now)];
      return Some(AsClaimed(m, t.now));
    }

    method SaveOutboundPrivateMessage(record: Message) returns (ok: bool)
      modifies this`messages
      ensures ok <==> Saved(old(messages), record).Some?
      ensures messages == if ok then Saved(old(messages), record).value else old(messages)
    {
      var i := 0;
      while i < |messages|
        invariant 0 <= i <= |messages|
        invariant forall j :: 0 <= j < i ==> messages[j].id != record.id
      {
        if messages[i].id == record.id {
          SavedAt(messages, record, i);
          messages := messages[i := record];
          return true;
        }
        i := i + 1;
      }
      SavedNowhere(messages, record);
      return false;
    }
  }

  function Later(latest: Option<nat>, peer: Peer, m: Message): Option<nat> {
    if m.peer == peer && LiveList(m) && (latest.None? || latest.value < m.id) then Some(m.id) else latest
  }

  lemma LatestAppend(ms: seq<Message>, peer: Peer, m: Message)
    requires m.peer == peer
    ensures LatestList(ms + [m]) == Later(LatestList(ms), peer, m)
  {
  }

  lemma LatestSnoc(ms: seq<Message>, peer: Peer, i: nat)
    requires i < |ms|
    ensures LatestList(Of(ms[..i + 1], peer)) == Later(LatestList(Of(ms[..i], peer)), peer, ms[i])
  {
    assert ms[..i + 1][..i] == ms[..i];
    if ms[i].peer == peer {
      LatestAppend(Of(ms[..i], peer), peer, ms[i]);
    } else {
      assert Of(ms[..i + 1], peer) == Of(ms[..i], peer);
    }
  }

  method LatestPrivateListId(ms: seq<Message>, peer: Peer) returns (latest: Option<nat>)
    ensures latest == LatestList(Of(ms, peer))
  {
    latest := None;
    var i := 0;
    while i < |ms|
      invariant 0 <= i <= |ms| && latest == LatestList(Of(ms[..i], peer))
    {
      LatestSnoc(ms, peer, i);
      latest := Later(latest, peer, ms[i]);
      i := i + 1;
    }
    assert ms[..i] == ms;
  }

  method FirstIndex(ms: seq<Message>, keep: Message -> bool) returns (first: Option<nat>)
    ensures first == First(ms, keep)
  {
    first := None;
    var i := 0;
    while i < |ms|
      invariant 0 <= i <= |ms| && first == First(ms[..i], keep)
    {
      assert ms[..i + 1][..i] == ms[..i];
      if keep(ms[i]) && (first.None? || ms[i].id < ms[first.value].id) {
        first := Some(i);
      }
      i := i + 1;
    }
    assert ms[..i] == ms;
  }

  method OutboundPrivateQueueHeadIsClaimable(ms: seq<Message>, t: Times) returns (claimable: bool)
    ensures claimable <==> HeadIsClaimable(ms, t)
  {
    var head := FirstIndex(ms, StillDue(LatestList(ms), t));
    if head.None? {
      return false;
    }
    return Claimable(ms[head.value], t) || Stale(ms[head.value], t.staleBefore);
  }
}
