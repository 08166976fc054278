/** Letting a platform adapter choose payment candidates by id. */
module Selection {
  import opened Wrappers
  import opened Text
  import opened Paths
  import opened PairDomain
  import opened Utf8

  datatype Candidate = Candidate(counterparty: string, receiverPath: string, identifier: string, payload: string)

  datatype Source = Public | Private

  function SourceText(source: Source): string { if source.Public? then "public" else "private" }

  // ------------------------------------------------------------ candidate ids

  /** The bytes fed to the digest, one update at a time. */
  function Preimage(source: Source, c: Candidate): seq<byte> {
    Join([Encode(c.counterparty), Encode(c.receiverPath), Encode(SourceText(source)), Encode(c.identifier),
          Encode(c.payload)], 0)
  }

  predicate IsCandidate(c: Candidate) { NulFree(c.counterparty) && IsReceiverPath(c.receiverPath) }

  /** The part before the payload: four fields without NUL. */
  function Head(source: Source, c: Candidate): seq<seq<byte>> {
    [Encode(c.counterparty), Encode(c.receiverPath), Encode(SourceText(source)), Encode(c.identifier)]
  }

  lemma HeadNulFree(source: Source, c: Candidate)
    requires IsCandidate(c) && NulFree(c.identifier)
    ensures forall p :: p in Head(source, c) ==> 0 !in p
  {
    ReceiverPathNulFree(c.receiverPath);
    EncodeNulFree(c.counterparty);
    EncodeNulFree(c.receiverPath);
    EncodeNulFree(SourceText(source));
    EncodeNulFree(c.identifier);
  }

  lemma PreimageSplits(source: Source, c: Candidate)
    requires IsCandidate(c) && NulFree(c.identifier)
    ensures Preimage(source, c) == Join(Head(source, c), 0) + [0] + Encode(c.payload)
    ensures Split(Preimage(source, c), 0) == Head(source, c) + Split(Encode(c.payload), 0)
  {
    HeadNulFree(source, c);
    JoinSnoc(Head(source, c), 0, Encode(c.payload));
    assert Head(source, c) + [Encode(c.payload)]
        == [Encode(c.counterparty), Encode(c.receiverPath), Encode(SourceText(source)), Encode(c.identifier),
            Encode(c.payload)];
    SplitAfter(Head(source, c), 0, Encode(c.payload));
  }

  /** Equal bytes mean equal candidates of equal source, for payloads of any content. */
  lemma PreimageDetermines(s: Source, c: Candidate, s': Source, c': Candidate)
    requires IsCandidate(c) && NulFree(c.identifier) && IsCandidate(c') && NulFree(c'.identifier)
    requires Preimage(s, c) == Preimage(s', c')
    ensures s == s' && c == c'
  {
    PreimageSplits(s, c);
    PreimageSplits(s', c');
    var h, h' := Head(s, c), Head(s', c');
    var parts := Split(Preimage(s, c), 0);
    assert parts[..4] == h && parts[..4] == h';
    assert h[0] == h'[0] && h[1] == h'[1] && h[2] == h'[2] && h[3] == h'[3];
    EncodeInjective(c.counterparty, c'.counterparty);
    EncodeInjective(c.receiverPath, c'.receiverPath);
    EncodeInjective(SourceText(s), SourceText(s'));
    EncodeInjective(c.identifier, c'.identifier);
    var n := |Join(h, 0)| + 1;
    assert Preimage(s, c)[n..] == Encode(c.payload);
    assert Preimage(s', c')[n..] == Encode(c'.payload);
    EncodeInjective(c.payload, c'.payload);
  }

  /** Valid identifiers are NUL-free, so the law above covers every validated candidate. */
  lemma IdentifierNulFree(id: string)
    requires IsIdentifier(id)
    ensures NulFree(id)
  {
  }

  /** Without that the fields can slide: the identifier is an unchecked string here, and two
      candidates differing only in where a NUL sits feed the same bytes. */
  lemma NulInIdentifierCollides(
    counterparty: string, receiverPath: string, s: Source, x: string, nul: string, y: string, z: string)
    requires nul == ['\0']
    ensures Preimage(s, Candidate(counterparty, receiverPath, x + nul + y, z))
         == Preimage(s, Candidate(counterparty, receiverPath, x, y + nul + z))
  {
    EncodeAppend(x + nul, y);
    EncodeAppend(x, nul);
    EncodeAppend(y + nul, z);
    EncodeAppend(y, nul);
    assert Encode(nul) == [0];
    FieldsSlide(Encode(counterparty), Encode(receiverPath), Encode(SourceText(s)), Encode(x), Encode(y), Encode(z));
  }

  lemma FieldsSlide(a: seq<byte>, b: seq<byte>, c: seq<byte>, x: seq<byte>, y: seq<byte>, z: seq<byte>)
    ensures Join([a, b, c, x + [0] + y, z], 0) == Join([a, b, c, x, y + [0] + z], 0)
  {
    var f := [a, b, c];
    var id, p := x + [0] + y, y + [0] + z;
    JoinSnoc(f, 0, id);
    JoinSnoc(f + [id], 0, z);
    JoinSnoc(f, 0, x);
    JoinSnoc(f + [x], 0, p);
    assert f + [id] + [z] == [a, b, c, id, z];
    assert f + [x] + [p] == [a, b, c, x, p];
    var j := Join(f, 0);
    assert (j + [0] + id) + [0] + z == (j + [0] + x) + [0] + p;
  }

  // ----------------------------------------------------------------- selection

  predicate Distinct(ids: seq<string>) {
    forall i, j :: 0 <= i < j < |ids| ==> ids[i] != ids[j]
  }

  /** An acceptable reply: no id twice, none that was not offered. */
  predicate Acceptable(ids: seq<string>, reply: seq<string>) {
    Distinct(reply) && forall id :: id in reply ==> id in ids
  }

  /** The candidates a reply picks: entry `k` is the one whose id the adapter put at place `k`. */
  ghost predicate PicksAt<T>(ids: seq<string>, candidates: seq<T>, reply: seq<string>, at: seq<nat>, selected: seq<T>) {
    && |ids| == |candidates| && |at| == |reply| == |selected|
    && (forall k :: 0 <= k < |at| ==> at[k] < |ids| && ids[at[k]] == reply[k] && selected[k] == candidates[at[k]])
    && (forall j, k :: 0 <= j < k < |at| ==> at[j] != at[k])
  }

  ghost predicate Picks<T>(ids: seq<string>, candidates: seq<T>, reply: seq<string>, selected: seq<T>) {
    exists at :: PicksAt(ids, candidates, reply, at, selected)
  }

  /** First position of an id, `|ids|` when it is not there. */
  method Find(ids: seq<string>, id: string) returns (index: nat)
    ensures index <= |ids|
    ensures index < |ids| ==> ids[index] == id
    ensures index == |ids| <==> id !in ids
  {
    index := 0;
    while index < |ids| && ids[index] != id
      invariant index <= |ids| && id !in ids[..index]
    {
      index := index + 1;
    }
  }

  method SelectedCandidates<T>(reply: seq<string>, ids: seq<string>, candidates: seq<T>)
    returns (res: Result<seq<T>>)
    requires |ids| == |candidates|
    ensures res.Ok? <==> Acceptable(ids, reply)
    ensures res.Ok? ==> Picks(ids, candidates, reply, res.value)
  {
    var selected: seq<T>, seen: set<string> := [], {};
    ghost var at: seq<nat> := [];
    var i := 0;
    while i < |reply|
      invariant 0 <= i <= |reply|
      invariant seen == set id | id in reply[..i]
      invariant Acceptable(ids, reply[..i])
      invariant PicksAt(ids, candidates, reply[..i], at, selected)
    {
      assert reply[..i + 1] == reply[..i] + [reply[i]];
      if reply[i] in seen {
        assert reply[i] in reply[..i];
        return Err(Validation);
      }
      seen := seen + {reply[i]};
      var index := Find(ids, reply[i]);
      if index == |ids| {
        assert reply[i] in reply;
        return Err(Validation);
      }
      at := at + [index];
      selected := selected + [candidates[index]];
      i := i + 1;
    }
    assert reply[..i] == reply;
    return Ok(selected);
  }

  /** `select_*_payment_endpoints`: offer the candidates under their ids, ask, and map back. */
  method SelectPaymentEndpoints<T>(
    candidates: seq<T>, idOf: T -> string, adapter: seq<(string, T)> -> Result<seq<string>>)
    returns (res: Result<seq<T>>)
    ensures
      var ids := seq(|candidates|, i requires 0 <= i < |candidates| => idOf(candidates[i]));
      var offer := seq(|candidates|, i requires 0 <= i < |candidates| => (idOf(candidates[i]), candidates[i]));
      && (res.Ok? <==> Distinct(ids) && adapter(offer).Ok? && Acceptable(ids, adapter(offer).value))
      && (res.Ok? ==> Picks(ids, candidates, adapter(offer).value, res.value))
  {
    ghost var allIds := seq(|candidates|, i requires 0 <= i < |candidates| => idOf(candidates[i]));
    ghost var offer := seq(|candidates|, i requires 0 <= i < |candidates| => (idOf(candidates[i]), candidates[i]));
    var seen: set<string>, ids: seq<string>, offered: seq<(string, T)> := {}, [], [];
    var i := 0;
    while i < |candidates|
      invariant 0 <= i <= |candidates|
      invariant ids == allIds[..i] && offered == offer[..i]
      invariant seen == (set id | id in ids) && Distinct(ids)
    {
      var id := idOf(candidates[i]);
      if id in seen {
        assert allIds[i] == id && id in ids;
        return Err(Validation);
      }
      seen := seen + {id};
      ids := ids + [id];
      offered := offered + [(id, candidates[i])];
      i := i + 1;
    }
    assert ids == allIds && offered == offer;
    var reply := adapter(offered);
    if reply.Err? {
      return Err(reply.error);
    }
    res := SelectedCandidates(reply.value, ids, candidates);
  }

  /** Distinct ids and distinct positions: nothing is returned twice, and the returned candidates
      carry the adapter's ids in the adapter's order. */
  lemma SelectionIsFaithful<T>(
    candidates: seq<T>, idOf: T -> string, reply: seq<string>, selected: seq<T>, j: nat, k: nat)
    requires
      var ids := seq(|candidates|, i requires 0 <= i < |candidates| => idOf(candidates[i]));
      Picks(ids, candidates, reply, selected)
    requires Distinct(reply) && j < |selected| && k < |selected|
    ensures selected[k] in candidates && idOf(selected[k]) == reply[k]
    ensures selected[j] == selected[k] ==> j == k
  {
  }
}
