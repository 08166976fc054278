/** From publishing to reading: what discovery and bulk reads return after any run of calls on an
    account that started empty. */
module AccountRuns {
  import opened Wrappers
  import opened Text
  import opened Paths
  import opened Homeserver
  import opened ReceiverMarker
  import opened Discovery
  import opened PaymentLists
  import opened EndpointStore
  import Utf8

  /** Like `Apply`, but a stored empty payload is remembered: its file exists. */
  function Keep(a: Directory, op: Op): Directory {
    match op
    case SetEndpoint(r, id, payload) => a.(endpoints := a.endpoints[(r, id) := payload])
    case RemoveEndpoint(r, id) => a.(endpoints := a.endpoints - {(r, id)})
    case PublishMarker(m) => a.(markers := a.markers[m.receiverPath := m])
    case RemoveMarker(r) => a.(markers := a.markers - {r})
  }

  function RunKept(a: Directory, calls: seq<Call>): Directory
    decreases |calls|
  {
    if calls == [] then a
    else RunKept(if TakesEffect(calls[0]) then Keep(a, calls[0].op) else a, calls[1..])
  }

  /** The maps a reader sees: without the empty payloads. */
  function HideEmpty(a: Directory): Directory {
    a.(endpoints := map k | k in a.endpoints && a.endpoints[k] != "" :: a.endpoints[k])
  }

  /** The abstract maps are the kept ones without the empty payloads, over every run. */
  lemma {:induction false} AbstractIsKept(a: Directory, calls: seq<Call>)
    ensures RunAbstract(HideEmpty(a), calls) == HideEmpty(RunKept(a, calls))
    decreases |calls|
  {
    if calls != [] {
      var op := calls[0].op;
      assert HideEmpty(Keep(a, op)) == Apply(HideEmpty(a), op);
      AbstractIsKept(if TakesEffect(calls[0]) then Keep(a, op) else a, calls[1..]);
    }
  }

  // --------------------------------------------------- the files are exactly the directory's

  ghost predicate HoldsEndpoints(h: Server, a: Directory) {
    forall r, id :: (r, id) in a.endpoints ==>
      && IsReceiverPath(r) && IsIdentifier(id)
      && Get(Stored(h), EndpointPath(r, id)) == Found(Utf8.Encode(a.endpoints[(r, id)]))
  }

  ghost predicate HoldsMarkers(codec: Codec, h: Server, a: Directory) {
    forall r :: r in a.markers ==>
      && IsReceiverPath(r) && a.markers[r].receiverPath == r
      && Get(Stored(h), MarkerPath(r)) == Found(Utf8.Encode(Serialize(codec, a.markers[r])))
  }

  ghost predicate Accounted(a: Directory, path: string) {
    || (exists r, id :: (r, id) in a.endpoints && path == EndpointPath(r, id))
    || (exists r :: r in a.markers && path == MarkerPath(r))
  }

  ghost predicate Layout(codec: Codec, h: Server, a: Directory) {
    HoldsEndpoints(h, a) && HoldsMarkers(codec, h, a) && forall path :: path in h.files ==> Accounted(a, path)
  }

  lemma EndpointsHeld(codec: Codec, h: Server, a: Directory, op: Op)
    requires Layout(codec, h, a) && WellTyped(op)
    ensures HoldsEndpoints(Effect(codec, h, op), Keep(a, op))
  {
    var h', a' := Effect(codec, h, op), Keep(a, op);
    forall r, id | (r, id) in a'.endpoints
      ensures IsReceiverPath(r) && IsIdentifier(id)
      ensures Get(Stored(h'), EndpointPath(r, id)) == Found(Utf8.Encode(a'.endpoints[(r, id)]))
    {
      TargetsEndpoint(op, r, id);
      if EndpointPath(r, id) != Target(op) { EffectFrame(codec, h, op, EndpointPath(r, id)); }
    }
  }

  lemma MarkersHeld(codec: Codec, h: Server, a: Directory, op: Op)
    requires Layout(codec, h, a) && WellTyped(op)
    ensures HoldsMarkers(codec, Effect(codec, h, op), Keep(a, op))
  {
    var h', a' := Effect(codec, h, op), Keep(a, op);
    forall r | r in a'.markers
      ensures IsReceiverPath(r) && a'.markers[r].receiverPath == r
      ensures Get(Stored(h'), MarkerPath(r)) == Found(Utf8.Encode(Serialize(codec, a'.markers[r])))
    {
      TargetsMarker(op, r);
      if MarkerPath(r) != Target(op) { EffectFrame(codec, h, op, MarkerPath(r)); }
    }
  }

  lemma OthersAccounted(a: Directory, op: Op, path: string)
    requires Accounted(a, path) && path != Target(op)
    ensures Accounted(Keep(a, op), path)
  {
  }

  lemma TargetAccounted(a: Directory, op: Op)
    requires op.SetEndpoint? || op.PublishMarker?
    ensures Accounted(Keep(a, op), Target(op))
  {
  }

  lemma StillAccounted(codec: Codec, h: Server, a: Directory, op: Op, path: string)
    requires forall p :: p in h.files ==> Accounted(a, p)
    requires path in Effect(codec, h, op).files
    ensures Accounted(Keep(a, op), path)
  {
    if path == Target(op) {
      TargetAccounted(a, op);
    } else {
      assert path in h.files;
      OthersAccounted(a, op, path);
    }
  }

  lemma {:induction false} RunLayout(codec: Codec, h: Server, a: Directory, calls: seq<Call>)
    requires Layout(codec, h, a) && AllWellTyped(calls)
    ensures Layout(codec, Run(codec, h, calls), RunKept(a, calls))
    decreases |calls|
  {
    if calls != [] {
      var h1, op := h.(down := calls[0].down), calls[0].op;
      assert Stored(h1) == Stored(h);
      assert Layout(codec, h1, a);
      if !TakesEffect(calls[0]) {
        RunLayout(codec, h1, a, calls[1..]);
      } else {
        EndpointsHeld(codec, h1, a, op);
        MarkersHeld(codec, h1, a, op);
        forall path | path in Effect(codec, h1, op).files ensures Accounted(Keep(a, op), path) {
          StillAccounted(codec, h1, a, op, path);
        }
        RunLayout(codec, Effect(codec, h1, op), Keep(a, op), calls[1..]);
      }
    }
  }

  // ------------------------------------------------------------------ what readers see

  /** One receiver's files are its endpoints, by name. */
  lemma FolderFiles(codec: Codec, h: Server, a: Directory, r: string, name: string)
    requires Layout(codec, h, a) && IsReceiverPath(r)
    ensures IsFileIn(h, EndpointPathPrefix(r), name) <==> (r, name) in a.endpoints
    ensures (r, name) in a.endpoints ==> h.files[EndpointPath(r, name)] == Utf8.Encode(a.endpoints[(r, name)])
  {
    if IsFileIn(h, EndpointPathPrefix(r), name) {
      assert Accounted(a, EndpointPath(r, name));
      if r', id' :| (r', id') in a.endpoints && EndpointPath(r, name) == EndpointPath(r', id') {
        IdentifierIsName(id');
        PathsSeparate(r, name, r', id');
      } else {
        var r' :| r' in a.markers && EndpointPath(r, name) == MarkerPath(r');
        PathsSeparate(r, name, r', "");
        assert false;
      }
    }
    if (r, name) in a.endpoints {
      IdentifierIsName(name);
      assert Get(Stored(h), EndpointPath(r, name)).Found?;
    }
  }

  lemma NothingCorrupt(codec: Codec, h: Server, a: Directory, r: string, name: string)
    requires Layout(codec, h, a) && IsReceiverPath(r)
    ensures !Corrupt(h, EndpointPathPrefix(r), name)
  {
    FolderFiles(codec, h, a, r, name);
    if (r, name) in a.endpoints { Utf8.DecodeEncode(a.endpoints[(r, name)]); }
  }

  lemma MarkerExactly(codec: Codec, h: Server, a: Directory, r: string)
    requires Lawful(codec) && Layout(codec, h, a) && h.down == {} && IsReceiverPath(r)
    ensures HasMarker(h, codec, r) <==> r in a.markers
  {
    if r in a.markers {
      assert Get(Stored(h), MarkerPath(r)) == Get(h, MarkerPath(r));
      MarkerReadBack(codec, h, a.markers[r]);
    } else if MarkerPath(r) in h.files {
      MarkerAccounted(codec, h, a, r);
      assert false;
    }
  }

  /** Advertised are exactly the receivers with a marker or any stored endpoint, empty or not. */
  lemma AdvertisedExactly(codec: Codec, h: Server, a: Directory, r: string)
    requires Lawful(codec) && Layout(codec, h, a) && h.down == {} && IsReceiverPath(r)
    ensures Advertised(h, codec, r) <==> r in a.markers || exists id :: (r, id) in a.endpoints
  {
    MarkerExactly(codec, h, a, r);
    forall name ensures IsFileIn(h, EndpointPathPrefix(r), name) <==> (r, name) in a.endpoints {
      FolderFiles(codec, h, a, r, name);
    }
  }

  lemma MarkerAccounted(codec: Codec, h: Server, a: Directory, r: string)
    requires Layout(codec, h, a) && IsReceiverPath(r) && MarkerPath(r) in h.files
    ensures r in a.markers
  {
    assert Accounted(a, MarkerPath(r));
    if r', id' :| (r', id') in a.endpoints && MarkerPath(r) == EndpointPath(r', id') {
      IdentifierIsName(id');
      PathsSeparate(r', id', r, "");
      assert false;
    } else {
      var r' :| r' in a.markers && MarkerPath(r) == MarkerPath(r');
      PathsSeparate(r, "", r', "");
    }
  }

  lemma FreshLayout(codec: Codec, calls: seq<Call>) returns (h: Server)
    requires AllWellTyped(calls)
    ensures h == Stored(Run(codec, Server(map[], {}), calls))
    ensures Layout(codec, h, RunKept(Directory(map[], map[]), calls))
  {
    RunLayout(codec, Server(map[], {}), Directory(map[], map[]), calls);
    var ran := Run(codec, Server(map[], {}), calls);
    h := Stored(ran);
    assert Stored(h) == Stored(ran);
  }

  /** After any run, the bulk read of a receiver succeeds with exactly its part of the abstract map. */
  method ListAfterRun(codec: Codec, calls: seq<Call>, r: string) returns (list: map<string, string>)
    requires IsReceiverPath(r) && AllWellTyped(calls)
    ensures var endpoints := RunAbstract(Directory(map[], map[]), calls).endpoints;
      forall id :: (id in list <==> (r, id) in endpoints) && (id in list ==> list[id] == endpoints[(r, id)])
  {
    var h := Stored(Run(codec, Server(map[], {}), calls));
    ghost var empty := Directory(map[], map[]);
    ghost var kept := RunKept(empty, calls);
    ghost var same := FreshLayout(codec, calls);
    assert HideEmpty(empty) == empty;
    AbstractIsKept(empty, calls);
    forall name ensures !Corrupt(h, EndpointPathPrefix(r), name) { NothingCorrupt(codec, h, kept, r, name); }
    var res := FetchPaymentList(h, r);
    list := res.value;
    forall id ensures Lookup(list, id) == Shown(kept, r, id) {
      SingleRead(codec, h, kept, r, id);
    }
    ghost var endpoints := HideEmpty(kept).endpoints;
    forall id ensures (id in list <==> (r, id) in endpoints) && (id in list ==> list[id] == endpoints[(r, id)]) {
      assert Lookup(list, id) == Shown(kept, r, id);
    }
  }

  function Shown(a: Directory, r: string, id: string): Option<string> {
    if (r, id) in a.endpoints && a.endpoints[(r, id)] != "" then Some(a.endpoints[(r, id)]) else None
  }

  lemma SingleRead(codec: Codec, h: Server, a: Directory, r: string, id: string)
    requires Layout(codec, h, a) && h.down == {} && IsReceiverPath(r)
    ensures IsIdentifier(id) ==> FetchPaymentEndpoint(h, r, id) == Ok(Shown(a, r, id))
    ensures (r, id) in a.endpoints ==> IsIdentifier(id)
  {
    FolderFiles(codec, h, a, r, id);
    if IsIdentifier(id) { IdentifierIsName(id); }
    if (r, id) in a.endpoints { ReadBack(h, EndpointPath(r, id), a.endpoints[(r, id)]); }
  }

  /** After any run, discovery succeeds with exactly the receivers that still have something. */
  method ReceiversAfterRun(codec: Codec, calls: seq<Call>) returns (receivers: seq<string>)
    requires AllWellTyped(calls)
    requires Lawful(codec)
    ensures StrictlyIncreasing(receivers)
    ensures var kept := RunKept(Directory(map[], map[]), calls);
      forall r :: r in receivers <==> r in kept.markers || exists id :: (r, id) in kept.endpoints
  {
    var h := Stored(Run(codec, Server(map[], {}), calls));
    ghost var kept := RunKept(Directory(map[], map[]), calls);
    ghost var same := FreshLayout(codec, calls);
    var res := ReceiverPathsUnchanging(h, codec);
    NothingFails(h, codec);
    receivers := res.value;
    forall r ensures r in receivers <==> r in kept.markers || exists id :: (r, id) in kept.endpoints {
      ReceiverKept(codec, h, kept, r);
    }
  }

  lemma NothingFails(h: Server, codec: Codec)
    requires h.down == {}
    ensures !DiscoveryFails(h, codec)
  {
  }

  lemma ReceiverKept(codec: Codec, h: Server, a: Directory, r: string)
    requires Lawful(codec) && Layout(codec, h, a) && h.down == {}
    ensures IsReceiverPath(r) && Advertised(h, codec, r) <==> r in a.markers || exists id :: (r, id) in a.endpoints
  {
    if IsReceiverPath(r) { AdvertisedExactly(codec, h, a, r); }
  }
}
