/** Publishing and removing endpoints and markers, and the abstract maps they maintain. */
module EndpointStore {
  import opened Wrappers
  import opened Paths
  import opened Homeserver
  import opened ReceiverMarker
  import opened Discovery
  import opened PaymentLists
  import Utf8

  datatype Op =
    | SetEndpoint(r: string, id: string, payload: string)
    | RemoveEndpoint(r: string, id: string)
    | PublishMarker(marker: Marker)
    | RemoveMarker(r: string)

  /** Arguments are values of validated types in the source. */
  predicate WellTyped(op: Op) {
    match op
    case SetEndpoint(r, id, _) => IsReceiverPath(r) && IsIdentifier(id)
    case RemoveEndpoint(r, id) => IsReceiverPath(r) && IsIdentifier(id)
    case PublishMarker(m) => IsReceiverPath(m.receiverPath)
    case RemoveMarker(r) => IsReceiverPath(r)
  }

  function Target(op: Op): string {
    match op
    case SetEndpoint(r, id, _) => EndpointPath(r, id)
    case RemoveEndpoint(r, id) => EndpointPath(r, id)
    case PublishMarker(m) => MarkerPath(m.receiverPath)
    case RemoveMarker(r) => MarkerPath(r)
  }

  function WriteFile(h: Server, path: string, body: string): Server {
    h.(files := h.files[path := Utf8.Encode(body)])
  }

  /** Deleting an absent file is a success without effect. */
  function DeleteFile(h: Server, path: string): Server { h.(files := h.files - {path}) }

  /** What a request does when it arrives. */
  function Effect(codec: Codec, h: Server, op: Op): Server {
    match op
    case SetEndpoint(_, _, payload) => WriteFile(h, Target(op), payload)
    case RemoveEndpoint(_, _) => DeleteFile(h, Target(op))
    case PublishMarker(m) => WriteFile(h, Target(op), Serialize(codec, m))
    case RemoveMarker(_) => DeleteFile(h, Target(op))
  }

  /** A call that reports failure may have landed all the same: only its answer was lost. */
  function Exec(codec: Codec, h: Server, op: Op, landed: bool): Server {
    if Target(op) in h.down && !landed then h else Effect(codec, h, op)
  }

  /** A Pubky session holding write access to one homeserver. */
  class Session {
    var server: Server

    constructor (server: Server)
      ensures this.server == server
    {
      this.server := server;
    }

    method Put(path: string, body: string, landed: bool) returns (res: Result<()>)
      modifies this
      ensures res == if path in old(server).down then Err(Transport) else Ok(())
      ensures server == if res.Ok? || landed then WriteFile(old(server), path, body) else old(server)
    {
      var failed := path in server.down;
      if !failed || landed {
        server := server.(files := server.files[path := Utf8.Encode(body)]);
      }
      return if failed then Err(Transport) else Ok(());
    }

    method Delete(path: string, landed: bool) returns (res: Result<()>)
      modifies this
      ensures res == if path in old(server).down then Err(Transport) else Ok(())
      ensures server == if res.Ok? || landed then DeleteFile(old(server), path) else old(server)
    {
      var failed := path in server.down;
      if path !in server.files {
        assert server.files - {path} == server.files;  // 404: already absent
      } else if !failed || landed {
        server := server.(files := server.files - {path});
      }
      return if failed then Err(Transport) else Ok(());
    }

    method UpsertPaymentEndpoint(r: string, id: string, payload: string, landed: bool) returns (res: Result<()>)
      modifies this
      ensures forall codec :: server == Exec(codec, old(server), SetEndpoint(r, id, payload), landed)
      ensures res.Err? <==> EndpointPath(r, id) in old(server).down
    {
      res := Put(EndpointPath(r, id), payload, landed);
    }

    method DeletePaymentEndpoint(r: string, id: string, landed: bool) returns (res: Result<()>)
      modifies this
      ensures forall codec :: server == Exec(codec, old(server), RemoveEndpoint(r, id), landed)
      ensures res.Err? <==> EndpointPath(r, id) in old(server).down
    {
      res := Delete(EndpointPath(r, id), landed);
    }

    method UpsertReceiverMarker(codec: Codec, marker: Marker, landed: bool) returns (res: Result<()>)
      modifies this
      ensures server == Exec(codec, old(server), PublishMarker(marker), landed)
      ensures res.Err? <==> MarkerPath(marker.receiverPath) in old(server).down
    {
      res := Put(MarkerPath(marker.receiverPath), Serialize(codec, marker), landed);
    }

    method DeleteReceiverMarker(r: string, landed: bool) returns (res: Result<()>)
      modifies this
      ensures forall codec :: server == Exec(codec, old(server), RemoveMarker(r), landed)
      ensures res.Err? <==> MarkerPath(r) in old(server).down
    {
      res := Delete(MarkerPath(r), landed);
    }
  }

  // ----------------------------------------------------------- the abstract maps

  /** What the calls are for: payloads by (receiver, identifier) and markers by receiver. */
  datatype Directory = Directory(endpoints: map<(string, string), string>, markers: map<string, Marker>)

  function Lookup<K, V>(m: map<K, V>, k: K): Option<V> {
    if k in m then Some(m[k]) else None
  }

  /** An empty payload is the same as no endpoint at all. */
  function Apply(a: Directory, op: Op): Directory {
    match op
    case SetEndpoint(r, id, payload) =>
      a.(endpoints := if payload == "" then a.endpoints - {(r, id)} else a.endpoints[(r, id) := payload])
    case RemoveEndpoint(r, id) => a.(endpoints := a.endpoints - {(r, id)})
    case PublishMarker(m) => a.(markers := a.markers[m.receiverPath := m])
    case RemoveMarker(r) => a.(markers := a.markers - {r})
  }

  /** What is stored, whatever is reachable at the moment. */
  function Stored(h: Server): Server { h.(down := {}) }

  ghost predicate ShowsEndpoints(h: Server, endpoints: map<(string, string), string>) {
    forall r, id :: IsReceiverPath(r) && IsIdentifier(id) ==>
      FetchPaymentEndpoint(Stored(h), r, id) == Ok(Lookup(endpoints, (r, id)))
  }

  ghost predicate ShowsMarkers(h: Server, codec: Codec, markers: map<string, Marker>) {
    forall r :: IsReceiverPath(r) ==>
      FetchReceiverMarker(Stored(h), codec, r) == Ok(Lookup(markers, r))
  }

  ghost predicate Refines(codec: Codec, h: Server, a: Directory) {
    ShowsEndpoints(h, a.endpoints) && ShowsMarkers(h, codec, a.markers)
  }

  // ------------------------------------------------------------------ one step

  /** One call touches one file; every other file of the account stays as it was. */
  lemma EffectFrame(codec: Codec, h: Server, op: Op, path: string)
    requires path != Target(op)
    ensures Get(Stored(Effect(codec, h, op)), path) == Get(Stored(h), path)
  {
  }

  lemma ReadSame(h: Server, h': Server, path: string)
    requires Get(h, path) == Get(h', path)
    ensures FetchText(h, path) == FetchText(h', path)
    ensures FetchNonemptyText(h, path) == FetchNonemptyText(h', path)
  {
  }

  lemma ReadBack(h: Server, path: string, body: string)
    requires Get(h, path) == Found(Utf8.Encode(body))
    ensures FetchText(h, path) == Ok(if body == "" then None else Some(body))
    ensures body != "" ==> FetchNonemptyText(h, path) == Ok(Some(body))
  {
    Utf8.DecodeEncode(body);
    assert body != "" ==> Utf8.Encode(body) != [];
  }

  /** A stored marker is what its receiver's marker read returns. */
  lemma MarkerReadBack(codec: Codec, h: Server, m: Marker)
    requires Lawful(codec) && IsReceiverPath(m.receiverPath)
    requires Get(h, MarkerPath(m.receiverPath)) == Found(Utf8.Encode(Serialize(codec, m)))
    ensures FetchReceiverMarker(h, codec, m.receiverPath) == Ok(Some(m))
  {
    MarkerRoundTrip(codec, m, m.receiverPath);
    ReadBack(h, MarkerPath(m.receiverPath), Serialize(codec, m));
  }

  /** A read returns a text exactly when that text is non-empty and its bytes are what is stored. */
  lemma ReadIsStored(h: Server, path: string, body: string)
    ensures FetchText(h, path) == Ok(Some(body)) <==> body != "" && Get(h, path) == Found(Utf8.Encode(body))
  {
    if FetchText(h, path) == Ok(Some(body)) {
      Utf8.EncodeDecode(Get(h, path).bytes);
    } else if body != "" && Get(h, path) == Found(Utf8.Encode(body)) {
      ReadBack(h, path, body);
      assert false;
    }
  }

  lemma StepEndpoint(codec: Codec, h: Server, a: Directory, op: Op, r: string, id: string)
    requires Refines(codec, h, a) && WellTyped(op) && IsReceiverPath(r) && IsIdentifier(id)
    ensures FetchPaymentEndpoint(Stored(Effect(codec, h, op)), r, id) == Ok(Lookup(Apply(a, op).endpoints, (r, id)))
  {
    var path, h' := EndpointPath(r, id), Stored(Effect(codec, h, op));
    TargetsEndpoint(op, r, id);
    if path != Target(op) {
      EffectFrame(codec, h, op, path);
      ReadSame(h', Stored(h), path);
    } else if op.SetEndpoint? {
      ReadBack(h', path, op.payload);
    }
  }

  /** A call targets an endpoint's file only if it names that endpoint. */
  lemma TargetsEndpoint(op: Op, r: string, id: string)
    requires WellTyped(op) && IsReceiverPath(r)
    ensures EndpointPath(r, id) == Target(op)
       <==> (op.SetEndpoint? && op.r == r && op.id == id) || (op.RemoveEndpoint? && op.r == r && op.id == id)
  {
    match op
    case SetEndpoint(r', id', _) => PathsSeparate(r, id, r', id');
    case RemoveEndpoint(r', id') => PathsSeparate(r, id, r', id');
    case PublishMarker(m) => PathsSeparate(r, id, m.receiverPath, "");
    case RemoveMarker(r') => PathsSeparate(r, id, r', "");
  }

  lemma TargetsMarker(op: Op, r: string)
    requires WellTyped(op) && IsReceiverPath(r)
    ensures MarkerPath(r) == Target(op)
       <==> (op.PublishMarker? && op.marker.receiverPath == r) || (op.RemoveMarker? && op.r == r)
  {
    match op
    case SetEndpoint(r', id', _) => PathsSeparate(r', id', r, "");
    case RemoveEndpoint(r', id') => PathsSeparate(r', id', r, "");
    case PublishMarker(m) => PathsSeparate(r, "", m.receiverPath, "");
    case RemoveMarker(r') => PathsSeparate(r, "", r', "");
  }

  lemma StepMarker(codec: Codec, h: Server, a: Directory, op: Op, r: string)
    requires Lawful(codec) && Refines(codec, h, a) && WellTyped(op) && IsReceiverPath(r)
    ensures FetchReceiverMarker(Stored(Effect(codec, h, op)), codec, r) == Ok(Lookup(Apply(a, op).markers, r))
  {
    var path, h' := MarkerPath(r), Stored(Effect(codec, h, op));
    TargetsMarker(op, r);
    if path != Target(op) {
      EffectFrame(codec, h, op, path);
      ReadSame(h', Stored(h), path);
    } else if op.PublishMarker? {
      MarkerReadBack(codec, h', op.marker);
    }
  }

  lemma StepRefines(codec: Codec, h: Server, a: Directory, op: Op)
    requires Lawful(codec) && Refines(codec, h, a) && WellTyped(op)
    ensures Refines(codec, Effect(codec, h, op), Apply(a, op))
  {
    forall r, id | IsReceiverPath(r) && IsIdentifier(id)
      ensures FetchPaymentEndpoint(Stored(Effect(codec, h, op)), r, id) == Ok(Lookup(Apply(a, op).endpoints, (r, id)))
    {
      StepEndpoint(codec, h, a, op, r, id);
    }
    forall r | IsReceiverPath(r)
      ensures FetchReceiverMarker(Stored(Effect(codec, h, op)), codec, r) == Ok(Lookup(Apply(a, op).markers, r))
    {
      StepMarker(codec, h, a, op, r);
    }
  }

  // ---------------------------------------------------------------- whole runs

  /** One call of a run: which paths are unreachable when it is made, and whether it lands in case
      it reports failure. Nothing about either is known in advance. */
  datatype Call = Call(op: Op, down: set<string>, landed: bool)

  predicate Succeeds(call: Call) { Target(call.op) !in call.down }

  predicate TakesEffect(call: Call) { Succeeds(call) || call.landed }

  predicate AllWellTyped(calls: seq<Call>) { forall i :: 0 <= i < |calls| ==> WellTyped(calls[i].op) }

  function Run(codec: Codec, h: Server, calls: seq<Call>): Server
    decreases |calls|
  {
    if calls == [] then h
    else Run(codec, Exec(codec, h.(down := calls[0].down), calls[0].op, calls[0].landed), calls[1..])
  }

  function RunAbstract(a: Directory, calls: seq<Call>): Directory
    decreases |calls|
  {
    if calls == [] then a
    else RunAbstract(if TakesEffect(calls[0]) then Apply(a, calls[0].op) else a, calls[1..])
  }

  /** Every run refines the abstract maps under the calls that took effect. */
  lemma {:induction false} RunRefines(codec: Codec, h: Server, a: Directory, calls: seq<Call>)
    requires Lawful(codec) && Refines(codec, h, a) && AllWellTyped(calls)
    ensures Refines(codec, Run(codec, h, calls), RunAbstract(a, calls))
    decreases |calls|
  {
    if calls != [] {
      var h1, call := h.(down := calls[0].down), calls[0];
      assert Stored(h1) == Stored(h);
      assert Refines(codec, h1, a);
      StepRefines(codec, h1, a, call.op);
      var a1 := if TakesEffect(call) then Apply(a, call.op) else a;
      RunRefines(codec, Exec(codec, h1, call.op, call.landed), a1, calls[1..]);
    }
  }

  /** A fresh account shows nothing, so any run from it is described by its calls alone. */
  lemma FreshAccountRun(codec: Codec, calls: seq<Call>)
    requires Lawful(codec) && AllWellTyped(calls)
    ensures Refines(codec, Run(codec, Server(map[], {}), calls), RunAbstract(Directory(map[], map[]), calls))
  {
    RunRefines(codec, Server(map[], {}), Directory(map[], map[]), calls);
  }

  /** Files that are nobody's target survive every run untouched. */
  lemma {:induction false} RunFrame(codec: Codec, h: Server, calls: seq<Call>, path: string)
    requires forall i :: 0 <= i < |calls| ==> Target(calls[i].op) != path
    ensures Get(Stored(Run(codec, h, calls)), path) == Get(Stored(h), path)
    decreases |calls|
  {
    if calls != [] {
      var h1, call := h.(down := calls[0].down), calls[0];
      EffectFrame(codec, h1, call.op, path);
      RunFrame(codec, Exec(codec, h1, call.op, call.landed), calls[1..], path);
    }
  }

  function ReceiverOf(op: Op): string { if op.PublishMarker? then op.marker.receiverPath else op.r }

  function RouteOf(op: Op): Route {
    match op
    case SetEndpoint(_, id, _) => EndpointRoute(id)
    case RemoveEndpoint(_, id) => EndpointRoute(id)
    case PublishMarker(_) => MarkerRoute
    case RemoveMarker(_) => MarkerRoute
  }

  lemma TargetIsPublic(op: Op, r: string, rest: string)
    requires WellTyped(op) && IsReceiverPath(r)
    ensures Target(op) != Under(PAYKIT_PRIVATE_PATH_PREFIX, r, rest)
  {
    var r', tail := ReceiverOf(op), RouteTail(RouteOf(op));
    RouteIsUnder(r', RouteOf(op));
    if Target(op) == Under(PAYKIT_PRIVATE_PATH_PREFIX, r, rest) {
      Roots();
      UnderDetermines(PAYKIT_PATH_PREFIX, PUBLIC_ROOT, r', tail, PAYKIT_PRIVATE_PATH_PREFIX, PRIVATE_ROOT, r, rest);
      assert false;
    }
  }

  /** No run of these calls touches anything in any receiver's private tree. */
  lemma PrivateTreeUntouched(codec: Codec, h: Server, calls: seq<Call>, r: string, rest: string)
    requires AllWellTyped(calls) && IsReceiverPath(r)
    ensures
      var path := Under(PAYKIT_PRIVATE_PATH_PREFIX, r, rest);
      Get(Stored(Run(codec, h, calls)), path) == Get(Stored(h), path)
  {
    forall i | 0 <= i < |calls| ensures Target(calls[i].op) != Under(PAYKIT_PRIVATE_PATH_PREFIX, r, rest) {
      TargetIsPublic(calls[i].op, r, rest);
    }
    RunFrame(codec, h, calls, Under(PAYKIT_PRIVATE_PATH_PREFIX, r, rest));
  }

  // ------------------------------------------------------------ what the caller can know

  /** All a caller sees of a call: what it asked for and whether that succeeded. */
  datatype Attempt = Attempt(op: Op, ok: bool)

  function Attempts(calls: seq<Call>): (attempts: seq<Attempt>)
    ensures |attempts| == |calls|
    ensures forall i :: 0 <= i < |calls| ==> attempts[i] == Attempt(calls[i].op, Succeeds(calls[i]))
  {
    seq(|calls|, i requires 0 <= i < |calls| => Attempt(calls[i].op, Succeeds(calls[i])))
  }

  /** The maps that may be stored after these attempts: a failed one did or did not happen. */
  ghost predicate Possible(a: Directory, attempts: seq<Attempt>, a': Directory)
    decreases |attempts|
  {
    if attempts == [] then a == a'
    else
      || Possible(Apply(a, attempts[0].op), attempts[1..], a')
      || (!attempts[0].ok && Possible(a, attempts[1..], a'))
  }

  /** The run's maps are among those. */
  lemma {:induction false} RunIsPossible(a: Directory, calls: seq<Call>)
    ensures Possible(a, Attempts(calls), RunAbstract(a, calls))
    decreases |calls|
  {
    if calls != [] {
      assert Attempts(calls)[1..] == Attempts(calls[1..]);
      RunIsPossible(if TakesEffect(calls[0]) then Apply(a, calls[0].op) else a, calls[1..]);
    }
  }

  /** The maps hold what this call asked for. */
  predicate Shows(a: Directory, op: Op) {
    match op
    case SetEndpoint(r, id, payload) => Lookup(a.endpoints, (r, id)) == if payload == "" then None else Some(payload)
    case RemoveEndpoint(r, id) => (r, id) !in a.endpoints
    case PublishMarker(m) => Lookup(a.markers, m.receiverPath) == Some(m)
    case RemoveMarker(r) => r !in a.markers
  }

  lemma {:induction false} ShownStays(a: Directory, attempts: seq<Attempt>, a': Directory, op: Op)
    requires Possible(a, attempts, a') && Shows(a, op)
    requires forall j :: 0 <= j < |attempts| ==> Target(attempts[j].op) != Target(op)
    ensures Shows(a', op)
    decreases |attempts|
  {
    if attempts != [] {
      if Possible(Apply(a, attempts[0].op), attempts[1..], a') {
        ShownStays(Apply(a, attempts[0].op), attempts[1..], a', op);
      } else {
        ShownStays(a, attempts[1..], a', op);
      }
    }
  }

  /** A successful call fixes its key until the next attempt on it, whatever else failed or not. */
  lemma {:induction false} SuccessDecides(a: Directory, attempts: seq<Attempt>, a': Directory, i: nat)
    requires Possible(a, attempts, a') && i < |attempts| && attempts[i].ok
    requires forall j :: i < j < |attempts| ==> Target(attempts[j].op) != Target(attempts[i].op)
    ensures Shows(a', attempts[i].op)
    decreases |attempts|
  {
    var next := Apply(a, attempts[0].op);
    if i == 0 {
      ShownStays(next, attempts[1..], a', attempts[0].op);
    } else if Possible(next, attempts[1..], a') {
      SuccessDecides(next, attempts[1..], a', i - 1);
    } else {
      SuccessDecides(a, attempts[1..], a', i - 1);
    }
  }

  /** A reader finds what this call asked for. */
  predicate ReadsAs(codec: Codec, h: Server, op: Op) {
    match op
    case SetEndpoint(r, id, payload) =>
      FetchPaymentEndpoint(h, r, id) == Ok(if payload == "" then None else Some(payload))
    case RemoveEndpoint(r, id) => FetchPaymentEndpoint(h, r, id) == Ok(None)
    case PublishMarker(m) => FetchReceiverMarker(h, codec, m.receiverPath) == Ok(Some(m))
    case RemoveMarker(r) => FetchReceiverMarker(h, codec, r) == Ok(None)
  }

  /** So after any run a reader finds what the last attempt on an endpoint or a marker asked for, if that
      attempt succeeded, whatever the fate of the earlier ones. */
  lemma LastSuccessIsRead(codec: Codec, h: Server, a: Directory, calls: seq<Call>, i: nat)
    requires Lawful(codec) && Refines(codec, h, a) && AllWellTyped(calls)
    requires i < |calls| && Succeeds(calls[i])
    requires forall j :: i < j < |calls| ==> Target(calls[j].op) != Target(calls[i].op)
    ensures ReadsAs(codec, Stored(Run(codec, h, calls)), calls[i].op)
  {
    RunRefines(codec, h, a, calls);
    RunIsPossible(a, calls);
    SuccessDecides(a, Attempts(calls), RunAbstract(a, calls), i);
    ShownIsRead(codec, Run(codec, h, calls), RunAbstract(a, calls), calls[i].op);
  }

  lemma ShownIsRead(codec: Codec, h: Server, a: Directory, op: Op)
    requires Refines(codec, h, a) && WellTyped(op) && Shows(a, op)
    ensures ReadsAs(codec, Stored(h), op)
  {
    match op
    case SetEndpoint(r, id, _) => assert FetchPaymentEndpoint(Stored(h), r, id) == Ok(Lookup(a.endpoints, (r, id)));
    case RemoveEndpoint(r, id) => assert FetchPaymentEndpoint(Stored(h), r, id) == Ok(Lookup(a.endpoints, (r, id)));
    case PublishMarker(m) => assert IsReceiverPath(m.receiverPath);
    case RemoveMarker(r) => assert IsReceiverPath(r);
  }
}
