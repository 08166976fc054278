/** A Pubky auth request behind an async mutex: completions with arbitrary key bytes and reads of
    its URL, any number of them at once. */
module AuthRequests {
  import opened Wrappers
  import opened SingleFlight
  import Utf8

  const SECRET_KEY_LEN := 32

  type Bytes = seq<Utf8.byte>

  /** What a caller passes: an optional local secret and the receiver's Noise secret, unchecked. */
  datatype Keys = Keys(local: Option<Bytes>, noise: Bytes)

  datatype SecretKey = SecretKey(bytes: Bytes)

  function SecretFromBytes(bytes: Bytes): Result<SecretKey> {
    if |bytes| == SECRET_KEY_LEN then Ok(SecretKey(bytes)) else Err(Validation)
  }

  predicate WellFormed(keys: Keys) {
    (keys.local.Some? ==> |keys.local.value| == SECRET_KEY_LEN) && |keys.noise| == SECRET_KEY_LEN
  }

  // ------------------------------------------------------------------ one call, in place

  /** The start of `complete`: both keys are parsed before the request is taken. */
  method TakeForCompletion<F>(request: Slot<F>, keys: Keys) returns (res: Result<(F, Option<SecretKey>, SecretKey)>)
    modifies request
    ensures res.Ok? <==> WellFormed(keys) && old(request.inner).Some?
    ensures res.Ok? ==> Some(res.value.0) == old(request.inner) && res.value.2.bytes == keys.noise
    ensures res.Ok? ==> (if res.value.1.Some? then Some(res.value.1.value.bytes) else None) == keys.local
    ensures request.inner == if WellFormed(keys) then None else old(request.inner)
  {
    var secret: Option<SecretKey> := None;
    if keys.local.Some? {
      var parsed := SecretFromBytes(keys.local.value);
      if parsed.Err? {
        return Err(parsed.error);
      }
      secret := Some(parsed.value);
    }
    var noise := SecretFromBytes(keys.noise);
    if noise.Err? {
      return Err(noise.error);
    }
    var taken := request.Take();
    if taken.None? {
      return Err(Validation);
    }
    return Ok((taken.value, secret, noise.value));
  }

  function AuthorizationUrl<F>(slot: Option<F>, url: F -> string): Result<string> {
    match slot
    case None => Err(Validation)
    case Some(flow) => Ok(url(flow))
  }

  // ------------------------------------------------------------------------- every run

  /** `handle` is the slot with the completions that got past their keys; `begun` and `refused`
      are the calls made and those turned away, `polled` the completions that reached the mutex, in
      order, and `urls` the answers to URL reads with the number polled before each. */
  datatype Request<F> = Request(
    handle: Handle<F>, begun: set<nat>, refused: set<nat>, polled: seq<nat>, urls: seq<(nat, Result<string>)>)

  datatype Step =
    | Begin(id: nat)   // `complete` is called
    | ParseKeys(id: nat)
    | TakeRequest(id: nat)
    | Finish(id: nat)  // the flow answers, well or badly
    | ReadUrl

  function Fresh<F>(flow: F): Request<F> { Request(SingleFlight.Start(flow), {}, {}, [], []) }

  ghost predicate Enabled<F>(st: Request<F>, step: Step) {
    match step
    case Begin(id) => id !in st.begun
    case ParseKeys(id) => id in st.begun && id !in st.refused && id !in st.handle.tasks
    case TakeRequest(id) => SingleFlight.Enabled(AuthRun(), st.handle, Poll(id))
    case Finish(id) => SingleFlight.Enabled(AuthRun(), st.handle, Resolve(id))
    case ReadUrl => true
  }

  function Next<F>(keys: nat -> Keys, url: F -> string, st: Request<F>, step: Step): Request<F>
    requires Enabled(st, step)
  {
    match step
    case Begin(id) => st.(begun := st.begun + {id})
    case ParseKeys(id) =>
      if WellFormed(keys(id)) then st.(handle := SingleFlight.Next(AuthRun(), st.handle, Call(id)))
      else st.(refused := st.refused + {id})
    case TakeRequest(id) => st.(handle := SingleFlight.Next(AuthRun(), st.handle, Poll(id)), polled := st.polled + [id])
    case Finish(id) => st.(handle := SingleFlight.Next(AuthRun(), st.handle, Resolve(id)))
    case ReadUrl => st.(urls := st.urls + [(|st.polled|, AuthorizationUrl(st.handle.slot, url))])
  }

  ghost predicate Reaches<F>(keys: nat -> Keys, url: F -> string, st: Request<F>, steps: seq<Step>, st': Request<F>)
    decreases |steps|
  {
    if steps == [] then st == st'
    else Enabled(st, steps[0]) && Reaches(keys, url, Next(keys, url, st, steps[0]), steps[1..], st')
  }

  /** While nobody got through, the flow is in the slot; afterwards the slot is empty for good. */
  ghost predicate Inv<F>(keys: nat -> Keys, url: F -> string, flow: F, st: Request<F>) {
    && SingleFlight.Inv(AuthRun(), flow, st.handle)
    && (forall id :: id in st.handle.tasks ==> WellFormed(keys(id)))
    && (forall id :: id in st.refused ==> !WellFormed(keys(id)))
    && (forall id :: id in st.polled ==> id in st.handle.tasks)
    && st.handle.admitted == st.polled[..if st.polled == [] then 0 else 1]
    && st.handle.slot == (if st.polled == [] then Some(flow) else None)
    && forall i :: 0 <= i < |st.urls| ==> st.urls[i].1 == if st.urls[i].0 == 0 then Ok(url(flow)) else Err(Validation)
  }

  lemma TakeKeepsInv<F>(keys: nat -> Keys, url: F -> string, flow: F, st: Request<F>, id: nat)
    requires Inv(keys, url, flow, st) && Enabled(st, TakeRequest(id))
    ensures Inv(keys, url, flow, Next(keys, url, st, TakeRequest(id)))
  {
    SingleFlight.StepKeepsInv(AuthRun(), flow, st.handle, Poll(id));
    assert st.polled == [] ==> (st.polled + [id])[..1] == [id];
    assert st.polled != [] ==> (st.polled + [id])[..1] == st.polled[..1];
  }

  lemma ParseKeepsInv<F>(keys: nat -> Keys, url: F -> string, flow: F, st: Request<F>, id: nat)
    requires Inv(keys, url, flow, st) && Enabled(st, ParseKeys(id))
    ensures Inv(keys, url, flow, Next(keys, url, st, ParseKeys(id)))
  {
    SingleFlight.StepKeepsInv(AuthRun(), flow, st.handle, Call(id));
  }

  lemma FinishKeepsInv<F>(keys: nat -> Keys, url: F -> string, flow: F, st: Request<F>, id: nat)
    requires Inv(keys, url, flow, st) && Enabled(st, Finish(id))
    ensures Inv(keys, url, flow, Next(keys, url, st, Finish(id)))
  {
    SingleFlight.StepKeepsInv(AuthRun(), flow, st.handle, Resolve(id));
  }

  lemma StepKeepsInv<F>(keys: nat -> Keys, url: F -> string, flow: F, st: Request<F>, step: Step)
    requires Inv(keys, url, flow, st) && Enabled(st, step)
    ensures Inv(keys, url, flow, Next(keys, url, st, step))
  {
    match step
    case ParseKeys(id) => ParseKeepsInv(keys, url, flow, st, id);
    case TakeRequest(id) => TakeKeepsInv(keys, url, flow, st, id);
    case Finish(id) => FinishKeepsInv(keys, url, flow, st, id);
    case _ =>
  }

  lemma {:induction false} RunKeepsInv<F>(
    keys: nat -> Keys, url: F -> string, flow: F, st: Request<F>, steps: seq<Step>, st': Request<F>)
    requires Inv(keys, url, flow, st) && Reaches(keys, url, st, steps, st')
    ensures Inv(keys, url, flow, st')
    decreases |steps|
  {
    if steps != [] {
      StepKeepsInv(keys, url, flow, st, steps[0]);
      RunKeepsInv(keys, url, flow, Next(keys, url, st, steps[0]), steps[1..], st');
    }
  }

  /** For every interleaving: at most one completion gets the request, it is the first that reached
      the mutex, and its keys were well-formed; the request is still in its slot exactly while no
      well-formed completion has got that far, and exactly then a read returns its URL. */
  lemma OneShotRequest<F>(keys: nat -> Keys, url: F -> string, flow: F, steps: seq<Step>, st: Request<F>)
    requires Reaches(keys, url, Fresh(flow), steps, st)
    ensures st.handle.admitted == if st.polled == [] then [] else [st.polled[0]]
    ensures forall id :: id in st.polled ==> WellFormed(keys(id))
    ensures forall id :: id in st.refused ==> id !in st.polled
    ensures st.handle.slot == Some(flow) <==> st.polled == []
    ensures AuthorizationUrl(st.handle.slot, url) == (if st.polled == [] then Ok(url(flow)) else Err(Validation))
    ensures forall i :: 0 <= i < |st.urls| ==> (st.urls[i].1 == Ok(url(flow)) <==> st.urls[i].0 == 0)
  {
    RunKeepsInv(keys, url, flow, Fresh(flow), steps, st);
  }

  // ------------------------------------------------------- malformed completions leave no trace

  /** The steps that are not about a malformed completion. */
  function Erase(keys: nat -> Keys, steps: seq<Step>): seq<Step> {
    if steps == [] then []
    else (if AboutMalformed(keys, steps[0]) then [] else [steps[0]]) + Erase(keys, steps[1..])
  }

  predicate AboutMalformed(keys: nat -> Keys, step: Step) {
    (step.Begin? || step.ParseKeys?) && !WellFormed(keys(step.id))
  }

  function WithoutMalformed<F>(keys: nat -> Keys, st: Request<F>): Request<F> {
    st.(begun := (set id | id in st.begun && WellFormed(keys(id))), refused := {})
  }

  lemma ErasedStep<F>(keys: nat -> Keys, url: F -> string, st: Request<F>, step: Step)
    requires Enabled(st, step) && forall id :: id in st.refused ==> !WellFormed(keys(id))
    ensures
      var core, core' := WithoutMalformed(keys, st), WithoutMalformed(keys, Next(keys, url, st, step));
      if AboutMalformed(keys, step) then core' == core
      else Enabled(core, step) && Next(keys, url, core, step) == core'
  {
    var core, core' := WithoutMalformed(keys, st), WithoutMalformed(keys, Next(keys, url, st, step));
    if step.Begin? {
      assert core'.begun == core.begun + if WellFormed(keys(step.id)) then {step.id} else {};
    } else if step.ParseKeys? && WellFormed(keys(step.id)) {
      assert step.id in core.begun;
    }
  }

  /** Every run reaches the same slot, admissions and URL answers as the run without the malformed
      completions. */
  lemma {:induction false} MalformedLeaveNoTrace<F>(
    keys: nat -> Keys, url: F -> string, flow: F, st: Request<F>, steps: seq<Step>, st': Request<F>)
    requires Inv(keys, url, flow, st) && Reaches(keys, url, st, steps, st')
    ensures Reaches(keys, url, WithoutMalformed(keys, st), Erase(keys, steps), WithoutMalformed(keys, st'))
    decreases |steps|
  {
    if steps != [] {
      var next := Next(keys, url, st, steps[0]);
      StepKeepsInv(keys, url, flow, st, steps[0]);
      MalformedLeaveNoTrace(keys, url, flow, next, steps[1..], st');
      ErasedStep(keys, url, st, steps[0]);
      var rest := Erase(keys, steps[1..]);
      if !AboutMalformed(keys, steps[0]) {
        assert Erase(keys, steps)[0] == steps[0] && Erase(keys, steps)[1..] == rest;
      } else {
        assert Erase(keys, steps) == rest;
      }
    }
  }
}
