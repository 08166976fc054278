/** Public Payment List reads: one endpoint at a time, or a whole folder in one call. */
module PaymentLists {
  import opened Wrappers
  import opened Text
  import opened Paths
  import opened Homeserver
  import Utf8

  function FetchPaymentEndpoint(h: Server, r: string, id: string): Result<Option<string>> {
    FetchText(h, EndpointPath(r, id))
  }

  /** `path.rsplit('/').next()`. */
  function LastSegment(path: string): string {
    var parts := Split(path, '/');
    parts[|parts| - 1]
  }

  lemma LastSegmentOfChild(dir: string, name: string)
    requires EndsWithSlash(dir) && '/' !in name
    ensures LastSegment(dir + name) == name
  {
    var parent := dir[..|dir| - 1];
    assert dir + name == parent + "/" + name;
    JoinSplit(parent, '/');
    SplitAfter(Split(parent, '/'), '/', name);
    SplitWhole(name, '/');
  }

  /** What one listed entry contributes: nothing, an endpoint, or a failure of the whole call. */
  function ReadEntry(h: Server, e: string): Result<Option<(string, string)>> {
    if EndsWithSlash(e) then Ok(None)
    else if LastSegment(e) == "" then Err(InvalidData)
    else match FetchText(h, e)
         case Err(error) => Err(error)
         case Ok(None) => Ok(None)
         case Ok(Some(payload)) =>
           match NewIdentifier(LastSegment(e))
           case Err(_) => Err(InvalidData)
           case Ok(id) => Ok(Some((id, payload)))
  }

  /** A stored file the bulk read cannot accept: non-empty, and not text or not properly named. */
  ghost predicate Corrupt(h: Server, dir: string, name: string) {
    && IsFileIn(h, dir, name)
    && h.files[dir + name] != []
    && (Utf8.Decode(h.files[dir + name]).None? || !IsIdentifier(name))
  }

  function Named(name: string, text: Option<string>): Option<(string, string)> {
    if text.None? then None else Some((name, text.value))
  }

  /** What the read of a slash-free name in a folder comes to. */
  lemma EntryOfName(h: Server, dir: string, name: string)
    requires EndsWithSlash(dir) && name != "" && '/' !in name
    ensures dir + name in h.down ==> ReadEntry(h, dir + name) == Err(Transport)
    ensures dir + name !in h.down && Corrupt(h, dir, name) ==> ReadEntry(h, dir + name) == Err(InvalidData)
    ensures dir + name !in h.down && !Corrupt(h, dir, name) ==>
      FetchText(h, dir + name).Ok? && ReadEntry(h, dir + name) == Ok(Named(name, FetchText(h, dir + name).value))
    ensures ReadEntry(h, dir + name).Ok? && FetchText(h, dir + name) != Ok(None) ==> IsIdentifier(name)
  {
    LastSegmentOfChild(dir, name);
    NewIdentifierExact(name);
    assert !EndsWithSlash(dir + name);
  }

  /** A map built by inserting the endpoints of a sequence of entries, the last one winning. */
  ghost predicate Collected(outs: seq<Option<(string, string)>>, m: map<string, string>) {
    && (forall k :: 0 <= k < |outs| && outs[k].Some? ==> outs[k].value.0 in m)
    && (forall id :: id in m ==> Some((id, m[id])) in outs)
  }

  lemma CollectStep(outs: seq<Option<(string, string)>>, m: map<string, string>, out: Option<(string, string)>)
    requires Collected(outs, m)
    ensures Collected(outs + [out], if out.Some? then m[out.value.0 := out.value.1] else m)
  {
    if out.Some? {
      assert (outs + [out])[|outs|] == Some((out.value.0, out.value.1));
    }
  }

  /** Entry `k` was read by request `start + k`. */
  ghost predicate ReadAll(
    servers: nat -> Server, start: nat, listed: seq<string>, outs: seq<Option<(string, string)>>)
  {
    && |outs| <= |listed|
    && forall k :: 0 <= k < |outs| ==> ReadEntry(servers(start + k), listed[k]) == Ok(outs[k])
  }

  // ------------------------------------------------------------- a changing homeserver

  ghost predicate ReadOnce(servers: nat -> Server, end: nat, path: string, text: Option<string>) {
    exists t: nat :: t < end && FetchText(servers(t), path) == Ok(text)
  }

  ghost predicate SoundOnce(servers: nat -> Server, end: nat, dir: string, name: string) {
    exists t: nat :: t < end && dir + name !in servers(t).down && !Corrupt(servers(t), dir, name)
  }

  /** What a bulk read over `end` requests means, whatever changed meanwhile: every payload was read
      from its file, and a file that was there all the time is in the map with a payload read from it,
      or was read as empty. */
  ghost predicate Fetched(servers: nat -> Server, end: nat, dir: string, m: map<string, string>) {
    && (forall id :: id in m ==> IsIdentifier(id) && ReadOnce(servers, end, dir + id, Some(m[id])))
    && (forall id :: IsIdentifier(id) && FileThroughout(servers, 0, end, dir, id) ==>
          ReadOnce(servers, end, dir + id, if id in m then Some(m[id]) else None))
    && (forall name :: FileThroughout(servers, 0, end, dir, name) ==> SoundOnce(servers, end, dir, name))
    && 0 < end && dir !in servers(0).down
  }

  /** The folder, or a file that had been listed in it, could not be reached. */
  ghost predicate UnreachableOnce(servers: nat -> Server, end: nat, dir: string) {
    || (exists t: nat :: t < end && dir in servers(t).down)
    || (exists s: nat, t: nat, name :: s < t < end && IsFileIn(servers(s), dir, name) && dir + name in servers(t).down)
  }

  ghost predicate CorruptOnce(servers: nat -> Server, end: nat, dir: string) {
    exists t: nat, name :: t < end && Corrupt(servers(t), dir, name)
  }

  /** Every listed entry that is read at all is a direct file of the folder. */
  lemma ListedName(servers: nat -> Server, top: nat, dir: string, listed: seq<string>, k: nat)
    returns (s: nat, name: string)
    requires ListedDuring(servers, 0, top, dir, listed) && k < |listed| && !EndsWithSlash(listed[k])
    ensures s < top && IsFileIn(servers(s), dir, name) && listed[k] == dir + name
  {
    assert ListedOnce(servers, 0, top, dir, listed[k]);
    s :| 0 <= s < top && listed[k] in Children(servers(s), dir);
    EntryShape(servers(s), dir, listed[k]);
    name := listed[k][|dir|..];
  }

  /** A failure is of the kind its error says. */
  ghost predicate FetchFailed(servers: nat -> Server, end: nat, dir: string, error: Error) {
    || (error == Transport && UnreachableOnce(servers, end, dir))
    || (error == InvalidData && CorruptOnce(servers, end, dir))
  }

  lemma ListingFailed(servers: nat -> Server, end: nat, dir: string)
    requires 0 < end && dir in servers(end - 1).down
    ensures FetchFailed(servers, end, dir, Transport)
  {
  }

  lemma FailedEntry(servers: nat -> Server, top: nat, dir: string, listed: seq<string>, k: nat, error: Error)
    requires EndsWithSlash(dir) && ListedDuring(servers, 0, top, dir, listed) && k < |listed|
    requires ReaderOf(servers)(top + k, listed[k]) == Err(error)
    ensures FetchFailed(servers, top + k + 1, dir, error)
  {
    assert ReadEntry(servers(top + k), listed[k]) == Err(error);
    var s, name := ListedName(servers, top, dir, listed, k);
    EntryOfName(servers(top + k), dir, name);
  }

  /** An endpoint in the map was read from its file. */
  lemma CollectedRead(
    servers: nat -> Server, top: nat, dir: string, listed: seq<string>, outs: seq<Option<(string, string)>>,
    k: nat, id: string, payload: string)
    requires EndsWithSlash(dir) && ListedDuring(servers, 0, top, dir, listed)
    requires ReadAll(servers, top, listed, outs) && k < |outs| && outs[k] == Some((id, payload))
    ensures IsIdentifier(id) && FetchText(servers(top + k), dir + id) == Ok(Some(payload))
  {
    var s, name := ListedName(servers, top, dir, listed, k);
    EntryOfName(servers(top + k), dir, name);
  }

  /** A file that was there all the time was listed, and its read neither failed nor was lost. */
  lemma PersistentRead(
    servers: nat -> Server, top: nat, dir: string, listed: seq<string>, outs: seq<Option<(string, string)>>,
    name: string) returns (k: nat)
    requires EndsWithSlash(dir) && ListedDuring(servers, 0, top, dir, listed)
    requires ReadAll(servers, top, listed, outs) && |outs| == |listed|
    requires FileThroughout(servers, 0, top + |listed|, dir, name)
    ensures k < |outs| && dir + name !in servers(top + k).down && !Corrupt(servers(top + k), dir, name)
    ensures FetchText(servers(top + k), dir + name).Ok?
    ensures outs[k] == Named(name, FetchText(servers(top + k), dir + name).value)
  {
    assert IsFileIn(servers(0), dir, name);
    assert FileThroughout(servers, 0, top, dir, name);
    FileIsListed(servers, 0, top, dir, listed, name);
    k :| 0 <= k < |listed| && listed[k] == dir + name;
    EntryOfName(servers(top + k), dir, name);
  }

  lemma PersistentCollected(
    servers: nat -> Server, top: nat, dir: string, listed: seq<string>, outs: seq<Option<(string, string)>>,
    m: map<string, string>, id: string)
    requires EndsWithSlash(dir) && ListedDuring(servers, 0, top, dir, listed)
    requires ReadAll(servers, top, listed, outs) && |outs| == |listed| && Collected(outs, m)
    requires FileThroughout(servers, 0, top + |listed|, dir, id) && id !in m
    ensures ReadOnce(servers, top + |listed|, dir + id, None)
  {
    var k := PersistentRead(servers, top, dir, listed, outs, id);
    assert outs[k].None?;
  }

  lemma CollectedIsFetched(
    servers: nat -> Server, top: nat, dir: string, listed: seq<string>, outs: seq<Option<(string, string)>>,
    m: map<string, string>, end: nat)
    requires EndsWithSlash(dir) && ListedDuring(servers, 0, top, dir, listed)
    requires ReadAll(servers, top, listed, outs) && |outs| == |listed| && Collected(outs, m)
    requires end == top + |listed|
    ensures Fetched(servers, end, dir, m)
  {
    assert dir !in servers(0).down;
    forall id | id in m ensures IsIdentifier(id) && ReadOnce(servers, end, dir + id, Some(m[id])) {
      var k :| 0 <= k < |outs| && outs[k] == Some((id, m[id]));
      CollectedRead(servers, top, dir, listed, outs, k, id, m[id]);
    }
    forall id | IsIdentifier(id) && FileThroughout(servers, 0, end, dir, id)
      ensures ReadOnce(servers, end, dir + id, if id in m then Some(m[id]) else None)
    {
      if id !in m { PersistentCollected(servers, top, dir, listed, outs, m, id); }
    }
    forall name | FileThroughout(servers, 0, end, dir, name) ensures SoundOnce(servers, end, dir, name) {
      var k := PersistentRead(servers, top, dir, listed, outs, name);
    }
  }

  type EntryReader = (nat, string) -> Result<Option<(string, string)>>

  function ReaderOf(servers: nat -> Server): EntryReader { (t: nat, e: string) => ReadEntry(servers(t), e) }

  ghost predicate ReadBy(read: EntryReader, start: nat, listed: seq<string>, outs: seq<Option<(string, string)>>) {
    && |outs| <= |listed|
    && forall k :: 0 <= k < |outs| ==> read(start + k, listed[k]) == Ok(outs[k])
  }

  /** The loop over the listed entries: it fills the map, or stops at the first entry that fails. */
  method CollectEntries(read: EntryReader, start: nat, listed: seq<string>)
    returns (res: Result<map<string, string>>, end: nat, ghost outs: seq<Option<(string, string)>>)
    ensures start <= end <= start + |listed|
    ensures res.Ok? ==> end == start + |listed| && |outs| == |listed|
    ensures res.Ok? ==> ReadBy(read, start, listed, outs) && Collected(outs, res.value)
    ensures res.Err? ==> start < end && read(end - 1, listed[end - 1 - start]) == Err(res.error)
  {
    var m: map<string, string>, i := map[], 0;
    outs := [];
    while i < |listed|
      invariant i == |outs| && ReadBy(read, start, listed, outs) && Collected(outs, m)
    {
      var entry := read(start + i, listed[i]);
      if entry.Err? {
        return Err(entry.error), start + i + 1, outs;
      }
      CollectStep(outs, m, entry.value);
      outs := outs + [entry.value];
      if entry.value.Some? {
        m := m[entry.value.value.0 := entry.value.value.1];
      }
      i := i + 1;
    }
    return Ok(m), start + i, outs;
  }

  lemma ReadersAgree(servers: nat -> Server, start: nat, listed: seq<string>, outs: seq<Option<(string, string)>>)
    requires ReadBy(ReaderOf(servers), start, listed, outs)
    ensures ReadAll(servers, start, listed, outs)
  {
    forall k | 0 <= k < |outs| ensures ReadEntry(servers(start + k), listed[k]) == Ok(outs[k]) {
      assert ReaderOf(servers)(start + k, listed[k]) == Ok(outs[k]);
    }
  }

  /** The bulk read of one endpoint folder on a homeserver that may change between any two requests. */
  method FetchPaymentListFromDirectory(servers: nat -> Server, ghost paths: set<string>, dir: string)
    returns (res: Result<map<string, string>>, end: nat)
    requires Bounded(servers, paths) && EndsWithSlash(dir)
    ensures res.Ok? ==> Fetched(servers, end, dir, res.value)
    ensures res.Err? ==> FetchFailed(servers, end, dir, res.error)
  {
    var listed, top := ListEntries(servers, paths, 0, dir);
    if listed.Err? {
      ListingFailed(servers, top, dir);
      return Err(Transport), top;
    }
    ghost var outs;
    res, end, outs := CollectEntries(ReaderOf(servers), top, listed.value);
    LoopOutcome(servers, top, dir, listed.value, outs, res, end);
  }

  lemma LoopOutcome(
    servers: nat -> Server, top: nat, dir: string, listed: seq<string>, outs: seq<Option<(string, string)>>,
    res: Result<map<string, string>>, end: nat)
    requires EndsWithSlash(dir) && ListedDuring(servers, 0, top, dir, listed) && end <= top + |listed|
    requires res.Ok? ==> end == top + |listed| && |outs| == |listed|
    requires res.Ok? ==> ReadBy(ReaderOf(servers), top, listed, outs) && Collected(outs, res.value)
    requires res.Err? ==> top < end && ReaderOf(servers)(end - 1, listed[end - 1 - top]) == Err(res.error)
    ensures res.Ok? ==> Fetched(servers, end, dir, res.value)
    ensures res.Err? ==> FetchFailed(servers, end, dir, res.error)
  {
    if res.Ok? {
      ReadersAgree(servers, top, listed, outs);
      CollectedIsFetched(servers, top, dir, listed, outs, res.value, end);
    } else {
      FailedEntry(servers, top, dir, listed, end - 1 - top, res.error);
    }
  }

  // --------------------------------------------------------- on an unchanging homeserver

  ghost predicate OutOfReach(h: Server, dir: string, name: string) {
    IsFileIn(h, dir, name) && dir + name in h.down
  }

  lemma UnchangingFetch(servers: nat -> Server, h: Server, end: nat, dir: string, m: map<string, string>)
    requires Unchanging(servers, h) && Fetched(servers, end, dir, m)
    ensures dir !in h.down && forall name :: !OutOfReach(h, dir, name) && !Corrupt(h, dir, name)
    ensures forall id :: id in m ==> IsIdentifier(id)
    ensures forall id :: IsIdentifier(id) && dir + id !in h.down ==>
      FetchText(h, dir + id) == Ok(if id in m then Some(m[id]) else None)
  {
    forall name ensures !OutOfReach(h, dir, name) && !Corrupt(h, dir, name) {
      if IsFileIn(h, dir, name) {
        assert FileThroughout(servers, 0, end, dir, name);
        assert SoundOnce(servers, end, dir, name);
      }
    }
    forall id | IsIdentifier(id) && dir + id !in h.down
      ensures FetchText(h, dir + id) == Ok(if id in m then Some(m[id]) else None)
    {
      UnchangingRead(servers, h, end, dir, m, id);
    }
  }

  lemma UnchangingRead(servers: nat -> Server, h: Server, end: nat, dir: string, m: map<string, string>, id: string)
    requires Unchanging(servers, h) && Fetched(servers, end, dir, m) && IsIdentifier(id) && dir + id !in h.down
    ensures FetchText(h, dir + id) == Ok(if id in m then Some(m[id]) else None)
  {
    if id in m {
      assert ReadOnce(servers, end, dir + id, Some(m[id]));
    } else if dir + id in h.files {
      IdentifierIsName(id);
      assert FileThroughout(servers, 0, end, dir, id);
      assert ReadOnce(servers, end, dir + id, None);
    }
  }

  lemma IdentifierIsName(id: string)
    requires IsIdentifier(id)
    ensures id != "" && '/' !in id
  {
  }

  /** There the bulk read of one receiver agrees with the single-endpoint read at every identifier, and
      fails exactly when the folder or a file is out of reach or a file is corrupt, with the error of
      that kind. */
  method FetchPaymentList(h: Server, r: string) returns (res: Result<map<string, string>>)
    ensures res.Ok? ==> forall id :: id in res.value ==> IsIdentifier(id)
    ensures res.Ok? ==> forall id :: IsIdentifier(id) && EndpointPath(r, id) !in h.down ==>
      FetchPaymentEndpoint(h, r, id) == Ok(if id in res.value then Some(res.value[id]) else None)
    ensures var dir := EndpointPathPrefix(r);
      && (res.Ok? <==> dir !in h.down && forall name :: !OutOfReach(h, dir, name) && !Corrupt(h, dir, name))
      && (res == Err(Transport) ==> dir in h.down || exists name :: OutOfReach(h, dir, name))
      && (res == Err(InvalidData) ==> exists name :: Corrupt(h, dir, name))
      && res != Err(Validation)
  {
    var servers: nat -> Server := _ => h;
    var dir := EndpointPathPrefix(r);
    var end;
    res, end := FetchPaymentListFromDirectory(servers, h.files.Keys, dir);
    if res.Ok? {
      UnchangingFetch(servers, h, end, dir, res.value);
    } else {
      UnchangingFailure(servers, h, end, dir);
    }
  }

  lemma UnchangingFailure(servers: nat -> Server, h: Server, end: nat, dir: string)
    requires Unchanging(servers, h)
    ensures UnreachableOnce(servers, end, dir) ==> dir in h.down || exists name :: OutOfReach(h, dir, name)
    ensures CorruptOnce(servers, end, dir) ==> exists name :: Corrupt(h, dir, name)
  {
    if UnreachableOnce(servers, end, dir) && dir !in h.down {
      var s: nat, t: nat, name :| s < t < end && IsFileIn(servers(s), dir, name) && dir + name in servers(t).down;
      assert OutOfReach(h, dir, name);
    }
  }
}
