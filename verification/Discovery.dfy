/** Receiver discovery: two listing levels, validation, and the advertisement check, on a homeserver
    that may change between any two requests. */
module Discovery {
  import opened Wrappers
  import opened Text
  import opened Paths
  import opened Homeserver
  import opened ReceiverMarker

  function TrimEndSlashes(s: string): string {
    if s != "" && s[|s| - 1] == '/' then TrimEndSlashes(s[..|s| - 1]) else s
  }

  /** The direct child a listed path names, when it lies under the prefix at all. */
  function ListedChildSegment(path: string, prefix: string): Option<string> {
    if !(prefix <= path) then None
    else
      var segment := Split(TrimEndSlashes(path[|prefix|..]), '/')[0];
      if segment == "" then None else Some(segment)
  }

  predicate IsValidReceiverAppSegment(segment: string) { ValidateReceiverPath(segment + "/" + "wallet").Ok? }

  function AppDirectory(app: string): string { PAYKIT_PATH_PREFIX + "/" + app + "/" }

  function FetchReceiverMarker(h: Server, codec: Codec, r: string): Result<Option<Marker>> {
    match FetchNonemptyText(h, MarkerPath(r))
    case Err(e) => Err(e)
    case Ok(None) => Ok(None)
    case Ok(Some(raw)) =>
      match Parse(codec, raw, r)
      case Err(e) => Err(e)
      case Ok(m) => Ok(Some(m))
  }

  predicate HasMarker(h: Server, codec: Codec, r: string) {
    FetchReceiverMarker(h, codec, r).Ok? && FetchReceiverMarker(h, codec, r).value.Some?
  }

  // ------------------------------------------------------------ one receiver's check

  /** The check's requests `from` to `to` all succeeded: the marker's, and without a valid marker the
      listing's. */
  ghost predicate CheckMade(servers: nat -> Server, codec: Codec, from: nat, to: nat, r: string) {
    && from < to && MarkerPath(r) !in servers(from).down
    && (!HasMarker(servers(from), codec, r) ==>
          from + 1 < to && UpThroughout(servers, from + 1, to, EndpointPathPrefix(r)))
  }

  ghost predicate CheckFailed(servers: nat -> Server, codec: Codec, from: nat, to: nat, r: string) {
    || MarkerPath(r) in servers(from).down
    || (&& !HasMarker(servers(from), codec, r) && from + 1 < to
        && EndpointPathPrefix(r) in servers(to - 1).down)
  }

  /** A valid marker when it was asked for, or a direct file under `endpoints/` while that was listed. */
  ghost predicate AdvertisedDuring(servers: nat -> Server, codec: Codec, from: nat, to: nat, r: string) {
    || HasMarker(servers(from), codec, r)
    || exists t: nat, name :: from < t < to && IsFileIn(servers(t), EndpointPathPrefix(r), name)
  }

  ghost predicate AbsentDuring(servers: nat -> Server, codec: Codec, from: nat, to: nat, r: string) {
    && !HasMarker(servers(from), codec, r)
    && NoFileThroughout(servers, from + 1, to, EndpointPathPrefix(r))
  }

  ghost predicate NoFileThroughout(servers: nat -> Server, from: nat, to: nat, dir: string) {
    forall name :: !FileThroughout(servers, from, to, dir, name)
  }

  /** Any entry without a trailing slash is a file. */
  method HasDirectFile(servers: nat -> Server, ghost paths: set<string>, now: nat, dir: string)
    returns (res: Result<bool>, end: nat)
    requires Bounded(servers, paths)
    ensures now < end
    ensures res.Ok? ==> UpThroughout(servers, now, end, dir)
    ensures res == Ok(true) ==> exists t: nat, name :: now <= t < end && IsFileIn(servers(t), dir, name)
    ensures res == Ok(false) ==> NoFileThroughout(servers, now, end, dir)
    ensures res.Err? ==> res == Err(Transport) && dir in servers(end - 1).down
  {
    var listed;
    listed, end := ListEntries(servers, paths, now, dir);
    if listed.Err? {
      return Err(Transport), end;
    }
    var i := 0;
    while i < |listed.value|
      invariant 0 <= i <= |listed.value|
      invariant forall k :: 0 <= k < i ==> EndsWithSlash(listed.value[k])
    {
      if !EndsWithSlash(listed.value[i]) {
        ListedFile(servers, now, end, dir, listed.value, i);
        return Ok(true), end;
      }
      i := i + 1;
    }
    forall name ensures !FileThroughout(servers, now, end, dir, name) {
      NoListedFile(servers, now, end, dir, listed.value, name);
    }
    return Ok(false), end;
  }

  lemma ListedFile(servers: nat -> Server, from: nat, to: nat, dir: string, out: seq<string>, i: nat)
    requires ListedDuring(servers, from, to, dir, out) && i < |out| && !EndsWithSlash(out[i])
    ensures exists t: nat, name :: from <= t < to && IsFileIn(servers(t), dir, name)
  {
    assert ListedOnce(servers, from, to, dir, out[i]);
    var t: nat :| from <= t < to && out[i] in Children(servers(t), dir);
    EntryShape(servers(t), dir, out[i]);
  }

  lemma NoListedFile(servers: nat -> Server, from: nat, to: nat, dir: string, out: seq<string>, name: string)
    requires ListedDuring(servers, from, to, dir, out)
    requires forall k :: 0 <= k < |out| ==> EndsWithSlash(out[k])
    ensures !FileThroughout(servers, from, to, dir, name)
  {
    if FileThroughout(servers, from, to, dir, name) {
      assert IsFileIn(servers(from), dir, name);
      assert !EndsWithSlash(dir + name);
      FileIsListed(servers, from, to, dir, out, name);
      assert false;
    }
  }

  method ReceiverIsPubliclyAdvertised(
    servers: nat -> Server, ghost paths: set<string>, codec: Codec, now: nat, r: string)
    returns (res: Result<bool>, end: nat)
    requires Bounded(servers, paths)
    ensures now < end
    ensures res.Ok? ==> CheckMade(servers, codec, now, end, r)
    ensures res == Ok(true) ==> AdvertisedDuring(servers, codec, now, end, r)
    ensures res == Ok(false) ==> AbsentDuring(servers, codec, now, end, r)
    ensures res.Err? ==> res == Err(Transport) && CheckFailed(servers, codec, now, end, r)
  {
    var marker := FetchReceiverMarker(servers(now), codec, r);
    if marker.Ok? && marker.value.Some? {
      return Ok(true), now + 1;
    }
    if marker.Err? && marker.error != InvalidData {
      return Err(marker.error), now + 1;
    }
    res, end := HasDirectFile(servers, paths, now + 1, EndpointPathPrefix(r));
    if res == Ok(true) {
      ghost var t: nat, name :| now + 1 <= t < end && IsFileIn(servers(t), EndpointPathPrefix(r), name);
      assert now < t < end && IsFileIn(servers(t), EndpointPathPrefix(r), name);
    }
  }

  // ------------------------------------------------------- what the scan reaches

  predicate RuntimeEntry(app: string, e: string, p: string) {
    var segment := ListedChildSegment(e, AppDirectory(app));
    segment.Some? && p == app + "/" + segment.value
  }

  /** Whether a top-level entry names a folder that discovery looks into, and which one. */
  predicate EntersApp(a: string) {
    var segment := ListedChildSegment(a, ReceiverPathPrefix());
    segment.Some? && IsValidReceiverAppSegment(segment.value)
  }

  function EnteredApp(a: string): string
    requires EntersApp(a)
  {
    ListedChildSegment(a, ReceiverPathPrefix()).value
  }

  /** The path a runtime entry stands for, when it is a receiver path at all. */
  function ReceiverAt(app: string, e: string): Option<string> {
    var segment := ListedChildSegment(e, AppDirectory(app));
    if segment.Some? && ValidateReceiverPath(app + "/" + segment.value).Ok? then Some(app + "/" + segment.value)
    else None
  }

  lemma ReceiverAtExact(app: string, e: string, p: string)
    ensures ReceiverAt(app, e) == Some(p) <==> IsReceiverPath(p) && RuntimeEntry(app, e, p)
  {
    var segment := ListedChildSegment(e, AppDirectory(app));
    if segment.Some? { ValidateReceiverPathExact(app + "/" + segment.value); }
  }

  lemma {:induction false} TrimDirectory(seg: string)
    requires '/' !in seg
    ensures TrimEndSlashes(seg) == seg && TrimEndSlashes(seg + "/") == seg
  {
    assert (seg + "/")[..|seg|] == seg;
    assert seg != "" ==> seg[|seg| - 1] in seg;
  }

  lemma DirectoryEntrySegment(dir: string, seg: string)
    requires seg != "" && '/' !in seg
    ensures ListedChildSegment(dir + seg + "/", dir) == Some(seg)
  {
    var e := dir + seg + "/";
    assert dir <= e && e[|dir|..] == seg + "/";
    TrimDirectory(seg);
    SplitWhole(seg, '/');
  }

  /** The app-segment pre-check passes for every valid receiver path. */
  lemma AppSegmentAccepted(p: string)
    requires IsReceiverPath(p)
    ensures IsValidReceiverAppSegment(App(p))
  {
    ReceiverPathParts(p);
    assert '/' !in "wallet";
    ReceiverPathShape(App(p), "wallet");
    ValidateReceiverPathExact(App(p) + "/" + "wallet");
  }

  /** The two entries under which a receiver's files show up. */
  function AppEntryOf(p: string): string
    requires IsReceiverPath(p)
  { ReceiverPathPrefix() + App(p) + "/" }

  function RuntimeEntryOf(p: string): string
    requires IsReceiverPath(p)
  { AppDirectory(App(p)) + Runtime(p) + "/" }

  /** Following them leads to the receiver. */
  lemma EntriesLead(p: string)
    requires IsReceiverPath(p)
    ensures EntersApp(AppEntryOf(p)) && EnteredApp(AppEntryOf(p)) == App(p)
    ensures RuntimeEntry(App(p), RuntimeEntryOf(p), p)
  {
    ReceiverPathParts(p);
    AppSegmentAccepted(p);
    DirectoryEntrySegment(ReceiverPathPrefix(), App(p));
    DirectoryEntrySegment(AppDirectory(App(p)), Runtime(p));
  }

  lemma PathViews(prefix: string, app: string, runtime: string, rest: string)
    ensures Under(prefix, app + "/" + runtime, rest) == prefix + "/" + app + "/" + (runtime + "/" + rest)
    ensures Under(prefix, app + "/" + runtime, rest) == prefix + "/" + app + "/" + runtime + "/" + rest
  {
  }

  lemma FileShowsUp(h: Server, dir: string, head: string, rest: string)
    requires '/' !in head && dir + head + "/" + rest in h.files
    ensures dir + head + "/" in Children(h, dir)
  {
    NestedFileEntry(dir, head, rest);
  }

  /** Any file in a receiver's folder makes both entries show up. */
  lemma FileShowsEntries(h: Server, p: string, rest: string)
    requires IsReceiverPath(p) && Under(PAYKIT_PATH_PREFIX, p, rest) in h.files
    ensures AppEntryOf(p) in Children(h, ReceiverPathPrefix())
    ensures RuntimeEntryOf(p) in Children(h, AppDirectory(App(p)))
  {
    ReceiverPathParts(p);
    PathViews(PAYKIT_PATH_PREFIX, App(p), Runtime(p), rest);
    FileShowsUp(h, ReceiverPathPrefix(), App(p), Runtime(p) + "/" + rest);
    FileShowsUp(h, AppDirectory(App(p)), Runtime(p), rest);
  }

  lemma MarkerShowsEntries(h: Server, codec: Codec, p: string)
    requires IsReceiverPath(p) && HasMarker(h, codec, p)
    ensures AppEntryOf(p) in Children(h, ReceiverPathPrefix())
    ensures RuntimeEntryOf(p) in Children(h, AppDirectory(App(p)))
  {
    assert MarkerPath(p) in h.files;
    FileShowsEntries(h, p, "receiver.json");
  }

  lemma EndpointShowsEntries(h: Server, p: string, name: string)
    requires IsReceiverPath(p) && IsFileIn(h, EndpointPathPrefix(p), name)
    ensures AppEntryOf(p) in Children(h, ReceiverPathPrefix())
    ensures RuntimeEntryOf(p) in Children(h, AppDirectory(App(p)))
  {
    var rest := "endpoints" + "/" + name;
    assert Under(PAYKIT_PATH_PREFIX, p, rest) == EndpointPathPrefix(p) + name;
    FileShowsEntries(h, p, rest);
  }

  /** Advertised at every request up to `end`: by its marker, or by one and the same file. */
  ghost predicate AdvertisedThroughout(servers: nat -> Server, codec: Codec, end: nat, p: string) {
    || (forall t: nat :: t < end ==> HasMarker(servers(t), codec, p))
    || (exists name :: FileThroughout(servers, 0, end, EndpointPathPrefix(p), name))
  }

  /** The listings and the pre-check never lose such a receiver. */
  lemma AdvertisedIsReached(servers: nat -> Server, codec: Codec, end: nat, p: string)
    requires IsReceiverPath(p) && AdvertisedThroughout(servers, codec, end, p)
    ensures ListedThroughout(servers, 0, end, ReceiverPathPrefix(), AppEntryOf(p))
    ensures ListedThroughout(servers, 0, end, AppDirectory(App(p)), RuntimeEntryOf(p))
  {
    if name :| FileThroughout(servers, 0, end, EndpointPathPrefix(p), name) {
      forall t: nat | t < end
        ensures AppEntryOf(p) in Children(servers(t), ReceiverPathPrefix())
        ensures RuntimeEntryOf(p) in Children(servers(t), AppDirectory(App(p)))
      {
        EndpointShowsEntries(servers(t), p, name);
      }
    } else {
      forall t: nat | t < end
        ensures AppEntryOf(p) in Children(servers(t), ReceiverPathPrefix())
        ensures RuntimeEntryOf(p) in Children(servers(t), AppDirectory(App(p)))
      {
        MarkerShowsEntries(servers(t), codec, p);
      }
    }
  }

  // ------------------------------------------------------------------- the scan

  predicate NoRepeats(s: seq<string>) {
    forall i, j :: 0 <= i < j < |s| ==> s[i] != s[j]
  }

  /** A receiver's check was made by requests `w.0` to `w.1` and came out as recorded. */
  ghost predicate Checked(servers: nat -> Server, codec: Codec, now: nat, w: (nat, nat), p: string, advertised: bool) {
    && w.1 <= now && CheckMade(servers, codec, w.0, w.1, p)
    && (if advertised then AdvertisedDuring(servers, codec, w.0, w.1, p) else AbsentDuring(servers, codec, w.0, w.1, p))
  }

  /** The scan's variables: `checks` says when each receiver seen so far was checked, `found` holds the
      advertised ones, each once. */
  ghost predicate ScanState(
    servers: nat -> Server, codec: Codec, now: nat, checks: map<string, (nat, nat)>, found: seq<string>)
  {
    && NoRepeats(found)
    && (forall p :: p in found ==> p in checks)
    && (forall p :: p in checks ==> Checked(servers, codec, now, checks[p], p, p in found))
  }

  lemma TimePasses(
    servers: nat -> Server, codec: Codec, now: nat, checks: map<string, (nat, nat)>, found: seq<string>, later: nat)
    requires ScanState(servers, codec, now, checks, found) && now <= later
    ensures ScanState(servers, codec, later, checks, found)
  {
  }

  lemma PushFound(
    servers: nat -> Server, codec: Codec, now: nat, checks: map<string, (nat, nat)>, found: seq<string>,
    p: string, end: nat, advertised: bool)
    requires ScanState(servers, codec, now, checks, found) && p !in checks && now <= end
    requires Checked(servers, codec, end, (now, end), p, advertised)
    ensures ScanState(servers, codec, end, checks[p := (now, end)], if advertised then found + [p] else found)
  {
    assert p !in found;
  }

  /** The receivers a list of runtime entries leads to. */
  function ReceiversIn(app: string, runtimes: seq<string>): set<string> {
    if runtimes == [] then {}
    else
      var p := ReceiverAt(app, runtimes[|runtimes| - 1]);
      ReceiversIn(app, runtimes[..|runtimes| - 1]) + if p.Some? then {p.value} else {}
  }

  lemma {:induction false} ReceiverListed(app: string, runtimes: seq<string>, k: nat)
    requires k < |runtimes| && ReceiverAt(app, runtimes[k]).Some?
    ensures ReceiverAt(app, runtimes[k]).value in ReceiversIn(app, runtimes)
  {
    if k < |runtimes| - 1 { ReceiverListed(app, runtimes[..|runtimes| - 1], k); }
  }

  lemma {:induction false} ListedReceiver(app: string, runtimes: seq<string>, p: string) returns (k: nat)
    requires p in ReceiversIn(app, runtimes)
    ensures k < |runtimes| && ReceiverAt(app, runtimes[k]) == Some(p)
  {
    k := |runtimes| - 1;
    if ReceiverAt(app, runtimes[k]) != Some(p) { k := ListedReceiver(app, runtimes[..k], p); }
  }

  /** `seen` after the first `n` entries of one app folder, starting from `base`. */
  ghost predicate SeenRuntimes(base: set<string>, app: string, listed: seq<string>, n: nat, seen: set<string>) {
    n <= |listed| && seen == base + ReceiversIn(app, listed[..n])
  }

  lemma RuntimeStep(base: set<string>, app: string, listed: seq<string>, n: nat, seen: set<string>)
    requires SeenRuntimes(base, app, listed, n, seen) && n < |listed|
    ensures var p := ReceiverAt(app, listed[n]);
      SeenRuntimes(base, app, listed, n + 1, seen + if p.Some? then {p.value} else {})
  {
    assert listed[..n + 1][..n] == listed[..n];
  }

  /** The check of the receiver at this entry failed by request `end`. */
  ghost predicate RuntimeFailed(servers: nat -> Server, codec: Codec, end: nat, app: string, e: string) {
    && ReceiverAt(app, e).Some?
    && exists from: nat, to: nat :: from < to <= end && CheckFailed(servers, codec, from, to, ReceiverAt(app, e).value)
  }

  /** The inner loop's variables after `i` entries. */
  ghost predicate InnerState(
    servers: nat -> Server, codec: Codec, now: nat, base: set<string>, app: string, listed: seq<string>, i: nat,
    seen: set<string>, found: seq<string>, checks: map<string, (nat, nat)>)
  {
    ScanState(servers, codec, now, checks, found) && checks.Keys == seen && SeenRuntimes(base, app, listed, i, seen)
  }

  lemma EntrySkipped(
    servers: nat -> Server, codec: Codec, now: nat, base: set<string>, app: string, listed: seq<string>, i: nat,
    seen: set<string>, found: seq<string>, checks: map<string, (nat, nat)>)
    requires InnerState(servers, codec, now, base, app, listed, i, seen, found, checks) && i < |listed|
    requires ReceiverAt(app, listed[i]).Some? ==> ReceiverAt(app, listed[i]).value in seen
    ensures InnerState(servers, codec, now, base, app, listed, i + 1, seen, found, checks)
  {
    RuntimeStep(base, app, listed, i, seen);
    var p := ReceiverAt(app, listed[i]);
    assert seen + (if p.Some? then {p.value} else {}) == seen;
  }

  lemma EntryChecked(
    servers: nat -> Server, codec: Codec, now: nat, base: set<string>, app: string, listed: seq<string>, i: nat,
    seen: set<string>, found: seq<string>, checks: map<string, (nat, nat)>, p: string, end: nat, advertised: bool)
    requires InnerState(servers, codec, now, base, app, listed, i, seen, found, checks) && i < |listed|
    requires ReceiverAt(app, listed[i]) == Some(p) && p !in seen && now <= end
    requires Checked(servers, codec, end, (now, end), p, advertised)
    ensures InnerState(
      servers, codec, end, base, app, listed, i + 1, seen + {p}, if advertised then found + [p] else found,
      checks[p := (now, end)])
  {
    RuntimeStep(base, app, listed, i, seen);
    PushFound(servers, codec, now, checks, found, p, end, advertised);
  }

  /** The inner loop: one app folder's runtimes. */
  method ScanRuntimes(
    servers: nat -> Server, ghost paths: set<string>, codec: Codec, start: nat, app: string, listed: seq<string>,
    seen0: set<string>, found0: seq<string>, ghost checks0: map<string, (nat, nat)>)
    returns (ok: bool, seen: set<string>, found: seq<string>, now: nat, ghost checks: map<string, (nat, nat)>)
    requires Bounded(servers, paths) && ScanState(servers, codec, start, checks0, found0) && checks0.Keys == seen0
    ensures start <= now
    ensures ok ==> InnerState(servers, codec, now, seen0, app, listed, |listed|, seen, found, checks)
    ensures !ok ==> exists k :: 0 <= k < |listed| && RuntimeFailed(servers, codec, now, app, listed[k])
  {
    ok, seen, found, now, checks := true, seen0, found0, start, checks0;
    var i := 0;
    while i < |listed|
      invariant ok && start <= now && i <= |listed|
      invariant InnerState(servers, codec, now, seen0, app, listed, i, seen, found, checks)
    {
      var receiver := ReceiverAt(app, listed[i]);
      if receiver.Some? && receiver.value !in seen {
        var p := receiver.value;
        var advertised, end := ReceiverIsPubliclyAdvertised(servers, paths, codec, now, p);
        if advertised.Err? {
          assert RuntimeFailed(servers, codec, end, app, listed[i]);
          return false, seen, found, end, checks;
        }
        EntryChecked(servers, codec, now, seen0, app, listed, i, seen, found, checks, p, end, advertised.value);
        seen, checks, now := seen + {p}, checks[p := (now, end)], end;
        if advertised.value {
          found := found + [p];
        }
      } else {
        EntrySkipped(servers, codec, now, seen0, app, listed, i, seen, found, checks);
      }
      i := i + 1;
    }
  }

  /** One top-level entry's listing, when it was made, and the receivers it led to. */
  datatype AppListing = AppListing(from: nat, to: nat, runtimes: seq<string>, receivers: set<string>)

  const NotEntered := AppListing(0, 0, [], {})

  ghost predicate FolderListed(servers: nat -> Server, now: nat, app: string, l: AppListing) {
    && l.to <= now && ListedDuring(servers, l.from, l.to, AppDirectory(app), l.runtimes)
    && l.receivers == ReceiversIn(app, l.runtimes)
  }

  ghost predicate AppListed(servers: nat -> Server, now: nat, a: string, l: AppListing) {
    if EntersApp(a) then FolderListed(servers, now, EnteredApp(a), l) else l == NotEntered
  }

  function AllReceivers(lists: seq<AppListing>): set<string> {
    if lists == [] then {} else AllReceivers(lists[..|lists| - 1]) + lists[|lists| - 1].receivers
  }

  lemma {:induction false} AllReceiversExact(lists: seq<AppListing>, p: string)
    ensures p in AllReceivers(lists) <==> exists k :: 0 <= k < |lists| && p in lists[k].receivers
  {
    if lists != [] { AllReceiversExact(lists[..|lists| - 1], p); }
  }

  ghost predicate AllListed(servers: nat -> Server, now: nat, listed: seq<string>, lists: seq<AppListing>)
    requires |lists| <= |listed|
  {
    var n := |lists| - 1;
    n >= 0 ==> AppListed(servers, now, listed[n], lists[n]) && AllListed(servers, now, listed, lists[..n])
  }

  lemma {:induction false} AllListedAt(
    servers: nat -> Server, now: nat, listed: seq<string>, lists: seq<AppListing>, k: nat)
    requires k < |lists| <= |listed| && AllListed(servers, now, listed, lists)
    ensures AppListed(servers, now, listed[k], lists[k])
    decreases |lists|
  {
    if k < |lists| - 1 { AllListedAt(servers, now, listed, lists[..|lists| - 1], k); }
  }

  lemma {:induction false} AllStillListed(
    servers: nat -> Server, now: nat, listed: seq<string>, lists: seq<AppListing>, later: nat)
    requires |lists| <= |listed| && AllListed(servers, now, listed, lists) && now <= later
    ensures AllListed(servers, later, listed, lists)
    decreases |lists|
  {
    if lists != [] { AllStillListed(servers, now, listed, lists[..|lists| - 1], later); }
  }

  /** After the first `|lists|` top-level entries: their folders were listed, and `seen` holds their
      receivers. */
  ghost predicate SeenApps(
    servers: nat -> Server, now: nat, listed: seq<string>, lists: seq<AppListing>, seen: set<string>)
  {
    |lists| <= |listed| && AllListed(servers, now, listed, lists) && seen == AllReceivers(lists)
  }

  lemma NextApp(
    servers: nat -> Server, now: nat, listed: seq<string>, lists: seq<AppListing>, seen: set<string>,
    l: AppListing, later: nat)
    requires SeenApps(servers, now, listed, lists, seen) && |lists| < |listed| && now <= later
    requires AppListed(servers, later, listed[|lists|], l)
    ensures SeenApps(servers, later, listed, lists + [l], seen + l.receivers)
  {
    AllStillListed(servers, now, listed, lists, later);
    assert (lists + [l])[..|lists|] == lists;
    AllReceiversSnoc(lists, l);
  }

  lemma AllReceiversSnoc(lists: seq<AppListing>, l: AppListing)
    ensures AllReceivers(lists + [l]) == AllReceivers(lists) + l.receivers
  {
    assert (lists + [l])[..|lists|] == lists;
  }

  /** An app folder on which discovery failed by request `end`: it could not be listed, or one of the
      receivers listed in it could not be checked. */
  ghost predicate AppFailed(servers: nat -> Server, codec: Codec, end: nat, app: string) {
    || (exists t: nat :: t < end && AppDirectory(app) in servers(t).down)
    || (exists e :: ListedOnce(servers, 0, end, AppDirectory(app), e) && RuntimeFailed(servers, codec, end, app, e))
  }

  ghost predicate EntryFailed(servers: nat -> Server, codec: Codec, end: nat, a: string) {
    EntersApp(a) && AppFailed(servers, codec, end, EnteredApp(a))
  }

  lemma RuntimeFails(
    servers: nat -> Server, codec: Codec, end: nat, app: string, from: nat, to: nat, runtimes: seq<string>, k: nat)
    requires to <= end && ListedDuring(servers, from, to, AppDirectory(app), runtimes)
    requires k < |runtimes| && RuntimeFailed(servers, codec, end, app, runtimes[k])
    ensures AppFailed(servers, codec, end, app)
  {
    var dir, e := AppDirectory(app), runtimes[k];
    assert ListedOnce(servers, from, to, dir, e);
    var t: nat :| from <= t < to && e in Children(servers(t), dir);
    assert ListedOnce(servers, 0, end, dir, e);
  }

  /** One app folder: list it and go through its runtimes. */
  method ScanApp(
    servers: nat -> Server, ghost paths: set<string>, codec: Codec, now: nat, app: string,
    seen0: set<string>, found0: seq<string>, ghost checks0: map<string, (nat, nat)>)
    returns (ok: bool, seen: set<string>, found: seq<string>, later: nat,
             ghost checks: map<string, (nat, nat)>, ghost l: AppListing)
    requires Bounded(servers, paths) && ScanState(servers, codec, now, checks0, found0) && checks0.Keys == seen0
    ensures now <= later
    ensures ok ==> ScanState(servers, codec, later, checks, found) && checks.Keys == seen
    ensures ok ==> FolderListed(servers, later, app, l) && seen == seen0 + l.receivers
    ensures !ok ==> AppFailed(servers, codec, later, app)
  {
    seen, found, checks, l := seen0, found0, checks0, NotEntered;
    var runtimes, end := ListEntries(servers, paths, now, AppDirectory(app));
    if runtimes.Err? {
      ok, later := false, end;
      return;
    }
    TimePasses(servers, codec, now, checks, found, end);
    ok, seen, found, later, checks :=
      ScanRuntimes(servers, paths, codec, end, app, runtimes.value, seen0, found0, checks0);
    if ok {
      l := AppListing(now, end, runtimes.value, ReceiversIn(app, runtimes.value));
      assert runtimes.value[..|runtimes.value|] == runtimes.value;
    } else {
      ghost var k :| 0 <= k < |runtimes.value| && RuntimeFailed(servers, codec, later, app, runtimes.value[k]);
      RuntimeFails(servers, codec, later, app, now, end, runtimes.value, k);
    }
  }

  /** The outer loop's variables after `|lists|` entries. */
  ghost predicate OuterState(
    servers: nat -> Server, codec: Codec, now: nat, listed: seq<string>, lists: seq<AppListing>,
    seen: set<string>, found: seq<string>, checks: map<string, (nat, nat)>)
  {
    ScanState(servers, codec, now, checks, found) && checks.Keys == seen && SeenApps(servers, now, listed, lists, seen)
  }

  /** The outer loop over app folders. */
  method ScanApps(servers: nat -> Server, ghost paths: set<string>, codec: Codec, start: nat, listed: seq<string>)
    returns (ok: bool, found: seq<string>, now: nat,
             ghost checks: map<string, (nat, nat)>, ghost lists: seq<AppListing>)
    requires Bounded(servers, paths)
    ensures start <= now
    ensures ok ==> |lists| == |listed| && OuterState(servers, codec, now, listed, lists, checks.Keys, found, checks)
    ensures !ok ==> exists k :: 0 <= k < |listed| && EntryFailed(servers, codec, now, listed[k])
  {
    var seen: set<string> := {};
    ok, found, now, checks, lists := true, [], start, map[], [];
    var i := 0;
    while i < |listed|
      invariant ok && start <= now && i == |lists| <= |listed|
      invariant OuterState(servers, codec, now, listed, lists, seen, found, checks)
    {
      ghost var l := NotEntered;
      var later := now;
      if EntersApp(listed[i]) {
        ok, seen, found, later, checks, l :=
          ScanApp(servers, paths, codec, now, EnteredApp(listed[i]), seen, found, checks);
        if !ok {
          assert EntryFailed(servers, codec, later, listed[i]);
          return ok, found, later, checks, lists;
        }
      }
      NextApp(servers, now, listed, lists, AllReceivers(lists), l, later);
      now, lists := later, lists + [l];
      i := i + 1;
    }
  }

  // ----------------------------------------------------------------- what it returns

  /** A receiver found in the listings throughout. */
  ghost predicate ReachedThroughout(servers: nat -> Server, end: nat, a: string, e: string, p: string) {
    && ListedThroughout(servers, 0, end, ReceiverPathPrefix(), a) && EntersApp(a)
    && ListedThroughout(servers, 0, end, AppDirectory(EnteredApp(a)), e) && ReceiverAt(EnteredApp(a), e) == Some(p)
  }

  ghost predicate CheckedBy(servers: nat -> Server, codec: Codec, end: nat, p: string) {
    exists from: nat, to: nat :: from < to <= end && CheckMade(servers, codec, from, to, p)
  }

  ghost predicate AdvertisedWhenChecked(servers: nat -> Server, codec: Codec, end: nat, p: string) {
    exists from: nat, to: nat :: from < to <= end && AdvertisedDuring(servers, codec, from, to, p)
  }

  /** Nothing that was there all the time stayed unlisted or unchecked. */
  ghost predicate NothingMissed(servers: nat -> Server, codec: Codec, end: nat) {
    && 0 < end && ReceiverPathPrefix() !in servers(0).down
    && (forall a :: ListedThroughout(servers, 0, end, ReceiverPathPrefix(), a) && EntersApp(a) ==>
          exists t: nat :: t < end && AppDirectory(EnteredApp(a)) !in servers(t).down)
    && (forall a, e, p :: ReachedThroughout(servers, end, a, e, p) ==> CheckedBy(servers, codec, end, p))
  }

  /** What a successful discovery over `end` requests means, whatever changed meanwhile: a strictly
      sorted list of valid receivers, each advertised when it was checked, with every receiver that was
      advertised throughout. */
  ghost predicate Discovered(servers: nat -> Server, codec: Codec, end: nat, out: seq<string>) {
    && StrictlyIncreasing(out)
    && (forall p :: p in out ==> IsReceiverPath(p) && AdvertisedWhenChecked(servers, codec, end, p))
    && (forall p :: IsReceiverPath(p) && AdvertisedThroughout(servers, codec, end, p) ==> p in out)
  }

  /** One of the requests it made failed. */
  ghost predicate DiscoveryFailed(servers: nat -> Server, codec: Codec, end: nat) {
    || (exists t: nat :: t < end && ReceiverPathPrefix() in servers(t).down)
    || (exists a :: ListedOnce(servers, 0, end, ReceiverPathPrefix(), a) && EntryFailed(servers, codec, end, a))
  }

  /** Everything known when the loops are done. */
  ghost predicate Scanned(
    servers: nat -> Server, codec: Codec, top: nat, end: nat, listed: seq<string>, lists: seq<AppListing>,
    checks: map<string, (nat, nat)>, found: seq<string>)
  {
    && top <= end && ListedDuring(servers, 0, top, ReceiverPathPrefix(), listed)
    && |lists| == |listed| && OuterState(servers, codec, end, listed, lists, checks.Keys, found, checks)
  }

  lemma Narrow(servers: nat -> Server, end: nat, from: nat, to: nat, dir: string, e: string)
    requires ListedThroughout(servers, 0, end, dir, e) && to <= end
    ensures ListedThroughout(servers, from, to, dir, e)
  {
  }

  /** A receiver found in the listings throughout was checked. */
  lemma ReachedIsSeen(
    servers: nat -> Server, codec: Codec, top: nat, end: nat, listed: seq<string>, lists: seq<AppListing>,
    checks: map<string, (nat, nat)>, found: seq<string>, a: string, e: string, p: string)
    requires Scanned(servers, codec, top, end, listed, lists, checks, found)
    requires ReachedThroughout(servers, end, a, e, p)
    ensures p in checks
  {
    Narrow(servers, end, 0, top, ReceiverPathPrefix(), a);
    var k :| 0 <= k < |listed| && listed[k] == a;
    AllListedAt(servers, end, listed, lists, k);
    Narrow(servers, end, lists[k].from, lists[k].to, AppDirectory(EnteredApp(a)), e);
    var j :| 0 <= j < |lists[k].runtimes| && lists[k].runtimes[j] == e;
    ReceiverListed(EnteredApp(a), lists[k].runtimes, j);
    AllReceiversExact(lists, p);
  }

  lemma ScanMissesNothing(
    servers: nat -> Server, codec: Codec, top: nat, end: nat, listed: seq<string>, lists: seq<AppListing>,
    checks: map<string, (nat, nat)>, found: seq<string>)
    requires Scanned(servers, codec, top, end, listed, lists, checks, found)
    ensures NothingMissed(servers, codec, end)
  {
    forall a | ListedThroughout(servers, 0, end, ReceiverPathPrefix(), a) && EntersApp(a)
      ensures exists t: nat :: t < end && AppDirectory(EnteredApp(a)) !in servers(t).down
    {
      Narrow(servers, end, 0, top, ReceiverPathPrefix(), a);
      var k :| 0 <= k < |listed| && listed[k] == a;
      AllListedAt(servers, end, listed, lists, k);
      assert AppDirectory(EnteredApp(a)) !in servers(lists[k].from).down;
    }
    forall a, e, p | ReachedThroughout(servers, end, a, e, p) ensures CheckedBy(servers, codec, end, p) {
      ReachedIsSeen(servers, codec, top, end, listed, lists, checks, found, a, e, p);
      assert Checked(servers, codec, end, checks[p], p, p in found);
    }
  }

  /** Advertised throughout: reached, checked, and the check cannot have come out negative. */
  lemma AdvertisedIsFound(
    servers: nat -> Server, codec: Codec, top: nat, end: nat, listed: seq<string>, lists: seq<AppListing>,
    checks: map<string, (nat, nat)>, found: seq<string>, p: string)
    requires Scanned(servers, codec, top, end, listed, lists, checks, found)
    requires IsReceiverPath(p) && AdvertisedThroughout(servers, codec, end, p)
    ensures p in found
  {
    AdvertisedIsReached(servers, codec, end, p);
    EntriesLead(p);
    ReceiverAtExact(App(p), RuntimeEntryOf(p), p);
    assert ReachedThroughout(servers, end, AppEntryOf(p), RuntimeEntryOf(p), p);
    ReachedIsSeen(servers, codec, top, end, listed, lists, checks, found, AppEntryOf(p), RuntimeEntryOf(p), p);
    var (from, to) := checks[p];
    assert Checked(servers, codec, end, (from, to), p, p in found);
    if p !in found {
      NotAbsent(servers, codec, end, from, to, p);
      assert false;
    }
  }

  lemma NotAbsent(servers: nat -> Server, codec: Codec, end: nat, from: nat, to: nat, p: string)
    requires from < to <= end && AdvertisedThroughout(servers, codec, end, p)
    ensures !AbsentDuring(servers, codec, from, to, p)
  {
    if name :| FileThroughout(servers, 0, end, EndpointPathPrefix(p), name) {
      assert FileThroughout(servers, from + 1, to, EndpointPathPrefix(p), name);
    }
  }

  lemma FoundIsAdvertised(
    servers: nat -> Server, codec: Codec, top: nat, end: nat, listed: seq<string>, lists: seq<AppListing>,
    checks: map<string, (nat, nat)>, found: seq<string>, p: string)
    requires Scanned(servers, codec, top, end, listed, lists, checks, found) && p in found
    ensures IsReceiverPath(p) && AdvertisedWhenChecked(servers, codec, end, p)
  {
    assert Checked(servers, codec, end, checks[p], p, true);
    AllReceiversExact(lists, p);
    var k :| 0 <= k < |lists| && p in lists[k].receivers;
    AllListedAt(servers, end, listed, lists, k);
    var j := ListedReceiver(EnteredApp(listed[k]), lists[k].runtimes, p);
    ReceiverAtExact(EnteredApp(listed[k]), lists[k].runtimes[j], p);
  }

  function Itself(): string -> string { (p: string) => p }

  /** The final in-place sort of distinct paths. */
  lemma SortedPaths(found: seq<string>)
    requires NoRepeats(found)
    ensures StrictlyIncreasing(Sort(found, Itself()))
    ensures forall p :: p in Sort(found, Itself()) <==> p in found
  {
    assert DistinctBy(found, Itself());
    SortStrict(found, Itself());
    forall p ensures p in Sort(found, Itself()) <==> p in found { SameEntries(Sort(found, Itself()), found, p); }
  }

  lemma ScanDiscovers(
    servers: nat -> Server, codec: Codec, top: nat, end: nat, listed: seq<string>, lists: seq<AppListing>,
    checks: map<string, (nat, nat)>, found: seq<string>)
    requires Scanned(servers, codec, top, end, listed, lists, checks, found)
    ensures Discovered(servers, codec, end, Sort(found, Itself())) && NothingMissed(servers, codec, end)
  {
    SortedPaths(found);
    forall p | p in found ensures IsReceiverPath(p) && AdvertisedWhenChecked(servers, codec, end, p) {
      FoundIsAdvertised(servers, codec, top, end, listed, lists, checks, found, p);
    }
    forall p | IsReceiverPath(p) && AdvertisedThroughout(servers, codec, end, p) ensures p in found {
      AdvertisedIsFound(servers, codec, top, end, listed, lists, checks, found, p);
    }
    ScanMissesNothing(servers, codec, top, end, listed, lists, checks, found);
  }

  lemma FailedEntryFails(servers: nat -> Server, codec: Codec, top: nat, end: nat, listed: seq<string>, k: nat)
    requires ListedDuring(servers, 0, top, ReceiverPathPrefix(), listed) && top <= end
    requires k < |listed| && EntryFailed(servers, codec, end, listed[k])
    ensures DiscoveryFailed(servers, codec, end)
  {
    assert ListedOnce(servers, 0, top, ReceiverPathPrefix(), listed[k]);
    var t: nat :| t < top && listed[k] in Children(servers(t), ReceiverPathPrefix());
    assert ListedOnce(servers, 0, end, ReceiverPathPrefix(), listed[k]);
  }

  /** Discovery on a homeserver that may be a different one at every request. */
  method FetchPaykitReceiverPaths(servers: nat -> Server, ghost paths: set<string>, codec: Codec)
    returns (r: Result<seq<string>>, end: nat)
    requires Bounded(servers, paths)
    ensures r.Ok? ==> Discovered(servers, codec, end, r.value) && NothingMissed(servers, codec, end)
    ensures r.Err? ==> r == Err(Transport) && DiscoveryFailed(servers, codec, end)
  {
    var listed, top := ListEntries(servers, paths, 0, ReceiverPathPrefix());
    if listed.Err? {
      return Err(Transport), top;
    }
    var ok, found, now, checks, lists := ScanApps(servers, paths, codec, top, listed.value);
    end := now;
    if !ok {
      ghost var k :| 0 <= k < |listed.value| && EntryFailed(servers, codec, end, listed.value[k]);
      FailedEntryFails(servers, codec, top, end, listed.value, k);
      return Err(Transport), end;
    }
    ScanDiscovers(servers, codec, top, end, listed.value, lists, checks, found);
    return Ok(Sort(found, Itself())), end;
  }

  // --------------------------------------------------------- on an unchanging homeserver

  /** Publicly advertised: a marker that parses for this very receiver, or at least one direct file in
      its endpoint folder. */
  ghost predicate Advertised(h: Server, codec: Codec, r: string) {
    HasMarker(h, codec, r) || exists name :: IsFileIn(h, EndpointPathPrefix(r), name)
  }

  /** A request of the check fails. */
  predicate Blocked(h: Server, codec: Codec, r: string) {
    MarkerPath(r) in h.down || (!HasMarker(h, codec, r) && EndpointPathPrefix(r) in h.down)
  }

  ghost predicate Reaches(h: Server, a: string, e: string, p: string) {
    && a in Children(h, ReceiverPathPrefix()) && EntersApp(a)
    && e in Children(h, AppDirectory(EnteredApp(a))) && ReceiverAt(EnteredApp(a), e) == Some(p)
  }

  /** One of the requests that discovery makes on this homeserver fails. */
  ghost predicate DiscoveryFails(h: Server, codec: Codec) {
    || ReceiverPathPrefix() in h.down
    || (exists a :: a in Children(h, ReceiverPathPrefix()) && EntersApp(a) && AppDirectory(EnteredApp(a)) in h.down)
    || (exists a, e, p :: Reaches(h, a, e, p) && Blocked(h, codec, p))
  }

  lemma UnchangingFailure(servers: nat -> Server, h: Server, codec: Codec, end: nat)
    requires Unchanging(servers, h) && DiscoveryFailed(servers, codec, end)
    ensures DiscoveryFails(h, codec)
  {
    if ReceiverPathPrefix() !in h.down {
      var a :| ListedOnce(servers, 0, end, ReceiverPathPrefix(), a) && EntryFailed(servers, codec, end, a);
      var app := EnteredApp(a);
      if AppDirectory(app) !in h.down {
        var e :| ListedOnce(servers, 0, end, AppDirectory(app), e) && RuntimeFailed(servers, codec, end, app, e);
        RuntimeBlocked(servers, h, codec, end, app, e);
        assert Reaches(h, a, e, ReceiverAt(app, e).value);
      }
    }
  }

  lemma RuntimeBlocked(servers: nat -> Server, h: Server, codec: Codec, end: nat, app: string, e: string)
    requires Unchanging(servers, h) && RuntimeFailed(servers, codec, end, app, e)
    ensures Blocked(h, codec, ReceiverAt(app, e).value)
  {
  }

  lemma UnchangingSuccess(servers: nat -> Server, h: Server, codec: Codec, end: nat)
    requires Unchanging(servers, h) && NothingMissed(servers, codec, end)
    ensures !DiscoveryFails(h, codec)
  {
    forall a | a in Children(h, ReceiverPathPrefix()) && EntersApp(a) ensures AppDirectory(EnteredApp(a)) !in h.down {
      assert ListedThroughout(servers, 0, end, ReceiverPathPrefix(), a);
    }
    forall a, e, p | Reaches(h, a, e, p) ensures !Blocked(h, codec, p) {
      assert ReachedThroughout(servers, end, a, e, p);
      var from: nat, to: nat :| from < to <= end && CheckMade(servers, codec, from, to, p);
      assert EndpointPathPrefix(p) in h.down && from + 1 < to ==> EndpointPathPrefix(p) in servers(from + 1).down;
    }
  }

  lemma UnchangingMembers(servers: nat -> Server, h: Server, codec: Codec, end: nat, out: seq<string>, p: string)
    requires Unchanging(servers, h) && 0 < end && Discovered(servers, codec, end, out)
    ensures p in out <==> IsReceiverPath(p) && Advertised(h, codec, p)
  {
    if p in out {
      var from: nat, to: nat :| from < to <= end && AdvertisedDuring(servers, codec, from, to, p);
    } else if IsReceiverPath(p) && Advertised(h, codec, p) {
      if name :| IsFileIn(h, EndpointPathPrefix(p), name) {
        assert FileThroughout(servers, 0, end, EndpointPathPrefix(p), name);
      }
      assert AdvertisedThroughout(servers, codec, end, p);
      assert false;
    }
  }

  /** There it fails exactly when one of its requests does, and otherwise returns, strictly sorted,
      exactly the valid advertised receivers. */
  method ReceiverPathsUnchanging(h: Server, codec: Codec) returns (r: Result<seq<string>>)
    ensures r.Ok? ==> StrictlyIncreasing(r.value)
    ensures r.Ok? ==> forall p :: p in r.value <==> IsReceiverPath(p) && Advertised(h, codec, p)
    ensures r.Err? <==> DiscoveryFails(h, codec)
    ensures r.Err? ==> r == Err(Transport)
  {
    var servers: nat -> Server := _ => h;
    var end;
    r, end := FetchPaykitReceiverPaths(servers, h.files.Keys, codec);
    if r.Err? {
      UnchangingFailure(servers, h, codec, end);
    } else {
      UnchangingSuccess(servers, h, codec, end);
      forall p ensures p in r.value <==> IsReceiverPath(p) && Advertised(h, codec, p) {
        UnchangingMembers(servers, h, codec, end, r.value, p);
      }
    }
  }
}
