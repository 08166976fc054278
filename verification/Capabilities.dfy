/** Session capabilities, the scope order, and the paths one SDK configuration touches. */
module Capabilities {
  import opened Wrappers
  import opened Text
  import opened Paths
  import Utf8

  datatype Action = Read | Write

  datatype Capability = Capability(scope: string, actions: set<Action>)

  predicate ScopeCovers(parent: string, child: string) {
    parent == child || (EndsWithSlash(parent) && parent <= child)
  }

  predicate CapabilityCovers(actual: Capability, required: Capability) {
    && ScopeCovers(actual.scope, required.scope)
    && forall a :: a in required.actions ==> a in actual.actions
  }

  /** A request as the homeserver sees it. */
  predicate Allows(c: Capability, path: string, action: Action) {
    ScopeCovers(c.scope, path) && action in c.actions
  }

  predicate Allowed(caps: seq<Capability>, path: string, action: Action) {
    exists c :: c in caps && Allows(c, path, action)
  }

  /** Scope coverage is a partial order. */
  lemma ScopeOrder(a: string, b: string, c: string)
    ensures ScopeCovers(a, a)
    ensures ScopeCovers(a, b) && ScopeCovers(b, a) ==> a == b
    ensures ScopeCovers(a, b) && ScopeCovers(b, c) ==> ScopeCovers(a, c)
  {
  }

  /** For a capability that grants anything at all, coverage says exactly that every request it
      allows is allowed by the covering one. */
  lemma CoverageExact(actual: Capability, required: Capability)
    requires required.actions != {}
    ensures CapabilityCovers(actual, required)
       <==> forall path, action :: Allows(required, path, action) ==> Allows(actual, path, action)
  {
    if forall path, action :: Allows(required, path, action) ==> Allows(actual, path, action) {
      var action :| action in required.actions;
      assert Allows(required, required.scope, action);
      forall a | a in required.actions ensures a in actual.actions {
        assert Allows(required, required.scope, a);
      }
    }
  }

  predicate IsCovered(actual: seq<Capability>, required: Capability) {
    exists a :: a in actual && CapabilityCovers(a, required)
  }

  /** The required capabilities no session capability covers. */
  function Missing(actual: seq<Capability>, required: seq<Capability>): seq<Capability> {
    if required == [] then []
    else
      var rest := Missing(actual, required[1..]);
      if IsCovered(actual, required[0]) then rest else [required[0]] + rest
  }

  function ValidateSessionCapabilities(actual: seq<Capability>, required: seq<Capability>): Result<()> {
    if Missing(actual, required) == [] then Ok(()) else Err(Validation)
  }

  predicate Covered(actual: seq<Capability>, required: seq<Capability>) {
    forall r :: r in required ==> IsCovered(actual, r)
  }

  lemma {:induction false} CheckIsCoverage(actual: seq<Capability>, required: seq<Capability>)
    ensures ValidateSessionCapabilities(actual, required).Ok? <==> Covered(actual, required)
  {
    if required != [] {
      CheckIsCoverage(actual, required[1..]);
      assert required == [required[0]] + required[1..];
      assert required[0] in required;
    }
  }

  lemma CoveredIsSound(actual: seq<Capability>, required: seq<Capability>, path: string, action: Action)
    requires Covered(actual, required) && Allowed(required, path, action)
    ensures Allowed(actual, path, action)
  {
  }

  /** What `Capabilities::normalize` is relied on for: every capability that grants anything is
      covered by a single normalized one, and nothing new is allowed. */
  ghost predicate Normalizes(actual: seq<Capability>, normalized: seq<Capability>) {
    && (forall c :: c in actual && c.actions != {} ==> IsCovered(normalized, c))
    && (forall path, action :: Allowed(normalized, path, action) ==> Allowed(actual, path, action))
  }

  /** Under that law both lists allow the same requests. */
  lemma NormalizedAllowsTheSame(actual: seq<Capability>, normalized: seq<Capability>, path: string, action: Action)
    requires Normalizes(actual, normalized)
    ensures Allowed(normalized, path, action) <==> Allowed(actual, path, action)
  {
    if c :| c in actual && Allows(c, path, action) {
      var n :| n in normalized && CapabilityCovers(n, c);
      ScopeOrder(n.scope, c.scope, path);
      assert Allows(n, path, action);
    }
  }

  /** A passing check of the normalized list speaks about the session's own list. */
  lemma NormalizedCheckIsSound(
    actual: seq<Capability>, normalized: seq<Capability>, required: seq<Capability>, path: string, action: Action)
    requires Normalizes(actual, normalized)
    requires ValidateSessionCapabilities(normalized, required).Ok? && Allowed(required, path, action)
    ensures Allowed(actual, path, action)
  {
    CheckIsCoverage(normalized, required);
    CoveredIsSound(normalized, required, path, action);
  }

  /** What one capability of the session's own list covers is still covered after normalizing. */
  lemma CoverageSurvives(actual: seq<Capability>, normalized: seq<Capability>, required: Capability)
    requires Normalizes(actual, normalized) && required.actions != {} && IsCovered(actual, required)
    ensures IsCovered(normalized, required)
  {
    var a :| a in actual && CapabilityCovers(a, required);
    var action :| action in required.actions;
    assert action in a.actions;
    var n :| n in normalized && CapabilityCovers(n, a);
    ScopeOrder(n.scope, a.scope, required.scope);
  }

  // ------------------------------------------------------------- configuration

  const DEFAULT_PROFILE_NAMESPACE := "paykit"

  datatype Config = Config(receiverPath: string, profileNamespace: string)

  function ValidateProfileNamespace(ns: string): Result<()> {
    if ns == "" then Err(Validation)
    else if Utf8.Length(ns) > 128 then Err(Validation)
    else if ns[0] == '.' || ns[|ns| - 1] == '.' then Err(Validation)
    else if ns == "pubky.app" then Err(Validation)
    else if exists c :: c in ns && !IsIdentifierChar(c) then Err(Validation)
    else Ok(())
  }

  predicate IsNamespace(ns: string) {
    && 1 <= |ns| <= 128
    && ns[0] != '.' && ns[|ns| - 1] != '.'
    && ns != "pubky.app"
    && forall c :: c in ns ==> IsIdentifierChar(c)
  }

  lemma ValidateProfileNamespaceExact(ns: string)
    ensures ValidateProfileNamespace(ns).Ok? <==> IsNamespace(ns)
  {
    if forall c :: c in ns ==> IsIdentifierChar(c) { Utf8.AsciiLength(ns); }
  }

  predicate Valid(c: Config) { IsReceiverPath(c.receiverPath) && IsNamespace(c.profileNamespace) }

  function NamespaceRoot(ns: string): string { "/pub" + "/" + ns }

  function ProfileRoot(c: Config): string {
    if c.profileNamespace == DEFAULT_PROFILE_NAMESPACE then PAYKIT_PATH_PREFIX else NamespaceRoot(c.profileNamespace)
  }

  function FolderScope(root: string, r: string): string { root + "/" + r + "/" }

  function ReadWrite(scope: string): Capability { Capability(scope, {Read, Write}) }

  function RequiredCapabilities(c: Config): seq<Capability> {
    [ReadWrite(FolderScope(PAYKIT_PATH_PREFIX, c.receiverPath)),
     ReadWrite(FolderScope(PAYKIT_PRIVATE_PATH_PREFIX, c.receiverPath))]
    + if c.profileNamespace == DEFAULT_PROFILE_NAMESPACE then []
      else [ReadWrite(FolderScope(NamespaceRoot(c.profileNamespace), c.receiverPath))]
  }

  /** The namespace capability is pushed only for a namespace of its own. */
  method RequiredSessionCapabilities(c: Config) returns (capabilities: seq<Capability>)
    ensures capabilities == RequiredCapabilities(c)
  {
    capabilities := [ReadWrite(FolderScope(PAYKIT_PATH_PREFIX, c.receiverPath)),
                     ReadWrite(FolderScope(PAYKIT_PRIVATE_PATH_PREFIX, c.receiverPath))];
    if c.profileNamespace != DEFAULT_PROFILE_NAMESPACE {
      capabilities := capabilities + [ReadWrite(FolderScope(NamespaceRoot(c.profileNamespace), c.receiverPath))];
    }
  }

  /** Every place the SDK writes for one receiver. */
  datatype LocalPath =
    | MarkerFile
    | EndpointFile(id: string)
    | ProfileFile
    | ProfileBlob(name: string)
    | PublicContact(key: string, contactReceiver: string)
    | PrivateMessage(slot: string)
    | ReceiptFile(name: string)
    | RecoveryMarker(name: string)

  function RootOf(c: Config, p: LocalPath): string {
    match p
    case MarkerFile => PAYKIT_PATH_PREFIX
    case EndpointFile(_) => PAYKIT_PATH_PREFIX
    case ProfileFile => ProfileRoot(c)
    case ProfileBlob(_) => ProfileRoot(c)
    case PublicContact(_, _) => ProfileRoot(c)
    case PrivateMessage(_) => PAYKIT_PRIVATE_PATH_PREFIX
    case ReceiptFile(_) => PAYKIT_PRIVATE_PATH_PREFIX
    case RecoveryMarker(_) => PAYKIT_PRIVATE_PATH_PREFIX
  }

  function Tail(p: LocalPath): string {
    match p
    case MarkerFile => "receiver.json"
    case EndpointFile(id) => "endpoints" + "/" + id
    case ProfileFile => "profile.json"
    case ProfileBlob(name) => "blobs" + "/" + name
    case PublicContact(key, r) => "contacts" + "/" + key + "/" + r + ".json"
    case PrivateMessage(slot) => "messages" + "/" + slot
    case ReceiptFile(name) => "receipts" + "/" + name
    case RecoveryMarker(name) => "encrypted-link-recovery" + "/" + name
  }

  function PathOf(c: Config, p: LocalPath): string { Under(RootOf(c, p), c.receiverPath, Tail(p)) }

  /** The configuration's paths are the routing layer's paths. */
  lemma PathsAgree(c: Config, p: LocalPath)
    ensures p.MarkerFile? ==> PathOf(c, p) == MarkerPath(c.receiverPath)
    ensures p.EndpointFile? ==> PathOf(c, p) == EndpointPath(c.receiverPath, p.id)
    ensures p.PrivateMessage? ==> PathOf(c, p) == MessagePathPrefix(c.receiverPath) + "/" + p.slot
    ensures p.ReceiptFile? ==> PathOf(c, p) == ReceiptPathPrefix(c.receiverPath) + "/" + p.name
    ensures p.RecoveryMarker? ==> PathOf(c, p) == RecoveryPathPrefix(c.receiverPath) + "/" + p.name
  {
    var root, r := RootOf(c, p), c.receiverPath;
    match p
    case EndpointFile(id) => UnderAppend(root, r, "endpoints" + "/", id);
    case PrivateMessage(slot) => FileInFolder(root, r, "messages", slot);
    case ReceiptFile(name) => FileInFolder(root, r, "receipts", name);
    case RecoveryMarker(name) => FileInFolder(root, r, "encrypted-link-recovery", name);
    case _ =>
  }

  lemma UnderAppend(root: string, r: string, x: string, y: string)
    ensures Under(root, r, x + y) == Under(root, r, x) + y
  {
  }

  lemma FileInFolder(root: string, r: string, folder: string, name: string)
    ensures Under(root, r, folder + "/" + name) == Under(root, r, folder) + "/" + name
  {
  }

  /** Every local path lies within the required capabilities, for reading and for writing. */
  lemma LocalPathsCovered(c: Config, p: LocalPath, action: Action)
    ensures Allowed(RequiredCapabilities(c), PathOf(c, p), action)
  {
    var scope := FolderScope(RootOf(c, p), c.receiverPath);
    UnderHasScope(RootOf(c, p), c.receiverPath, Tail(p));
    assert ReadWrite(scope) in RequiredCapabilities(c);
    assert Allows(ReadWrite(scope), PathOf(c, p), action);
  }

  lemma UnderHasScope(root: string, r: string, rest: string)
    ensures ScopeCovers(FolderScope(root, r), Under(root, r, rest))
  {
  }

  // ----------------------------------------------------------------- isolation

  /** Scope text covers a path only if the folder's segments start the path's segments. */
  lemma CoveredSegments(
    root: string, segs: seq<string>, r: string, root': string, segs': seq<string>, r': string, rest: string)
    requires IsRoot(root, segs) && IsReceiverPath(r) && IsRoot(root', segs') && IsReceiverPath(r')
    requires ScopeCovers(FolderScope(root, r), Under(root', r', rest))
    ensures segs + [App(r), Runtime(r)] <= segs' + [App(r'), Runtime(r')] + Split(rest, '/')
  {
    var path := Under(root', r', rest);
    var scope := FolderScope(root, r);
    var beyond := path[|scope|..];
    assert path == scope + beyond;
    assert path == Under(root, r, beyond);
    SegmentsUnder(root, segs, r, beyond);
    SegmentsUnder(root', segs', r', rest);
  }

  /** The roots a configuration uses, with their segments. */
  ghost predicate UsesRoot(c: Config, root: string, segs: seq<string>) {
    && IsRoot(root, segs)
    && (|| segs == PUBLIC_ROOT
        || segs == PRIVATE_ROOT
        || (segs == ["", "pub", c.profileNamespace] && c.profileNamespace != DEFAULT_PROFILE_NAMESPACE))
  }

  lemma NamespaceIsRoot(ns: string)
    requires IsNamespace(ns)
    ensures IsRoot(NamespaceRoot(ns), ["", "pub", ns])
  {
    JoinCons("pub", '/', [ns]);
    JoinCons("", '/', ["pub"] + [ns]);
    assert ["", "pub", ns] == [""] + (["pub"] + [ns]);
    assert NamespaceRoot(ns) == "" + "/" + ("pub" + "/" + ns);
    assert '/' !in ns;
  }

  lemma LocalRoot(c: Config, p: LocalPath) returns (segs: seq<string>)
    requires Valid(c)
    ensures UsesRoot(c, RootOf(c, p), segs)
  {
    Roots();
    if RootOf(c, p) == PAYKIT_PATH_PREFIX {
      segs := PUBLIC_ROOT;
    } else if RootOf(c, p) == PAYKIT_PRIVATE_PATH_PREFIX {
      segs := PRIVATE_ROOT;
    } else {
      NamespaceIsRoot(c.profileNamespace);
      segs := ["", "pub", c.profileNamespace];
    }
  }

  lemma RequiredRoot(c: Config, cap: Capability) returns (root: string, segs: seq<string>)
    requires Valid(c) && cap in RequiredCapabilities(c)
    ensures UsesRoot(c, root, segs) && cap == ReadWrite(FolderScope(root, c.receiverPath))
  {
    Roots();
    if cap == ReadWrite(FolderScope(PAYKIT_PATH_PREFIX, c.receiverPath)) {
      root, segs := PAYKIT_PATH_PREFIX, PUBLIC_ROOT;
    } else if cap == ReadWrite(FolderScope(PAYKIT_PRIVATE_PATH_PREFIX, c.receiverPath)) {
      root, segs := PAYKIT_PRIVATE_PATH_PREFIX, PRIVATE_ROOT;
    } else {
      NamespaceIsRoot(c.profileNamespace);
      root, segs := NamespaceRoot(c.profileNamespace), ["", "pub", c.profileNamespace];
    }
  }

  /** Leading segments decide the root, and then the receiver. */
  lemma SegmentsDecide(
    c: Config, c': Config, root: string, segs: seq<string>, root': string, segs': seq<string>, tail: seq<string>)
    requires Valid(c) && Valid(c') && UsesRoot(c, root, segs) && UsesRoot(c', root', segs')
    requires segs + [App(c.receiverPath), Runtime(c.receiverPath)]
          <= segs' + [App(c'.receiverPath), Runtime(c'.receiverPath)] + tail
    ensures segs == segs' && c.receiverPath == c'.receiverPath
  {
    var r, r' := c.receiverPath, c'.receiverPath;
    ReceiverPathParts(r);
    ReceiverPathParts(r');
    var p := segs + [App(r), Runtime(r)];
    var q := segs' + [App(r'), Runtime(r')] + tail;
    var n := |segs|;
    assert p[n] == App(r) && p[n + 1] == Runtime(r);
    assert forall i :: 0 <= i < |p| ==> p[i] == q[i];
    assert q[|segs'|] == App(r') && q[|segs'| + 1] == Runtime(r');
    assert p[2] == segs[2] && q[2] == segs'[2];
    if segs == PUBLIC_ROOT || segs == PRIVATE_ROOT {
      assert segs[2] == "paykit";
      assert segs' == PUBLIC_ROOT || segs' == PRIVATE_ROOT;
      assert q[4] == if segs' == PUBLIC_ROOT then App(r') else "private";
      assert p[4] == if segs == PUBLIC_ROOT then App(r) else "private";
    }
    assert segs == segs';
  }

  /** Configurations for different receivers never reach into each other's paths, whatever their
      profile namespaces. */
  lemma ReceiversIsolated(c: Config, c': Config, p: LocalPath, action: Action)
    requires Valid(c) && Valid(c') && c.receiverPath != c'.receiverPath
    ensures !Allowed(RequiredCapabilities(c), PathOf(c', p), action)
  {
    if Allowed(RequiredCapabilities(c), PathOf(c', p), action) {
      var cap :| cap in RequiredCapabilities(c) && Allows(cap, PathOf(c', p), action);
      var root, segs := RequiredRoot(c, cap);
      var segs' := LocalRoot(c', p);
      CoveredSegments(root, segs, c.receiverPath, RootOf(c', p), segs', c'.receiverPath, Tail(p));
      SegmentsDecide(c, c', root, segs, RootOf(c', p), segs', Split(Tail(p), '/'));
      assert false;
    }
  }

  /** Contact keys are single segments; every other name may be any text. */
  predicate WellNamed(p: LocalPath) { p.PublicContact? ==> '/' !in p.key }

  /** No two of the SDK's paths ever meet: a path determines its receiver and what it is for. */
  lemma LocalPathsSeparate(c: Config, p: LocalPath, c': Config, p': LocalPath)
    requires Valid(c) && Valid(c') && WellNamed(p) && WellNamed(p')
    requires PathOf(c, p) == PathOf(c', p')
    ensures c.receiverPath == c'.receiverPath && p == p'
  {
    var r, r' := c.receiverPath, c'.receiverPath;
    var segs := LocalRoot(c, p);
    var segs' := LocalRoot(c', p');
    SegmentsUnder(RootOf(c, p), segs, r, Tail(p));
    SegmentsUnder(RootOf(c', p'), segs', r', Tail(p'));
    assert segs + [App(r), Runtime(r)] <= segs + [App(r), Runtime(r)] + Split(Tail(p), '/');
    SegmentsDecide(c, c', RootOf(c, p), segs, RootOf(c', p'), segs', Split(Tail(p'), '/'));
    UnderCancels(RootOf(c, p), r, Tail(p), Tail(p'));
    TailDetermines(p, p');
  }

  /** The characters that tell the tails apart. */
  lemma TailHead(p: LocalPath)
    ensures |Tail(p)| > 5
    ensures Tail(p)[0] == match p
      case MarkerFile => 'r' case EndpointFile(_) => 'e' case ProfileFile => 'p' case ProfileBlob(_) => 'b'
      case PublicContact(_, _) => 'c' case PrivateMessage(_) => 'm' case ReceiptFile(_) => 'r'
      case RecoveryMarker(_) => 'e'
    ensures p.MarkerFile? ==> Tail(p)[5] == 'v'
    ensures p.ReceiptFile? ==> Tail(p)[5] == 'p'
    ensures p.EndpointFile? ==> Tail(p)[2] == 'd'
    ensures p.RecoveryMarker? ==> Tail(p)[2] == 'c'
  {
  }

  lemma TailDetermines(p: LocalPath, p': LocalPath)
    requires WellNamed(p) && WellNamed(p') && Tail(p) == Tail(p')
    ensures p == p'
  {
    TailHead(p);
    TailHead(p');
    match p
    case MarkerFile =>
    case ProfileFile =>
    case EndpointFile(id) => assert Tail(p)[10..] == id && Tail(p')[10..] == p'.id;
    case ProfileBlob(name) => assert Tail(p)[6..] == name && Tail(p')[6..] == p'.name;
    case PublicContact(key, r) => ContactTail(key, r, p'.key, p'.contactReceiver);
    case PrivateMessage(slot) => assert Tail(p)[9..] == slot && Tail(p')[9..] == p'.slot;
    case ReceiptFile(name) => assert Tail(p)[9..] == name && Tail(p')[9..] == p'.name;
    case RecoveryMarker(name) => assert Tail(p)[24..] == name && Tail(p')[24..] == p'.name;
  }

  lemma ContactTail(key: string, r: string, key': string, r': string)
    requires '/' !in key && '/' !in key' && Tail(PublicContact(key, r)) == Tail(PublicContact(key', r'))
    ensures key == key' && r == r'
  {
    var t, file, file' := Tail(PublicContact(key, r)), r + ".json", r' + ".json";
    assert t[9..] == key + "/" + file && t[9..] == key' + "/" + file';
    HeadsAgree(key, '/', file, key', file');
    SuffixCancels(r, r', ".json");
  }

  lemma HeadsAgree(a: string, sep: char, x: string, b: string, y: string)
    requires sep !in a && sep !in b && a + [sep] + x == b + [sep] + y
    ensures a == b && x == y
  {
    SplitHead(a, sep, x);
    SplitHead(b, sep, y);
    assert Split(a + [sep] + x, sep)[0] == a;
    assert (a + [sep] + x)[|a| + 1..] == x && (b + [sep] + y)[|b| + 1..] == y;
  }

  lemma SuffixCancels(a: string, b: string, suffix: string)
    requires a + suffix == b + suffix
    ensures a == b
  {
    assert (a + suffix)[..|a|] == a && (b + suffix)[..|b|] == b;
  }

  // --------------------------------------------------------- the browser check

  const PAYKIT_SCOPE := "/pub/paykit/"

  predicate CapabilitiesCoverPaykit(caps: seq<Capability>) {
    exists c :: c in caps && ScopeCovers(c.scope, PAYKIT_SCOPE) && Read in c.actions && Write in c.actions
  }

  /** A session that passes the browser's check passes the SDK's, which normalizes first, for every
      configuration in the default namespace. */
  lemma BrowserCheckSuffices(caps: seq<Capability>, normalized: seq<Capability>, c: Config)
    requires CapabilitiesCoverPaykit(caps) && Normalizes(caps, normalized)
    requires c.profileNamespace == DEFAULT_PROFILE_NAMESPACE
    ensures ValidateSessionCapabilities(normalized, RequiredCapabilities(c)).Ok?
  {
    var grant :|
      grant in caps && ScopeCovers(grant.scope, PAYKIT_SCOPE) && Read in grant.actions && Write in grant.actions;
    assert PAYKIT_SCOPE <= PAYKIT_PATH_PREFIX;
    forall r | r in RequiredCapabilities(c) ensures IsCovered(normalized, r) {
      assert PAYKIT_PATH_PREFIX <= r.scope && Read in r.actions;
      ScopeOrder(grant.scope, PAYKIT_SCOPE, r.scope);
      assert CapabilityCovers(grant, r);
      CoverageSurvives(caps, normalized, r);
    }
    CheckIsCoverage(normalized, RequiredCapabilities(c));
  }

  /** However it is normalized, the bare Paykit grant covers exactly the default-namespace
      configurations. */
  lemma PaykitGrantExact(normalized: seq<Capability>, c: Config)
    requires Valid(c) && Normalizes([ReadWrite(PAYKIT_SCOPE)], normalized)
    ensures ValidateSessionCapabilities(normalized, RequiredCapabilities(c)).Ok?
       <==> c.profileNamespace == DEFAULT_PROFILE_NAMESPACE
  {
    var ns, grant := c.profileNamespace, ReadWrite(PAYKIT_SCOPE);
    if ns == DEFAULT_PROFILE_NAMESPACE {
      assert grant in [grant];
      BrowserCheckSuffices([grant], normalized, c);
    } else if ValidateSessionCapabilities(normalized, RequiredCapabilities(c)).Ok? {
      NamespaceNotGranted(normalized, c);
      assert false;
    }
  }

  lemma NamespaceNotGranted(normalized: seq<Capability>, c: Config)
    requires Valid(c) && Normalizes([ReadWrite(PAYKIT_SCOPE)], normalized)
    requires ValidateSessionCapabilities(normalized, RequiredCapabilities(c)).Ok?
    ensures c.profileNamespace == DEFAULT_PROFILE_NAMESPACE
  {
    var ns := c.profileNamespace;
    if ns != DEFAULT_PROFILE_NAMESPACE {
      var scope := FolderScope(NamespaceRoot(ns), c.receiverPath);
      assert ReadWrite(scope) in RequiredCapabilities(c);
      assert Allows(ReadWrite(scope), scope, Read);
      NormalizedCheckIsSound([ReadWrite(PAYKIT_SCOPE)], normalized, RequiredCapabilities(c), scope, Read);
      SharedNamespace(ns, scope[|NamespaceRoot(ns)| + 1..], scope[|PAYKIT_SCOPE|..]);
    }
  }

  /** Normalizing first is needed: a grant split into a reading and a writing half allows the same
      requests as the whole, yet without normalizing no configuration would pass. */
  lemma SplitGrantNeedsNormalizing(c: Config)
    ensures
      var halves := [Capability(PAYKIT_SCOPE, {Read}), Capability(PAYKIT_SCOPE, {Write})];
      && Normalizes(halves, [ReadWrite(PAYKIT_SCOPE)])
      && !CapabilitiesCoverPaykit(halves)
      && ValidateSessionCapabilities(halves, RequiredCapabilities(c)).Err?
  {
    var read, write := Capability(PAYKIT_SCOPE, {Read}), Capability(PAYKIT_SCOPE, {Write});
    var whole := ReadWrite(PAYKIT_SCOPE);
    var halves := [read, write];
    assert read in halves && write in halves && whole in [whole];
    forall path, action | Allowed([whole], path, action) ensures Allowed(halves, path, action) {
      assert Allows(if action == Read then read else write, path, action);
    }
    CheckIsCoverage(halves, RequiredCapabilities(c));
    assert RequiredCapabilities(c)[0] in RequiredCapabilities(c);
    assert Read in RequiredCapabilities(c)[0].actions && Write in RequiredCapabilities(c)[0].actions;
  }

  lemma SharedNamespace(ns: string, x: string, y: string)
    requires '/' !in ns && NamespaceRoot(ns) + "/" + x == PAYKIT_SCOPE + y
    ensures ns == "paykit"
  {
    var path := PAYKIT_SCOPE + y;
    assert path[5..] == ns + "/" + x;
    assert path[5..] == "paykit" + "/" + y;
    SplitHead(ns, '/', x);
    SplitHead("paykit", '/', y);
    assert Split(path[5..], '/')[0] == ns;
    assert Split(path[5..], '/')[0] == "paykit";
  }
}
