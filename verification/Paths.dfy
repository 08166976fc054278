/** Receiver paths, Payment Endpoint Identifiers and the storage paths built from them. */
module Paths {
  import opened Wrappers
  import opened Text
  import Utf8

  const RECEIVER_PATH_MAX_LEN := 128
  const RECEIVER_SEGMENT_MAX_LEN := 64
  const IDENTIFIER_MAX_LEN := 64

  predicate IsDigit(c: char) { '0' <= c <= '9' }
  predicate IsLower(c: char) { 'a' <= c <= 'z' }
  predicate IsAlphanumeric(c: char) { IsDigit(c) || IsLower(c) || 'A' <= c <= 'Z' }

  // ---------------------------------------------------------- receiver paths

  predicate IsSegmentChar(c: char) { IsLower(c) || IsDigit(c) || c == '-' }

  function ValidateSegment(segment: string): Result<()> {
    if segment == "" then Err(Validation)
    else if Utf8.Length(segment) > RECEIVER_SEGMENT_MAX_LEN then Err(Validation)
    else if segment == "." || segment == ".." then Err(Validation)
    else if exists c :: c in segment && !IsSegmentChar(c) then Err(Validation)
    else Ok(())
  }

  function ValidateReceiverPath(value: string): Result<()> {
    if value == "" then Err(Validation)
    else if Utf8.Length(value) > RECEIVER_PATH_MAX_LEN then Err(Validation)
    else
      var segments := Split(value, '/');
      if |segments| != 2 then Err(Validation)
      else if ValidateSegment(segments[0]).Err? then ValidateSegment(segments[0])
      else if ValidateSegment(segments[1]).Err? then ValidateSegment(segments[1])
      else if segments[0] == "private" then Err(Validation)
      else if segments[1] == "wallet" || segments[1] == "server" then Ok(())
      else Err(Validation)
  }

  /** What an app segment may be: the part of the check that does not see the runtime. */
  predicate IsApp(app: string) {
    && 1 <= |app| <= RECEIVER_SEGMENT_MAX_LEN
    && app != "private"
    && forall c :: c in app ==> IsSegmentChar(c)
  }

  predicate IsRuntime(runtime: string) { runtime == "wallet" || runtime == "server" }

  /** `{app}/{wallet|server}` with a legal app. */
  predicate IsReceiverPath(value: string) {
    var segments := Split(value, '/');
    |segments| == 2 && IsApp(segments[0]) && IsRuntime(segments[1])
  }

  /** The validator's chain of checks accepts exactly that shape. */
  lemma ValidateReceiverPathExact(value: string)
    ensures ValidateReceiverPath(value) == if IsReceiverPath(value) then Ok(()) else Err(Validation)
  {
    if IsReceiverPath(value) {
      ShapeAccepted(value);
    } else if ValidateReceiverPath(value).Ok? {
      AcceptedShape(Split(value, '/')[0]);
      assert false;
    }
  }

  lemma AcceptedShape(app: string)
    requires ValidateSegment(app).Ok? && app != "private"
    ensures IsApp(app)
  {
    SegmentAccepted(app);
  }

  lemma ShapeAccepted(value: string)
    requires IsReceiverPath(value)
    ensures ValidateReceiverPath(value).Ok?
  {
    var segments := Split(value, '/');
    SegmentAccepted(segments[0]);
    RuntimeChars(segments[1]);
    SegmentAccepted(segments[1]);
    ReceiverPathParts(value);
    AsciiParts(segments[0], '/', segments[1]);
    assert segments[0] + "/" + segments[1] == segments[0] + ['/'] + segments[1];
  }

  lemma RuntimeChars(runtime: string)
    requires IsRuntime(runtime)
    ensures 1 <= |runtime| <= RECEIVER_SEGMENT_MAX_LEN - 1
    ensures forall c :: c in runtime ==> IsSegmentChar(c)
  {
  }

  lemma AsciiParts(app: string, slash: char, runtime: string)
    requires slash < 128 as char
    requires forall c :: c in app || c in runtime ==> IsSegmentChar(c)
    ensures Utf8.Length(app + [slash] + runtime) == |app| + 1 + |runtime|
  {
    Utf8.AsciiLength(app + [slash] + runtime);
  }

  function App(r: string): string
    requires IsReceiverPath(r)
  { Split(r, '/')[0] }

  function Runtime(r: string): string
    requires IsReceiverPath(r)
  { Split(r, '/')[1] }

  lemma SegmentAccepted(s: string)
    requires forall c :: c in s ==> IsSegmentChar(c)
    ensures Utf8.Length(s) == |s|
    ensures ValidateSegment(s).Ok? <==> 1 <= |s| <= RECEIVER_SEGMENT_MAX_LEN
  {
    Utf8.AsciiLength(s);
    assert |s| > 0 ==> s[0] in s;
  }

  lemma ReceiverPathShape(app: string, runtime: string)
    requires '/' !in app && '/' !in runtime
    ensures Split(app + "/" + runtime, '/') == [app, runtime]
    ensures IsReceiverPath(app + "/" + runtime) <==> IsApp(app) && IsRuntime(runtime)
  {
    SplitHead(app, '/', runtime);
    SplitWhole(runtime, '/');
  }

  lemma ReceiverPathParts(r: string)
    requires IsReceiverPath(r)
    ensures r == App(r) + "/" + Runtime(r)
    ensures App(r) != "" && Runtime(r) != "" && '/' !in App(r) && '/' !in Runtime(r)
    ensures Split(r, '/') == [App(r), Runtime(r)]
  {
    JoinSplit(r, '/');
    assert Split(r, '/')[1..] == [Runtime(r)];
  }

  // -------------------------------------------------------------- identifiers

  predicate IsIdentifierChar(c: char) { IsAlphanumeric(c) || c == '-' || c == '_' || c == '.' }

  function NewIdentifier(id: string): Result<string> {
    if id == "" then Err(Validation)
    else if Utf8.Length(id) > IDENTIFIER_MAX_LEN then Err(Validation)
    else if id == "private" || id == "encrypted-link-recovery" then Err(Validation)
    else if exists c :: c in id && !IsIdentifierChar(c) then Err(Validation)
    else if forall c :: c in id ==> c == '.' then Err(Validation)
    else Ok(id)
  }

  predicate IsIdentifier(id: string) {
    && 1 <= |id| <= IDENTIFIER_MAX_LEN
    && id != "private" && id != "encrypted-link-recovery"
    && (forall c :: c in id ==> IsIdentifierChar(c))
    && (exists c :: c in id && c != '.')
  }

  lemma NewIdentifierExact(id: string)
    ensures NewIdentifier(id) == if IsIdentifier(id) then Ok(id) else Err(Validation)
  {
    if forall c :: c in id ==> IsIdentifierChar(c) { Utf8.AsciiLength(id); }
  }

  // ------------------------------------------------------------ storage paths

  const PAYKIT_PATH_PREFIX := "/pub/paykit/v0"
  const PAYKIT_PRIVATE_PATH_PREFIX := PAYKIT_PATH_PREFIX + "/" + "private"

  function ReceiverPathPrefix(): string { PAYKIT_PATH_PREFIX + "/" }

  function Under(prefix: string, r: string, rest: string): string { prefix + "/" + r + "/" + rest }

  function MarkerPath(r: string): string { Under(PAYKIT_PATH_PREFIX, r, "receiver.json") }

  function EndpointPathPrefix(r: string): string { Under(PAYKIT_PATH_PREFIX, r, "endpoints" + "/") }

  function EndpointPath(r: string, id: string): string { EndpointPathPrefix(r) + id }

  function MessagePathPrefix(r: string): string { Under(PAYKIT_PRIVATE_PATH_PREFIX, r, "messages") }

  function ReceiptPathPrefix(r: string): string { Under(PAYKIT_PRIVATE_PATH_PREFIX, r, "receipts") }

  function RecoveryPathPrefix(r: string): string {
    Under(PAYKIT_PRIVATE_PATH_PREFIX, r, "encrypted-link-recovery")
  }

  /** Segments of the two roots every Paykit path starts from. */
  const PUBLIC_ROOT := ["", "pub", "paykit", "v0"]
  const PRIVATE_ROOT := PUBLIC_ROOT + ["private"]

  predicate IsRoot(prefix: string, root: seq<string>) {
    && root != []
    && prefix == Join(root, '/')
    && forall p :: p in root ==> '/' !in p
  }

  lemma JoinFour(a: string, b: string, c: string, d: string)
    ensures Join([a, b, c, d], '/') == a + "/" + (b + "/" + (c + "/" + d))
  {
    JoinCons(c, '/', [d]);
    JoinCons(b, '/', [c, d]);
    JoinCons(a, '/', [b, c, d]);
    assert [c, d] == [c] + [d] && [b, c, d] == [b] + [c, d] && [a, b, c, d] == [a] + [b, c, d];
  }

  lemma PublicRoot()
    ensures PAYKIT_PATH_PREFIX == Join(PUBLIC_ROOT, '/')
  {
    JoinFour("", "pub", "paykit", "v0");
  }

  lemma Roots()
    ensures IsRoot(PAYKIT_PATH_PREFIX, PUBLIC_ROOT)
    ensures IsRoot(PAYKIT_PRIVATE_PATH_PREFIX, PRIVATE_ROOT)
  {
    PublicRoot();
    JoinSnoc(PUBLIC_ROOT, '/', "private");
  }

  /** The segments of anything below a receiver's folder under either root. */
  lemma SegmentsUnder(prefix: string, root: seq<string>, r: string, rest: string)
    requires IsRoot(prefix, root) && IsReceiverPath(r)
    ensures Split(Under(prefix, r, rest), '/') == root + [App(r), Runtime(r)] + Split(rest, '/')
  {
    ReceiverPathParts(r);
    var parts := [App(r), Runtime(r)];
    assert Join(parts, '/') == r by { JoinCons(App(r), '/', [Runtime(r)]); assert parts == [App(r)] + [Runtime(r)]; }
    SplitAfter(parts, '/', rest);
    SplitAfter(root, '/', r + "/" + rest);
    assert prefix + "/" + (r + "/" + rest) == Under(prefix, r, rest);
    assert root + (parts + Split(rest, '/')) == root + parts + Split(rest, '/');
  }

  /** Under the two roots a path determines its root, its receiver and what follows: the reserved
      `private` app segment keeps the roots apart. */
  lemma UnderDetermines(
    prefix: string, root: seq<string>, r: string, rest: string,
    prefix': string, root': seq<string>, r': string, rest': string)
    requires IsRoot(prefix, root) && (root == PUBLIC_ROOT || root == PRIVATE_ROOT) && IsReceiverPath(r)
    requires IsRoot(prefix', root') && (root' == PUBLIC_ROOT || root' == PRIVATE_ROOT) && IsReceiverPath(r')
    requires Under(prefix, r, rest) == Under(prefix', r', rest')
    ensures prefix == prefix' && r == r' && rest == rest'
  {
    SegmentsUnder(prefix, root, r, rest);
    SegmentsUnder(prefix', root', r', rest');
    var a, b := root + [App(r), Runtime(r)] + Split(rest, '/'), root' + [App(r'), Runtime(r')] + Split(rest', '/');
    assert a[4] == if root == PUBLIC_ROOT then App(r) else "private";
    assert b[4] == if root' == PUBLIC_ROOT then App(r') else "private";
    assert root == root';
    assert a[|root|] == App(r) && a[|root| + 1] == Runtime(r);
    assert b[|root|] == App(r') && b[|root| + 1] == Runtime(r');
    ReceiverPathParts(r);
    ReceiverPathParts(r');
    UnderCancels(prefix, r, rest, rest');
  }

  lemma UnderCancels(prefix: string, r: string, rest: string, rest': string)
    requires Under(prefix, r, rest) == Under(prefix, r, rest')
    ensures rest == rest'
  {
    var n := |prefix| + |r| + 2;
    assert Under(prefix, r, rest)[n..] == rest && Under(prefix, r, rest')[n..] == rest';
  }

  /** The routing layer's path constructors. */
  datatype Route = MarkerRoute | EndpointRoute(id: string) | MessagesRoute | ReceiptsRoute | RecoveryRoute

  function RoutePath(r: string, route: Route): string {
    match route
    case MarkerRoute => MarkerPath(r)
    case EndpointRoute(id) => EndpointPath(r, id)
    case MessagesRoute => MessagePathPrefix(r)
    case ReceiptsRoute => ReceiptPathPrefix(r)
    case RecoveryRoute => RecoveryPathPrefix(r)
  }

  function RouteTail(route: Route): string {
    match route
    case MarkerRoute => "receiver.json"
    case EndpointRoute(id) => "endpoints" + "/" + id
    case MessagesRoute => "messages"
    case ReceiptsRoute => "receipts"
    case RecoveryRoute => "encrypted-link-recovery"
  }

  predicate IsPublic(route: Route) { route.MarkerRoute? || route.EndpointRoute? }

  function RoutePrefix(route: Route): string {
    if IsPublic(route) then PAYKIT_PATH_PREFIX else PAYKIT_PRIVATE_PATH_PREFIX
  }

  lemma RouteIsUnder(r: string, route: Route)
    ensures RoutePath(r, route) == Under(RoutePrefix(route), r, RouteTail(route))
  {
  }

  lemma RouteTailDetermines(a: Route, b: Route)
    requires RouteTail(a) == RouteTail(b)
    ensures a == b
  {
    var s, t := RouteTail(a), RouteTail(b);
    if a.EndpointRoute? && b.EndpointRoute? {
      assert s[10..] == a.id && t[10..] == b.id;
    } else {
      assert s[2] == t[2] && |s| == |t|;
    }
  }

  /** Every path constructor is injective and no two of them ever meet. */
  lemma RoutesSeparate(r: string, a: Route, r': string, b: Route)
    requires IsReceiverPath(r) && IsReceiverPath(r')
    ensures RoutePath(r, a) == RoutePath(r', b) <==> r == r' && a == b
  {
    if RoutePath(r, a) == RoutePath(r', b) {
      Roots();
      RouteIsUnder(r, a);
      RouteIsUnder(r', b);
      var root := if IsPublic(a) then PUBLIC_ROOT else PRIVATE_ROOT;
      var root' := if IsPublic(b) then PUBLIC_ROOT else PRIVATE_ROOT;
      UnderDetermines(RoutePrefix(a), root, r, RouteTail(a), RoutePrefix(b), root', r', RouteTail(b));
      RouteTailDetermines(a, b);
    }
  }

  /** The public files: endpoints and markers. */
  lemma PathsSeparate(r: string, id: string, r': string, id': string)
    requires IsReceiverPath(r) && IsReceiverPath(r')
    ensures EndpointPath(r, id) == EndpointPath(r', id') ==> r == r' && id == id'
    ensures MarkerPath(r) == MarkerPath(r') ==> r == r'
    ensures EndpointPath(r, id) != MarkerPath(r')
  {
    RoutesSeparate(r, EndpointRoute(id), r', EndpointRoute(id'));
    RoutesSeparate(r, MarkerRoute, r', MarkerRoute);
    RoutesSeparate(r, EndpointRoute(id), r', MarkerRoute);
  }
}
