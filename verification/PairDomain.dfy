/** Pairwise domain bytes, and the paths two peers derive from them without talking. */
module PairDomain {
  import opened Text
  import opened Paths
  import opened Utf8

  /** A peer's endpoint: z-base-32 identity key text and receiver path. */
  type Endpoint = (string, string)

  predicate NulFree(s: string) { '\0' !in s }

  predicate IsEndpoint(e: Endpoint) { NulFree(e.0) && IsReceiverPath(e.1) }

  /** The order Rust gives a pair of strings. */
  predicate EndpointLess(a: Endpoint, b: Endpoint) {
    Less(a.0, b.0) || (a.0 == b.0 && Less(a.1, b.1))
  }

  lemma EndpointLessTotal(a: Endpoint, b: Endpoint)
    ensures EndpointLess(a, b) || a == b || EndpointLess(b, a)
    ensures EndpointLess(a, b) ==> !EndpointLess(b, a)
  {
    LessTotal(a.0, b.0);
    LessTotal(a.1, b.1);
    if Less(a.0, b.0) { LessAsymmetric(a.0, b.0); }
    if Less(b.0, a.0) { LessAsymmetric(b.0, a.0); }
    if Less(a.1, b.1) { LessAsymmetric(a.1, b.1); }
  }

  function Smaller(a: Endpoint, b: Endpoint): Endpoint { if EndpointLess(b, a) then b else a }
  function Larger(a: Endpoint, b: Endpoint): Endpoint { if EndpointLess(b, a) then a else b }

  /** The five NUL-separated fields of the domain. */
  function Fields(base: seq<byte>, a: Endpoint, b: Endpoint): seq<seq<byte>> {
    [base, Encode(Smaller(a, b).0), Encode(Smaller(a, b).1), Encode(Larger(a, b).0), Encode(Larger(a, b).1)]
  }

  function Domain(base: seq<byte>, a: Endpoint, b: Endpoint): seq<byte> {
    Join(Fields(base, a, b), 0)
  }

  function Append(domain: seq<byte>, e: Endpoint): seq<byte> {
    domain + [0] + Encode(e.0) + [0] + Encode(e.1)
  }

  lemma AppendIsJoin(base: seq<byte>, a: Endpoint, b: Endpoint)
    ensures Append(Append(base, Smaller(a, b)), Larger(a, b)) == Domain(base, a, b)
  {
    var x, y := Smaller(a, b), Larger(a, b);
    var p1, p2, p3 := [base] + [Encode(x.0)], [base] + [Encode(x.0)] + [Encode(x.1)],
      [base] + [Encode(x.0)] + [Encode(x.1)] + [Encode(y.0)];
    JoinSnoc([base], 0, Encode(x.0));
    JoinSnoc(p1, 0, Encode(x.1));
    JoinSnoc(p2, 0, Encode(y.0));
    JoinSnoc(p3, 0, Encode(y.1));
    assert p3 + [Encode(y.1)] == Fields(base, a, b);
  }

  /** `receiver_pair_path_domain`: sort the two endpoints in place, then append to a buffer. */
  method ReceiverPairPathDomain(base: seq<byte>, local: Endpoint, remote: Endpoint) returns (domain: seq<byte>)
    ensures domain == Domain(base, local, remote)
  {
    var endpoints := new Endpoint[] [local, remote];
    if EndpointLess(endpoints[1], endpoints[0]) {
      endpoints[0], endpoints[1] := endpoints[1], endpoints[0];
    }
    domain := base;
    var i := 0;
    while i < 2
      invariant 0 <= i <= 2
      invariant endpoints[0] == Smaller(local, remote) && endpoints[1] == Larger(local, remote)
      invariant domain == if i == 0 then base
                          else if i == 1 then Append(base, endpoints[0])
                          else Append(Append(base, endpoints[0]), endpoints[1])
    {
      domain := domain + [0];
      domain := domain + Encode(endpoints[i].0);
      domain := domain + [0];
      domain := domain + Encode(endpoints[i].1);
      i := i + 1;
    }
    AppendIsJoin(base, local, remote);
  }

  /** Both peers compute the same bytes. */
  lemma DomainSymmetric(base: seq<byte>, a: Endpoint, b: Endpoint)
    ensures Domain(base, a, b) == Domain(base, b, a)
  {
    EndpointLessTotal(a, b);
  }

  lemma FieldsNulFree(base: seq<byte>, a: Endpoint, b: Endpoint)
    requires 0 !in base && IsEndpoint(a) && IsEndpoint(b)
    ensures forall p :: p in Fields(base, a, b) ==> 0 !in p
  {
    ReceiverPathNulFree(a.1);
    ReceiverPathNulFree(b.1);
    EncodeNulFree(a.0);
    EncodeNulFree(a.1);
    EncodeNulFree(b.0);
    EncodeNulFree(b.1);
  }

  lemma ReceiverPathNulFree(r: string)
    requires IsReceiverPath(r)
    ensures NulFree(r)
  {
    ReceiverPathParts(r);
    var app, runtime := App(r), Runtime(r);
    assert r == app + "/" + runtime;
    assert forall c :: c in app ==> IsSegmentChar(c);
    assert forall c :: c in runtime ==> IsSegmentChar(c);
  }

  /** Equal bytes mean the same base domain and the same unordered pair of endpoints. */
  lemma DomainDetermines(base: seq<byte>, a: Endpoint, b: Endpoint, base': seq<byte>, a': Endpoint, b': Endpoint)
    requires 0 !in base && IsEndpoint(a) && IsEndpoint(b)
    requires 0 !in base' && IsEndpoint(a') && IsEndpoint(b')
    requires Domain(base, a, b) == Domain(base', a', b')
    ensures base == base'
    ensures (a == a' && b == b') || (a == b' && b == a')
  {
    FieldsNulFree(base, a, b);
    FieldsNulFree(base', a', b');
    SplitJoin(Fields(base, a, b), 0);
    SplitJoin(Fields(base', a', b'), 0);
    SameFields(base, a, b, base', a', b');
  }

  lemma SameFields(base: seq<byte>, a: Endpoint, b: Endpoint, base': seq<byte>, a': Endpoint, b': Endpoint)
    requires Fields(base, a, b) == Fields(base', a', b')
    ensures base == base'
    ensures Smaller(a, b) == Smaller(a', b') && Larger(a, b) == Larger(a', b')
  {
    var f, f' := Fields(base, a, b), Fields(base', a', b');
    assert f[0] == f'[0] && f[1] == f'[1] && f[2] == f'[2] && f[3] == f'[3] && f[4] == f'[4];
    EncodeInjective(Smaller(a, b).0, Smaller(a', b').0);
    EncodeInjective(Smaller(a, b).1, Smaller(a', b').1);
    EncodeInjective(Larger(a, b).0, Larger(a', b').0);
    EncodeInjective(Larger(a, b).1, Larger(a', b').1);
  }

  // --------------------------------------------------------------- rendezvous

  const PAYKIT_PATH_DOMAIN := "paykit-path-v0"
  const RECOVERY_MARKER_PATH_DOMAIN := "paykit-link-recovery-v0"

  /** The foreign `derive_asymmetric_paths(secret, remote key, domain, base)`: a write path and a
      read path. Its one law is Diffie-Hellman symmetry: under equal domain and base, what one
      side writes is what the other side reads. */
  type Derivation<!K, !P> = (K, P, seq<byte>, string) -> (string, string)

  ghost predicate DhSymmetric<K(!new), P>(derive: Derivation<K, P>, publicKey: K -> P) {
    forall a: K, b: K, domain: seq<byte>, base: string ::
      derive(a, publicKey(b), domain, base).0 == derive(b, publicKey(a), domain, base).1
  }

  /** The shared shape of both path computations: write under the local receiver's prefix, read
      under the remote one's. */
  function PairPaths<K, P>(derive: Derivation<K, P>, domainText: string, prefix: string -> string,
                           secret: K, remoteKey: P, local: Endpoint, remote: Endpoint): (string, string)
  {
    var domain := Domain(Encode(domainText), local, remote);
    (derive(secret, remoteKey, domain, prefix(local.1)).0, derive(secret, remoteKey, domain, prefix(remote.1)).1)
  }

  function RecoveryMarkerPaths<K, P>(
    derive: Derivation<K, P>, secret: K, remoteKey: P, local: Endpoint, remote: Endpoint): (string, string)
  {
    PairPaths(derive, RECOVERY_MARKER_PATH_DOMAIN, r => RecoveryPathPrefix(r), secret, remoteKey, local, remote)
  }

  function PrivatePaymentPaths<K, P>(
    derive: Derivation<K, P>, secret: K, remoteKey: P, local: Endpoint, remote: Endpoint): (string, string)
  {
    PairPaths(derive, PAYKIT_PATH_DOMAIN, r => MessagePathPrefix(r), secret, remoteKey, local, remote)
  }

  lemma PairPathsMeet<K(!new), P>(
    derive: Derivation<K, P>, publicKey: K -> P, domainText: string, prefix: string -> string,
                            alice: K, bob: K, a: Endpoint, b: Endpoint)
    requires DhSymmetric(derive, publicKey)
    ensures PairPaths(derive, domainText, prefix, alice, publicKey(bob), a, b).0
         == PairPaths(derive, domainText, prefix, bob, publicKey(alice), b, a).1
    ensures PairPaths(derive, domainText, prefix, alice, publicKey(bob), a, b).1
         == PairPaths(derive, domainText, prefix, bob, publicKey(alice), b, a).0
  {
    DomainSymmetric(Encode(domainText), a, b);
  }

  /** Each peer's write path is the other's read path, for recovery markers and for messages. */
  lemma PeersMeet<K(!new), P>(derive: Derivation<K, P>, publicKey: K -> P, alice: K, bob: K, a: Endpoint, b: Endpoint)
    requires DhSymmetric(derive, publicKey)
    ensures var (write, read) := RecoveryMarkerPaths(derive, alice, publicKey(bob), a, b);
      RecoveryMarkerPaths(derive, bob, publicKey(alice), b, a) == (read, write)
    ensures var (write, read) := PrivatePaymentPaths(derive, alice, publicKey(bob), a, b);
      PrivatePaymentPaths(derive, bob, publicKey(alice), b, a) == (read, write)
  {
    PairPathsMeet(derive, publicKey, RECOVERY_MARKER_PATH_DOMAIN, r => RecoveryPathPrefix(r), alice, bob, a, b);
    PairPathsMeet(derive, publicKey, PAYKIT_PATH_DOMAIN, r => MessagePathPrefix(r), alice, bob, a, b);
  }

  /** Different purposes never share domain bytes, whatever the pairs. */
  lemma PurposesSeparate(x: string, y: string, a: Endpoint, b: Endpoint, a': Endpoint, b': Endpoint)
    requires NulFree(x) && NulFree(y) && x != y
    requires IsEndpoint(a) && IsEndpoint(b) && IsEndpoint(a') && IsEndpoint(b')
    ensures Domain(Encode(x), a, b) != Domain(Encode(y), a', b')
  {
    EncodeNulFree(x);
    EncodeNulFree(y);
    if Domain(Encode(x), a, b) == Domain(Encode(y), a', b') {
      DomainDetermines(Encode(x), a, b, Encode(y), a', b');
      EncodeInjective(x, y);
      assert false;
    }
  }

  /** The two purposes in use are such a pair. */
  lemma PurposesInUse()
    ensures NulFree(PAYKIT_PATH_DOMAIN) && NulFree(RECOVERY_MARKER_PATH_DOMAIN)
    ensures PAYKIT_PATH_DOMAIN != RECOVERY_MARKER_PATH_DOMAIN
  {
  }
}
