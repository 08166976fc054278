/** Private Payment Lists: the wire object with its entries in order, and the browser's pairs. */
module PrivateList {
  import opened Wrappers
  import opened Text
  import opened Paths

  const PRIVATE_LIST_KIND := "paykit.private_payment_list"

  type Entry = (string, string)
  type Endpoints = map<string, string>

  /** The decoded JSON object; an object's entries come in some order and may repeat a key. */
  datatype Wire = Wire(version: nat, kind: string, entries: seq<Entry>)

  function KeyOf(): Entry -> string { (e: Entry) => e.0 }

  function Keys(s: seq<Entry>): (keys: seq<string>)
    ensures |keys| == |s| && forall i :: 0 <= i < |s| ==> keys[i] == s[i].0
  {
    seq(|s|, i requires 0 <= i < |s| => s[i].0)
  }

  predicate DistinctKeys(s: seq<Entry>) {
    forall i, j :: 0 <= i < j < |s| ==> s[i].0 != s[j].0
  }

  predicate HasKey(s: seq<Entry>, k: string) {
    exists i :: 0 <= i < |s| && s[i].0 == k
  }

  /** Inserting the entries one after another: a later entry replaces an earlier one. */
  function MapOf(entries: seq<Entry>): Endpoints {
    if entries == [] then map[]
    else
      var last := entries[|entries| - 1];
      MapOf(entries[..|entries| - 1])[last.0 := last.1]
  }

  predicate ValidKeys(entries: seq<Entry>) {
    forall i :: 0 <= i < |entries| ==> IsIdentifier(entries[i].0)
  }

  predicate ValidMap(m: Endpoints) { forall k :: k in m ==> IsIdentifier(k) }

  /** The entries of a map, each once, in some order. */
  ghost predicate Enumerates(entries: seq<Entry>, m: Endpoints) {
    DistinctKeys(entries) && forall k, v :: (k, v) in entries <==> k in m && m[k] == v
  }

  predicate Accepts(wire: Wire) {
    wire.version == 1 && wire.kind == PRIVATE_LIST_KIND && DistinctKeys(wire.entries) && ValidKeys(wire.entries)
  }

  // ----------------------------------------------------------------- the map of entries

  lemma {:induction false} MappedKeys(entries: seq<Entry>, k: string)
    ensures k in MapOf(entries) <==> HasKey(entries, k)
  {
    if entries != [] {
      var init := entries[..|entries| - 1];
      MappedKeys(init, k);
      if HasKey(init, k) {
        var j :| 0 <= j < |init| && init[j].0 == k;
        assert entries[j].0 == k;
      }
    }
  }

  /** The map holds, for each key, the value of its last entry. */
  lemma {:induction false} LastWins(entries: seq<Entry>, i: nat)
    requires i < |entries| && forall j :: i < j < |entries| ==> entries[j].0 != entries[i].0
    ensures entries[i].0 in MapOf(entries) && MapOf(entries)[entries[i].0] == entries[i].1
  {
    var n := |entries| - 1;
    if i < n {
      assert entries[n].0 != entries[i].0;
      LastWins(entries[..n], i);
    }
  }

  lemma DistinctEnumerates(entries: seq<Entry>)
    requires DistinctKeys(entries)
    ensures Enumerates(entries, MapOf(entries))
  {
  }

  /** Reading an enumeration back gives the map, whatever the order. */
  lemma EnumerationRoundTrip(entries: seq<Entry>, m: Endpoints)
    requires Enumerates(entries, m)
    ensures MapOf(entries) == m
    ensures ValidKeys(entries) <==> ValidMap(m)
  {
    DistinctEnumerates(entries);
    SameEnumerated(entries, MapOf(entries), m);
    forall k | k in m ensures HasKey(entries, k) {
      assert (k, m[k]) in entries;
    }
    forall i | 0 <= i < |entries| ensures entries[i].0 in m {
      assert (entries[i].0, entries[i].1) in entries;
    }
  }

  lemma SameEnumerated(entries: seq<Entry>, m: Endpoints, m': Endpoints)
    requires Enumerates(entries, m) && Enumerates(entries, m')
    ensures m == m'
  {
    forall k ensures (k in m <==> k in m') && (k in m ==> m[k] == m'[k]) {
      if k in m { assert (k, m[k]) in entries; }
      if k in m' { assert (k, m'[k]) in entries; }
    }
  }

  /** Reordering the wire entries changes neither the verdict nor the list. */
  lemma EntryOrderIrrelevant(wire: Wire, entries: seq<Entry>)
    requires multiset(wire.entries) == multiset(entries)
    ensures Accepts(wire) <==> Accepts(wire.(entries := entries))
    ensures Accepts(wire) ==> MapOf(wire.entries) == MapOf(entries)
  {
    if Accepts(wire) { Reordered(wire.entries, entries); }
    if Accepts(wire.(entries := entries)) { Reordered(entries, wire.entries); }
  }

  lemma Reordered(s: seq<Entry>, t: seq<Entry>)
    requires multiset(s) == multiset(t) && DistinctKeys(s) && ValidKeys(s)
    ensures DistinctKeys(t) && ValidKeys(t) && MapOf(s) == MapOf(t)
  {
    forall e ensures e in s <==> e in t { SameEntries(s, t, e); }
    forall i | 0 <= i < |t| ensures IsIdentifier(t[i].0) {
      assert t[i] in t && t[i] in s;
    }
    forall i, j | 0 <= i < j < |t| ensures t[i].0 != t[j].0 {
      DistinctTransfers(s, t, i, j);
    }
    DistinctEnumerates(s);
    DistinctEnumerates(t);
    assert Enumerates(t, MapOf(s));
    SameEnumerated(t, MapOf(s), MapOf(t));
  }

  lemma DistinctTransfers(s: seq<Entry>, t: seq<Entry>, i: nat, j: nat)
    requires multiset(s) == multiset(t) && DistinctKeys(s) && i < j < |t|
    ensures t[i].0 != t[j].0
  {
    SameEntries(s, t, t[i]);
    SameEntries(s, t, t[j]);
    if t[i] == t[j] {
      TwiceCounted(t, i, j);
      OnceCounted(s, t[i]);
    } else {
      var a :| 0 <= a < |s| && s[a] == t[i];
      var b :| 0 <= b < |s| && s[b] == t[j];
    }
  }

  lemma TwiceCounted(t: seq<Entry>, i: nat, j: nat)
    requires i < j < |t| && t[i] == t[j]
    ensures multiset(t)[t[i]] >= 2
  {
    assert t == t[..j] + [t[j]] + t[j + 1..];
    assert t[i] in t[..j];
    assert multiset(t) == multiset(t[..j]) + multiset{t[j]} + multiset(t[j + 1..]);
  }

  lemma {:induction false} OnceCounted(s: seq<Entry>, e: Entry)
    requires DistinctKeys(s)
    ensures multiset(s)[e] <= 1
  {
    if s != [] {
      OnceCounted(s[1..], e);
      assert s == [s[0]] + s[1..];
      assert multiset(s) == multiset{s[0]} + multiset(s[1..]);
      forall i | 0 <= i < |s[1..]| ensures s[1..][i] != s[0] {
        assert s[1..][i] == s[i + 1];
      }
    }
  }

  // --------------------------------------------------------------------- operations

  /** The map visitor: stops at the first repeated key. */
  method DeserializeEndpoints(entries: seq<Entry>) returns (res: Result<Endpoints>)
    ensures res.Ok? <==> DistinctKeys(entries)
    ensures res.Ok? ==> res.value == MapOf(entries)
    ensures res.Err? ==> res.error == InvalidData
  {
    var endpoints: Endpoints := map[];
    var i := 0;
    while i < |entries|
      invariant 0 <= i <= |entries|
      invariant DistinctKeys(entries[..i]) && endpoints == MapOf(entries[..i])
    {
      var (key, value) := entries[i];
      MappedKeys(entries[..i], key);
      if key in endpoints {
        var j :| 0 <= j < i && entries[..i][j].0 == key;
        assert entries[j].0 == entries[i].0;
        return Err(InvalidData);
      }
      assert entries[..i + 1][..i] == entries[..i];
      endpoints := endpoints[key := value];
      i := i + 1;
    }
    assert entries[..i] == entries;
    return Ok(endpoints);
  }

  /** Takes the hash map's entries in whatever order they come. */
  method CheckIdentifiers(entries: Endpoints) returns (res: Result<Endpoints>)
    ensures res == if ValidMap(entries) then Ok(entries) else Err(InvalidData)
  {
    var endpoints: Endpoints, left := map[], entries.Keys;
    while left != {}
      invariant left <= entries.Keys && endpoints == map k | k in entries && k !in left :: entries[k]
      invariant ValidMap(endpoints)
      decreases left
    {
      var key :| key in left;
      NewIdentifierExact(key);
      var identifier := NewIdentifier(key);
      if identifier.Err? {
        assert key in entries;
        return Err(InvalidData);
      }
      endpoints, left := endpoints[identifier.value := entries[key]], left - {key};
    }
    assert endpoints == entries;
    return Ok(endpoints);
  }

  method ParsePrivateList(wire: Wire) returns (res: Result<Endpoints>)
    ensures res == if Accepts(wire) then Ok(MapOf(wire.entries)) else Err(InvalidData)
  {
    res := DeserializeEndpoints(wire.entries);
    if res.Err? {
      return;
    }
    DistinctEnumerates(wire.entries);
    EnumerationRoundTrip(wire.entries, res.value);
    if wire.version != 1 {
      return Err(InvalidData);
    }
    if wire.kind != PRIVATE_LIST_KIND {
      return Err(InvalidData);
    }
    res := CheckIdentifiers(res.value);
  }

  /** Writes the entries in whatever order the hash map gives them. */
  method Enumerate(m: Endpoints) returns (entries: seq<Entry>)
    ensures Enumerates(entries, m)
  {
    entries := [];
    var left := m.Keys;
    while left != {}
      invariant left <= m.Keys && DistinctKeys(entries)
      invariant forall k, v :: (k, v) in entries <==> k in m && k !in left && m[k] == v
      decreases left
    {
      var key :| key in left;
      forall i | 0 <= i < |entries| ensures entries[i].0 != key {
        assert (entries[i].0, entries[i].1) in entries;
      }
      entries, left := entries + [(key, m[key])], left - {key};
    }
  }

  method SerializePrivateList(m: Endpoints) returns (wire: Wire)
    requires ValidMap(m)
    ensures Accepts(wire) && MapOf(wire.entries) == m && |wire.entries| == |m|
  {
    var entries := Enumerate(m);
    EnumerationRoundTrip(entries, m);
    EnumerationLength(entries, m);
    return Wire(1, PRIVATE_LIST_KIND, entries);
  }

  lemma {:induction false} EnumerationLength(entries: seq<Entry>, m: Endpoints)
    requires Enumerates(entries, m)
    ensures |entries| == |m|
  {
    if entries == [] {
      forall k ensures k in Keys(entries) <==> k in m { KeyListed(entries, m, k); }
      assert m == map[];
    } else {
      var (key, value) := entries[0];
      var rest := entries[1..];
      assert entries == [entries[0]] + rest && (key, value) in entries;
      forall k, v ensures (k, v) in rest <==> k in m - {key} && m[k] == v {
        if (k, v) in rest {
          var i :| 0 <= i < |rest| && rest[i] == (k, v);
          assert entries[i + 1] == (k, v) && (k, v) in entries;
        }
        if k in m - {key} && m[k] == v { assert (k, v) in entries; }
      }
      EnumerationLength(rest, m - {key});
      assert m.Keys == (m - {key}).Keys + {key};
      assert |m.Keys| == |(m - {key}).Keys| + 1;
    }
  }

  // ------------------------------------------------------------------------ the browser

  method IdentifierFromStr(value: string) returns (res: Result<string>)
    ensures res == if IsIdentifier(value) then Ok(value) else Err(Validation)
  {
    NewIdentifierExact(value);
    res := NewIdentifier(value);
  }

  ghost predicate Inserted(pairs: seq<Entry>, endpoints: Endpoints) {
    ValidKeys(pairs) && ValidMap(endpoints) && endpoints == MapOf(pairs)
  }

  lemma InsertNext(pairs: seq<Entry>, i: nat, endpoints: Endpoints)
    requires i < |pairs| && Inserted(pairs[..i], endpoints) && IsIdentifier(pairs[i].0)
    ensures Inserted(pairs[..i + 1], endpoints[pairs[i].0 := pairs[i].1])
  {
    assert pairs[..i + 1][..i] == pairs[..i];
  }

  method PrivateListFromPairs(pairs: seq<Entry>) returns (res: Result<Endpoints>)
    ensures res == if ValidKeys(pairs) then Ok(MapOf(pairs)) else Err(Validation)
    ensures res.Ok? ==> ValidMap(res.value)
  {
    var endpoints: Endpoints := map[];
    var i := 0;
    while i < |pairs|
      invariant 0 <= i <= |pairs| && Inserted(pairs[..i], endpoints)
    {
      var identifier := IdentifierFromStr(pairs[i].0);
      if identifier.Err? {
        return Err(Validation);
      }
      InsertNext(pairs, i, endpoints);
      endpoints := endpoints[identifier.value := pairs[i].1];
      i := i + 1;
    }
    assert pairs[..i] == pairs;
    return Ok(endpoints);
  }

  /** The one way to write a map as pairs: every entry, keys strictly increasing. */
  ghost predicate Canonical(pairs: seq<Entry>, m: Endpoints) {
    StrictlyIncreasing(Keys(pairs)) && Enumerates(pairs, m)
  }

  lemma CanonicalUnique(s: seq<Entry>, t: seq<Entry>, m: Endpoints)
    requires Canonical(s, m) && Canonical(t, m)
    ensures s == t
  {
    forall k ensures k in Keys(s) <==> k in Keys(t) {
      KeyListed(s, m, k);
      KeyListed(t, m, k);
    }
    IncreasingUnique(Keys(s), Keys(t));
    forall i | 0 <= i < |s| ensures s[i] == t[i] {
      assert Keys(s)[i] == Keys(t)[i];
      assert (s[i].0, s[i].1) in s && (t[i].0, t[i].1) in t;
    }
  }

  lemma KeyListed(s: seq<Entry>, m: Endpoints, k: string)
    requires Enumerates(s, m)
    ensures k in Keys(s) <==> k in m
  {
    if k in m {
      var i :| 0 <= i < |s| && s[i] == (k, m[k]);
      assert Keys(s)[i] == k;
    }
    if k in Keys(s) {
      var i :| 0 <= i < |s| && Keys(s)[i] == k;
      assert (s[i].0, s[i].1) in s;
    }
  }

  method ParsePrivateListToPairs(wire: Wire) returns (res: Result<seq<Entry>>)
    ensures res.Ok? <==> Accepts(wire)
    ensures res.Ok? ==> Canonical(res.value, MapOf(wire.entries))
  {
    var parsed := ParsePrivateList(wire);
    if parsed.Err? {
      return Err(parsed.error);
    }
    var pairs := Enumerate(parsed.value);
    SortedIsCanonical(pairs, parsed.value);
    return Ok(Sort(pairs, KeyOf()));
  }

  lemma SortedIsCanonical(pairs: seq<Entry>, m: Endpoints)
    requires Enumerates(pairs, m)
    ensures Canonical(Sort(pairs, KeyOf()), m)
  {
    var sorted := Sort(pairs, KeyOf());
    assert DistinctBy(pairs, KeyOf());
    SortDistinct(pairs, KeyOf());
    SortStrict(pairs, KeyOf());
    assert forall i :: 0 <= i < |sorted| ==> KeyOf()(sorted[i]) == sorted[i].0;
    forall e ensures e in sorted <==> e in pairs { SameEntries(sorted, pairs, e); }
  }

  /** Writing pairs to the wire and reading them back succeeds exactly on valid identifiers, and
      gives the last-wins map in its canonical form. */
  method BrowserRoundTrip(pairs: seq<Entry>) returns (res: Result<seq<Entry>>)
    ensures res.Ok? <==> ValidKeys(pairs)
    ensures res.Ok? ==> Canonical(res.value, MapOf(pairs))
  {
    var list := PrivateListFromPairs(pairs);
    if list.Err? {
      return Err(list.error);
    }
    var wire := SerializePrivateList(list.value);
    res := ParsePrivateListToPairs(wire);
  }
}
