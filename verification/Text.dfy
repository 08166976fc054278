/** Sequence facts shared by every component: order, splitting and sorting. */
module Text {

  /** Strict lexicographic order on strings, the byte order of Rust's `str`
      (`ByteOrder.LessIsByteOrder`). */
  predicate Less(a: string, b: string)
    decreases |a|
  {
    && b != ""
    && (a == "" || a[0] < b[0] || (a[0] == b[0] && Less(a[1..], b[1..])))
  }

  lemma {:induction false} LessTotal(a: string, b: string)
    ensures Less(a, b) || a == b || Less(b, a)
  {
    if a != "" && b != "" && a[0] == b[0] {
      LessTotal(a[1..], b[1..]);
      assert a == [a[0]] + a[1..] && b == [b[0]] + b[1..];
    }
  }

  lemma {:induction false} LessTransitive(a: string, b: string, c: string)
    requires Less(a, b) && Less(b, c)
    ensures Less(a, c)
  {
    if a != "" && a[0] == b[0] && b[0] == c[0] {
      LessTransitive(a[1..], b[1..], c[1..]);
    }
  }

  lemma {:induction false} LessAsymmetric(a: string, b: string)
    requires Less(a, b)
    ensures a != b && !Less(b, a)
  {
    if a != "" && a[0] == b[0] {
      LessAsymmetric(a[1..], b[1..]);
    }
  }

  predicate StrictlyIncreasing(s: seq<string>) {
    forall i, j :: 0 <= i < j < |s| ==> Less(s[i], s[j])
  }

  /** A strictly increasing sequence is determined by its set of elements. */
  lemma {:induction false} IncreasingUnique(s: seq<string>, t: seq<string>)
    requires StrictlyIncreasing(s) && StrictlyIncreasing(t)
    requires forall x :: x in s <==> x in t
    ensures s == t
    decreases |s|
  {
    if s != [] { assert s[0] in s; }
    if t != [] { assert t[0] in t; }
    if s != [] {
      if s[0] != t[0] {
        var i :| 0 <= i < |t| && t[i] == s[0];
        var j :| 0 <= j < |s| && s[j] == t[0];
        LessAsymmetric(t[0], t[i]);
        assert false;
      }
      forall x ensures x in s[1..] <==> x in t[1..] {
        if x in s[1..] { TailMember(s, t, x); }
        if x in t[1..] { TailMember(t, s, x); }
      }
      IncreasingUnique(s[1..], t[1..]);
      assert s == [s[0]] + s[1..] && t == [t[0]] + t[1..];
    }
  }

  lemma TailMember(s: seq<string>, t: seq<string>, x: string)
    requires StrictlyIncreasing(s) && s != [] && t != [] && s[0] == t[0]
    requires forall y :: y in s ==> y in t
    requires x in s[1..]
    ensures x in t[1..]
  {
    var i :| 0 <= i < |s[1..]| && s[1..][i] == x;
    assert s[i + 1] == x && x in s && x in t;
    LessAsymmetric(s[0], x);
    var j :| 0 <= j < |t| && t[j] == x;
    assert t[1..][j - 1] == x;
  }

  predicate IsLeast(m: string, s: set<string>) {
    m in s && forall y :: y in s ==> y == m || Less(m, y)
  }

  /** The elements of a set in increasing order. */
  function Ordered(s: set<string>): (r: seq<string>)
    ensures StrictlyIncreasing(r)
    ensures forall x :: x in r <==> x in s
    ensures |r| == |s|
  {
    if s == {} then [] else
      LeastExists(s);
      LeastUnique(s);
      var m :| m in s && IsLeast(m, s);
      [m] + Ordered(s - {m})
  }

  lemma {:induction false} LeastExists(s: set<string>)
    requires s != {}
    ensures exists m :: m in s && IsLeast(m, s)
  {
    var a :| a in s;
    if s == {a} {
      assert IsLeast(a, s);
    } else {
      LeastExists(s - {a});
      var b :| b in s - {a} && IsLeast(b, s - {a});
      LessTotal(a, b);
      var m := if Less(a, b) then a else b;
      forall y | y in s ensures y == m || Less(m, y) {
        if y != a && y != b && m == a { LessTransitive(a, b, y); }
      }
      assert IsLeast(m, s);
    }
  }

  lemma LeastUnique(s: set<string>)
    ensures forall m, n :: IsLeast(m, s) && IsLeast(n, s) ==> m == n
  {
    forall m, n | IsLeast(m, s) && IsLeast(n, s) ensures m == n {
      if m != n { LessAsymmetric(m, n); }
    }
  }

  predicate EndsWithSlash(s: string) { s != "" && s[|s| - 1] == '/' }

  // ---------------------------------------------------------------- splitting

  /** `s.split(sep)`: the maximal runs between separators, never empty. */
  function Split<T(==)>(s: seq<T>, sep: T): (parts: seq<seq<T>>)
    ensures parts != []
    ensures forall p :: p in parts ==> sep !in p
  {
    if s == [] then [[]]
    else
      var rest := Split(s[1..], sep);
      if s[0] == sep then [[]] + rest else [[s[0]] + rest[0]] + rest[1..]
  }

  /** The parts with one separator between neighbours. */
  function Join<T>(parts: seq<seq<T>>, sep: T): seq<T>
    requires parts != []
  {
    if |parts| == 1 then parts[0] else parts[0] + [sep] + Join(parts[1..], sep)
  }

  lemma JoinCons<T>(head: seq<T>, sep: T, rest: seq<seq<T>>)
    requires rest != []
    ensures Join([head] + rest, sep) == head + [sep] + Join(rest, sep)
  {
  }

  lemma {:induction false} JoinSnoc<T>(parts: seq<seq<T>>, sep: T, last: seq<T>)
    requires parts != []
    ensures Join(parts + [last], sep) == Join(parts, sep) + [sep] + last
  {
    if |parts| == 1 {
      JoinCons(parts[0], sep, [last]);
      assert parts + [last] == [parts[0]] + [last];
    } else {
      JoinSnoc(parts[1..], sep, last);
      JoinCons(parts[0], sep, parts[1..] + [last]);
      assert parts + [last] == [parts[0]] + (parts[1..] + [last]);
    }
  }

  lemma {:induction false} SplitHead<T>(head: seq<T>, sep: T, rest: seq<T>)
    requires sep !in head
    ensures Split(head + [sep] + rest, sep) == [head] + Split(rest, sep)
  {
    var s := head + [sep] + rest;
    if head == [] {
      assert s[1..] == rest;
    } else {
      SplitHead(head[1..], sep, rest);
      assert s[1..] == head[1..] + [sep] + rest;
      assert [head[0]] + head[1..] == head;
    }
  }

  lemma {:induction false} SplitWhole<T>(s: seq<T>, sep: T)
    requires sep !in s
    ensures Split(s, sep) == [s]
  {
    if s != [] {
      SplitWhole(s[1..], sep);
      assert [s[0]] + s[1..] == s;
    }
  }

  /** Splitting undoes joining whenever no part contains the separator. */
  lemma {:induction false} SplitJoin<T>(parts: seq<seq<T>>, sep: T)
    requires parts != [] && forall p :: p in parts ==> sep !in p
    ensures Split(Join(parts, sep), sep) == parts
  {
    if |parts| == 1 {
      SplitWhole(parts[0], sep);
    } else {
      SplitJoin(parts[1..], sep);
      SplitHead(parts[0], sep, Join(parts[1..], sep));
      assert [parts[0]] + parts[1..] == parts;
    }
  }

  /** Joining undoes splitting for every sequence. */
  lemma {:induction false} JoinSplit<T>(s: seq<T>, sep: T)
    ensures Join(Split(s, sep), sep) == s
  {
    if s != [] {
      JoinSplit(s[1..], sep);
      var rest := Split(s[1..], sep);
      if s[0] == sep {
        assert ([[]] + rest)[1..] == rest;
      } else {
        var parts := [[s[0]] + rest[0]] + rest[1..];
        assert parts[1..] == rest[1..];
      }
    }
  }

  /** A prefix that ends in a separator fixes the leading parts. */
  lemma {:induction false} SplitAfter<T>(parts: seq<seq<T>>, sep: T, rest: seq<T>)
    requires parts != [] && forall p :: p in parts ==> sep !in p
    ensures Split(Join(parts, sep) + [sep] + rest, sep) == parts + Split(rest, sep)
  {
    if |parts| == 1 {
      SplitHead(parts[0], sep, rest);
    } else {
      SplitAfter(parts[1..], sep, rest);
      var tail := Join(parts[1..], sep) + [sep] + rest;
      assert Join(parts, sep) + [sep] + rest == parts[0] + [sep] + tail;
      SplitHead(parts[0], sep, tail);
      assert [parts[0]] + parts[1..] == parts;
      assert [parts[0]] + (parts[1..] + Split(rest, sep)) == parts + Split(rest, sep);
    }
  }

  // ------------------------------------------------------------------ sorting

  predicate SortedBy<T>(s: seq<T>, key: T -> string) {
    forall i, j :: 0 <= i < j < |s| ==> !Less(key(s[j]), key(s[i]))
  }

  /** A stable sort by key: the entry goes after every entry that is not larger. */
  function Insert<T(==)>(s: seq<T>, e: T, key: T -> string): (r: seq<T>)
    requires SortedBy(s, key)
    ensures SortedBy(r, key)
    ensures multiset(r) == multiset(s) + multiset{e}
  {
    if s == [] then [e]
    else if Less(key(e), key(s[0])) then
      InsertFirst(s, e, key);
      assert s == [s[0]] + s[1..];
      [e] + s
    else
      assert s == [s[0]] + s[1..];
      var r := Insert(s[1..], e, key);
      InsertLater(s, e, key, r);
      [s[0]] + r
  }

  lemma InsertFirst<T>(s: seq<T>, e: T, key: T -> string)
    requires SortedBy(s, key) && s != [] && Less(key(e), key(s[0]))
    ensures SortedBy([e] + s, key)
  {
    forall j | 0 <= j < |s| ensures !Less(key(s[j]), key(e)) {
      if Less(key(s[j]), key(e)) {
        LessTransitive(key(s[j]), key(e), key(s[0]));
        LessAsymmetric(key(s[j]), key(s[0]));
      }
    }
  }

  lemma InsertLater<T>(s: seq<T>, e: T, key: T -> string, r: seq<T>)
    requires SortedBy(s, key) && s != [] && !Less(key(e), key(s[0]))
    requires SortedBy(r, key) && multiset(r) == multiset(s[1..]) + multiset{e}
    ensures SortedBy([s[0]] + r, key)
  {
    forall j | 0 <= j < |r| ensures !Less(key(r[j]), key(s[0])) {
      assert r[j] in multiset(r);
      assert r[j] == e || r[j] in s[1..];
    }
  }

  function Sort<T(==)>(s: seq<T>, key: T -> string): (r: seq<T>)
    ensures SortedBy(r, key)
    ensures multiset(r) == multiset(s)
  {
    if s == [] then []
    else
      assert s == s[..|s| - 1] + [s[|s| - 1]];
      Insert(Sort(s[..|s| - 1], key), s[|s| - 1], key)
  }

  lemma SameEntries<T>(s: seq<T>, t: seq<T>, e: T)
    requires multiset(s) == multiset(t)
    ensures e in s <==> e in t
  {
    assert e in s <==> e in multiset(s);
  }

  predicate DistinctBy<T>(s: seq<T>, key: T -> string) {
    forall i, j :: 0 <= i < j < |s| ==> key(s[i]) != key(s[j])
  }

  lemma {:induction false} InsertDistinct<T>(s: seq<T>, e: T, key: T -> string)
    requires SortedBy(s, key) && DistinctBy(s, key) && forall i :: 0 <= i < |s| ==> key(s[i]) != key(e)
    ensures DistinctBy(Insert(s, e, key), key)
  {
    if s != [] && !Less(key(e), key(s[0])) {
      InsertDistinct(s[1..], e, key);
      var r := Insert(s[1..], e, key);
      forall j | 0 <= j < |r| ensures key(r[j]) != key(s[0]) {
        assert r[j] in multiset(r);
        assert r[j] == e || r[j] in s[1..];
      }
    }
  }

  lemma {:induction false} SortDistinct<T>(s: seq<T>, key: T -> string)
    requires DistinctBy(s, key)
    ensures DistinctBy(Sort(s, key), key)
  {
    if s != [] {
      var init, last := s[..|s| - 1], s[|s| - 1];
      SortDistinct(init, key);
      var sorted := Sort(init, key);
      forall i | 0 <= i < |sorted| ensures key(sorted[i]) != key(last) {
        SameEntries(sorted, init, sorted[i]);
      }
      InsertDistinct(sorted, last, key);
    }
  }

  predicate StrictlyBy<T>(s: seq<T>, key: T -> string) {
    forall i, j :: 0 <= i < j < |s| ==> Less(key(s[i]), key(s[j]))
  }

  /** Sorting entries with distinct keys puts the keys in strictly increasing order. */
  lemma SortStrict<T>(s: seq<T>, key: T -> string)
    requires DistinctBy(s, key)
    ensures StrictlyBy(Sort(s, key), key)
  {
    SortDistinct(s, key);
    var r := Sort(s, key);
    forall i, j | 0 <= i < j < |r| ensures Less(key(r[i]), key(r[j])) {
      LessTotal(key(r[i]), key(r[j]));
    }
  }
}
