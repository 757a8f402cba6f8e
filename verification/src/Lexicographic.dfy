/** The order of byte strings and of key-value entries. */
module Lexicographic {
  import opened Prelude

  /** `a` is at most `b`: bytewise, with a prefix before its extensions. */
  predicate AtMost(a: Bytes, b: Bytes) {
    if a == [] then true
    else if b == [] then false
    else a[0] < b[0] || (a[0] == b[0] && AtMost(a[1..], b[1..]))
  }

  lemma {:induction false} Total(a: Bytes, b: Bytes)
    ensures AtMost(a, b) || AtMost(b, a)
  {
    if a != [] && b != [] { Total(a[1..], b[1..]); }
  }

  lemma {:induction false} Antisymmetric(a: Bytes, b: Bytes)
    requires AtMost(a, b) && AtMost(b, a)
    ensures a == b
  {
    if a != [] {
      Antisymmetric(a[1..], b[1..]);
      assert a == [a[0]] + a[1..] && b == [b[0]] + b[1..];
    }
  }

  lemma {:induction false} Transitive(a: Bytes, b: Bytes, c: Bytes)
    requires AtMost(a, b) && AtMost(b, c)
    ensures AtMost(a, c)
  {
    if a != [] && a[0] == b[0] && b[0] == c[0] { Transitive(a[1..], b[1..], c[1..]); }
  }

  datatype Entry = Entry(key: Bytes, value: Bytes)
  {
    /** Order of entries: by key, then by value. */
    predicate Le(other: Entry) {
      AtMost(key, other.key) && (key == other.key ==> AtMost(value, other.value))
    }
  }

  lemma {:induction false} LeTotal(a: Entry, b: Entry)
    ensures a.Le(b) || b.Le(a)
  {
    Total(a.key, b.key);
    Total(a.value, b.value);
    if AtMost(a.key, b.key) && AtMost(b.key, a.key) { Antisymmetric(a.key, b.key); }
  }

  lemma {:induction false} LeTransitive(a: Entry, b: Entry, c: Entry)
    requires a.Le(b) && b.Le(c)
    ensures a.Le(c)
  {
    Transitive(a.key, b.key, c.key);
    if a.key == c.key {
      Antisymmetric(a.key, b.key);
      Transitive(a.value, b.value, c.value);
    }
  }

  ghost predicate KeySorted(s: seq<Entry>) {
    forall i, j {:trigger s[i].key, s[j].key} :: 0 <= i < j < |s| ==> AtMost(s[i].key, s[j].key)
  }

  lemma {:induction false} Reflexive(a: Bytes)
    ensures AtMost(a, a)
  {
    if a != [] { Reflexive(a[1..]); }
  }

  lemma {:induction false} FirstIsLeast(s: seq<Entry>, x: Entry)
    requires KeySorted(s) && x in s
    ensures AtMost(s[0].key, x.key)
  {
    var i :| 0 <= i < |s| && s[i] == x;
    if i == 0 { Reflexive(x.key); }
  }

  ghost predicate KeyDecides(x: Entry, y: Entry) {
    x.key == y.key ==> x == y
  }

  ghost predicate DistinctKeys(m: multiset<Entry>) {
    forall x, y {:trigger KeyDecides(x, y)} :: x in m && y in m ==> KeyDecides(x, y)
  }

  lemma {:induction false} FirstAndRest(s: seq<Entry>)
    requires s != []
    ensures s[0] in multiset(s) && multiset(s[1..]) == multiset(s) - multiset{s[0]}
  {
    assert s == [s[0]] + s[1..];
  }

  lemma {:induction false} SameFirst(a: seq<Entry>, b: seq<Entry>)
    requires KeySorted(a) && KeySorted(b) && multiset(a) == multiset(b) && DistinctKeys(multiset(a)) && a != []
    ensures b != [] && a[0] == b[0] && multiset(a[1..]) == multiset(b[1..])
  {
    FirstAndRest(a);
    assert a[0] in multiset(b);
    FirstAndRest(b);
    assert b[0] in multiset(a);
    FirstIsLeast(b, a[0]);
    FirstIsLeast(a, b[0]);
    Antisymmetric(a[0].key, b[0].key);
    assert KeyDecides(a[0], b[0]);
  }

  /** Two key-sorted arrangements of the same entries agree when the keys are distinct. */
  lemma {:induction false} KeySortedUnique(a: seq<Entry>, b: seq<Entry>)
    requires KeySorted(a) && KeySorted(b) && multiset(a) == multiset(b) && DistinctKeys(multiset(a))
    ensures a == b
  {
    if a == [] {
      assert |multiset(b)| == 0;
    } else {
      SameFirst(a, b);
      assert a == [a[0]] + a[1..] && b == [b[0]] + b[1..];
      assert multiset(a) == multiset{a[0]} + multiset(a[1..]);
      KeySortedUnique(a[1..], b[1..]);
    }
  }

  /** Inserts behind the entries whose key is at most the new one's. */
  method InsertByKey(s: seq<Entry>, x: Entry) returns (r: seq<Entry>)
    requires KeySorted(s)
    ensures KeySorted(r) && multiset(r) == multiset(s) + multiset{x}
  {
    var i := 0;
    while i < |s| && AtMost(s[i].key, x.key)
      invariant 0 <= i <= |s| && forall j :: 0 <= j < i ==> AtMost(s[j].key, x.key)
    {
      i := i + 1;
    }
    forall j | i <= j < |s| ensures AtMost(x.key, s[j].key) {
      Total(x.key, s[i].key);
      if i < j { Transitive(x.key, s[i].key, s[j].key); }
    }
    r := s[..i] + [x] + s[i..];
    assert s == s[..i] + s[i..];
    InsertedSorted(s, i, x, r);
  }

  lemma {:induction false} InsertedSorted(s: seq<Entry>, i: nat, x: Entry, r: seq<Entry>)
    requires KeySorted(s) && i <= |s| && r == s[..i] + [x] + s[i..]
    requires forall j :: 0 <= j < i ==> AtMost(s[j].key, x.key)
    requires forall j :: i <= j < |s| ==> AtMost(x.key, s[j].key)
    ensures KeySorted(r)
  {
    forall a, b | 0 <= a < b < |r| ensures AtMost(r[a].key, r[b].key) {
      var a', b' := if a < i then a else a - 1, if b < i then b else b - 1;
      assert a != i ==> r[a] == s[a'];
      assert b != i ==> r[b] == s[b'];
    }
  }

  /** Some permutation of `s` sorted by key; entries with equal keys may end up in any order. */
  method SortByKey(s: seq<Entry>) returns (r: seq<Entry>)
    ensures KeySorted(r) && multiset(r) == multiset(s)
  {
    r := [];
    for i := 0 to |s|
      invariant KeySorted(r) && multiset(r) == multiset(s[..i])
    {
      r := InsertByKey(r, s[i]);
      assert s[..i + 1] == s[..i] + [s[i]];
    }
    assert s[..|s|] == s;
  }
}
