/**
 The block hash to block number index that an ERA import writes from its hash collector
 (crates/era-utils/src/history.rs). Table rows and collected entries are raw bytes.
 */
module HeaderIndex {
  import opened Prelude
  import opened Lexicographic
  import Etl

  type Table = map<Bytes, Bytes>

  /** The table holds nothing but the hash of block 0, whose encoded number is `zero`. */
  predicate FirstSync(table: Table, zero: Bytes) {
    |table| == 1 && exists k :: k in table && table[k] == zero
  }

  /** `Append` of a cursor: the key must lie behind every key of the table. */
  predicate Appendable(table: Table, key: Bytes) {
    forall k :: k in table ==> !AtMost(key, k)
  }

  ghost predicate HasKey(entries: seq<Entry>, key: Bytes) {
    exists e :: e in entries && e.key == key
  }

  ghost predicate NoRepeat(entries: seq<Entry>) {
    forall i, j {:trigger entries[i].key, entries[j].key} :: 0 <= i < j < |entries| ==> entries[i].key != entries[j].key
  }

  /** The row for key `h` comes from the entries if they have one, and from the old table otherwise. */
  ghost predicate RowIs(table: Table, entries: seq<Entry>, table': Table, h: Bytes) {
    && (h in table' <==> h in table || HasKey(entries, h))
    && (h in table' ==> if HasKey(entries, h) then Entry(h, table'[h]) in entries else table'[h] == table[h])
  }

  /** `table'` is `table` with all entries written to it. */
  ghost predicate Indexed(table: Table, entries: seq<Entry>, table': Table) {
    forall h {:trigger RowIs(table, entries, table', h)} :: RowIs(table, entries, table', h)
  }

  lemma {:induction false} IndexedNothing(table: Table)
    ensures Indexed(table, [], table)
  {
    forall h ensures RowIs(table, [], table, h) { }
  }

  lemma {:induction false} IndexedOne(table: Table, entries: seq<Entry>, table': Table, e: Entry)
    requires Indexed(table, entries, table')
    ensures Indexed(table, entries + [e], table'[e.key := e.value])
  {
    var more, written := entries + [e], table'[e.key := e.value];
    assert e in more;
    forall h ensures RowIs(table, more, written, h) {
      assert RowIs(table, entries, table', h);
      if h != e.key {
        assert HasKey(more, h) <==> HasKey(entries, h) by {
          if x :| x in entries && x.key == h { assert x in more; }
        }
      }
    }
  }

  lemma {:induction false} IndexedAnyOrder(table: Table, a: seq<Entry>, b: seq<Entry>, table': Table)
    requires Indexed(table, a, table') && multiset(a) == multiset(b)
    ensures Indexed(table, b, table')
  {
    forall e ensures e in a <==> e in b {
      assert e in a <==> e in multiset(a);
      assert e in b <==> e in multiset(b);
    }
    forall h ensures RowIs(table, b, table', h) {
      assert RowIs(table, a, table', h);
    }
  }

  /** Moving the only row of the table into the entries changes nothing unless its key is repeated. */
  lemma {:induction false} IndexedFirstSync(table: Table, k: Bytes, entries: seq<Entry>, table': Table)
    requires |table| == 1 && k in table && NoRepeat(entries + [Entry(k, table[k])])
    requires Indexed(map[], entries + [Entry(k, table[k])], table')
    ensures Indexed(table, entries, table')
  {
    var all := entries + [Entry(k, table[k])];
    OnlyKey(table, k);
    forall h ensures RowIs(table, entries, table', h) {
      assert RowIs(map[], all, table', h);
      if x :| x in entries && x.key == h {
        assert x in all;
        var i :| 0 <= i < |entries| && entries[i] == x;
        assert all[i].key != all[|entries|].key;
      }
      assert HasKey(all, h) <==> HasKey(entries, h) || h == k by {
        assert all[|entries|] in all;
      }
    }
  }

  lemma {:induction false} OnlyKey(table: Table, k: Bytes)
    requires |table| == 1 && k in table
    ensures forall h :: h in table <==> h == k
  {
    assert table.Keys * {k} == {k};
    assert |table.Keys - {k}| == 0;
    assert forall h :: h in table ==> h == k || h in table.Keys - {k};
  }

  /** Whether a key repeats can be read off the multiset of entries. */
  ghost predicate Unrepeated(m: multiset<Entry>) {
    DistinctKeys(m) && forall x :: x in m ==> m[x] == 1
  }

  lemma {:induction false} NoRepeatInit(s: seq<Entry>)
    requires s != []
    ensures var init := s[..|s| - 1]; NoRepeat(s) <==> NoRepeat(init) && !HasKey(init, s[|s| - 1].key)
  {
    var init, e := s[..|s| - 1], s[|s| - 1];
    if HasKey(init, e.key) {
      var x :| x in init && x.key == e.key;
      var i :| 0 <= i < |init| && init[i] == x;
      assert s[i].key == s[|s| - 1].key;
    } else if NoRepeat(init) {
      forall i, j | 0 <= i < j < |s| ensures s[i].key != s[j].key {
        assert s[i] == init[i] && init[i] in init;
        if j < |init| { assert init[i].key != init[j].key; }
      }
    }
  }

  lemma {:induction false} UnrepeatedOne(m: multiset<Entry>, e: Entry)
    ensures Unrepeated(m + multiset{e}) <==> Unrepeated(m) && forall x :: x in m ==> x.key != e.key
  {
    var m' := m + multiset{e};
    if Unrepeated(m') {
      forall x | x in m ensures x.key != e.key && m[x] == 1 {
        assert x in m' && e in m' && KeyDecides(x, e);
      }
      forall x, y | x in m && y in m ensures KeyDecides(x, y) {
        assert x in m' && y in m';
      }
    }
    if Unrepeated(m) && forall x :: x in m ==> x.key != e.key {
      assert e !in m;
      forall x, y | x in m' && y in m' ensures KeyDecides(x, y) {
        assert x in m || x == e;
        assert y in m || y == e;
      }
    }
  }

  lemma {:induction false} NoRepeatIsUnrepeated(s: seq<Entry>)
    ensures NoRepeat(s) <==> Unrepeated(multiset(s))
  {
    if s != [] {
      var init, e := s[..|s| - 1], s[|s| - 1];
      assert s == init + [e];
      NoRepeatIsUnrepeated(init);
      NoRepeatInit(s);
      UnrepeatedOne(multiset(init), e);
      assert HasKey(init, e.key) <==> exists x: Entry :: x in multiset(init) && x.key == e.key by {
        forall x ensures x in init <==> x in multiset(init) { }
      }
    }
  }

  /** In a sorted list the first key that cannot be appended is a repetition, and no other is. */
  lemma {:induction false} AppendableUnlessRepeated(s: seq<Entry>, i: nat, table: Table)
    requires KeySorted(s) && i < |s| && Indexed(map[], s[..i], table)
    ensures Appendable(table, s[i].key) <==> !HasKey(s[..i], s[i].key)
  {
    var key := s[i].key;
    if HasKey(s[..i], key) {
      assert RowIs(map[], s[..i], table, key);
      Reflexive(key);
    } else {
      forall k | k in table ensures !AtMost(key, k) {
        assert RowIs(map[], s[..i], table, k);
        var j :| 0 <= j < i && s[..i][j] == Entry(k, table[k]);
        assert AtMost(s[j].key, s[i].key);
        assert s[..i][j] in s[..i];
        if AtMost(key, k) { Antisymmetric(key, k); }
      }
    }
  }

  /**
   Writes the entries in key order, appending or replacing rows. Appending fails exactly when
   a key repeats.
   */
  method WriteRows(table: Table, s: seq<Entry>, append: bool) returns (r: Option<Table>)
    requires KeySorted(s) && (append ==> table == map[])
    ensures r.Some? <==> (append ==> NoRepeat(s))
    ensures r.Some? ==> Indexed(table, s, r.value)
  {
    var t := table;
    IndexedNothing(table);
    for i := 0 to |s|
      invariant Indexed(table, s[..i], t) && (append ==> NoRepeat(s[..i]))
    {
      var e := s[i];
      assert s[..i + 1] == s[..i] + [e];
      IndexedOne(table, s[..i], t, e);
      if append {
        AppendableUnlessRepeated(s, i, t);
        NoRepeatInit(s[..i + 1]);
        if !Appendable(t, e.key) {
          NoRepeatPrefix(s, i + 1);
          return None;
        }
      }
      t := t[e.key := e.value];
    }
    assert s[..|s|] == s;
    r := Some(t);
  }

  lemma {:induction false} NoRepeatPrefix(s: seq<Entry>, n: nat)
    requires n <= |s|
    ensures NoRepeat(s) ==> NoRepeat(s[..n])
  {
    if NoRepeat(s) {
      forall i, j | 0 <= i < j < n ensures s[..n][i].key != s[..n][j].key {
        assert s[i].key != s[j].key;
      }
    }
  }

  /** On a first sync the rows are appended, so no collected key may repeat or be the genesis hash. */
  ghost predicate CanIndex(table: Table, collected: seq<Entry>, zero: Bytes) {
    FirstSync(table, zero) ==> NoRepeat(collected) && forall e :: e in collected ==> e.key !in table
  }

  lemma {:induction false} CanIndexFirst(table: Table, k: Bytes, collected: seq<Entry>, zero: Bytes)
    requires |table| == 1 && k in table && table[k] == zero
    ensures CanIndex(table, collected, zero) <==> NoRepeat(collected + [Entry(k, zero)])
  {
    OnlyKey(table, k);
    var all := collected + [Entry(k, zero)];
    NoRepeatInit(all);
    assert all[..|all| - 1] == collected;
  }

  /**
   Whether rows are appended or replaced, the index ends up with the old rows and one row for
   every collected hash.
   */
  method BuildIndex(table: Table, collected: seq<Entry>, capacity: nat, zero: Bytes) returns (r: Option<Table>)
    requires forall e :: e in collected ==> Etl.Fits(e) && |e.key| > 0
    requires forall k :: k in table ==> 0 < |k| < Etl.Pow256(Etl.KV_LEN)
    requires |zero| < Etl.Pow256(Etl.KV_LEN)
    ensures r.Some? <==> CanIndex(table, collected, zero)
    ensures r.Some? ==> Indexed(table, collected, r.value)
  {
    if FirstSync(table, zero) {
      var k :| k in table && table[k] == zero;
      var all := collected + [Entry(k, zero)];
      var sorted := Etl.CollectAndIterate(all, capacity);
      Etl.SizedEntriesSurvive(all, capacity);
      r := WriteRows(map[], sorted, true);
      NoRepeatIsUnrepeated(sorted);
      NoRepeatIsUnrepeated(all);
      CanIndexFirst(table, k, collected, zero);
      if r.Some? {
        IndexedAnyOrder(map[], sorted, all, r.value);
        IndexedFirstSync(table, k, collected, r.value);
      }
    } else {
      var sorted := Etl.CollectAndIterate(collected, capacity);
      Etl.SizedEntriesSurvive(collected, capacity);
      r := WriteRows(table, sorted, false);
      IndexedAnyOrder(table, sorted, collected, r.value);
    }
  }
}
