/**
 Ordering the forks of a genesis configuration (crates/chainspec/src/spec.rs): known forks in the
 known order, unknown ones behind them. If activations follow that order, the list is one that
 fork identifiers can be computed from.
 */
module ForkOrder {
  import opened Prelude
  import opened ForkId

  type Name = nat
  datatype Fork = Fork(name: Name, condition: ForkCondition)

  predicate HasName(forks: seq<Fork>, name: Name) {
    forks != [] && (forks[0].name == name || HasName(forks[1..], name))
  }

  predicate UniqueNames(forks: seq<Fork>) {
    forks == [] || (!HasName(forks[1..], forks[0].name) && UniqueNames(forks[1..]))
  }

  /** The first fork of a name, if there is one. */
  function Pick(forks: seq<Fork>, name: Name): seq<Fork> {
    if forks == [] then [] else if forks[0].name == name then [forks[0]] else Pick(forks[1..], name)
  }

  /** All forks but those of a name. */
  function Except(forks: seq<Fork>, name: Name): seq<Fork> {
    if forks == [] then []
    else if forks[0].name == name then Except(forks[1..], name)
    else [forks[0]] + Except(forks[1..], name)
  }

  /** For each known name in turn, the configured fork of that name. */
  function Picked(forks: seq<Fork>, names: seq<Name>): seq<Fork> {
    if names == [] then [] else Picked(forks, names[..|names| - 1]) + Pick(forks, names[|names| - 1])
  }

  /** The forks of no known name, in their given order. */
  function Unknown(forks: seq<Fork>, names: seq<Name>): seq<Fork> {
    if names == [] then forks else Except(Unknown(forks, names[..|names| - 1]), names[|names| - 1])
  }

  lemma {:induction false} ExceptAbsent(forks: seq<Fork>, name: Name)
    requires !HasName(forks, name)
    ensures Except(forks, name) == forks
  {
    if forks != [] { ExceptAbsent(forks[1..], name); }
  }

  lemma {:induction false} ExceptNames(forks: seq<Fork>, name: Name, other: Name)
    ensures HasName(Except(forks, name), other) <==> other != name && HasName(forks, other)
    ensures other != name ==> Pick(Except(forks, name), other) == Pick(forks, other)
  {
    if forks != [] {
      ExceptNames(forks[1..], name, other);
      if forks[0].name != name { assert Except(forks, name)[1..] == Except(forks[1..], name); }
    }
  }

  lemma {:induction false} ExceptUnique(forks: seq<Fork>, name: Name)
    requires UniqueNames(forks)
    ensures UniqueNames(Except(forks, name))
  {
    if forks != [] {
      var f, tail := forks[0], forks[1..];
      ExceptUnique(tail, name);
      if f.name != name {
        ExceptNames(tail, name, f.name);
        assert Except(forks, name)[1..] == Except(tail, name);
      }
    }
  }

  lemma {:induction false} UnknownNames(forks: seq<Fork>, names: seq<Name>, other: Name)
    requires other !in names
    ensures Pick(Unknown(forks, names), other) == Pick(forks, other)
  {
    if names != [] {
      var n := |names| - 1;
      UnknownNames(forks, names[..n], other);
      ExceptNames(Unknown(forks, names[..n]), names[n], other);
    }
  }

  /** The position of the first fork of a name. */
  method Position(forks: seq<Fork>, name: Name) returns (p: nat)
    ensures p <= |forks| && (p < |forks| ==> forks[p].name == name)
    ensures forall i :: 0 <= i < p ==> forks[i].name != name
  {
    p := 0;
    while p < |forks| && forks[p].name != name
      invariant 0 <= p <= |forks|
      invariant forall i :: 0 <= i < p ==> forks[i].name != name
    {
      p := p + 1;
    }
  }

  /** Taking out the fork at that position. */
  lemma {:induction false} PositionPicks(forks: seq<Fork>, name: Name, p: nat)
    requires UniqueNames(forks) && p <= |forks| && (p < |forks| ==> forks[p].name == name)
    requires forall i :: 0 <= i < p ==> forks[i].name != name
    ensures Pick(forks, name) == if p < |forks| then [forks[p]] else []
    ensures Except(forks, name) == if p < |forks| then forks[..p] + forks[p + 1..] else forks
  {
    if forks != [] {
      var tail := forks[1..];
      if p == 0 {
        ExceptAbsent(tail, name);
      } else {
        PositionPicks(tail, name, p - 1);
        assert forks == [forks[0]] + tail;
        if p < |forks| {
          assert forks[..p] + forks[p + 1..] == [forks[0]] + (tail[..p - 1] + tail[p..]);
        }
      }
    }
  }

  ghost predicate DistinctNames(order: seq<Name>) {
    forall k :: 0 <= k < |order| ==> order[k] !in order[..k]
  }

  lemma {:induction false} PickExceptAll(forks: seq<Fork>, name: Name)
    requires UniqueNames(forks)
    ensures multiset(Pick(forks, name)) + multiset(Except(forks, name)) == multiset(forks)
  {
    if forks != [] {
      var f, tail := forks[0], forks[1..];
      assert forks == [f] + tail;
      if f.name == name {
        ExceptAbsent(tail, name);
      } else {
        PickExceptAll(tail, name);
      }
    }
  }

  /** Placing the known forks first is a permutation. */
  lemma {:induction false} PickedIsPermutation(forks: seq<Fork>, order: seq<Name>)
    requires UniqueNames(forks) && DistinctNames(order)
    ensures UniqueNames(Unknown(forks, order))
    ensures multiset(Picked(forks, order)) + multiset(Unknown(forks, order)) == multiset(forks)
  {
    if order != [] {
      var n := |order| - 1;
      assert forall k :: 0 <= k < n ==> order[..n][..k] == order[..k];
      PickedIsPermutation(forks, order[..n]);
      var rest := Unknown(forks, order[..n]);
      ExceptUnique(rest, order[n]);
      PickExceptAll(rest, order[n]);
      UnknownNames(forks, order[..n], order[n]);
    }
  }

  /**
   The configured forks in the order of the known list, followed by the unknown ones in their
   given order; none is lost or duplicated.
   */
  method OrderForks(hardforks: seq<Fork>, order: seq<Name>) returns (ordered: seq<Fork>)
    requires UniqueNames(hardforks) && DistinctNames(order)
    ensures ordered == Picked(hardforks, order) + Unknown(hardforks, order)
    ensures multiset(ordered) == multiset(hardforks)
  {
    ordered := [];
    var rest := hardforks;
    for k := 0 to |order|
      invariant ordered == Picked(hardforks, order[..k]) && rest == Unknown(hardforks, order[..k])
      invariant UniqueNames(rest)
    {
      var p := Position(rest, order[k]);
      PositionPicks(rest, order[k], p);
      UnknownNames(hardforks, order[..k], order[k]);
      ExceptUnique(rest, order[k]);
      assert order[..k + 1][..k] == order[..k];
      if p < |rest| {
        ordered := ordered + [rest[p]];
        rest := rest[..p] + rest[p + 1..];
      }
    }
    assert order[..|order|] == order;
    PickedIsPermutation(hardforks, order);
    ordered := ordered + rest;
  }

  // Activations that follow the known order give an ordered fork list.

  /** Block forks, then the merge, then timestamp forks. */
  function Stage(c: ForkCondition): nat {
    match c
    case Block(_) => 0
    case TTD(_, _) => 1
    case Timestamp(_) => 2
    case Never => 3
  }

  predicate Precedes(f: Fork, g: Fork) {
    var c, d := f.condition, g.condition;
    && Stage(c) <= Stage(d) && !(c.TTD? && d.TTD?)
    && (c.BlockPoint().Some? && d.BlockPoint().Some? ==> c.BlockPoint().value <= d.BlockPoint().value)
    && (c.Timestamp? && d.Timestamp? ==> c.time <= d.time)
  }

  ghost predicate Chained(forks: seq<Fork>) {
    forall i, j {:trigger Precedes(forks[i], forks[j])} :: 0 <= i < j < |forks| ==> Precedes(forks[i], forks[j])
  }

  /** Known forks precede later known ones and all unknown ones, which precede each other as given. */
  ghost predicate FollowsOrder(hardforks: seq<Fork>, order: seq<Name>) {
    && (forall f, g, k {:trigger Precedes(f, g), order[k]} ::
          0 <= k < |order| && f in hardforks && g in hardforks && f.name in order[..k] && g.name == order[k] ==> Precedes(f, g))
    && (forall f, g {:trigger Precedes(f, g)} ::
          f in hardforks && f.name in order && g in Unknown(hardforks, order) ==> Precedes(f, g))
    && Chained(Unknown(hardforks, order))
  }

  lemma {:induction false} PickMember(forks: seq<Fork>, name: Name)
    ensures forall f :: f in Pick(forks, name) ==> f in forks && f.name == name
    ensures |Pick(forks, name)| <= 1
  {
    if forks != [] { PickMember(forks[1..], name); }
  }

  lemma {:induction false} PickedChained(hardforks: seq<Fork>, order: seq<Name>, k: nat)
    requires FollowsOrder(hardforks, order) && k <= |order|
    ensures Chained(Picked(hardforks, order[..k]))
    ensures forall f :: f in Picked(hardforks, order[..k]) ==> f in hardforks && f.name in order[..k]
  {
    if k > 0 {
      var names := order[..k];
      assert names[..k - 1] == order[..k - 1];
      PickedChained(hardforks, order, k - 1);
      PickMember(hardforks, order[k - 1]);
      var before, here := Picked(hardforks, order[..k - 1]), Pick(hardforks, order[k - 1]);
      forall i, j | 0 <= i < j < |before + here| ensures Precedes((before + here)[i], (before + here)[j]) {
        if j < |before| {
          assert Precedes(before[i], before[j]);
        } else {
          assert before[i] in before && here[0] in here;
          assert order[k - 1] == here[0].name;
          assert Precedes(before[i], here[0]);
        }
      }
    }
  }

  function Conditions(forks: seq<Fork>): seq<ForkCondition> {
    seq(|forks|, i requires 0 <= i < |forks| => forks[i].condition)
  }

  lemma {:induction false} ChainedIsStaged(forks: seq<Fork>) returns (n: nat)
    requires Chained(forks) && forall f :: f in forks ==> !f.condition.Never?
    ensures Staged(Conditions(forks), n) && (forks != [] && forks[0].condition.Block? ==> n > 0)
  {
    if forks == [] {
      n := 0;
    } else {
      var tail := forks[1..];
      assert Chained(tail) by {
        forall i, j | 0 <= i < j < |tail| ensures Precedes(tail[i], tail[j]) {
          assert Precedes(forks[i + 1], forks[j + 1]);
        }
      }
      var m := ChainedIsStaged(tail);
      assert forks[0] in forks;
      assert forall i :: 0 < i < |forks| ==> Precedes(forks[0], forks[i]) && forks[i] in forks;
      var c, d := Conditions(forks), Conditions(tail);
      assert forall i :: 0 < i < |c| ==> c[i] == d[i - 1];
      n := if forks[0].condition.Block? then m + 1 else 0;
    }
  }

  lemma {:induction false} PickedFirst(forks: seq<Fork>, order: seq<Name>, f: Fork)
    requires order != [] && Pick(forks, order[0]) == [f]
    ensures Picked(forks, order) != [] && Picked(forks, order)[0] == f
  {
    if |order| == 1 {
      assert order[..0] == [];
    } else {
      PickedFirst(forks, order[..|order| - 1], f);
    }
  }

  lemma {:induction false} PlacedChained(hardforks: seq<Fork>, order: seq<Name>)
    requires FollowsOrder(hardforks, order)
    ensures Chained(Picked(hardforks, order) + Unknown(hardforks, order))
  {
    var known, unknown := Picked(hardforks, order), Unknown(hardforks, order);
    assert order[..|order|] == order;
    PickedChained(hardforks, order, |order|);
    var all, n := known + unknown, |known|;
    forall i, j | 0 <= i < j < |all| ensures Precedes(all[i], all[j]) {
      if j < n {
        assert Precedes(known[i], known[j]);
      } else if i < n {
        assert known[i] in known && unknown[j - n] in unknown;
        assert Precedes(known[i], unknown[j - n]);
      } else {
        assert Precedes(unknown[i - n], unknown[j - n]);
      }
    }
  }

  /**
   When the activations follow the known order and the first known fork is a configured block
   fork, the placed list has ascending activation points and starts with a block fork.
   */
  lemma {:induction false} OrderedFromGenesis(hardforks: seq<Fork>, order: seq<Name>, first: Fork) returns (n: nat)
    requires UniqueNames(hardforks) && DistinctNames(order) && FollowsOrder(hardforks, order)
    requires forall f :: f in hardforks ==> !f.condition.Never?
    requires order != [] && Pick(hardforks, order[0]) == [first] && first.condition.Block?
    ensures var forks := Conditions(Picked(hardforks, order) + Unknown(hardforks, order));
            Ordered(forks) && Staged(forks, n) && n > 0
  {
    var all := Picked(hardforks, order) + Unknown(hardforks, order);
    PlacedChained(hardforks, order);
    PickedIsPermutation(hardforks, order);
    forall f | f in all ensures !f.condition.Never? {
      assert f in multiset(all) && f in multiset(hardforks);
    }
    PickedFirst(hardforks, order, first);
    n := ChainedIsStaged(all);
    var conditions := Conditions(all);
    assert forall i, j :: 0 <= i < j < |conditions| ==> Precedes(all[i], all[j]);
  }

  // ---------------------------------------------------------------------------------------
  // From the options of a genesis file
  // ---------------------------------------------------------------------------------------

  /**
   The optional activations of the block forks and the timestamp forks, each in the order the
   conversion lists them, and the merge between them. Forks are named by their place in this
   order.
   */
  datatype Genesis = Genesis(blocks: seq<Option<nat>>, ttd: Option<nat>, netsplit: Option<nat>, times: seq<Option<nat>>)
  {
    /** The condition of a fork, if it is configured. */
    function Condition(name: Name): Option<ForkCondition> {
      if name < |blocks| then (match blocks[name] case Some(n) => Some(Block(n)) case None => None)
      else if name == |blocks| then (match ttd case Some(d) => Some(TTD(netsplit, d)) case None => None)
      else if name - |blocks| - 1 < |times| then
        (match times[name - |blocks| - 1] case Some(t) => Some(Timestamp(t)) case None => None)
      else None
    }

    function Size(): nat { |blocks| + 1 + |times| }
  }

  /** The configured forks with a name below `n`, in order. */
  function Configured(g: Genesis, n: nat): seq<Fork> {
    if n == 0 then []
    else Configured(g, n - 1) + match g.Condition(n - 1) case Some(c) => [Fork(n - 1, c)] case None => []
  }

  ghost predicate AscendingNames(forks: seq<Fork>) {
    forall i, j :: 0 <= i < j < |forks| ==> forks[i].name < forks[j].name
  }

  lemma {:induction false} ConfiguredMembers(g: Genesis, n: nat)
    ensures AscendingNames(Configured(g, n))
    ensures forall f :: f in Configured(g, n) <==> f.name < n && g.Condition(f.name) == Some(f.condition)
  {
    if n > 0 {
      ConfiguredMembers(g, n - 1);
      var before, all := Configured(g, n - 1), Configured(g, n);
      forall i, j | 0 <= i < j < |all| ensures all[i].name < all[j].name {
        assert all[i] == before[i] && before[i] in before;
      }
    }
  }

  /** The conversion collects the block forks, the merge and the timestamp forks. */
  method CollectForks(g: Genesis) returns (forks: seq<Fork>)
    ensures forks == Configured(g, g.Size())
  {
    forks := [];
    for i := 0 to |g.blocks|
      invariant forks == Configured(g, i)
    {
      if g.blocks[i].Some? { forks := forks + [Fork(i, Block(g.blocks[i].value))]; }
    }
    if g.ttd.Some? { forks := forks + [Fork(|g.blocks|, TTD(g.netsplit, g.ttd.value))]; }
    for i := 0 to |g.times|
      invariant forks == Configured(g, |g.blocks| + 1 + i)
    {
      if g.times[i].Some? { forks := forks + [Fork(|g.blocks| + 1 + i, Timestamp(g.times[i].value))]; }
    }
  }

  /** The mainnet list has the first `m` forks of the conversion's order, in that order. */
  function MainnetOrder(m: nat): seq<Name> {
    seq(m, (i: nat) => i)
  }

  lemma {:induction false} AscendingUnique(forks: seq<Fork>)
    requires AscendingNames(forks)
    ensures UniqueNames(forks)
  {
    if forks != [] {
      var tail := forks[1..];
      forall i | 0 <= i < |tail| ensures tail[i].name != forks[0].name { assert tail[i] == forks[i + 1]; }
      Absent(tail, forks[0].name);
      AscendingUnique(tail);
    }
  }

  lemma {:induction false} Absent(forks: seq<Fork>, name: Name)
    requires forall i :: 0 <= i < |forks| ==> forks[i].name != name
    ensures !HasName(forks, name)
  {
    if forks != [] { Absent(forks[1..], name); }
  }

  /** How many of the forks have a name below `m`. */
  function Below(forks: seq<Fork>, m: nat): (c: nat)
    ensures c <= |forks| && forall i :: 0 <= i < c ==> forks[i].name < m
    ensures c < |forks| ==> forks[c].name >= m
  {
    if forks == [] || forks[0].name >= m then 0 else 1 + Below(forks[1..], m)
  }

  lemma {:induction false} BelowNext(forks: seq<Fork>, m: nat)
    requires AscendingNames(forks)
    ensures var c := Below(forks, m);
            Below(forks, m + 1) == if c < |forks| && forks[c].name == m then c + 1 else c
  {
    var c := Below(forks, m);
    assert c + 1 < |forks| ==> forks[c].name < forks[c + 1].name;
  }

  /** Forks that are in the conversion's order stay as they are. */
  lemma {:induction false} PlacedAsGiven(forks: seq<Fork>, m: nat)
    requires AscendingNames(forks)
    ensures Picked(forks, MainnetOrder(m)) == forks[..Below(forks, m)]
    ensures Unknown(forks, MainnetOrder(m)) == forks[Below(forks, m)..]
  {
    AscendingUnique(forks);
    if m > 0 {
      var c := Below(forks, m - 1);
      assert MainnetOrder(m)[..m - 1] == MainnetOrder(m - 1);
      PlacedAsGiven(forks, m - 1);
      BelowNext(forks, m - 1);
      PickNext(forks, c, m - 1);
    }
  }

  lemma {:induction false} AscendingSuffix(forks: seq<Fork>, c: nat)
    requires AscendingNames(forks) && c <= |forks|
    ensures AscendingNames(forks[c..])
  {
    var rest := forks[c..];
    forall i, j | 0 <= i < j < |rest| ensures rest[i].name < rest[j].name {
      assert forks[c + i].name < forks[c + j].name;
    }
  }

  /** The fork named `m` can only be the first one that is not below it. */
  lemma {:induction false} OnlyHere(forks: seq<Fork>, c: nat, m: nat, i: nat)
    requires AscendingNames(forks) && c == Below(forks, m) && i < |forks| && forks[i].name == m
    ensures i == c
  {
  }

  lemma {:induction false} PickHere(forks: seq<Fork>, c: nat, m: nat)
    requires AscendingNames(forks) && c == Below(forks, m)
    ensures Pick(forks, m) == if c < |forks| && forks[c].name == m then [forks[c]] else []
  {
    AscendingUnique(forks);
    forall i | 0 <= i < |forks| && forks[i].name == m ensures i == c { OnlyHere(forks, c, m, i); }
    PositionPicks(forks, m, if c < |forks| && forks[c].name == m then c else |forks|);
  }

  lemma {:induction false} ExceptHere(rest: seq<Fork>, m: nat)
    requires AscendingNames(rest) && Below(rest, m) == 0
    ensures Except(rest, m) == if rest != [] && rest[0].name == m then rest[1..] else rest
  {
    AscendingUnique(rest);
    forall i | 0 <= i < |rest| && rest[i].name == m ensures i == 0 { OnlyHere(rest, 0, m, i); }
    PositionPicks(rest, m, if rest != [] && rest[0].name == m then 0 else |rest|);
  }

  /** Taking out the fork named `m` when all smaller names come first. */
  lemma {:induction false} PickNext(forks: seq<Fork>, c: nat, m: nat)
    requires AscendingNames(forks) && c == Below(forks, m)
    ensures var d := if c < |forks| && forks[c].name == m then c + 1 else c;
            forks[..c] + Pick(forks, m) == forks[..d] && Except(forks[c..], m) == forks[d..]
  {
    PickHere(forks, c, m);
    AscendingSuffix(forks, c);
    ExceptHere(forks[c..], m);
  }

  /** Two configured forks may follow each other. */
  predicate MayFollow(c: Option<ForkCondition>, d: Option<ForkCondition>) {
    c.Some? && d.Some? ==>
      && (c.value.BlockPoint().Some? && d.value.BlockPoint().Some? ==> c.value.BlockPoint().value <= d.value.BlockPoint().value)
      && (c.value.Timestamp? && d.value.Timestamp? ==> c.value.time <= d.value.time)
  }

  /** Activations ascend: block numbers up to the netsplit block, and timestamps. */
  ghost predicate Ascends(g: Genesis) {
    forall a, b {:trigger MayFollow(g.Condition(a), g.Condition(b))} :: 0 <= a < b < g.Size() ==> MayFollow(g.Condition(a), g.Condition(b))
  }

  lemma {:induction false} ConfiguredPrecedes(g: Genesis, f: Fork, h: Fork)
    requires Ascends(g) && f.name < h.name < g.Size()
    requires g.Condition(f.name) == Some(f.condition) && g.Condition(h.name) == Some(h.condition)
    ensures Precedes(f, h)
  {
    assert MayFollow(g.Condition(f.name), g.Condition(h.name));
  }

  lemma {:induction false} OrderedIfAscends(g: Genesis, forks: seq<Fork>)
    requires forks == Configured(g, g.Size()) && Ascends(g)
    ensures Ordered(Conditions(forks)) && Chained(forks)
  {
    ConfiguredMembers(g, g.Size());
    forall i, j | 0 <= i < j < |forks| ensures Precedes(forks[i], forks[j]) {
      assert forks[i] in forks && forks[j] in forks;
      ConfiguredPrecedes(g, forks[i], forks[j]);
    }
    var conditions := Conditions(forks);
    assert forall i, j :: 0 <= i < j < |conditions| ==> Precedes(forks[i], forks[j]);
  }

  lemma {:induction false} AscendsIfOrdered(g: Genesis, forks: seq<Fork>)
    requires forks == Configured(g, g.Size()) && Ordered(Conditions(forks))
    ensures Ascends(g)
  {
    ConfiguredMembers(g, g.Size());
    var conditions := Conditions(forks);
    forall a, b | 0 <= a < b < g.Size() ensures MayFollow(g.Condition(a), g.Condition(b)) {
      if g.Condition(a).Some? && g.Condition(b).Some? {
        var x, y := Fork(a, g.Condition(a).value), Fork(b, g.Condition(b).value);
        assert x in forks && y in forks;
        var i :| 0 <= i < |forks| && forks[i] == x;
        var j :| 0 <= j < |forks| && forks[j] == y;
        assert conditions[i] == x.condition && conditions[j] == y.condition;
      }
    }
  }

  /** The conversion's order is kept. */
  lemma {:induction false} GenesisPlaced(g: Genesis, m: nat)
    ensures var forks := Configured(g, g.Size());
            UniqueNames(forks) && Picked(forks, MainnetOrder(m)) + Unknown(forks, MainnetOrder(m)) == forks
  {
    ConfiguredAscending(g, g.Size());
    PlacedIsAll(Configured(g, g.Size()), m);
  }

  lemma {:induction false} PlacedIsAll(forks: seq<Fork>, m: nat)
    requires AscendingNames(forks)
    ensures UniqueNames(forks) && Picked(forks, MainnetOrder(m)) + Unknown(forks, MainnetOrder(m)) == forks
  {
    AscendingUnique(forks);
    PlacedAsGiven(forks, m);
    var c := Below(forks, m);
    assert forks[..c] + forks[c..] == forks;
  }

  lemma {:induction false} ConfiguredAscending(g: Genesis, n: nat)
    ensures AscendingNames(Configured(g, n))
  {
    ConfiguredMembers(g, n);
  }

  lemma {:induction false} OrderedExactlyWhenAscends(g: Genesis) returns (n: nat)
    requires g.blocks != [] && g.blocks[0] == Some(0)
    ensures var conditions := Conditions(Configured(g, g.Size()));
            && (Ordered(conditions) <==> Ascends(g))
            && (Ascends(g) ==> Staged(conditions, n) && n > 0)
  {
    var forks := Configured(g, g.Size());
    n := 0;
    if Ascends(g) {
      OrderedIfAscends(g, forks);
      FrontierFirst(g);
      n := ChainedIsStaged(forks);
    } else if Ordered(Conditions(forks)) {
      AscendsIfOrdered(g, forks);
    }
  }

  /**
   The forks of a genesis file, in the order the conversion gives them, are a list that fork
   ids can be computed from if and only if the file's activations ascend. The list then starts
   with a block fork, the first one being fixed at block 0.
   */
  method ForksOfGenesis(g: Genesis, m: nat) returns (ordered: seq<Fork>, ghost n: nat)
    requires g.blocks != [] && g.blocks[0] == Some(0)
    ensures ordered == Configured(g, g.Size())
    ensures Ordered(Conditions(ordered)) <==> Ascends(g)
    ensures Ascends(g) ==> Staged(Conditions(ordered), n) && n > 0
  {
    var forks := CollectForks(g);
    GenesisPlaced(g, m);
    ordered := OrderForks(forks, MainnetOrder(m));
    n := OrderedExactlyWhenAscends(g);
  }

  lemma {:induction false} FrontierFirst(g: Genesis)
    requires g.blocks != [] && g.blocks[0] == Some(0)
    ensures var forks := Configured(g, g.Size());
            forks != [] && forks[0].condition.Block? && forall f :: f in forks ==> !f.condition.Never?
  {
    var forks := Configured(g, g.Size());
    ConfiguredMembers(g, g.Size());
    assert Fork(0, Block(0)) in forks;
    var i :| 0 <= i < |forks| && forks[i] == Fork(0, Block(0));
    if i > 0 { assert forks[0].name < forks[i].name; }
  }
}
