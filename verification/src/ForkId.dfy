/**
 Fork identifiers (crates/chainspec/src/spec.rs): the hash over the activation points a head has
 passed and the next one, after EIP-6122. The checksum is an arbitrary mixing function.
 */
module ForkId {
  import opened Prelude

  datatype ForkCondition =
    | Block(number: nat)
    | TTD(forkBlock: Option<nat>, totalDifficulty: nat)
    | Timestamp(time: nat)
    | Never
  {
    /** The block number at which the fork counts for the fork id, if it is block based. */
    function BlockPoint(): Option<nat> {
      match this
      case Block(n) => Some(n)
      case TTD(b, _) => b
      case _ => None
    }

    /** The timestamp of a fork activated after genesis. */
    function TimePoint(genesisTime: nat): Option<nat> {
      match this
      case Timestamp(t) => if t > genesisTime then Some(t) else None
      case _ => None
    }
  }

  datatype Head = Head(number: nat, timestamp: nat, totalDifficulty: nat)
  datatype Id<H> = Id(hash: H, next: nat)

  function Fold<H>(mix: (H, nat) -> H, start: H, points: seq<nat>): H {
    if points == [] then start else mix(Fold(mix, start, points[..|points| - 1]), points[|points| - 1])
  }

  // ---------------------------------------------------------------------------------------
  // Finite sets of numbers in ascending order
  // ---------------------------------------------------------------------------------------

  ghost function Ascending(s: set<nat>): seq<nat> {
    if s == {} then [] else Ascending(s - {Greatest(s)}) + [Greatest(s)]
  }

  lemma {:induction false} AscendingAppend(s: set<nat>, x: nat)
    requires forall y :: y in s ==> y < x
    ensures Ascending(s + {x}) == Ascending(s) + [x]
  {
    var t := s + {x};
    assert Greatest(t) == x;
    assert t - {x} == s;
  }

  // ---------------------------------------------------------------------------------------
  // Declarative fork id: a function of the sets of activation points
  // ---------------------------------------------------------------------------------------

  function BlockPoints(forks: seq<ForkCondition>): set<nat> {
    set i | 0 <= i < |forks| && forks[i].BlockPoint().Some? && forks[i].BlockPoint().value != 0 :: forks[i].BlockPoint().value
  }

  function TimePoints(forks: seq<ForkCondition>, genesisTime: nat): set<nat> {
    set i | 0 <= i < |forks| && forks[i].TimePoint(genesisTime).Some? :: forks[i].TimePoint(genesisTime).value
  }

  function Passed(points: set<nat>, at: nat): set<nat> { set x | x in points && x <= at }
  function Ahead(points: set<nat>, at: nat): set<nat> { set x | x in points && x > at }

  /**
   Block forks come first. `blocks` and `times` are the activation points: the hash covers the
   passed ones in ascending order (of the times, only those in `hashed`), `next` is the least
   one ahead, or 0.
   */
  ghost function IdHashing<H>(mix: (H, nat) -> H, genesisHash: H, blocks: set<nat>, times: set<nat>, hashed: set<nat>, head: Head): Id<H> {
    var h := Fold(mix, genesisHash, Ascending(Passed(blocks, head.number)));
    if Ahead(blocks, head.number) != {} then Id(h, Least(Ahead(blocks, head.number)))
    else
      var h' := Fold(mix, h, Ascending(Passed(hashed, head.timestamp)));
      Id(h', if Ahead(times, head.timestamp) != {} then Least(Ahead(times, head.timestamp)) else 0)
  }

  ghost function IdOf<H>(mix: (H, nat) -> H, genesisHash: H, blocks: set<nat>, times: set<nat>, head: Head): Id<H> {
    IdHashing(mix, genesisHash, blocks, times, times, head)
  }

  /** Activation points appear in ascending order, blocks and timestamps each for themselves. */
  ghost predicate Ordered(forks: seq<ForkCondition>) {
    && (forall i, j :: 0 <= i < j < |forks| && forks[i].BlockPoint().Some? && forks[j].BlockPoint().Some?
          ==> forks[i].BlockPoint().value <= forks[j].BlockPoint().value)
    && (forall i, j :: 0 <= i < j < |forks| && forks[i].Timestamp? && forks[j].Timestamp?
          ==> forks[i].time <= forks[j].time)
  }

  /** The first timestamp fork equals the last block fork's number and is mistaken for it. */
  ghost predicate Clash(blocks: set<nat>, times: set<nat>) {
    blocks != {} && times != {} && Greatest(blocks) == Least(times)
  }

  // ---------------------------------------------------------------------------------------
  // The loops
  // ---------------------------------------------------------------------------------------

  ghost function Last(points: set<nat>): nat {
    if points == {} then 0 else Greatest(points)
  }

  lemma {:induction false} FoldAppend<H>(mix: (H, nat) -> H, start: H, points: seq<nat>, x: nat)
    ensures Fold(mix, start, points + [x]) == mix(Fold(mix, start, points), x)
  {
    assert (points + [x])[..|points|] == points;
  }

  lemma {:induction false} BlockPointsNext(forks: seq<ForkCondition>, i: nat)
    requires Ordered(forks) && i < |forks|
    ensures var p, seen := forks[i].BlockPoint(), BlockPoints(forks[..i]);
            && BlockPoints(forks[..i + 1]) == (if p.Some? && p.value != 0 then seen + {p.value} else seen)
            && (p.Some? ==> forall x :: x in seen ==> x <= p.value)
  {
    var less, more := forks[..i], forks[..i + 1];
    assert more == less + [forks[i]];
    forall x | x in BlockPoints(more) ensures x in BlockPoints(less) || forks[i].BlockPoint() == Some(x) {
      var k :| 0 <= k < |more| && more[k].BlockPoint() == Some(x) && x != 0;
      assert k < i ==> less[k] == more[k];
    }
    forall x | x in BlockPoints(less) ensures x in BlockPoints(more) {
      var k :| 0 <= k < |less| && less[k].BlockPoint() == Some(x) && x != 0;
      assert more[k] == less[k];
    }
    if forks[i].BlockPoint().Some? && forks[i].BlockPoint().value != 0 {
      assert more[i].BlockPoint().value in BlockPoints(more);
    }
  }

  /** Once a block fork lies ahead, everything seen before is passed and everything after is ahead. */
  lemma {:induction false} BlockPointsStop(forks: seq<ForkCondition>, i: nat, at: nat)
    requires Ordered(forks) && i < |forks| && forks[i].BlockPoint().Some? && forks[i].BlockPoint().value > at
    requires forall x :: x in BlockPoints(forks[..i]) ==> x <= at
    ensures Passed(BlockPoints(forks), at) == BlockPoints(forks[..i])
    ensures Ahead(BlockPoints(forks), at) != {} && Least(Ahead(BlockPoints(forks), at)) == forks[i].BlockPoint().value
  {
    var b, seen, all := forks[i].BlockPoint().value, BlockPoints(forks[..i]), BlockPoints(forks);
    forall x | x in all ensures x in seen || x >= b {
      var k :| 0 <= k < |forks| && forks[k].BlockPoint() == Some(x) && x != 0;
      if k < i { assert forks[..i][k] == forks[k]; }
    }
    forall x | x in seen ensures x in all {
      var k :| 0 <= k < i && forks[..i][k].BlockPoint() == Some(x) && x != 0;
      assert forks[k].BlockPoint() == Some(x);
    }
    assert b in Ahead(all, at);
  }

  lemma {:induction false} TimePointsNext(forks: seq<ForkCondition>, g: nat, i: nat)
    requires Ordered(forks) && i < |forks|
    ensures var p, seen := forks[i].TimePoint(g), TimePoints(forks[..i], g);
            && TimePoints(forks[..i + 1], g) == (if p.Some? then seen + {p.value} else seen)
            && (p.Some? ==> forall x :: x in seen ==> x <= p.value)
  {
    var less, more := forks[..i], forks[..i + 1];
    assert more == less + [forks[i]];
    forall x | x in TimePoints(more, g) ensures x in TimePoints(less, g) || forks[i].TimePoint(g) == Some(x) {
      var k :| 0 <= k < |more| && more[k].TimePoint(g) == Some(x);
      assert k < i ==> less[k] == more[k];
    }
    forall x | x in TimePoints(less, g) ensures x in TimePoints(more, g) {
      var k :| 0 <= k < |less| && less[k].TimePoint(g) == Some(x);
      assert more[k] == less[k];
    }
    if forks[i].TimePoint(g).Some? {
      assert more[i].TimePoint(g).value in TimePoints(more, g);
    }
  }

  lemma {:induction false} TimePointsStop(forks: seq<ForkCondition>, g: nat, i: nat, at: nat)
    requires Ordered(forks) && i < |forks| && forks[i].TimePoint(g).Some? && forks[i].TimePoint(g).value > at
    requires forall x :: x in TimePoints(forks[..i], g) ==> x <= at
    ensures Passed(TimePoints(forks, g), at) == TimePoints(forks[..i], g)
    ensures Ahead(TimePoints(forks, g), at) != {} && Least(Ahead(TimePoints(forks, g), at)) == forks[i].TimePoint(g).value
  {
    var b, seen, all := forks[i].TimePoint(g).value, TimePoints(forks[..i], g), TimePoints(forks, g);
    forall x | x in all ensures x in seen || x >= b {
      var k :| 0 <= k < |forks| && forks[k].TimePoint(g) == Some(x);
      if k < i { assert forks[..i][k] == forks[k]; }
    }
    forall x | x in seen ensures x in all {
      var k :| 0 <= k < i && forks[..i][k].TimePoint(g) == Some(x);
      assert forks[k].TimePoint(g) == Some(x);
    }
    assert b in Ahead(all, at);
  }

  /** A block fork that has passed adds itself to the hash unless it repeats the last one. */
  lemma {:induction false} BlockForkPassed<H>(mix: (H, nat) -> H, start: H, forks: seq<ForkCondition>, i: nat)
    requires Ordered(forks) && i < |forks| && forks[i].BlockPoint().Some?
    ensures var b, seen, more := forks[i].BlockPoint().value, BlockPoints(forks[..i]), BlockPoints(forks[..i + 1]);
            if b == Last(seen) then more == seen
            else Last(more) == b && Fold(mix, start, Ascending(more)) == mix(Fold(mix, start, Ascending(seen)), b)
  {
    var b, seen := forks[i].BlockPoint().value, BlockPoints(forks[..i]);
    BlockPointsNext(forks, i);
    if b == Last(seen) {
      assert BlockPoints(forks[..i + 1]) == seen;
    } else {
      AscendingAppend(seen, b);
      FoldAppend(mix, start, Ascending(seen), b);
    }
  }

  /** The block forks. `stop` is the first one that lies ahead of the head. */
  method HashBlockForks<H>(mix: (H, nat) -> H, genesisHash: H, forks: seq<ForkCondition>, head: Head)
    returns (hash: H, current: nat, stop: Option<nat>)
    requires Ordered(forks)
    ensures var blocks := BlockPoints(forks);
            && hash == Fold(mix, genesisHash, Ascending(Passed(blocks, head.number)))
            && (stop.Some? ==> Ahead(blocks, head.number) != {} && stop.value == Least(Ahead(blocks, head.number)))
            && (stop == None ==> Ahead(blocks, head.number) == {} && current == Last(blocks))
  {
    hash, current := genesisHash, 0;
    for i := 0 to |forks|
      invariant forall x :: x in BlockPoints(forks[..i]) ==> x <= head.number
      invariant hash == Fold(mix, genesisHash, Ascending(BlockPoints(forks[..i])))
      invariant current == Last(BlockPoints(forks[..i]))
    {
      var point := forks[i].BlockPoint();
      BlockPointsNext(forks, i);
      if point.Some? {
        var block := point.value;
        if head.number >= block {
          BlockForkPassed(mix, genesisHash, forks, i);
          if block != current {
            hash := mix(hash, block);
            current := block;
          }
        } else {
          BlockPointsStop(forks, i, head.number);
          return hash, current, Some(block);
        }
      }
    }
    assert forks[..|forks|] == forks;
    assert Passed(BlockPoints(forks), head.number) == BlockPoints(forks);
    stop := None;
  }

  /** The timestamps that reach the hash: one that equals the last block fork's number does not. */
  ghost function Hashed(last: nat, times: set<nat>): set<nat> {
    if times != {} && Least(times) == last then times - {last} else times
  }

  /** The timestamp forks. `stop` is the first one that lies ahead of the head. */
  method HashTimeForks<H>(mix: (H, nat) -> H, start: H, last: nat, forks: seq<ForkCondition>, g: nat, head: Head)
    returns (hash: H, stop: Option<nat>)
    requires Ordered(forks)
    ensures var times := TimePoints(forks, g);
            && hash == Fold(mix, start, Ascending(Passed(Hashed(last, times), head.timestamp)))
            && (stop.Some? ==> Ahead(times, head.timestamp) != {} && stop.value == Least(Ahead(times, head.timestamp)))
            && (stop == None ==> Ahead(times, head.timestamp) == {})
  {
    hash := start;
    var current := last;
    for i := 0 to |forks|
      invariant forall x :: x in TimePoints(forks[..i], g) ==> x <= head.timestamp
      invariant hash == Fold(mix, start, Ascending(Hashed(last, TimePoints(forks[..i], g))))
      invariant current == if TimePoints(forks[..i], g) == {} then last else Greatest(TimePoints(forks[..i], g))
    {
      var point := forks[i].TimePoint(g);
      TimePointsNext(forks, g, i);
      if point.Some? {
        var timestamp := point.value;
        ghost var seen := TimePoints(forks[..i], g);
        if head.timestamp >= timestamp {
          HashedNext(last, seen, timestamp);
          if timestamp != current {
            AscendingAppend(Hashed(last, seen), timestamp);
            FoldAppend(mix, start, Ascending(Hashed(last, seen)), timestamp);
            hash := mix(hash, timestamp);
            current := timestamp;
          }
        } else {
          TimePointsStop(forks, g, i, head.timestamp);
          HashedPassed(last, TimePoints(forks, g), head.timestamp);
          return hash, Some(timestamp);
        }
      }
    }
    assert forks[..|forks|] == forks;
    assert Passed(TimePoints(forks, g), head.timestamp) == TimePoints(forks, g);
    HashedPassed(last, TimePoints(forks, g), head.timestamp);
    stop := None;
  }

  /** How one more timestamp, not below the earlier ones, changes what is hashed. */
  lemma {:induction false} HashedNext(last: nat, seen: set<nat>, t: nat)
    requires forall x :: x in seen ==> x <= t
    ensures var current := if seen == {} then last else Greatest(seen);
            && Greatest(seen + {t}) == t
            && Hashed(last, seen + {t}) == (if t == current then Hashed(last, seen) else Hashed(last, seen) + {t})
            && (t != current ==> forall x :: x in seen ==> x < t)
  {
    if seen == {} {
      assert seen + {t} == {t};
      assert Least({t}) == t;
    } else {
      assert Least(seen + {t}) == Least(seen);
      if t == Greatest(seen) { assert seen + {t} == seen; }
    }
  }

  /** Passing and hashing commute. */
  lemma {:induction false} HashedPassed(last: nat, times: set<nat>, at: nat)
    ensures Passed(Hashed(last, times), at) == Hashed(last, Passed(times, at))
  {
    var passed := Passed(times, at);
    if passed != {} {
      assert Least(passed) == Least(times) by {
        assert Least(times) <= Least(passed) <= at;
        assert Least(times) in passed;
      }
    }
  }

  /** What the loops compute for a list of forks. */
  ghost function Computed<H>(mix: (H, nat) -> H, genesisHash: H, genesisTime: nat, forks: seq<ForkCondition>, head: Head): Id<H> {
    var blocks, times := BlockPoints(forks), TimePoints(forks, genesisTime);
    IdHashing(mix, genesisHash, blocks, times, Hashed(Last(blocks), times), head)
  }

  ghost function Declared<H>(mix: (H, nat) -> H, genesisHash: H, genesisTime: nat, forks: seq<ForkCondition>, head: Head): Id<H> {
    IdOf(mix, genesisHash, BlockPoints(forks), TimePoints(forks, genesisTime), head)
  }

  /** Computes the fork id; exact for all inputs, including the clash. */
  method ComputeForkId<H>(mix: (H, nat) -> H, genesisHash: H, genesisTime: nat, forks: seq<ForkCondition>, head: Head)
    returns (id: Id<H>)
    requires Ordered(forks)
    ensures var blocks, times := BlockPoints(forks), TimePoints(forks, genesisTime);
            && id == Computed(mix, genesisHash, genesisTime, forks, head)
            && (!Clash(blocks, times) ==> id == Declared(mix, genesisHash, genesisTime, forks, head))
  {
    ghost var blocks, times := BlockPoints(forks), TimePoints(forks, genesisTime);
    TimesPositive(forks, genesisTime);
    var forkhash, current, stop := HashBlockForks(mix, genesisHash, forks, head);
    if stop.Some? {
      return Id(forkhash, stop.value);
    }
    var hash, stop' := HashTimeForks(mix, forkhash, current, forks, genesisTime, head);
    id := Id(hash, stop'.GetOr(0));
  }

  lemma {:induction false} TimesPositive(forks: seq<ForkCondition>, g: nat)
    ensures 0 !in TimePoints(forks, g)
  {
  }

  // ---------------------------------------------------------------------------------------
  // When the computed id is the declarative one
  // ---------------------------------------------------------------------------------------

  /** A checksum without collisions: the list of everything mixed in. */
  function Recorded(points: seq<nat>, x: nat): seq<nat> { points + [x] }

  lemma {:induction false} FoldRecorded(start: seq<nat>, points: seq<nat>)
    ensures Fold(Recorded, start, points) == start + points
  {
    if points != [] { FoldRecorded(start, points[..|points| - 1]); }
  }

  lemma {:induction false} AscendingLength(s: set<nat>)
    ensures |Ascending(s)| == |s|
  {
    if s != {} { AscendingLength(s - {Greatest(s)}); }
  }

  /**
   The computed id is the declarative one for every head exactly when the first timestamp fork
   does not coincide with the last block fork's number.
   */
  lemma {:induction false} ExactUnlessClash(blocks: set<nat>, times: set<nat>)
    requires 0 !in times
    ensures (forall head :: IdHashing(Recorded, [], blocks, times, Hashed(Last(blocks), times), head)
                         == IdOf(Recorded, [], blocks, times, head))
       <==> !Clash(blocks, times)
  {
    if Clash(blocks, times) {
      var head := Head(Greatest(blocks), Greatest(times), 0);
      var hashed := Hashed(Last(blocks), times);
      assert Ahead(blocks, head.number) == {};
      assert Passed(times, head.timestamp) == times && Passed(hashed, head.timestamp) == hashed;
      var h := Fold(Recorded, [], Ascending(Passed(blocks, head.number)));
      FoldRecorded(h, Ascending(times));
      FoldRecorded(h, Ascending(hashed));
      AscendingLength(times);
      AscendingLength(hashed);
      assert |hashed| < |times|;
      assert IdHashing(Recorded, [], blocks, times, hashed, head) != IdOf(Recorded, [], blocks, times, head);
    }
  }

  /** Without a clash the computed id is the declared one, for any checksum. */
  lemma {:induction false} ComputedIsDeclared<H>(mix: (H, nat) -> H, genesisHash: H, genesisTime: nat,
                                        forks: seq<ForkCondition>, head: Head)
    requires !Clash(BlockPoints(forks), TimePoints(forks, genesisTime))
    ensures Computed(mix, genesisHash, genesisTime, forks, head) == Declared(mix, genesisHash, genesisTime, forks, head)
  {
    TimesPositive(forks, genesisTime);
    assert Hashed(Last(BlockPoints(forks)), TimePoints(forks, genesisTime)) == TimePoints(forks, genesisTime);
  }

  ghost predicate SameId(genesisTime: nat, forks: seq<ForkCondition>, head: Head) {
    Computed(Recorded, [], genesisTime, forks, head) == Declared(Recorded, [], genesisTime, forks, head)
  }

  /**
   With a checksum that does not collide the computed id is the declared one for every head
   exactly when the list's first timestamp fork is not at its last block fork's number.
   */
  lemma {:induction false} ListExactUnlessClash(genesisTime: nat, forks: seq<ForkCondition>)
    ensures (forall head :: SameId(genesisTime, forks, head)) <==> !Clash(BlockPoints(forks), TimePoints(forks, genesisTime))
  {
    var blocks, times := BlockPoints(forks), TimePoints(forks, genesisTime);
    TimesPositive(forks, genesisTime);
    ExactUnlessClash(blocks, times);
    if Clash(blocks, times) {
      var head :| IdHashing(Recorded, [], blocks, times, Hashed(Last(blocks), times), head) != IdOf(Recorded, [], blocks, times, head);
      assert !SameId(genesisTime, forks, head);
    } else {
      forall head ensures SameId(genesisTime, forks, head) {
        ComputedIsDeclared(Recorded, [], genesisTime, forks, head);
      }
    }
  }

  lemma {:induction false} ClashingPoints(forks: seq<ForkCondition>)
    requires forks == [Block(0), Block(5), Timestamp(5)]
    ensures Ordered(forks) && BlockPoints(forks) == {5} && TimePoints(forks, 0) == {5}
  {
    assert forks[1].BlockPoint() == Some(5) && forks[2].TimePoint(0) == Some(5);
  }

  lemma {:induction false} SinglePoint(x: nat)
    ensures Greatest({x}) == x && Least({x}) == x && Last({x}) == x && Hashed(x, {x}) == {}
  {
    assert Greatest({x}) in {x} && Least({x}) in {x};
  }

  lemma {:induction false} ClashingIds()
    ensures IdHashing(Recorded, [], {5}, {5}, {}, Head(5, 5, 0)) == Id([5], 0)
    ensures IdHashing(Recorded, [], {5}, {5}, {5}, Head(5, 5, 0)) == Id([5, 5], 0)
  {
    assert Passed({5}, 5) == {5} && Ahead({5}, 5) == {} && Passed({}, 5) == {};
    SingleAscending(5);
    FoldRecorded([], [5]);
    FoldRecorded([5], [5]);
    assert [] + [5] == [5] && [5] + [5] == [5, 5];
  }

  /** An ordered list that clashes: the fork at timestamp 5 is mistaken for the one at block 5. */
  lemma {:induction false} ClashingList(forks: seq<ForkCondition>)
    requires forks == [Block(0), Block(5), Timestamp(5)]
    ensures Ordered(forks) && BlockPoints(forks) == TimePoints(forks, 0) == {5} && Clash({5}, {5})
    ensures Computed(Recorded, [], 0, forks, Head(5, 5, 0)) == Id([5], 0)
    ensures Declared(Recorded, [], 0, forks, Head(5, 5, 0)) == Id([5, 5], 0)
  {
    ClashingPoints(forks);
    SinglePoint(5);
    ClashingIds();
  }

  lemma {:induction false} SingleAscending(x: nat)
    ensures Ascending({x}) == [x] && Ascending({}) == []
  {
    AscendingAppend({}, x);
    assert {} + {x} == {x};
  }

  /**
   A fork added at an existing activation point, or at genesis, leaves the sets of points and
   with them every fork id unchanged.
   */
  lemma {:induction false} AddedForkInvisible<H>(mix: (H, nat) -> H, genesisHash: H, g: nat,
                           forks: seq<ForkCondition>, i: nat, c: ForkCondition, head: Head)
    requires i <= |forks|
    requires c.BlockPoint().Some? ==> c.BlockPoint().value == 0 || c.BlockPoint().value in BlockPoints(forks)
    requires c.TimePoint(g).Some? ==> c.TimePoint(g).value in TimePoints(forks, g)
    ensures var more := forks[..i] + [c] + forks[i..];
            Computed(mix, genesisHash, g, more, head) == Computed(mix, genesisHash, g, forks, head)
  {
    var more := forks[..i] + [c] + forks[i..];
    forall d ensures d in more <==> d in forks || d == c {
      assert forks == forks[..i] + forks[i..];
    }
    forall x ensures x in BlockPoints(more) <==> x in BlockPoints(forks) {
      BlockPointsBy(more, x);
      BlockPointsBy(forks, x);
    }
    forall x ensures x in TimePoints(more, g) <==> x in TimePoints(forks, g) {
      TimePointsBy(more, g, x);
      TimePointsBy(forks, g, x);
    }
    assert BlockPoints(more) == BlockPoints(forks);
    assert TimePoints(more, g) == TimePoints(forks, g);
  }

  lemma {:induction false} BlockPointsBy(forks: seq<ForkCondition>, x: nat)
    ensures x in BlockPoints(forks) <==> x != 0 && exists c :: c in forks && c.BlockPoint() == Some(x)
  {
    if c :| c in forks && c.BlockPoint() == Some(x) {
      var k :| 0 <= k < |forks| && forks[k] == c;
    }
  }

  lemma {:induction false} TimePointsBy(forks: seq<ForkCondition>, g: nat, x: nat)
    ensures x in TimePoints(forks, g) <==> exists c :: c in forks && c.TimePoint(g) == Some(x)
  {
    if c :| c in forks && c.TimePoint(g) == Some(x) {
      var k :| 0 <= k < |forks| && forks[k] == c;
    }
  }

  // ---------------------------------------------------------------------------------------
  // A head that satisfies a fork
  // ---------------------------------------------------------------------------------------

  /** What the search for the last block fork finds from position `i` on. */
  function LastBlockFork(forks: seq<ForkCondition>, i: nat): Option<nat>
    decreases |forks| - i
  {
    if i + 1 >= |forks| then None
    else match forks[i + 1]
         case TTD(Some(block), _) => Some(block)
         case TTD(None, _) => if forks[i].Block? then Some(forks[i].number) else LastBlockFork(forks, i + 1)
         case Timestamp(_) => if forks[i].Block? then Some(forks[i].number) else LastBlockFork(forks, i + 1)
         case _ => LastBlockFork(forks, i + 1)
  }

  method LastBlockForkBeforeMergeOrTimestamp(forks: seq<ForkCondition>) returns (r: Option<nat>)
    ensures r == LastBlockFork(forks, 0)
  {
    var i := 0;
    while i < |forks|
      invariant 0 <= i <= |forks|
      invariant LastBlockFork(forks, i) == LastBlockFork(forks, 0)
    {
      if i + 1 < |forks| {
        var next := forks[i + 1];
        if next.TTD? && next.forkBlock.Some? { return next.forkBlock; }
        if (next.TTD? || next.Timestamp?) && forks[i].Block? { return Some(forks[i].number); }
      }
      i := i + 1;
    }
    r := None;
  }

  function Satisfy(forks: seq<ForkCondition>, cond: ForkCondition): Head
    requires !cond.Never?
  {
    match cond
    case Block(n) => Head(n, 0, 0)
    case Timestamp(t) => Head(LastBlockFork(forks, 0).GetOr(0), t, 0)
    case TTD(b, ttd) => Head(b.GetOr(0), 0, ttd)
  }

  /** `n` block forks, at most one merge, then timestamp forks. */
  ghost predicate Staged(forks: seq<ForkCondition>, n: nat) {
    && n <= |forks|
    && (forall i :: 0 <= i < n ==> forks[i].Block?)
    && (n < |forks| ==> forks[n].TTD? || forks[n].Timestamp?)
    && (forall i :: n < i < |forks| ==> forks[i].Timestamp?)
  }

  lemma {:induction false} LastBlockForkStaged(forks: seq<ForkCondition>, n: nat, i: nat)
    requires Staged(forks, n) && n < |forks| && i < |forks|
    ensures LastBlockFork(forks, i) ==
              if i < n then (if forks[n].TTD? && forks[n].forkBlock.Some? then forks[n].forkBlock else Some(forks[n - 1].number))
              else None
    decreases |forks| - i
  {
    if i + 1 < |forks| {
      LastBlockForkStaged(forks, n, i + 1);
    }
  }

  /**
   The head built for a timestamp fork passes every block fork exactly when the list starts with
   a block fork, or the merge that comes first has no netsplit block above 0.
   */
  lemma {:induction false} SatisfyPassesBlocks(forks: seq<ForkCondition>, n: nat, t: nat)
    requires Ordered(forks) && Staged(forks, n) && Timestamp(t) in forks
    ensures Ahead(BlockPoints(forks), Satisfy(forks, Timestamp(t)).number) == {}
       <==> n > 0 || !(forks[0].TTD? && forks[0].forkBlock.Some? && forks[0].forkBlock.value > 0)
  {
    var number := Satisfy(forks, Timestamp(t)).number;
    LastBlockForkStaged(forks, n, 0);
    forall x | x in BlockPoints(forks)
      ensures n > 0 ==> x <= number
      ensures n == 0 ==> forks[0].TTD? && forks[0].forkBlock == Some(x)
    {
      var k :| 0 <= k < |forks| && forks[k].BlockPoint() == Some(x) && x != 0;
      assert k <= n;
    }
    if n == 0 && forks[0].TTD? && forks[0].forkBlock.Some? && forks[0].forkBlock.value > 0 {
      assert forks[0].BlockPoint().value in BlockPoints(forks);
      assert forks[0].forkBlock.value in Ahead(BlockPoints(forks), number);
    }
  }

  /** A merge with a netsplit block and no block fork before it: the head for timestamp 9 is below that block. */
  lemma {:induction false} MergeComesFirst(forks: seq<ForkCondition>)
    requires forks == [TTD(Some(5), 0), Timestamp(9)]
    ensures Ordered(forks) && Staged(forks, 0)
    ensures Ahead(BlockPoints(forks), Satisfy(forks, Timestamp(9)).number) != {}
  {
    assert Timestamp(9) == forks[1];
    SatisfyPassesBlocks(forks, 0, 9);
  }

  /** So the fork id of a timestamp fork names a later timestamp next, or nothing. */
  lemma {:induction false} SatisfiedNextIsLater<H>(mix: (H, nat) -> H, genesisHash: H, g: nat, forks: seq<ForkCondition>, n: nat, t: nat)
    requires Ordered(forks) && Staged(forks, n) && n > 0 && Timestamp(t) in forks
    ensures var id := Computed(mix, genesisHash, g, forks, Satisfy(forks, Timestamp(t)));
            id.next == 0 || (id.next > t && Timestamp(id.next) in forks)
  {
    SatisfyPassesBlocks(forks, n, t);
    var times := TimePoints(forks, g);
    forall x | x in times ensures Timestamp(x) in forks {
      var k :| 0 <= k < |forks| && forks[k].TimePoint(g) == Some(x);
      assert forks[k] == Timestamp(x);
    }
  }
}
