/**
 The state reader that lays in-memory blocks over the database
 (crates/chain-state/src/memory_overlay.rs). `mem` lists the blocks newest first.
 */
module Overlay {
  import opened Prelude
  import opened Blocks

  // ---------------------------------------------------------------------------------------
  // The readers: first hit, newest block first, database last
  // ---------------------------------------------------------------------------------------

  function BasicAccount(mem: seq<ExecutedBlock>, db: Database, a: Address): Option<Account> {
    if mem == [] then db.BasicAccount(a)
    else match mem[0].output.Account(a)
         case Some(account) => account
         case None => BasicAccount(mem[1..], db, a)
  }

  function Storage(mem: seq<ExecutedBlock>, db: Database, a: Address, slot: Slot): Option<Word> {
    if mem == [] then db.Storage(a, slot)
    else match mem[0].output.Storage(a, slot)
         case Some(value) => Some(value)
         case None => Storage(mem[1..], db, a, slot)
  }

  function BytecodeByHash(mem: seq<ExecutedBlock>, db: Database, h: Hash): Option<Code> {
    if mem == [] then db.BytecodeByHash(h)
    else match mem[0].output.Bytecode(h)
         case Some(code) => Some(code)
         case None => BytecodeByHash(mem[1..], db, h)
  }

  function BlockHash(mem: seq<ExecutedBlock>, db: Database, n: nat): Option<Hash> {
    if mem == [] then db.BlockHash(n)
    else if mem[0].number == n then Some(mem[0].hash)
    else BlockHash(mem[1..], db, n)
  }

  // ---------------------------------------------------------------------------------------
  // Reference: the newest write wins
  // ---------------------------------------------------------------------------------------

  /** The last present write of a list, oldest first, or `base` if there is none. */
  function Latest<V>(writes: seq<Option<V>>, base: V): V {
    if writes == [] then base
    else match writes[|writes| - 1]
         case Some(v) => v
         case None => Latest(writes[..|writes| - 1], base)
  }

  /** Replaying writes that the base already contains changes nothing. */
  lemma {:induction false} LatestOverlap<V>(writes: seq<Option<V>>, base: V, r: nat, d: nat)
    requires r <= d <= |writes|
    ensures Latest(writes[r..], Latest(writes[..d], base)) == Latest(writes, base)
  {
    var n := |writes|;
    if r < n {
      var init := writes[..n - 1];
      assert writes[r..][..n - r - 1] == init[r..];
      if d < n {
        assert writes[..d] == init[..d];
        LatestOverlap(init, base, r, d);
      } else {
        assert writes[..d] == writes && init[..n - 1] == init;
        LatestOverlap(init, base, r, n - 1);
      }
    } else {
      assert writes[..d] == writes;
    }
  }

  function AccountWrites(chain: seq<ExecutedBlock>, a: Address): seq<Option<Option<Account>>> {
    seq(|chain|, i requires 0 <= i < |chain| => chain[i].output.Account(a))
  }

  function StorageWrites(chain: seq<ExecutedBlock>, a: Address, slot: Slot): seq<Option<Word>> {
    seq(|chain|, i requires 0 <= i < |chain| => chain[i].output.Storage(a, slot))
  }

  function CodeWrites(chain: seq<ExecutedBlock>, h: Hash): seq<Option<Option<Code>>> {
    seq(|chain|, i requires 0 <= i < |chain| =>
      match chain[i].output.Bytecode(h) case Some(c) => Some(Some(c)) case None => None)
  }

  function HashWrites(chain: seq<ExecutedBlock>, n: nat): seq<Option<Option<Hash>>> {
    seq(|chain|, i requires 0 <= i < |chain| =>
      if chain[i].number == n then Some(Some(chain[i].hash)) else None)
  }

  lemma {:induction false} OverlayAccount(chain: seq<ExecutedBlock>, db: Database, a: Address)
    ensures BasicAccount(Reversed(chain), db, a) == Latest(AccountWrites(chain, a), db.BasicAccount(a))
  {
    if chain != [] {
      var init := chain[..|chain| - 1];
      assert AccountWrites(chain, a)[..|init|] == AccountWrites(init, a);
      assert Reversed(chain)[1..] == Reversed(init);
      OverlayAccount(init, db, a);
    }
  }

  lemma {:induction false} AppliedAccount(chain: seq<ExecutedBlock>, db: Database, a: Address)
    ensures ApplyAll(db, chain).BasicAccount(a) == Latest(AccountWrites(chain, a), db.BasicAccount(a))
  {
    if chain != [] {
      var init := chain[..|chain| - 1];
      assert AccountWrites(chain, a)[..|init|] == AccountWrites(init, a);
      AppliedAccount(init, db, a);
      ApplyReads(ApplyAll(db, init), chain[|init|], a, 0, 0, 0);
    }
  }

  lemma {:induction false} OverlayStorage(chain: seq<ExecutedBlock>, db: Database, a: Address, slot: Slot)
    ensures Storage(Reversed(chain), db, a, slot).GetOr(0)
         == Latest(StorageWrites(chain, a, slot), db.Storage(a, slot).GetOr(0))
  {
    if chain != [] {
      var init := chain[..|chain| - 1];
      assert StorageWrites(chain, a, slot)[..|init|] == StorageWrites(init, a, slot);
      assert Reversed(chain)[1..] == Reversed(init);
      OverlayStorage(init, db, a, slot);
    }
  }

  lemma {:induction false} AppliedStorage(chain: seq<ExecutedBlock>, db: Database, a: Address, slot: Slot)
    ensures ApplyAll(db, chain).Storage(a, slot).GetOr(0)
         == Latest(StorageWrites(chain, a, slot), db.Storage(a, slot).GetOr(0))
  {
    if chain != [] {
      var init := chain[..|chain| - 1];
      assert StorageWrites(chain, a, slot)[..|init|] == StorageWrites(init, a, slot);
      AppliedStorage(init, db, a, slot);
      ApplyReads(ApplyAll(db, init), chain[|init|], a, slot, 0, 0);
    }
  }

  lemma {:induction false} OverlayCode(chain: seq<ExecutedBlock>, db: Database, h: Hash)
    ensures BytecodeByHash(Reversed(chain), db, h) == Latest(CodeWrites(chain, h), db.BytecodeByHash(h))
  {
    if chain != [] {
      var init := chain[..|chain| - 1];
      assert CodeWrites(chain, h)[..|init|] == CodeWrites(init, h);
      assert Reversed(chain)[1..] == Reversed(init);
      OverlayCode(init, db, h);
    }
  }

  lemma {:induction false} AppliedCode(chain: seq<ExecutedBlock>, db: Database, h: Hash)
    ensures ApplyAll(db, chain).BytecodeByHash(h) == Latest(CodeWrites(chain, h), db.BytecodeByHash(h))
  {
    if chain != [] {
      var init := chain[..|chain| - 1];
      assert CodeWrites(chain, h)[..|init|] == CodeWrites(init, h);
      AppliedCode(init, db, h);
      ApplyReads(ApplyAll(db, init), chain[|init|], 0, 0, h, 0);
    }
  }

  lemma {:induction false} OverlayHash(chain: seq<ExecutedBlock>, db: Database, n: nat)
    ensures BlockHash(Reversed(chain), db, n) == Latest(HashWrites(chain, n), db.BlockHash(n))
  {
    if chain != [] {
      var init := chain[..|chain| - 1];
      assert HashWrites(chain, n)[..|init|] == HashWrites(init, n);
      assert Reversed(chain)[1..] == Reversed(init);
      OverlayHash(init, db, n);
    }
  }

  lemma {:induction false} AppliedHash(chain: seq<ExecutedBlock>, db: Database, n: nat)
    ensures ApplyAll(db, chain).BlockHash(n) == Latest(HashWrites(chain, n), db.BlockHash(n))
  {
    if chain != [] {
      var init := chain[..|chain| - 1];
      assert HashWrites(chain, n)[..|init|] == HashWrites(init, n);
      AppliedHash(init, db, n);
      ApplyReads(ApplyAll(db, init), chain[|init|], 0, 0, 0, n);
    }
  }

  // ---------------------------------------------------------------------------------------
  // Reading through the overlay is reading the state after the last block
  // ---------------------------------------------------------------------------------------

  /** Every read through the overlay `(mem, db)` answers as the database `target` would. */
  ghost predicate SameView(mem: seq<ExecutedBlock>, db: Database, target: Database) {
    && (forall a :: BasicAccount(mem, db, a) == target.BasicAccount(a))
    && (forall a, slot :: Storage(mem, db, a, slot).GetOr(0) == target.Storage(a, slot).GetOr(0))
    && (forall h :: BytecodeByHash(mem, db, h) == target.BytecodeByHash(h))
    && (forall n :: BlockHash(mem, db, n) == target.BlockHash(n))
  }

  /**
   For any chain over any database: dropping the oldest `r` blocks from memory and writing the
   oldest `d` blocks to the database, for any r <= d, leaves every read at the head unchanged,
   namely what a database with the whole chain written answers.
   */
  lemma {:induction false} PersistenceIsInvisible(chain: seq<ExecutedBlock>, db: Database, r: nat, d: nat)
    requires r <= d <= |chain|
    ensures SameView(Reversed(chain[r..]), ApplyAll(db, chain[..d]), ApplyAll(db, chain))
  {
    var low := ApplyAll(db, chain[..d]);
    forall a ensures BasicAccount(Reversed(chain[r..]), low, a) == ApplyAll(db, chain).BasicAccount(a) {
      AccountOverlap(chain, db, r, d, a);
    }
    forall a, slot ensures Storage(Reversed(chain[r..]), low, a, slot).GetOr(0)
                        == ApplyAll(db, chain).Storage(a, slot).GetOr(0) {
      StorageOverlap(chain, db, r, d, a, slot);
    }
    forall h ensures BytecodeByHash(Reversed(chain[r..]), low, h) == ApplyAll(db, chain).BytecodeByHash(h) {
      CodeOverlap(chain, db, r, d, h);
    }
    forall n ensures BlockHash(Reversed(chain[r..]), low, n) == ApplyAll(db, chain).BlockHash(n) {
      HashOverlap(chain, db, r, d, n);
    }
  }

  lemma {:induction false} AccountOverlap(chain: seq<ExecutedBlock>, db: Database, r: nat, d: nat, a: Address)
    requires r <= d <= |chain|
    ensures BasicAccount(Reversed(chain[r..]), ApplyAll(db, chain[..d]), a)
         == ApplyAll(db, chain).BasicAccount(a)
  {
    var w := AccountWrites(chain, a);
    assert AccountWrites(chain[r..], a) == w[r..] && AccountWrites(chain[..d], a) == w[..d];
    OverlayAccount(chain[r..], ApplyAll(db, chain[..d]), a);
    AppliedAccount(chain[..d], db, a);
    AppliedAccount(chain, db, a);
    LatestOverlap(w, db.BasicAccount(a), r, d);
  }

  lemma {:induction false} StorageOverlap(chain: seq<ExecutedBlock>, db: Database, r: nat, d: nat, a: Address, slot: Slot)
    requires r <= d <= |chain|
    ensures Storage(Reversed(chain[r..]), ApplyAll(db, chain[..d]), a, slot).GetOr(0)
         == ApplyAll(db, chain).Storage(a, slot).GetOr(0)
  {
    var w := StorageWrites(chain, a, slot);
    assert StorageWrites(chain[r..], a, slot) == w[r..] && StorageWrites(chain[..d], a, slot) == w[..d];
    OverlayStorage(chain[r..], ApplyAll(db, chain[..d]), a, slot);
    AppliedStorage(chain[..d], db, a, slot);
    AppliedStorage(chain, db, a, slot);
    LatestOverlap(w, db.Storage(a, slot).GetOr(0), r, d);
  }

  lemma {:induction false} CodeOverlap(chain: seq<ExecutedBlock>, db: Database, r: nat, d: nat, h: Hash)
    requires r <= d <= |chain|
    ensures BytecodeByHash(Reversed(chain[r..]), ApplyAll(db, chain[..d]), h)
         == ApplyAll(db, chain).BytecodeByHash(h)
  {
    var w := CodeWrites(chain, h);
    assert CodeWrites(chain[r..], h) == w[r..] && CodeWrites(chain[..d], h) == w[..d];
    OverlayCode(chain[r..], ApplyAll(db, chain[..d]), h);
    AppliedCode(chain[..d], db, h);
    AppliedCode(chain, db, h);
    LatestOverlap(w, db.BytecodeByHash(h), r, d);
  }

  lemma {:induction false} HashOverlap(chain: seq<ExecutedBlock>, db: Database, r: nat, d: nat, n: nat)
    requires r <= d <= |chain|
    ensures BlockHash(Reversed(chain[r..]), ApplyAll(db, chain[..d]), n)
         == ApplyAll(db, chain).BlockHash(n)
  {
    var w := HashWrites(chain, n);
    assert HashWrites(chain[r..], n) == w[r..] && HashWrites(chain[..d], n) == w[..d];
    OverlayHash(chain[r..], ApplyAll(db, chain[..d]), n);
    AppliedHash(chain[..d], db, n);
    AppliedHash(chain, db, n);
    LatestOverlap(w, db.BlockHash(n), r, d);
  }

  ghost predicate NoZeroSlots(db: Database) {
    forall a, slot :: db.Storage(a, slot) != Some(0)
  }

  lemma {:induction false} ApplyAllNoZeroSlots(db: Database, chain: seq<ExecutedBlock>)
    requires NoZeroSlots(db)
    ensures NoZeroSlots(ApplyAll(db, chain))
  {
    if chain != [] {
      ApplyAllNoZeroSlots(db, chain[..|chain| - 1]);
    }
  }

  /** Block `i` is the last one to write the slot. */
  ghost predicate LastWrite(chain: seq<ExecutedBlock>, a: Address, slot: Slot, i: nat) {
    && i < |chain| && chain[i].output.Storage(a, slot).Some?
    && forall j :: i < j < |chain| ==> chain[j].output.Storage(a, slot) == None
  }

  lemma {:induction false} OverlayLastWrite(chain: seq<ExecutedBlock>, db: Database, a: Address, slot: Slot, i: nat)
    requires LastWrite(chain, a, slot, i)
    ensures Storage(Reversed(chain), db, a, slot) == chain[i].output.Storage(a, slot)
  {
    var init := chain[..|chain| - 1];
    assert Reversed(chain)[1..] == Reversed(init);
    if i < |init| { OverlayLastWrite(init, db, a, slot, i); }
  }

  lemma {:induction false} OverlayNoWrite(chain: seq<ExecutedBlock>, db: Database, a: Address, slot: Slot)
    requires forall j :: 0 <= j < |chain| ==> chain[j].output.Storage(a, slot) == None
    ensures Storage(Reversed(chain), db, a, slot) == db.Storage(a, slot)
  {
    if chain != [] {
      var init := chain[..|chain| - 1];
      assert Reversed(chain)[1..] == Reversed(init);
      OverlayNoWrite(init, db, a, slot);
    }
  }

  /** Either nobody writes the slot, or there is a last one to do so. */
  lemma {:induction false} FindLastWrite(chain: seq<ExecutedBlock>, a: Address, slot: Slot) returns (i: Option<nat>)
    ensures i.Some? ==> LastWrite(chain, a, slot, i.value)
    ensures i == None ==> forall j :: 0 <= j < |chain| ==> chain[j].output.Storage(a, slot) == None
  {
    if chain == [] {
      return None;
    }
    var n := |chain| - 1;
    if chain[n].output.Storage(a, slot).Some? {
      return Some(n);
    }
    i := FindLastWrite(chain[..n], a, slot);
  }

  /** The last write of the slot is an explicit zero, and pruning `r` blocks drops it. */
  ghost predicate PrunesZero(chain: seq<ExecutedBlock>, r: nat, a: Address, slot: Slot) {
    exists i :: 0 <= i < r && LastWrite(chain, a, slot, i) && chain[i].output.Storage(a, slot) == Some(0)
  }

  lemma {:induction false} PrunesZeroIs(chain: seq<ExecutedBlock>, r: nat, a: Address, slot: Slot, i: nat)
    requires LastWrite(chain, a, slot, i)
    ensures PrunesZero(chain, r, a, slot) <==> i < r && chain[i].output.Storage(a, slot) == Some(0)
  {
    if PrunesZero(chain, r, a, slot) {
      var k :| 0 <= k < r && LastWrite(chain, a, slot, k) && chain[k].output.Storage(a, slot) == Some(0);
      assert k == i;
    }
  }

  lemma {:induction false} LastWriteStays(chain: seq<ExecutedBlock>, a: Address, slot: Slot, i: nat, r: nat)
    requires LastWrite(chain, a, slot, i) && r <= i
    ensures LastWrite(chain[r..], a, slot, i - r) && chain[r..][i - r] == chain[i]
  {
  }

  /** In a database without zeros the optional answer follows from the plain one. */
  lemma {:induction false} OptionFromWord(db: Database, a: Address, slot: Slot)
    requires NoZeroSlots(db)
    ensures db.Storage(a, slot) == if db.Storage(a, slot).GetOr(0) == 0 then None else Some(db.Storage(a, slot).GetOr(0))
  {
  }

  /** Once the last write is pruned, the answer is the database's, which holds no zeros. */
  lemma {:induction false} PrunedAnswer(chain: seq<ExecutedBlock>, db: Database, r: nat, d: nat, a: Address, slot: Slot)
    requires NoZeroSlots(db) && r <= d <= |chain|
    requires forall j :: r <= j < |chain| ==> chain[j].output.Storage(a, slot) == None
    ensures var v := Storage(Reversed(chain), db, a, slot).GetOr(0);
            Storage(Reversed(chain[r..]), ApplyAll(db, chain[..d]), a, slot) == if v == 0 then None else Some(v)
  {
    var low := ApplyAll(db, chain[..d]);
    OverlayNoWrite(chain[r..], low, a, slot);
    ApplyAllNoZeroSlots(db, chain[..d]);
    OptionFromWord(low, a, slot);
    StorageOverlap(chain, db, r, d, a, slot);
    StorageOverlap(chain, db, 0, 0, a, slot);
    assert chain[0..] == chain && ApplyAll(db, chain[..0]) == db;
  }

  /**
   The *optional* storage answer is not preserved by persistence: an explicit zero in memory
   becomes a missing entry on disk. Dropping the oldest `r` blocks from memory over a database
   with the oldest `d` written preserves it exactly when the slot's last write is not a zero
   among the dropped blocks.
   */
  lemma {:induction false} StorageOptionPreserved(chain: seq<ExecutedBlock>, db: Database, r: nat, d: nat, a: Address, slot: Slot)
    requires NoZeroSlots(db) && r <= d <= |chain|
    ensures Storage(Reversed(chain[r..]), ApplyAll(db, chain[..d]), a, slot) == Storage(Reversed(chain), db, a, slot)
       <==> !PrunesZero(chain, r, a, slot)
  {
    var last := FindLastWrite(chain, a, slot);
    if last == None {
      PrunedAnswer(chain, db, r, d, a, slot);
      OverlayNoWrite(chain, db, a, slot);
      OptionFromWord(db, a, slot);
    } else {
      PrunesZeroIs(chain, r, a, slot, last.value);
      OverlayLastWrite(chain, db, a, slot, last.value);
      if last.value < r {
        PrunedAnswer(chain, db, r, d, a, slot);
      } else {
        LastWriteStays(chain, a, slot, last.value, r);
        OverlayLastWrite(chain[r..], ApplyAll(db, chain[..d]), a, slot, last.value - r);
      }
    }
  }

  lemma {:induction false} StorageOptionLost()
    ensures exists b: ExecutedBlock, db: Database ::
              NoZeroSlots(db) && Storage([b], db, 1, 1) != Storage([], ApplyAll(db, [b]), 1, 1)
  {
    var b := ExecutedBlock(1, 11, 10, Output(map[1 := BundleAccount(None, map[1 := 0], false)], map[]));
    var db := Database(a => None, (a, i) => if a == 1 && i == 1 then Some(5) else None, h => None, n => None);
    assert Reversed([b]) == [b] && [b][1..] == [] && [b][..1] == [b];
    assert LastWrite([b], 1, 1, 0);
    StorageOptionPreserved([b], db, 1, 1, 1, 1);
  }

  // ---------------------------------------------------------------------------------------
  // The range query
  // ---------------------------------------------------------------------------------------

  /** Reference: ask for every number in turn and keep the answers. */
  function KnownHashes(mem: seq<ExecutedBlock>, db: Database, start: nat, end: nat): seq<Hash>
    decreases end - start
  {
    if start >= end then []
    else (match BlockHash(mem, db, start) case Some(h) => [h] case None => [])
         + KnownHashes(mem, db, start + 1, end)
  }

  lemma {:induction false} KnownHashesSplit(mem: seq<ExecutedBlock>, db: Database, start: nat, mid: nat, end: nat)
    requires start <= mid <= end
    ensures KnownHashes(mem, db, start, end) == KnownHashes(mem, db, start, mid) + KnownHashes(mem, db, mid, end)
    decreases mid - start
  {
    if start < mid {
      KnownHashesSplit(mem, db, start + 1, mid, end);
    }
  }

  lemma {:induction false} KnownHashesFromDb(mem: seq<ExecutedBlock>, db: Database, start: nat, end: nat)
    requires forall n :: start <= n < end ==> BlockHash(mem, db, n) == db.BlockHash(n)
    ensures KnownHashes(mem, db, start, end) == KnownHashes([], db, start, end)
    decreases end - start
  {
    if start < end {
      KnownHashesFromDb(mem, db, start + 1, end);
    }
  }

  lemma {:induction false} KnownHashesNone(mem: seq<ExecutedBlock>, db: Database, start: nat, end: nat)
    ensures KnownHashes(mem, db, start, end) == []
       <==> forall n :: start <= n < end ==> BlockHash(mem, db, n) == None
    decreases end - start
  {
    if start < end {
      KnownHashesNone(mem, db, start + 1, end);
      assert KnownHashes(mem, db, start, end) == []
        <==> BlockHash(mem, db, start) == None && KnownHashes(mem, db, start + 1, end) == [];
      assert (forall n :: start <= n < end ==> BlockHash(mem, db, n) == None)
        <==> BlockHash(mem, db, start) == None && forall n :: start + 1 <= n < end ==> BlockHash(mem, db, n) == None;
    }
  }

  /** Newest first, one number apart. */
  predicate Descending(mem: seq<ExecutedBlock>) {
    forall i :: 0 <= i < |mem| ==> mem[i].number + i == mem[0].number
  }

  lemma {:induction false} BlockHashInMemory(mem: seq<ExecutedBlock>, db: Database, n: nat)
    requires Descending(mem)
    ensures BlockHash(mem, db, n) ==
              if mem != [] && mem[|mem| - 1].number <= n <= mem[0].number
              then Some(mem[mem[0].number - n].hash) else db.BlockHash(n)
  {
    if mem != [] && mem[0].number != n {
      assert Descending(mem[1..]) by {
        forall i | 0 <= i < |mem| - 1 ensures mem[1..][i].number + i == mem[1..][0].number {
          assert mem[i + 1].number + (i + 1) == mem[0].number && mem[1].number + 1 == mem[0].number;
        }
      }
      BlockHashInMemory(mem[1..], db, n);
      if |mem| > 1 { assert mem[1].number + 1 == mem[0].number; }
    }
  }

  /** Some in-memory block has its number in [start, end). */
  predicate Meets(mem: seq<ExecutedBlock>, start: nat, end: nat) {
    mem != [] && Max(start, mem[|mem| - 1].number) < Min(end, mem[0].number + 1)
  }

  lemma {:induction false} KnownHashesFirst(mem: seq<ExecutedBlock>, db: Database, i: nat, end: nat)
    requires Descending(mem) && i < |mem| && mem[i].number < end
    ensures KnownHashes(mem, db, mem[i].number, end) == [mem[i].hash] + KnownHashes(mem, db, mem[i].number + 1, end)
  {
    BlockHashInMemory(mem, db, mem[i].number);
  }

  lemma {:induction false} ReversedAppend<T>(s: seq<T>, x: T)
    ensures Reversed(s + [x]) == [x] + Reversed(s)
  {
    assert (s + [x])[..|s|] == s;
  }

  /** Collects the in-memory hashes of the range, newest first, and the lowest number among them. */
  method CollectInMemory(mem: seq<ExecutedBlock>, ghost db: Database, start: nat, end: nat)
    returns (earliest: Option<nat>, inMemory: seq<Hash>)
    requires Descending(mem)
    ensures !Meets(mem, start, end) ==> earliest == None && inMemory == []
    ensures Meets(mem, start, end) ==>
              var m := Max(start, mem[|mem| - 1].number);
              earliest == Some(m) && Reversed(inMemory) == KnownHashes(mem, db, m, Min(end, mem[0].number + 1))
  {
    earliest, inMemory := None, [];
    ghost var top := if mem == [] then 0 else mem[0].number + 1;
    for i := 0 to |mem|
      invariant i <= top
      invariant Max(start, top - i) >= Min(end, top) ==> earliest == None && inMemory == []
      invariant Max(start, top - i) < Min(end, top) ==>
                  && earliest == Some(Max(start, top - i))
                  && Reversed(inMemory) == KnownHashes(mem, db, Max(start, top - i), Min(end, top))
    {
      var number := mem[i].number;
      assert number == top - i - 1;
      if start <= number < end {
        KnownHashesFirst(mem, db, i, Min(end, top));
        ReversedAppend(inMemory, mem[i].hash);
        inMemory := inMemory + [mem[i].hash];
        earliest := Some(number);
      }
    }
  }

  /**
   The range query answers exactly as one query per number would, in ascending order, with no
   gap and no duplicate where memory meets the database, if and only if the database knows no
   number of the range beyond the newest in-memory block (or memory is not involved at all).
   */
  method CanonicalHashesRange(mem: seq<ExecutedBlock>, db: Database, start: nat, end: nat) returns (hashes: seq<Hash>)
    requires Descending(mem)
    ensures hashes == KnownHashes(mem, db, start, end)
       <==> (Meets(mem, start, end) ==> forall n :: mem[0].number < n < end ==> db.BlockHash(n) == None)
    ensures Meets(mem, start, end) ==> hashes == KnownHashes(mem, db, start, Min(end, mem[0].number + 1))
  {
    var earliest, inMemory := CollectInMemory(mem, db, start, end);
    RangeSeam(mem, db, start, end);
    var until := earliest.GetOr(end);
    hashes := KnownHashes([], db, start, until) + Reversed(inMemory);
  }

  /** Block 1 in memory, block 2 in the database: the range query misses block 2. */
  lemma {:induction false} RangeStopsAtMemory(b: ExecutedBlock, db: Database)
    requires b.number == 1 && db.BlockHash(2) == Some(9)
    ensures Descending([b]) && Meets([b], 0, 3) && KnownHashes([b], db, 0, 3) == KnownHashes([b], db, 0, 2) + [9]
  {
    KnownHashesSplit([b], db, 0, 2, 3);
    BlockHashInMemory([b], db, 2);
    assert KnownHashes([b], db, 2, 3) == [9] + KnownHashes([b], db, 3, 3);
  }

  /** Below memory and above it the database answers, in between memory does. */
  lemma {:induction false} RangeSeam(mem: seq<ExecutedBlock>, db: Database, start: nat, end: nat)
    requires Descending(mem)
    ensures !Meets(mem, start, end) ==> KnownHashes(mem, db, start, end) == KnownHashes([], db, start, end)
    ensures Meets(mem, start, end) ==>
              var m, e := Max(start, mem[|mem| - 1].number), Min(end, mem[0].number + 1);
              var above := KnownHashes(mem, db, e, end);
              && KnownHashes(mem, db, start, e) == KnownHashes([], db, start, m) + KnownHashes(mem, db, m, e)
              && KnownHashes(mem, db, start, end) == KnownHashes(mem, db, start, e) + above
              && (above == [] <==> forall n :: mem[0].number < n < end ==> db.BlockHash(n) == None)
  {
    forall n: nat ensures BlockHash(mem, db, n) ==
              if mem != [] && mem[|mem| - 1].number <= n <= mem[0].number
              then Some(mem[mem[0].number - n].hash) else db.BlockHash(n) {
      BlockHashInMemory(mem, db, n);
    }
    if Meets(mem, start, end) {
      var m, e := Max(start, mem[|mem| - 1].number), Min(end, mem[0].number + 1);
      KnownHashesSplit(mem, db, start, e, end);
      KnownHashesSplit(mem, db, start, m, e);
      KnownHashesFromDb(mem, db, start, m);
      KnownHashesNone(mem, db, e, end);
      var above := KnownHashes(mem, db, e, end);
      if above == [] {
        forall n | mem[0].number < n < end ensures db.BlockHash(n) == None {
          assert BlockHash(mem, db, n) == None;
        }
      } else {
        var n :| e <= n < end && BlockHash(mem, db, n) != None;
        assert mem[0].number < n < end && db.BlockHash(n) != None;
      }
    } else {
      KnownHashesFromDb(mem, db, start, end);
    }
  }
}
