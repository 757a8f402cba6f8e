/**
 The canonical blocks that are not on disk yet (crates/chain-state/src/in_memory.rs): two maps,
 hash to block state and number to hash, and one pending block. Each update happens under both
 write locks, so it is one atomic step here.
 */
module ChainState {
  import opened Prelude
  import opened Blocks

  /** A block with its immutable chain of in-memory ancestors. */
  datatype BlockState = BlockState(block: ExecutedBlock, parent: Option<BlockState>)
  {
    /** This block and its in-memory ancestors, newest first. */
    function Chain(): seq<BlockState> {
      [this] + match parent
               case Some(p) => p.Chain()
               case None => []
    }

    /** The first block of the chain with the given number. */
    function BlockOnChainByNumber(n: nat): Option<BlockState> {
      if block.number == n then Some(this)
      else match parent
           case Some(p) => p.BlockOnChainByNumber(n)
           case None => None
    }

    /** The first block of the chain with the given hash. */
    function BlockOnChainByHash(h: Hash): Option<BlockState> {
      if block.hash == h then Some(this)
      else match parent
           case Some(p) => p.BlockOnChainByHash(h)
           case None => None
    }
  }

  function BlocksOf(states: seq<BlockState>): seq<ExecutedBlock> {
    seq(|states|, i requires 0 <= i < |states| => states[i].block)
  }

  /** The contents of the two maps and the pending slot. */
  datatype Memory = Memory(blocks: map<Hash, BlockState>, numbers: map<nat, Hash>, pending: Option<BlockState>)

  // ---------------------------------------------------------------------------------------
  // Consistency, stated on the maps alone
  // ---------------------------------------------------------------------------------------

  /** The number index points at a block with that number. */
  ghost predicate NumberEntry(m: Memory, n: nat)
    requires n in m.numbers
  {
    m.numbers[n] in m.blocks && m.blocks[m.numbers[n]].block.number == n
  }

  /** A block is stored under its own hash and the number index points back at it. */
  ghost predicate BlockEntry(m: Memory, h: Hash)
    requires h in m.blocks
  {
    var b := m.blocks[h].block;
    b.hash == h && b.number in m.numbers && m.numbers[b.number] == h
  }

  /** The stored parent is the map entry one number below, and there is none for the lowest. */
  ghost predicate ParentEntry(m: Memory, h: Hash)
    requires h in m.blocks
  {
    var s := m.blocks[h];
    if s.block.number > 0 && s.block.number - 1 in m.numbers then
      && m.numbers[s.block.number - 1] == s.block.parentHash
      && s.parent.Some? && s.parent == Lookup(m.blocks, s.block.parentHash)
    else s.parent == None
  }

  ghost predicate Interval(numbers: map<nat, Hash>, low: nat, high: nat) {
    forall n: nat :: n in numbers <==> low <= n < high
  }

  /**
   The two maps are inverse indexes over a contiguous range of numbers, every parent link is the
   map entry below, and the pending block's parent is the map entry for its parent hash.
   */
  ghost predicate Consistent(m: Memory) {
    && (forall n {:trigger NumberEntry(m, n)} :: n in m.numbers ==> NumberEntry(m, n))
    && (forall h {:trigger BlockEntry(m, h)} :: h in m.blocks ==> BlockEntry(m, h))
    && (forall h {:trigger ParentEntry(m, h)} :: h in m.blocks ==> ParentEntry(m, h))
    && (exists low, high :: Interval(m.numbers, low, high))
    && (m.pending.Some? ==> m.pending.value.parent == Lookup(m.blocks, m.pending.value.block.parentHash))
  }

  // ---------------------------------------------------------------------------------------
  // The list of blocks the maps stand for, oldest first
  // ---------------------------------------------------------------------------------------

  ghost predicate Distinct(a: ExecutedBlock, b: ExecutedBlock) {
    a.hash != b.hash
  }

  ghost predicate Follows(chain: seq<ExecutedBlock>, i: nat)
    requires 0 < i < |chain|
  {
    chain[i].number == chain[i - 1].number + 1 && chain[i].parentHash == chain[i - 1].hash
  }

  ghost predicate Linked(chain: seq<ExecutedBlock>) {
    && (forall i {:trigger Follows(chain, i)} :: 0 < i < |chain| ==> Follows(chain, i))
    && (forall i, j {:trigger Distinct(chain[i], chain[j])} ::
          0 <= i < j < |chain| ==> Distinct(chain[i], chain[j]))
  }

  lemma {:induction false} LinkedSlice(chain: seq<ExecutedBlock>, a: nat, b: nat)
    requires Linked(chain) && a <= b <= |chain|
    ensures Linked(chain[a..b])
  {
    var part := chain[a..b];
    forall i | 0 < i < |part| ensures Follows(part, i) {
      assert Follows(chain, a + i);
    }
    forall i, j | 0 <= i < j < |part| ensures Distinct(part[i], part[j]) {
      assert Distinct(chain[a + i], chain[a + j]);
    }
  }

  lemma {:induction false} LinkedNumber(chain: seq<ExecutedBlock>, i: nat)
    requires Linked(chain) && i < |chain|
    ensures chain[i].number == chain[0].number + i
  {
    if i > 0 {
      assert Follows(chain, i);
      LinkedNumber(chain, i - 1);
    }
  }

  /** The block state of the newest block of `chain`. */
  function Tip(chain: seq<ExecutedBlock>): Option<BlockState> {
    if chain == [] then None
    else Some(BlockState(chain[|chain| - 1], Tip(chain[..|chain| - 1])))
  }

  function BlockIndex(chain: seq<ExecutedBlock>): map<Hash, BlockState> {
    if chain == [] then map[]
    else BlockIndex(chain[..|chain| - 1])[chain[|chain| - 1].hash := Tip(chain).value]
  }

  function NumberIndex(chain: seq<ExecutedBlock>): map<nat, Hash> {
    if chain == [] then map[]
    else NumberIndex(chain[..|chain| - 1])[chain[|chain| - 1].number := chain[|chain| - 1].hash]
  }

  lemma {:induction false} BlockIndexEntry(chain: seq<ExecutedBlock>, i: nat)
    requires Linked(chain) && i < |chain|
    ensures Lookup(BlockIndex(chain), chain[i].hash) == Some(BlockState(chain[i], Tip(chain[..i])))
  {
    var n := |chain| - 1;
    if i < n {
      assert chain[..n][..i] == chain[..i];
      assert Distinct(chain[i], chain[n]);
      LinkedSlice(chain, 0, n);
      BlockIndexEntry(chain[..n], i);
    }
  }

  lemma {:induction false} BlockIndexKey(chain: seq<ExecutedBlock>, h: Hash) returns (i: nat)
    requires h in BlockIndex(chain)
    ensures i < |chain| && chain[i].hash == h
  {
    var n := |chain| - 1;
    if chain[n].hash == h {
      i := n;
    } else {
      i := BlockIndexKey(chain[..n], h);
    }
  }

  lemma {:induction false} NumberIndexEntry(chain: seq<ExecutedBlock>, n: nat)
    requires Linked(chain)
    ensures Lookup(NumberIndex(chain), n) ==
              if chain != [] && chain[0].number <= n < chain[0].number + |chain|
              then Some(chain[n - chain[0].number].hash) else None
  {
    if chain != [] {
      var k := |chain| - 1;
      LinkedSlice(chain, 0, k);
      LinkedNumber(chain, k);
      NumberIndexEntry(chain[..k], n);
    }
  }

  /** A chain and a pending block. The maps are a function of these. */
  datatype Canonical = Canonical(chain: seq<ExecutedBlock>, pending: Option<ExecutedBlock>)
  {
    function ToMemory(): Memory {
      var blocks := BlockIndex(chain);
      Memory(blocks, NumberIndex(chain),
             match pending
             case Some(b) => Some(BlockState(b, Lookup(blocks, b.parentHash)))
             case None => None)
    }
  }

  lemma {:induction false} ChainBlockEntry(c: Canonical, i: nat)
    requires Linked(c.chain) && i < |c.chain|
    ensures c.chain[i].hash in c.ToMemory().blocks
    ensures BlockEntry(c.ToMemory(), c.chain[i].hash) && ParentEntry(c.ToMemory(), c.chain[i].hash)
  {
    var chain := c.chain;
    BlockIndexEntry(chain, i);
    LinkedNumber(chain, i);
    NumberIndexEntry(chain, chain[i].number);
    if chain[i].number > 0 {
      NumberIndexEntry(chain, chain[i].number - 1);
    }
    if i > 0 {
      BlockIndexEntry(chain, i - 1);
      assert Follows(chain, i);
      assert chain[..i][..i - 1] == chain[..i - 1];
    }
  }

  lemma {:induction false} ChainNumberEntry(c: Canonical, n: nat)
    requires Linked(c.chain)
    ensures n in c.ToMemory().numbers <==>
              c.chain != [] && c.chain[0].number <= n < c.chain[0].number + |c.chain|
    ensures n in c.ToMemory().numbers ==> NumberEntry(c.ToMemory(), n)
  {
    NumberIndexEntry(c.chain, n);
    if n in c.ToMemory().numbers {
      var i := n - c.chain[0].number;
      LinkedNumber(c.chain, i);
      BlockIndexEntry(c.chain, i);
    }
  }

  /** The maps of a linked chain are consistent. */
  lemma {:induction false} LinkedIsConsistent(c: Canonical)
    requires Linked(c.chain)
    ensures Consistent(c.ToMemory())
  {
    var m, chain := c.ToMemory(), c.chain;
    forall n | n in m.numbers ensures NumberEntry(m, n) {
      ChainNumberEntry(c, n);
    }
    forall h | h in m.blocks ensures BlockEntry(m, h) && ParentEntry(m, h) {
      var i := BlockIndexKey(chain, h);
      ChainBlockEntry(c, i);
    }
    var low := if chain == [] then 0 else chain[0].number;
    assert Interval(m.numbers, low, low + |chain|) by {
      forall n: nat ensures n in m.numbers <==> low <= n < low + |chain| {
        ChainNumberEntry(c, n);
      }
    }
  }

  // ---------------------------------------------------------------------------------------
  // Readers
  // ---------------------------------------------------------------------------------------

  function StateByHash(m: Memory, h: Hash): Option<BlockState> {
    Lookup(m.blocks, h)
  }

  function StateByNumber(m: Memory, n: nat): Option<BlockState> {
    if n in m.numbers then StateByHash(m, m.numbers[n]) else None
  }

  ghost function HeadState(m: Memory): Option<BlockState> {
    if m.numbers.Keys == {} then None else StateByNumber(m, Greatest(m.numbers.Keys))
  }

  /** The blocks a state provider for block `h` lays over the database. */
  function ProviderBlocks(m: Memory, h: Hash): seq<ExecutedBlock> {
    match StateByHash(m, h)
    case Some(s) => BlocksOf(s.Chain())
    case None => []
  }

  /** What consistency says about one entry. */
  lemma {:induction false} EntryParent(m: Memory, s: BlockState, low: nat, high: nat)
    requires Consistent(m) && Interval(m.numbers, low, high) && StateByHash(m, s.block.hash) == Some(s)
    ensures low <= s.block.number < high && StateByNumber(m, s.block.number) == Some(s)
    ensures if s.block.number == low then s.parent == None
            else s.parent.Some? && s.parent.value.block.number == s.block.number - 1
                 && StateByHash(m, s.parent.value.block.hash) == s.parent
  {
    assert BlockEntry(m, s.block.hash) && ParentEntry(m, s.block.hash);
    if s.block.number > low {
      assert NumberEntry(m, s.block.number - 1);
      assert BlockEntry(m, s.block.parentHash);
    }
  }

  /** Walking down from any entry visits the map entries one number apart, down to the lowest. */
  lemma {:induction false} ChainWalksDown(m: Memory, s: BlockState, low: nat, high: nat)
    requires Consistent(m) && Interval(m.numbers, low, high) && StateByHash(m, s.block.hash) == Some(s)
    ensures low <= s.block.number < high && |s.Chain()| == s.block.number - low + 1
    ensures forall i :: 0 <= i < |s.Chain()| ==> StateByNumber(m, s.block.number - i) == Some(s.Chain()[i])
    decreases s
  {
    EntryParent(m, s, low, high);
    if s.parent.Some? {
      var p := s.parent.value;
      ChainWalksDown(m, p, low, high);
      assert s.Chain() == [s] + p.Chain();
    }
  }

  /** The head is the entry with the greatest number, the last of the interval. */
  lemma {:induction false} HeadIsTop(m: Memory, low: nat, high: nat)
    requires Consistent(m) && Interval(m.numbers, low, high) && m.numbers.Keys != {}
    ensures HeadState(m).Some?
    ensures var head := HeadState(m).value; head.block.number == high - 1 && StateByHash(m, head.block.hash) == Some(head)
  {
    var top := Greatest(m.numbers.Keys);
    assert top in m.numbers && NumberEntry(m, top);
    assert BlockEntry(m, m.numbers[top]);
    assert high - 1 in m.numbers;
  }

  /** Entry `h` is on the chain of any entry that is not below it. */
  lemma {:induction false} OnChainOf(m: Memory, s: BlockState, low: nat, high: nat, h: Hash)
    requires Consistent(m) && Interval(m.numbers, low, high) && StateByHash(m, s.block.hash) == Some(s)
    requires h in m.blocks && m.blocks[h].block.number <= s.block.number
    ensures s.block.number < m.blocks[h].block.number + |s.Chain()|
    ensures s.Chain()[s.block.number - m.blocks[h].block.number] == m.blocks[h]
  {
    assert BlockEntry(m, h);
    EntryParent(m, m.blocks[h], low, high);
    ChainWalksDown(m, s, low, high);
    var i := s.block.number - m.blocks[h].block.number;
    assert StateByNumber(m, s.block.number - i) == Some(s.Chain()[i]);
  }

  /** `head`'s chain lists exactly the entries of the maps, newest first. */
  ghost predicate ListsEverything(m: Memory, head: BlockState) {
    && (forall i :: 0 <= i < |head.Chain()| ==>
          i <= head.block.number && StateByNumber(m, head.block.number - i) == Some(head.Chain()[i]))
    && (forall h :: h in m.blocks ==>
          && m.blocks[h].block.number <= head.block.number < m.blocks[h].block.number + |head.Chain()|
          && head.Chain()[head.block.number - m.blocks[h].block.number] == m.blocks[h])
  }

  lemma {:induction false} TopListsEverything(m: Memory, head: BlockState, low: nat, high: nat)
    requires Consistent(m) && Interval(m.numbers, low, high)
    requires head.block.number == high - 1 && StateByHash(m, head.block.hash) == Some(head)
    ensures ListsEverything(m, head)
  {
    ChainWalksDown(m, head, low, high);
    forall h | h in m.blocks
      ensures && m.blocks[h].block.number <= head.block.number < m.blocks[h].block.number + |head.Chain()|
              && head.Chain()[head.block.number - m.blocks[h].block.number] == m.blocks[h]
    {
      assert BlockEntry(m, h);
      EntryParent(m, m.blocks[h], low, high);
      OnChainOf(m, head, low, high, h);
    }
  }

  /** `head_state().chain()` lists exactly the in-memory blocks, newest first. */
  lemma {:induction false} HeadChainIsEverything(m: Memory)
    requires Consistent(m) && m.numbers.Keys != {}
    ensures HeadState(m).Some? && ListsEverything(m, HeadState(m).value)
  {
    var low, high :| Interval(m.numbers, low, high);
    HeadIsTop(m, low, high);
    TopListsEverything(m, HeadState(m).value, low, high);
  }

  /** Searching the ancestors of an entry is looking it up in the maps, among the lower entries. */
  lemma {:induction false} BlockOnChainAgrees(m: Memory, s: BlockState, n: nat, h: Hash)
    requires Consistent(m) && StateByHash(m, s.block.hash) == Some(s)
    ensures s.BlockOnChainByNumber(n) == if n <= s.block.number then StateByNumber(m, n) else None
    ensures s.BlockOnChainByHash(h) ==
              if h in m.blocks && m.blocks[h].block.number <= s.block.number then StateByHash(m, h) else None
    decreases s
  {
    var low, high :| Interval(m.numbers, low, high);
    EntryParent(m, s, low, high);
    if h in m.blocks {
      assert BlockEntry(m, h);
      EntryParent(m, m.blocks[h], low, high);
    }
    if s.parent.Some? {
      BlockOnChainAgrees(m, s.parent.value, n, h);
    }
  }

  // ---------------------------------------------------------------------------------------
  // Index maintenance
  // ---------------------------------------------------------------------------------------

  /** Connecting a block to its parent entry and inserting it extends the chain. */
  lemma {:induction false} IndexAppend(chain: seq<ExecutedBlock>, b: ExecutedBlock)
    requires Linked(chain + [b])
    ensures BlockIndex(chain + [b]) ==
              BlockIndex(chain)[b.hash := BlockState(b, Lookup(BlockIndex(chain), b.parentHash))]
    ensures NumberIndex(chain + [b]) == NumberIndex(chain)[b.number := b.hash]
  {
    var longer := chain + [b];
    assert longer[..|longer| - 1] == chain;
    if chain != [] {
      LinkedSlice(longer, 0, |chain|);
      assert Follows(longer, |chain|);
      BlockIndexEntry(chain, |chain| - 1);
    }
    assert Tip(chain) == Lookup(BlockIndex(chain), b.parentHash);
    assert Tip(longer) == Some(BlockState(b, Tip(chain)));
  }

  /** `keys` holds the hashes of the blocks from `keep` on and of none below. */
  ghost predicate CutsHashes(chain: seq<ExecutedBlock>, keep: nat, keys: set<Hash>) {
    forall i :: 0 <= i < |chain| ==> (chain[i].hash in keys <==> keep <= i)
  }

  ghost predicate CutsNumbers(chain: seq<ExecutedBlock>, keep: nat, keys: set<nat>) {
    forall i :: 0 <= i < |chain| ==> (chain[i].number in keys <==> keep <= i)
  }

  lemma {:induction false} BlockIndexCut(chain: seq<ExecutedBlock>, keep: nat, keys: set<Hash>)
    requires keep <= |chain| && CutsHashes(chain, keep, keys)
    ensures BlockIndex(chain) - keys == BlockIndex(chain[..keep])
  {
    var n := |chain|;
    if keep == n {
      assert chain[..keep] == chain;
      forall h | h in BlockIndex(chain) ensures h !in keys {
        var i := BlockIndexKey(chain, h);
      }
    } else {
      assert chain[..n - 1][..keep] == chain[..keep];
      BlockIndexCut(chain[..n - 1], keep, keys);
    }
  }

  lemma {:induction false} NumberIndexCut(chain: seq<ExecutedBlock>, keep: nat, keys: set<nat>)
    requires keep <= |chain| && CutsNumbers(chain, keep, keys)
    ensures NumberIndex(chain) - keys == NumberIndex(chain[..keep])
  {
    var n := |chain|;
    if n > 0 {
      if keep == n {
        NumberIndexCut(chain[..n - 1], n - 1, keys);
        assert chain[..n - 1][..n - 1] == chain[..n - 1] && chain[..n] == chain;
      } else {
        assert chain[..n - 1][..keep] == chain[..keep];
        NumberIndexCut(chain[..n - 1], keep, keys);
      }
    }
  }

  // ---------------------------------------------------------------------------------------
  // Updates, on the list of blocks
  // ---------------------------------------------------------------------------------------

  /**
   A canonical-chain update. For a reorg, `keep` is the number of in-memory blocks below the
   point where the chains diverge.
   */
  datatype Op =
    | Commit(added: seq<ExecutedBlock>)
    | Reorg(added: seq<ExecutedBlock>, removed: seq<ExecutedBlock>, keep: nat)
    | RemovePersisted(number: nat, hash: Hash, until: nat)
    | SetPending(block: ExecutedBlock)
    | Clear

  ghost function HashesOf(blocks: seq<ExecutedBlock>): set<Hash> {
    set i | 0 <= i < |blocks| :: blocks[i].hash
  }

  ghost function NumbersOf(blocks: seq<ExecutedBlock>): set<nat> {
    set i | 0 <= i < |blocks| :: blocks[i].number
  }

  /** How many blocks of a linked chain have a number of at most `cut`. */
  function Prunable(chain: seq<ExecutedBlock>, cut: nat): (r: nat)
    ensures r <= |chain|
  {
    if chain == [] || cut < chain[0].number then 0
    else if cut - chain[0].number + 1 > |chain| then |chain|
    else cut - chain[0].number + 1
  }

  ghost function Step(c: Canonical, op: Op): Canonical {
    match op
    case Commit(added) => Canonical(c.chain + added, None)
    case Reorg(added, removed, keep) => if keep <= |c.chain| then Canonical(c.chain[..keep] + added, None) else c
    case RemovePersisted(number, hash, until) =>
      if hash in HashesOf(c.chain)
      then c.(chain := c.chain[Prunable(c.chain, if until < number then until else number)..])
      else c
    case SetPending(b) => c.(pending := Some(b))
    case Clear => Canonical([], None)
  }

  /**
   What the callers guarantee: new blocks link up with the block they follow, and the old blocks
   of a reorg are the in-memory blocks above the fork, in any order and possibly with blocks
   that have left memory already.
   */
  ghost predicate Allowed(c: Canonical, op: Op) {
    match op
    case Commit(added) => Linked(c.chain + added)
    case Reorg(added, removed, keep) =>
      && keep <= |c.chain|
      && CutsHashes(c.chain, keep, HashesOf(removed)) && CutsNumbers(c.chain, keep, NumbersOf(removed))
      && Linked(c.chain[..keep] + added)
    case _ => true
  }

  lemma {:induction false} StepKeepsLinked(c: Canonical, op: Op)
    requires Linked(c.chain) && Allowed(c, op)
    ensures Linked(Step(c, op).chain)
  {
    if op.RemovePersisted? {
      var r := Prunable(c.chain, if op.until < op.number then op.until else op.number);
      LinkedSlice(c.chain, r, |c.chain|);
      assert c.chain[r..|c.chain|] == c.chain[r..];
    }
  }

  /** The states a sequence of operations goes through, starting from the empty memory. */
  ghost predicate IsRun(ops: seq<Op>, states: seq<Canonical>) {
    && |states| == |ops| + 1
    && states[0] == Canonical([], None)
    && forall k :: 0 <= k < |ops| ==> Allowed(states[k], ops[k]) && states[k + 1] == Step(states[k], ops[k])
  }

  /** After every run of well-formed updates the maps and the pending block are consistent. */
  lemma {:induction false} RunKeepsConsistent(ops: seq<Op>, states: seq<Canonical>, k: nat)
    requires IsRun(ops, states) && k < |states|
    ensures Linked(states[k].chain) && Consistent(states[k].ToMemory())
  {
    if k > 0 {
      RunKeepsConsistent(ops, states, k - 1);
      StepKeepsLinked(states[k - 1], ops[k - 1]);
    }
    LinkedIsConsistent(states[k]);
  }

  // ---------------------------------------------------------------------------------------
  // The object
  // ---------------------------------------------------------------------------------------

  ghost predicate Sorted(s: seq<ExecutedBlock>) {
    forall i, j :: 0 <= i < j < |s| ==> s[i].number < s[j].number
  }

  method Lowest(s: set<ExecutedBlock>) returns (b: ExecutedBlock)
    requires s != {}
    ensures b in s && forall x :: x in s ==> b.number <= x.number
  {
    b :| b in s;
    var rest := s - {b};
    while rest != {}
      invariant rest <= s && b in s
      invariant forall x :: x in s - rest ==> b.number <= x.number
    {
      var x :| x in rest;
      rest := rest - {x};
      if x.number < b.number { b := x; }
    }
  }

  /** Sorts blocks by number. */
  method SortByNumber(s: set<ExecutedBlock>) returns (r: seq<ExecutedBlock>)
    requires forall x, y :: x in s && y in s && x.number == y.number ==> x == y
    ensures Sorted(r)
    ensures forall x :: x in r <==> x in s
  {
    r := [];
    var rest := s;
    while rest != {}
      invariant rest <= s
      invariant Sorted(r)
      invariant forall x :: x in r <==> x in s - rest
      invariant forall x, y :: x in r && y in rest ==> x.number < y.number
    {
      var b := Lowest(rest);
      rest := rest - {b};
      r := r + [b];
    }
  }

  lemma {:induction false} SortedUnique(a: seq<ExecutedBlock>, b: seq<ExecutedBlock>)
    requires Sorted(a) && Sorted(b) && (forall x :: x in a <==> x in b)
    ensures a == b
  {
    assert (a != [] ==> a[0] in b) && (b != [] ==> b[0] in a);
    if a != [] {
      var i :| 0 <= i < |b| && b[i] == a[0];
      var j :| 0 <= j < |a| && a[j] == b[0];
      assert i == 0;
      assert forall x :: x in a <==> x == a[0] || x in a[1..];
      assert forall x :: x in b <==> x == b[0] || x in b[1..];
      SortedUnique(a[1..], b[1..]);
    }
  }

  /** Sorting the elements of a sorted list gives the list back. */
  method SortKept(kept: set<ExecutedBlock>, ghost rest: seq<ExecutedBlock>) returns (r: seq<ExecutedBlock>)
    requires Sorted(rest) && forall x :: x in rest <==> x in kept
    ensures r == rest
  {
    forall x, y | x in kept && y in kept && x.number == y.number ensures x == y {
      assert x in rest && y in rest;
    }
    r := SortByNumber(kept);
    SortedUnique(r, rest);
  }

  lemma {:induction false} HashesIndexed(chain: seq<ExecutedBlock>, h: Hash)
    requires Linked(chain)
    ensures h in HashesOf(chain) <==> h in BlockIndex(chain)
  {
    if h in HashesOf(chain) {
      var i :| 0 <= i < |chain| && chain[i].hash == h;
      BlockIndexEntry(chain, i);
    } else if h in BlockIndex(chain) {
      var i := BlockIndexKey(chain, h);
    }
  }

  lemma {:induction false} IndexedBlocks(chain: seq<ExecutedBlock>, x: ExecutedBlock)
    requires Linked(chain)
    ensures x in chain <==> x.hash in BlockIndex(chain) && BlockIndex(chain)[x.hash].block == x
    ensures x.hash in BlockIndex(chain) ==> BlockIndex(chain)[x.hash].block.hash == x.hash
  {
    if x.hash in BlockIndex(chain) {
      var i := BlockIndexKey(chain, x.hash);
      BlockIndexEntry(chain, i);
    }
    if x in chain {
      var i :| 0 <= i < |chain| && chain[i] == x;
      BlockIndexEntry(chain, i);
    }
  }

  lemma {:induction false} RestOfChain(chain: seq<ExecutedBlock>, cut: nat)
    requires Linked(chain)
    ensures var rest := chain[Prunable(chain, cut)..];
            Linked(rest) && Sorted(rest) && forall x :: x in rest <==> x in chain && x.number > cut
  {
    var r := Prunable(chain, cut);
    LinkedSlice(chain, r, |chain|);
    assert chain[r..|chain|] == chain[r..];
    forall i | 0 <= i < |chain| ensures chain[i].number == chain[0].number + i {
      LinkedNumber(chain, i);
    }
    forall x | x in chain && x.number > cut ensures x in chain[r..] {
      var i :| 0 <= i < |chain| && chain[i] == x;
      assert chain[r..][i - r] == x;
    }
  }

  function BlocksAbove(blocks: map<Hash, BlockState>, cut: nat): set<ExecutedBlock> {
    set h | h in blocks && blocks[h].block.number > cut :: blocks[h].block
  }

  /** The blocks of the map above the cut are the rest of the chain. */
  lemma {:induction false} KeptIsRest(chain: seq<ExecutedBlock>, cut: nat)
    requires Linked(chain)
    ensures var kept := BlocksAbove(BlockIndex(chain), cut);
            var rest := chain[Prunable(chain, cut)..];
            Linked(rest) && Sorted(rest) && forall x :: x in rest <==> x in kept
  {
    RestOfChain(chain, cut);
    var kept := BlocksAbove(BlockIndex(chain), cut);
    var rest := chain[Prunable(chain, cut)..];
    forall x ensures x in rest <==> x in kept {
      IndexedBlocks(chain, x);
      if x in kept {
        var h :| h in BlockIndex(chain) && BlockIndex(chain)[h].block == x;
        var i := BlockIndexKey(chain, h);
        BlockIndexEntry(chain, i);
      }
    }
  }

  /** The drained blocks above the cut in natural order: the rest of the chain. */
  method SortedAbove(blocks: map<Hash, BlockState>, cut: nat, ghost chain: seq<ExecutedBlock>)
    returns (sorted: seq<ExecutedBlock>)
    requires Linked(chain) && blocks == BlockIndex(chain)
    ensures sorted == chain[Prunable(chain, cut)..] && Linked(sorted)
  {
    KeptIsRest(chain, cut);
    sorted := SortKept(BlocksAbove(blocks, cut), chain[Prunable(chain, cut)..]);
  }

  class InMemoryState {
    var blocks: map<Hash, BlockState>
    var numbers: map<nat, Hash>
    var pending: Option<BlockState>
    ghost var chain: seq<ExecutedBlock>

    ghost function Canon(): Canonical
      reads this
    {
      Canonical(chain, match pending case Some(s) => Some(s.block) case None => None)
    }

    ghost predicate Valid()
      reads this
    {
      Linked(chain) && Memory(blocks, numbers, pending) == Canon().ToMemory()
    }

    constructor ()
      ensures Valid() && Canon() == Canonical([], None)
    {
      blocks, numbers, pending, chain := map[], map[], None, [];
    }

    method Clear()
      requires Valid()
      modifies this
      ensures Valid() && Canon() == Step(old(Canon()), Op.Clear)
    {
      numbers := map[];
      blocks := map[];
      pending := None;
      chain := [];
    }

    method SetPendingBlock(b: ExecutedBlock)
      requires Valid()
      modifies this
      ensures Valid() && Canon() == Step(old(Canon()), SetPending(b))
    {
      var parent := if b.parentHash in blocks then Some(blocks[b.parentHash]) else None;
      pending := Some(BlockState(b, parent));
    }

    /** Connects one block to its parent entry and adds it to both maps. */
    method Insert(b: ExecutedBlock)
      requires blocks == BlockIndex(chain) && numbers == NumberIndex(chain) && Linked(chain + [b])
      modifies this
      ensures chain == old(chain) + [b] && pending == old(pending)
      ensures blocks == BlockIndex(chain) && numbers == NumberIndex(chain)
    {
      IndexAppend(chain, b);
      var parent := if b.parentHash in blocks then Some(blocks[b.parentHash]) else None;
      blocks := blocks[b.hash := BlockState(b, parent)];
      numbers := numbers[b.number := b.hash];
      chain := chain + [b];
    }

    method InsertAll(added: seq<ExecutedBlock>)
      requires blocks == BlockIndex(chain) && numbers == NumberIndex(chain) && Linked(chain + added)
      modifies this
      ensures chain == old(chain) + added && pending == old(pending)
      ensures blocks == BlockIndex(chain) && numbers == NumberIndex(chain)
    {
      ghost var base, full := |chain|, chain + added;
      for i := 0 to |added|
        invariant chain == full[..base + i] && pending == old(pending)
        invariant blocks == BlockIndex(chain) && numbers == NumberIndex(chain)
      {
        ghost var longer := full[..base + i + 1];
        assert chain + [added[i]] == longer && Linked(longer) by { LinkedSlice(full, 0, base + i + 1); }
        Insert(added[i]);
      }
    }

    method RemoveAll(removed: seq<ExecutedBlock>)
      modifies this
      ensures chain == old(chain) && pending == old(pending)
      ensures blocks == old(blocks) - HashesOf(removed) && numbers == old(numbers) - NumbersOf(removed)
    {
      for i := 0 to |removed|
        invariant chain == old(chain) && pending == old(pending)
        invariant blocks == old(blocks) - HashesOf(removed[..i])
        invariant numbers == old(numbers) - NumbersOf(removed[..i])
      {
        blocks := blocks - {removed[i].hash};
        numbers := numbers - {removed[i].number};
        assert HashesOf(removed[..i + 1]) == HashesOf(removed[..i]) + {removed[i].hash};
        assert NumbersOf(removed[..i + 1]) == NumbersOf(removed[..i]) + {removed[i].number};
      }
      assert removed[..|removed|] == removed;
    }

    method UpdateBlocks(added: seq<ExecutedBlock>, removed: seq<ExecutedBlock>, ghost keep: nat)
      requires Valid() && Allowed(Canon(), Reorg(added, removed, keep))
      modifies this
      ensures Valid() && Canon() == Step(old(Canon()), Reorg(added, removed, keep))
    {
      BlockIndexCut(chain, keep, HashesOf(removed));
      NumberIndexCut(chain, keep, NumbersOf(removed));
      RemoveAll(removed);
      chain := chain[..keep];
      InsertAll(added);
      pending := None;
    }

    method Commit(added: seq<ExecutedBlock>)
      requires Valid() && Allowed(Canon(), Op.Commit(added))
      modifies this
      ensures Valid() && Canon() == Step(old(Canon()), Op.Commit(added))
    {
      assert chain[..|chain|] == chain;
      UpdateBlocks(added, [], |chain|);
    }

    /** Drains the map and puts back the blocks above the cut, in natural order. */
    method KeepAbove(cut: nat)
      requires Valid()
      modifies this
      ensures chain == old(chain)[Prunable(old(chain), cut)..] && pending == old(pending)
      ensures Linked(chain) && blocks == BlockIndex(chain) && numbers == NumberIndex(chain)
    {
      var sorted := SortedAbove(blocks, cut, chain);
      numbers := map[];
      blocks := map[];
      chain := [];
      assert [] + sorted == sorted;
      InsertAll(sorted);
    }

    method RemovePersistedBlocksUntil(number: nat, hash: Hash, until: nat)
      requires Valid()
      modifies this
      ensures Valid() && Canon() == Step(old(Canon()), RemovePersisted(number, hash, until))
    {
      HashesIndexed(chain, hash);
      if hash !in blocks {
        return;
      }
      KeepAbove(if until < number then until else number);
      if pending.Some? {
        var p := pending.value;
        pending := Some(p.(parent := if p.block.parentHash in blocks then Some(blocks[p.block.parentHash]) else None));
      }
    }
  }
}
