/**
 Memory and database together. Blocks become canonical in memory, a background task writes them
 to the database, and a report that they have been written drops them from memory. While a task
 runs the chain may be reorganised to any depth, so the database may end up on a branch that is
 not canonical any more; another task then unwinds it. Readers must not notice.
 */
module Persistence {
  import opened Prelude
  import opened Blocks
  import opened ChainState
  import Overlay

  /** What the background thread is doing. It does one thing at a time, in one transaction. */
  datatype Task =
    | NoTask
    | Save(blocks: seq<ExecutedBlock>, stateTip: nat)
    | Remove(keep: nat)

  /**
   `history` is the canonical chain above the block `root`, at which the database is `genesis`.
   Memory holds its blocks from `low` on. `written` are the blocks on disk, of which the first
   `stateTip` are in the state tables. `known` are all blocks that ever turn up.
   */
  datatype World = World(
    root: nat, genesis: Database, known: set<ExecutedBlock>,
    history: seq<ExecutedBlock>, low: nat, mem: Canonical,
    written: seq<ExecutedBlock>, stateTip: nat, task: Task)

  datatype Event =
    | Extend(added: seq<ExecutedBlock>)
    | Reorganise(added: seq<ExecutedBlock>, removed: seq<ExecutedBlock>, fork: nat)
    | Report(number: nat, hash: Hash, until: nat)
    | Pending(block: ExecutedBlock)
    | StartSave(upto: nat, stateTip: nat)
    | StartRemove
    | FinishTask
    | Backfill(chain: seq<ExecutedBlock>)

  ghost function Start(root: nat, genesis: Database, known: set<ExecutedBlock>): World {
    World(root, genesis, known, [], 0, Canonical([], None), [], 0, NoTask)
  }

  /** Blocks with the same hash are the same. */
  ghost predicate Unambiguous(known: set<ExecutedBlock>) {
    forall x, y :: x in known && y in known && x.hash == y.hash ==> x == y
  }

  /** A linked chain of known blocks on top of the root. */
  ghost predicate OnRoot(root: nat, known: set<ExecutedBlock>, chain: seq<ExecutedBlock>) {
    && Linked(chain) && (chain != [] ==> chain[0].number == root + 1)
    && forall b :: b in chain ==> b in known
  }

  lemma {:induction false} OnRootPrefix(w: World, chain: seq<ExecutedBlock>, n: nat)
    requires OnRoot(w.root, w.known, chain) && n <= |chain|
    ensures OnRoot(w.root, w.known, chain[..n])
  {
    LinkedSlice(chain, 0, n);
    assert chain[0..n] == chain[..n];
  }

  /** How many blocks two chains have in common. */
  function CommonPrefix(a: seq<ExecutedBlock>, b: seq<ExecutedBlock>): (n: nat)
    ensures n <= |a| && n <= |b| && a[..n] == b[..n]
    ensures n < |a| && n < |b| ==> a[n] != b[n]
  {
    if a == [] || b == [] || a[0] != b[0] then 0
    else
      var n := CommonPrefix(a[1..], b[1..]);
      assert a == [a[0]] + a[1..] && b == [b[0]] + b[1..];
      assert a[..n + 1] == [a[0]] + a[1..][..n] && b[..n + 1] == [b[0]] + b[1..][..n];
      n + 1
  }

  lemma {:induction false} CommonPrefixIsLongest(a: seq<ExecutedBlock>, b: seq<ExecutedBlock>, n: nat)
    requires n <= |a| && n <= |b| && a[..n] == b[..n]
    ensures n <= CommonPrefix(a, b)
  {
    var k := CommonPrefix(a, b);
    if k < n {
      assert a[..n][k] == b[..n][k];
    }
  }

  /** How many in-memory blocks lie below a fork of the canonical chain. */
  function KeptBelow(w: World, fork: nat): nat {
    if fork <= w.low then 0 else fork - w.low
  }

  /** Block `j` on disk has this number and hash, and is not about to be removed. */
  ghost predicate OnDisk(w: World, number: nat, hash: Hash, j: nat) {
    && j < |w.written| && w.written[j].number == number && w.written[j].hash == hash
    && (w.task.Remove? ==> j < w.task.keep)
  }

  /**
   What the engine guarantees of its calls. A reorg may go to any depth, also below blocks that
   have been written. A report names some block on disk, canonical or not, and a height up to
   which the state tables are written. Saving starts from a disk that is on the canonical chain,
   removing from one that is not.
   */
  ghost predicate Enabled(w: World, e: Event) {
    match e
    case Extend(added) => OnRoot(w.root, w.known, w.history + added)
    case Reorganise(added, removed, fork) =>
      && fork <= |w.history| && OnRoot(w.root, w.known, w.history[..fork] + added)
      && CutsHashes(w.mem.chain, KeptBelow(w, fork), HashesOf(removed))
      && CutsNumbers(w.mem.chain, KeptBelow(w, fork), NumbersOf(removed))
    case Report(number, hash, until) =>
      && until <= w.root + w.stateTip
      && exists j :: OnDisk(w, number, hash, j)
    case Pending(_) => true
    case StartSave(upto, stateTip) =>
      && w.task == NoTask && w.written <= w.history
      && |w.written| <= upto <= |w.history| && w.stateTip <= stateTip <= upto
    case StartRemove => w.task == NoTask && !(w.written <= w.history)
    case FinishTask => w.task != NoTask
    case Backfill(chain) => w.task == NoTask && OnRoot(w.root, w.known, chain)
  }

  /** What the event does to memory. */
  ghost function MemoryOp(w: World, e: Event): Option<Op> {
    match e
    case Extend(added) => Some(Commit(added))
    case Reorganise(added, removed, fork) => Some(Reorg(added, removed, KeptBelow(w, fork)))
    case Report(number, hash, until) => Some(RemovePersisted(number, hash, until))
    case Pending(b) => Some(SetPending(b))
    case Backfill(_) => Some(Clear)
    case _ => None
  }

  ghost function MemoryAfter(w: World, e: Event): Canonical {
    match MemoryOp(w, e)
    case Some(op) => Step(w.mem, op)
    case None => w.mem
  }

  ghost function Next(w: World, e: Event): World
    requires Enabled(w, e)
  {
    var w' := w.(mem := MemoryAfter(w, e));
    match e
    case Extend(added) => w'.(history := w.history + added)
    case Reorganise(added, removed, fork) => w'.(history := w.history[..fork] + added, low := Min(w.low, fork))
    case Report(_, _, _) => w'.(low := w.low + Dropped(|w.mem.chain|, |w'.mem.chain|))
    case Pending(_) => w'
    case StartSave(upto, stateTip) => w'.(task := Save(w.history[|w.written|..upto], stateTip))
    case StartRemove => w'.(task := Remove(CommonPrefix(w.history, w.written)))
    case FinishTask =>
      (match w.task
       case Save(blocks, stateTip) => w'.(written := w.written + blocks, stateTip := stateTip, task := NoTask)
       case Remove(keep) =>
         if keep <= |w.written| then w'.(written := w.written[..keep], stateTip := Min(w.stateTip, keep), task := NoTask) else w'
       case NoTask => w')
    case Backfill(chain) => w'.(history := chain, low := |chain|, written := chain, stateTip := |chain|)
  }

  function Dropped(before: nat, after: nat): nat {
    if after <= before then before - after else 0
  }

  ghost predicate TaskOk(w: World) {
    match w.task
    case NoTask => true
    case Save(blocks, stateTip) => OnRoot(w.root, w.known, w.written + blocks) && w.stateTip <= stateTip <= |w.written| + |blocks|
    case Remove(keep) => w.low <= keep <= |w.written|
  }

  /** The canonical chain and the chain on disk, both of unambiguous blocks. */
  ghost predicate Branches(w: World) {
    Unambiguous(w.known) && OnRoot(w.root, w.known, w.history) && OnRoot(w.root, w.known, w.written)
  }

  /**
   Memory is a suffix of the canonical chain. Disk and canonical chain agree at least on the
   blocks below memory, and the state tables cover these.
   */
  ghost predicate Good(w: World) {
    && Branches(w) && TaskOk(w)
    && w.low <= |w.history| && w.mem.chain == w.history[w.low..]
    && w.low <= w.stateTip <= |w.written| && w.written[..w.low] == w.history[..w.low]
  }

  // ---------------------------------------------------------------------------------------
  // Every event keeps the invariant
  // ---------------------------------------------------------------------------------------

  lemma {:induction false} NumberAt(w: World, chain: seq<ExecutedBlock>, i: nat)
    requires OnRoot(w.root, w.known, chain) && i < |chain|
    ensures chain[i].number == w.root + 1 + i
  {
    LinkedNumber(chain, i);
  }

  /** Two chains that share a block share everything below it. */
  lemma {:induction false} SameAncestors(w: World, a: seq<ExecutedBlock>, b: seq<ExecutedBlock>, i: nat)
    requires Unambiguous(w.known) && OnRoot(w.root, w.known, a) && OnRoot(w.root, w.known, b)
    requires i < |a| && i < |b| && a[i].hash == b[i].hash
    ensures a[..i + 1] == b[..i + 1]
  {
    assert a[i] in a && b[i] in b;
    if i > 0 {
      assert Follows(a, i) && Follows(b, i);
      SameAncestors(w, a, b, i - 1);
    }
    assert a[..i + 1] == a[..i] + [a[i]] && b[..i + 1] == b[..i] + [b[i]];
  }

  /** A reported block that is in memory is on disk at the same place, with the same ancestors. */
  lemma {:induction false} ReportedBlock(w: World, hash: Hash, j: nat)
    requires Good(w) && j < |w.written| && w.written[j].hash == hash && hash in HashesOf(w.mem.chain)
    ensures w.low <= j < |w.history| && w.written[..j + 1] == w.history[..j + 1]
  {
    var i :| 0 <= i < |w.mem.chain| && w.mem.chain[i].hash == hash;
    var k := w.low + i;
    assert w.history[k] == w.mem.chain[i];
    assert w.history[k] in w.history && w.written[j] in w.written;
    NumberAt(w, w.history, k);
    NumberAt(w, w.written, j);
    SameAncestors(w, w.written, w.history, j);
  }

  /** How far a report moves the lower end of memory. */
  lemma {:induction false} PrunedTo(w: World, cut: nat)
    requires Good(w)
    ensures var r := Prunable(w.mem.chain, cut);
            w.low + r <= |w.history| && (r > 0 ==> w.root + w.low + r <= cut)
  {
    if w.mem.chain != [] {
      NumberAt(w, w.history, w.low);
      assert w.mem.chain[0] == w.history[w.low];
    }
  }

  /** A report about a block in memory drops only what disk and canonical chain agree on. */
  lemma {:induction false} ReportedLow(w: World, e: Event, j: nat)
    requires Good(w) && e.Report? && e.hash in HashesOf(w.mem.chain) && e.until <= w.root + w.stateTip
    requires OnDisk(w, e.number, e.hash, j)
    ensures var low := w.low + Prunable(w.mem.chain, Min(e.until, e.number));
            && low <= |w.history| && low <= w.stateTip && w.written[..low] == w.history[..low]
            && (w.task.Remove? ==> low <= w.task.keep)
  {
    ReportedBlock(w, e.hash, j);
    NumberAt(w, w.written, j);
    PrunedTo(w, Min(e.until, e.number));
    AgreeBelow(w.written, w.history, j + 1, w.low + Prunable(w.mem.chain, Min(e.until, e.number)));
  }

  /** The world with the `r` lowest blocks of memory dropped. */
  ghost function Pruned(w: World, r: nat): World
    requires r <= |w.mem.chain|
  {
    w.(mem := w.mem.(chain := w.mem.chain[r..]), low := w.low + r)
  }

  lemma {:induction false} PruningKeepsGood(w: World, r: nat)
    requires Good(w) && r <= |w.mem.chain| && w.low + r <= w.stateTip && (w.task.Remove? ==> w.low + r <= w.task.keep)
    requires w.low + r <= |w.history| && w.written[..w.low + r] == w.history[..w.low + r]
    ensures Good(Pruned(w, r))
  {
    assert w.history[w.low..][r..] == w.history[w.low + r..];
  }

  /** A report about a block that is not in memory does nothing. */
  ghost function AfterReport(w: World, e: Event): World
    requires e.Report?
  {
    if e.hash in HashesOf(w.mem.chain) then Pruned(w, Prunable(w.mem.chain, Min(e.until, e.number))) else w
  }

  lemma {:induction false} ReportPrunes(w: World, e: Event)
    requires e.Report? && Enabled(w, e)
    ensures Next(w, e) == AfterReport(w, e)
  {
  }

  lemma {:induction false} AfterReportIsGood(w: World, e: Event, j: nat)
    requires Good(w) && e.Report? && e.until <= w.root + w.stateTip && OnDisk(w, e.number, e.hash, j)
    ensures Good(AfterReport(w, e))
  {
    if e.hash in HashesOf(w.mem.chain) {
      ReportedLow(w, e, j);
      PruningKeepsGood(w, Prunable(w.mem.chain, Min(e.until, e.number)));
    }
  }

  lemma {:induction false} ReportKeepsGood(w: World, e: Event)
    requires Good(w) && e.Report? && Enabled(w, e)
    ensures Good(Next(w, e))
  {
    var j: nat :| OnDisk(w, e.number, e.hash, j);
    AfterReportIsGood(w, e, j);
    ReportPrunes(w, e);
  }

  lemma {:induction false} AgreeBelow(a: seq<ExecutedBlock>, b: seq<ExecutedBlock>, n: nat, m: nat)
    requires m <= n <= |a| && n <= |b| && a[..n] == b[..n]
    ensures a[..m] == b[..m]
  {
    assert a[..n][..m] == a[..m] && b[..n][..m] == b[..m];
  }

  lemma {:induction false} ReorganiseKeepsGood(w: World, e: Event)
    requires Good(w) && e.Reorganise? && Enabled(w, e)
    ensures Good(Next(w, e))
  {
    var w', keep, low := Next(w, e), KeptBelow(w, e.fork), Min(w.low, e.fork);
    assert w.history[..e.fork][low..] == w.mem.chain[..keep];
    assert w'.history[low..] == w.mem.chain[..keep] + e.added;
    assert w'.history[..low] == w.history[..low];
    AgreeBelow(w.written, w.history, w.low, low);
  }

  lemma {:induction false} ExtendKeepsGood(w: World, e: Event)
    requires Good(w) && e.Extend? && Enabled(w, e)
    ensures Good(Next(w, e))
  {
    var longer := w.history + e.added;
    assert longer[w.low..] == w.mem.chain + e.added && longer[..w.low] == w.history[..w.low];
  }

  lemma {:induction false} TaskKeepsGood(w: World, e: Event)
    requires Good(w) && (e.StartSave? || e.StartRemove? || e.FinishTask?) && Enabled(w, e)
    ensures Good(Next(w, e))
  {
    match e
    case StartSave(upto, _) =>
      assert w.written + w.history[|w.written|..upto] == w.history[..upto];
      OnRootPrefix(w, w.history, upto);
    case StartRemove =>
      CommonPrefixIsLongest(w.history, w.written, w.low);
    case FinishTask =>
      var w' := Next(w, e);
      assert w'.written[..w.low] == w.written[..w.low];
      if w.task.Remove? { OnRootPrefix(w, w.written, w.task.keep); }
  }

  lemma {:induction false} StepKeepsGood(w: World, e: Event)
    requires Good(w) && Enabled(w, e)
    ensures Good(Next(w, e))
  {
    match e
    case Extend(_) => ExtendKeepsGood(w, e);
    case Reorganise(_, _, _) => ReorganiseKeepsGood(w, e);
    case Report(_, _, _) => ReportKeepsGood(w, e);
    case StartSave(_, _) => TaskKeepsGood(w, e);
    case StartRemove => TaskKeepsGood(w, e);
    case FinishTask => TaskKeepsGood(w, e);
    case _ =>
  }

  lemma {:induction false} MemoryLinked(w: World)
    requires Good(w)
    ensures Linked(w.mem.chain)
  {
    LinkedSlice(w.history, w.low, |w.history|);
    assert w.history[w.low..|w.history|] == w.history[w.low..];
  }

  /** The updates of memory are ones that its methods accept. */
  lemma {:induction false} UpdateIsAllowed(w: World, e: Event)
    requires Good(w) && Enabled(w, e) && MemoryOp(w, e).Some?
    ensures Allowed(w.mem, MemoryOp(w, e).value)
  {
    var w' := Next(w, e);
    StepKeepsGood(w, e);
    MemoryLinked(w');
  }

  ghost predicate IsRun(root: nat, genesis: Database, known: set<ExecutedBlock>, events: seq<Event>, worlds: seq<World>) {
    && |worlds| == |events| + 1
    && worlds[0] == Start(root, genesis, known)
    && forall k :: 0 <= k < |events| ==> Enabled(worlds[k], events[k]) && worlds[k + 1] == Next(worlds[k], events[k])
  }

  lemma {:induction false} RunKeepsGood(root: nat, genesis: Database, known: set<ExecutedBlock>, events: seq<Event>,
                                        worlds: seq<World>, k: nat)
    requires Unambiguous(known) && IsRun(root, genesis, known, events, worlds) && k < |worlds|
    ensures Good(worlds[k]) && worlds[k].genesis == genesis
  {
    if k > 0 {
      RunKeepsGood(root, genesis, known, events, worlds, k - 1);
      StepKeepsGood(worlds[k - 1], events[k - 1]);
    }
  }

  // ---------------------------------------------------------------------------------------
  // What readers see
  // ---------------------------------------------------------------------------------------

  lemma {:induction false} TipChain(chain: seq<ExecutedBlock>)
    requires chain != []
    ensures BlocksOf(Tip(chain).value.Chain()) == Reversed(chain)
  {
    var init := chain[..|chain| - 1];
    if init != [] {
      TipChain(init);
      assert Tip(chain).value.Chain() == [Tip(chain).value] + Tip(init).value.Chain();
    }
    assert Reversed(chain) == [chain[|chain| - 1]] + Reversed(init);
  }

  /** A state provider for an in-memory block lays the chain up to that block over the database. */
  lemma {:induction false} ProviderBlocksAt(c: Canonical, i: nat)
    requires Linked(c.chain) && i < |c.chain|
    ensures ProviderBlocks(c.ToMemory(), c.chain[i].hash) == Reversed(c.chain[..i + 1])
  {
    BlockIndexEntry(c.chain, i);
    assert c.chain[..i + 1][..i] == c.chain[..i];
    TipChain(c.chain[..i + 1]);
  }

  /** The blocks a reader at the head lays over the database. */
  ghost function HeadBlocks(m: Memory): seq<ExecutedBlock> {
    match HeadState(m)
    case Some(s) => BlocksOf(s.Chain())
    case None => []
  }

  lemma {:induction false} HeadBlocksAre(c: Canonical)
    requires Linked(c.chain)
    ensures HeadBlocks(c.ToMemory()) == Reversed(c.chain)
  {
    var m := c.ToMemory();
    if c.chain == [] {
      assert m.numbers.Keys == {};
    } else {
      var n := |c.chain| - 1;
      LinkedNumber(c.chain, n);
      ChainNumberEntry(c, c.chain[n].number);
      ChainNumberEntry(c, Greatest(m.numbers.Keys));
      assert Greatest(m.numbers.Keys) == c.chain[n].number;
      NumberIndexEntry(c.chain, c.chain[n].number);
      ProviderBlocksAt(c, n);
      assert c.chain[..n + 1] == c.chain;
    }
  }

  /** Reads at the head, over the first `n` blocks on disk, answer as the whole canonical chain written would. */
  ghost predicate ReadsHead(w: World, n: nat)
    requires n <= |w.written|
  {
    Overlay.SameView(HeadBlocks(w.mem.ToMemory()), ApplyAll(w.genesis, w.written[..n]), ApplyAll(w.genesis, w.history))
  }

  lemma {:induction false} AgreedBlocksRead(w: World, n: nat)
    requires Good(w) && w.low <= n <= |w.history| && n <= |w.written| && w.written[..n] == w.history[..n]
    ensures ReadsHead(w, n)
  {
    MemoryLinked(w);
    HeadBlocksAre(w.mem);
    Overlay.PersistenceIsInvisible(w.history, w.genesis, w.low, n);
  }

  /**
   In every state of every run a read at the head answers as a database would in which the whole
   canonical chain has been written. The reader lays memory over the database as of the block
   below memory; while disk and canonical chain have not diverged, also over the state tables as
   they are.
   */
  lemma {:induction false} ReadersSeeTheCanonicalState(root: nat, genesis: Database, known: set<ExecutedBlock>,
                                                       events: seq<Event>, worlds: seq<World>, k: nat)
    requires Unambiguous(known) && IsRun(root, genesis, known, events, worlds) && k < |worlds|
    ensures worlds[k].genesis == genesis && Consistent(worlds[k].mem.ToMemory())
    ensures worlds[k].low <= worlds[k].stateTip <= |worlds[k].written|
    ensures ReadsHead(worlds[k], worlds[k].low)
    ensures worlds[k].written <= worlds[k].history ==> ReadsHead(worlds[k], worlds[k].stateTip)
  {
    RunKeepsGood(root, genesis, known, events, worlds, k);
    var w := worlds[k];
    MemoryLinked(w);
    LinkedIsConsistent(w.mem);
    AgreedBlocksRead(w, w.low);
    if w.written <= w.history {
      AgreedBlocksRead(w, w.stateTip);
    }
  }

  /**
   The same for a reader at any in-memory block, over the database as of any block from the one
   below memory up to it that disk and canonical chain have in common.
   */
  lemma {:induction false} ReadersAtABlock(w: World, i: nat, height: nat)
    requires Good(w) && i < |w.mem.chain|
    requires w.low <= height <= w.low + i + 1 && height <= CommonPrefix(w.history, w.written)
    ensures Overlay.SameView(ProviderBlocks(w.mem.ToMemory(), w.mem.chain[i].hash),
                             ApplyAll(w.genesis, w.written[..height]),
                             ApplyAll(w.genesis, w.history[..w.low + i + 1]))
  {
    MemoryLinked(w);
    ProviderBlocksAt(w.mem, i);
    var upto := w.history[..w.low + i + 1];
    assert upto[w.low..] == w.mem.chain[..i + 1];
    AgreeBelow(w.history, w.written, CommonPrefix(w.history, w.written), height);
    assert upto[..height] == w.written[..height];
    Overlay.PersistenceIsInvisible(upto, w.genesis, w.low, height);
  }

  /** The number and hash of the on-disk block an in-memory block can be traced back to. */
  method Anchor(s: BlockState) returns (number: nat, hash: Hash)
    ensures var lowest := s.Chain()[|s.Chain()| - 1].block;
            number == (if lowest.number == 0 then 0 else lowest.number - 1) && hash == lowest.parentHash
  {
    var current := s;
    while current.parent.Some?
      invariant current.Chain()[|current.Chain()| - 1] == s.Chain()[|s.Chain()| - 1]
      decreases current
    {
      assert current.Chain() == [current] + current.parent.value.Chain();
      current := current.parent.value;
    }
    number := if current.block.number == 0 then 0 else current.block.number - 1;
    hash := current.block.parentHash;
  }

  /** The anchor of every in-memory block is on disk, and it is the newest block below memory. */
  lemma {:induction false} AnchorIsOnDisk(w: World, i: nat)
    requires Good(w) && i < |w.mem.chain| && w.low > 0
    ensures var chain := ProviderBlocks(w.mem.ToMemory(), w.mem.chain[i].hash);
            && chain != [] && chain[|chain| - 1].number == w.history[w.low - 1].number + 1
            && (forall j :: 0 <= j < |w.written| ==>
                  (w.written[j].hash == chain[|chain| - 1].parentHash <==> j == w.low - 1))
  {
    MemoryLinked(w);
    ProviderBlocksAt(w.mem, i);
    assert Follows(w.history, w.low);
    assert w.written[..w.low][w.low - 1] == w.history[..w.low][w.low - 1];
    forall j | 0 <= j < |w.written| && j != w.low - 1 ensures w.written[j].hash != w.written[w.low - 1].hash {
      if j < w.low - 1 { assert Distinct(w.written[j], w.written[w.low - 1]); }
      else { assert Distinct(w.written[w.low - 1], w.written[j]); }
    }
  }

  // ---------------------------------------------------------------------------------------
  // Noticing that the disk is on another branch
  // ---------------------------------------------------------------------------------------

  datatype NumHash = NumHash(number: nat, hash: Hash)

  /** Number and hash of block `n` of a chain, counting from the root at 0. */
  ghost function At(root: NumHash, chain: seq<ExecutedBlock>, n: nat): NumHash
    requires n <= |chain|
  {
    if n == 0 then root else NumHash(chain[n - 1].number, chain[n - 1].hash)
  }

  /** The headers of a chain can be looked up, and it starts at the root. */
  ghost predicate HasHeaders(root: NumHash, headers: map<Hash, ExecutedBlock>, chain: seq<ExecutedBlock>) {
    && (chain != [] ==> chain[0].parentHash == root.hash)
    && forall i :: 0 <= i < |chain| ==> chain[i].hash in headers && headers[chain[i].hash] == chain[i]
  }

  lemma {:induction false} AtNumber(w: World, root: NumHash, chain: seq<ExecutedBlock>, n: nat)
    requires OnRoot(w.root, w.known, chain) && root.number == w.root && n <= |chain|
    ensures At(root, chain, n).number == w.root + n
  {
    if n > 0 { NumberAt(w, chain, n - 1); }
  }

  /** Where the hashes meet, everything below agrees. */
  lemma {:induction false} Meeting(w: World, root: NumHash, n: nat)
    requires Branches(w) && n <= |w.history| && n <= |w.written| && At(root, w.history, n).hash == At(root, w.written, n).hash
    ensures w.history[..n] == w.written[..n] && n <= CommonPrefix(w.history, w.written)
  {
    if n > 0 { SameAncestors(w, w.history, w.written, n - 1); }
    CommonPrefixIsLongest(w.history, w.written, n);
  }

  /** Where they do not, the chains have parted before. */
  lemma {:induction false} Parted(w: World, root: NumHash, n: nat)
    requires n <= |w.history| && n <= |w.written| && At(root, w.history, n).hash != At(root, w.written, n).hash
    ensures n > 0 && (forall m :: n <= m <= |w.history| && m <= |w.written| ==> w.history[..m] != w.written[..m])
  {
    forall m | n <= m <= |w.history| && m <= |w.written| ensures w.history[..m] != w.written[..m] {
      assert w.history[..m][n - 1] == w.history[n - 1] && w.written[..m][n - 1] == w.written[n - 1];
    }
  }

  lemma {:induction false} PartedBelow(w: World, root: NumHash, n: nat)
    requires CommonPrefix(w.history, w.written) <= n <= |w.history| && n <= |w.written|
    requires At(root, w.history, n).hash != At(root, w.written, n).hash
    ensures n > 0 && CommonPrefix(w.history, w.written) <= n - 1
  {
    Parted(w, root, n);
  }

  /** One step up the ancestors. */
  method ParentNumHash(headers: map<Hash, ExecutedBlock>, x: NumHash, ghost w: World, ghost root: NumHash,
                       ghost chain: seq<ExecutedBlock>, ghost n: nat)
    returns (p: NumHash)
    requires OnRoot(w.root, w.known, chain) && root.number == w.root && HasHeaders(root, headers, chain)
    requires 0 < n <= |chain| && x == At(root, chain, n)
    ensures p == At(root, chain, n - 1) && p.number == w.root + n - 1
  {
    var block := headers[x.hash];
    NumberAt(w, chain, n - 1);
    if n > 1 { assert Follows(chain, n - 1); }
    p := NumHash(block.number - 1, block.parentHash);
  }

  /** Walks down a chain from block `n` to the given number, if that is lower. */
  method WalkDown(headers: map<Hash, ExecutedBlock>, x: NumHash, number: nat, ghost w: World, ghost root: NumHash,
                  ghost chain: seq<ExecutedBlock>, ghost n: nat)
    returns (y: NumHash)
    requires OnRoot(w.root, w.known, chain) && root.number == w.root && HasHeaders(root, headers, chain)
    requires n <= |chain| && x == At(root, chain, n) && number >= w.root
    ensures y == At(root, chain, Min(n, number - w.root)) && y.number == w.root + Min(n, number - w.root)
  {
    y := x;
    ghost var i: nat := n;
    AtNumber(w, root, chain, n);
    while y.number > number
      invariant Min(n, number - w.root) <= i <= n && y == At(root, chain, i) && y.number == w.root + i
      decreases i
    {
      y := ParentNumHash(headers, y, w, root, chain, i);
      i := i - 1;
    }
  }

  /** Walks down both chains from the same height until they meet. */
  method WalkBoth(headers: map<Hash, ExecutedBlock>, x: NumHash, y: NumHash, ghost w: World, ghost root: NumHash, ghost n: nat)
    returns (number: nat)
    requires Branches(w) && root.number == w.root
    requires HasHeaders(root, headers, w.history) && HasHeaders(root, headers, w.written)
    requires CommonPrefix(w.history, w.written) <= n <= |w.history| && n <= |w.written|
    requires x == At(root, w.history, n) && y == At(root, w.written, n)
    ensures number == w.root + CommonPrefix(w.history, w.written)
  {
    var canonical, persisted := x, y;
    ghost var i: nat := n;
    AtNumber(w, root, w.written, n);
    while persisted.hash != canonical.hash
      invariant CommonPrefix(w.history, w.written) <= i <= n
      invariant canonical == At(root, w.history, i) && persisted == At(root, w.written, i) && persisted.number == w.root + i
      decreases i
    {
      PartedBelow(w, root, i);
      canonical := ParentNumHash(headers, canonical, w, root, w.history, i);
      persisted := ParentNumHash(headers, persisted, w, root, w.written, i);
      i := i - 1;
    }
    Meeting(w, root, i);
    number := persisted.number;
  }

  /** The two chains' blocks at the height of the shorter one tell whether the disk is a prefix. */
  lemma {:induction false} PrefixTold(w: World, root: NumHash, n: nat)
    requires Branches(w) && root.number == w.root && n == Min(|w.history|, |w.written|)
    ensures At(root, w.history, n) == At(root, w.written, |w.written|) <==> w.written <= w.history
  {
    AtNumber(w, root, w.history, n);
    AtNumber(w, root, w.written, |w.written|);
    if n == |w.written| {
      assert w.written[..n] == w.written;
      if At(root, w.history, n).hash == At(root, w.written, n).hash { Meeting(w, root, n); } else { Parted(w, root, n); }
    }
  }

  /**
   Compares the canonical head with the last block on disk. There is no reorg on disk exactly
   when the disk is a prefix of the canonical chain; otherwise the answer is the last block they
   have in common, and it is not below the blocks that have left memory.
   */
  method FindDiskReorg(headers: map<Hash, ExecutedBlock>, head: NumHash, lastPersisted: NumHash, ghost w: World, ghost root: NumHash)
    returns (r: Option<nat>)
    requires Good(w) && root.number == w.root
    requires HasHeaders(root, headers, w.history) && HasHeaders(root, headers, w.written)
    requires head == At(root, w.history, |w.history|) && lastPersisted == At(root, w.written, |w.written|)
    ensures r == None <==> w.written <= w.history
    ensures r.Some? ==> r.value == w.root + CommonPrefix(w.history, w.written) >= w.root + w.low
  {
    AtNumber(w, root, w.written, |w.written|);
    var canonical := WalkDown(headers, head, lastPersisted.number, w, root, w.history, |w.history|);
    ghost var n := Min(|w.history|, |w.written|);
    PrefixTold(w, root, n);
    if canonical == lastPersisted {
      return None;
    }
    var persisted := WalkDown(headers, lastPersisted, canonical.number, w, root, w.written, |w.written|);
    CommonPrefixIsLongest(w.history, w.written, w.low);
    var number := WalkBoth(headers, canonical, persisted, w, root, n);
    r := Some(number);
  }
}
