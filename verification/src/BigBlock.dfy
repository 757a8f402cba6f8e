/**
 Big-block execution: many original blocks ("segments") run as one block, with the environment
 switched at transaction boundaries (bin/reth-bb/src/evm.rs, evm_config.rs), compared with
 running the original blocks one after the other.

 The database is represented by the history of everything that ran on it and by the block
 hashes it can be asked for; what a transaction or a system call does is an arbitrary function
 of both. The end of a block also reads requests (deposits, for one) off the receipts that the
 executor holds, and a segment's executor is handed the receipts of the segments before it.
 */
module BigBlock {
  import opened Prelude

  type Hash = nat
  type Transaction = nat
  type Request = nat
  type Logs = nat

  datatype EvmEnv = EvmEnv(number: nat, details: nat, disableBaseFee: bool)
  datatype Ctx = Ctx(parentHash: Hash, details: nat)

  /** One original block of the payload. */
  datatype Payload = Payload(env: EvmEnv, ctx: Ctx, txs: seq<Transaction>)

  /** The base-fee check is off in every segment. */
  function EnvOf(env: EvmEnv): EvmEnv { env.(disableBaseFee := true) }

  datatype Event =
    | Pre(env: EvmEnv, ctx: Ctx)
    | Tx(env: EvmEnv, ctx: Ctx, tx: Transaction)
    | Post(env: EvmEnv, ctx: Ctx)

  type Hashes = map<nat, Hash>

  /** What BLOCKHASH answers for the 256 blocks below the current one, the nearest first. */
  type View = seq<Option<Hash>>

  /** What running a transaction gives. */
  datatype TxResult = TxResult(gas: nat, blobGas: nat, logs: Logs)

  /** `gas` is cumulative. */
  datatype Receipt = Receipt(gas: nat, logs: Logs)

  /**
   `run` is a transaction, `system` the requests of a block's final system calls, `deposits` the
   requests that the end of a block reads off the logs of one receipt. `stored` is what the
   database answers for a hash that is not in the executor's cache.
   */
  datatype Machine = Machine(
    run: (seq<Event>, View, Event) -> TxResult,
    system: (seq<Event>, View, Event) -> seq<Request>,
    deposits: (Event, Logs) -> seq<Request>,
    stored: Hashes)

  /** The requests read off receipts, receipt by receipt. */
  function Deposits(read: (Event, Logs) -> seq<Request>, post: Event, logs: seq<Logs>): seq<Request> {
    if logs == [] then [] else Deposits(read, post, logs[..|logs| - 1]) + read(post, logs[|logs| - 1])
  }

  /** The hashes of the 256 blocks below `number`. */
  function Window(hashes: Hashes, number: nat): View {
    seq(256, (i: nat) => if i < number then Lookup(hashes, number - 1 - i) else None)
  }

  /** The machine that always sees the hashes of `truth`. */
  function Knowing(m: Machine, truth: Hashes): Machine {
    Machine((t, v, e: Event) => m.run(t, Window(truth, e.env.number), e),
            (t, v, e: Event) => m.system(t, Window(truth, e.env.number), e), m.deposits, m.stored)
  }

  /** What the machine does does not depend on the hashes it is shown. */
  ghost predicate IgnoresHashes(m: Machine) {
    && (forall t, v, e :: m.run(t, v, e) == m.run(t, [], e))
    && (forall t, v, e :: m.system(t, v, e) == m.system(t, [], e))
  }

  lemma {:induction false} KnowingIgnores(m: Machine, truth: Hashes)
    ensures IgnoresHashes(Knowing(m, truth))
  {
  }

  // ---------------------------------------------------------------------------------------
  // Reference: the original blocks, one after the other, by a machine that knows its hashes
  // ---------------------------------------------------------------------------------------

  /**
   What has run so far: the events, the results of all transactions and of those of the current
   block, and the collected requests.
   */
  datatype Outcome = Outcome(trace: seq<Event>, results: seq<TxResult>, own: seq<TxResult>, requests: seq<Request>)

  function LogsOf(results: seq<TxResult>): seq<Logs> {
    seq(|results|, i requires 0 <= i < |results| => results[i].logs)
  }

  function BeginBlock(o: Outcome, p: Payload): Outcome {
    o.(trace := o.trace + [Pre(EnvOf(p.env), p.ctx)], own := [])
  }

  function RunTx(m: Machine, o: Outcome, p: Payload, tx: Transaction): Outcome {
    var e := Tx(EnvOf(p.env), p.ctx, tx);
    var r := m.run(o.trace, [], e);
    o.(trace := o.trace + [e], results := o.results + [r], own := o.own + [r])
  }

  function RunTxs(m: Machine, o: Outcome, p: Payload, txs: seq<Transaction>): Outcome {
    if txs == [] then o else RunTx(m, RunTxs(m, o, p, txs[..|txs| - 1]), p, txs[|txs| - 1])
  }

  /** The end of a block reads the receipts of this block. */
  function EndBlock(m: Machine, o: Outcome, p: Payload): Outcome {
    var e := Post(EnvOf(p.env), p.ctx);
    o.(trace := o.trace + [e], requests := o.requests + (Deposits(m.deposits, e, LogsOf(o.own)) + m.system(o.trace, [], e)))
  }

  function RunBlock(m: Machine, o: Outcome, p: Payload): Outcome {
    EndBlock(m, RunTxs(m, BeginBlock(o, p), p, p.txs), p)
  }

  function RunBlocks(m: Machine, ps: seq<Payload>): Outcome {
    if ps == [] then Outcome([], [], [], []) else RunBlock(m, RunBlocks(m, ps[..|ps| - 1]), ps[|ps| - 1])
  }

  function GasOf(results: seq<TxResult>): nat {
    if results == [] then 0 else GasOf(results[..|results| - 1]) + results[|results| - 1].gas
  }

  function BlobGasOf(results: seq<TxResult>): nat {
    if results == [] then 0 else BlobGasOf(results[..|results| - 1]) + results[|results| - 1].blobGas
  }

  /** The receipts of transactions that run one after the other, with cumulative gas. */
  function ReceiptsOf(results: seq<TxResult>): seq<Receipt> {
    seq(|results|, i requires 0 <= i < |results| => Receipt(GasOf(results[..i + 1]), results[i].logs))
  }

  // ---------------------------------------------------------------------------------------
  // The plan
  // ---------------------------------------------------------------------------------------

  datatype Segment = Segment(startTx: nat, env: EvmEnv, ctx: Ctx)
  datatype Plan = Plan(segments: seq<Segment>, hashesToSeed: seq<(nat, Hash)>)
  {
    /** The seeds within the 256 blocks below `number`. */
    function HashesForBlock(number: nat): seq<(nat, Hash)> {
      FilterWindow(hashesToSeed, number)
    }

    /** How many leading segments start at or before transaction `i`. */
    function PartitionPoint(i: nat): (k: nat)
      ensures k <= |segments|
      ensures forall j :: 0 <= j < k ==> segments[j].startTx <= i
      ensures k < |segments| ==> i < segments[k].startTx
    {
      LeadingSegments(segments, i)
    }

    function SegmentIndexForTx(i: nat): nat {
      if PartitionPoint(i) == 0 then 0 else PartitionPoint(i) - 1
    }
  }

  function LeadingSegments(segments: seq<Segment>, i: nat): (k: nat)
    ensures k <= |segments|
    ensures forall j :: 0 <= j < k ==> segments[j].startTx <= i
    ensures k < |segments| ==> i < segments[k].startTx
  {
    if segments == [] || i < segments[0].startTx then 0 else 1 + LeadingSegments(segments[1..], i)
  }

  predicate InWindow(n: nat, number: nat) {
    n < number <= n + 256
  }

  function FilterWindow(seeds: seq<(nat, Hash)>, number: nat): (r: seq<(nat, Hash)>)
    ensures forall x :: x in r <==> x in seeds && InWindow(x.0, number)
  {
    if seeds == [] then []
    else (if InWindow(seeds[0].0, number) then [seeds[0]] else []) + FilterWindow(seeds[1..], number)
  }

  function StartTx(ps: seq<Payload>, k: nat): nat
    requires k <= |ps|
  {
    if k == 0 then 0 else StartTx(ps, k - 1) + |ps[k - 1].txs|
  }

  function SegmentsOf(ps: seq<Payload>): seq<Segment> {
    seq(|ps|, k requires 0 <= k < |ps| => Segment(StartTx(ps, k), EnvOf(ps[k].env), ps[k].ctx))
  }

  /** All transactions in order. */
  function Transactions(ps: seq<Payload>): seq<Transaction> {
    if ps == [] then [] else ps[0].txs + Transactions(ps[1..])
  }

  // ---------------------------------------------------------------------------------------
  // The executor's state and its operations
  // ---------------------------------------------------------------------------------------

  /** The cache of recent block hashes: 256 cells, a number goes to the cell of its residue. */
  type HashRing = map<nat, (nat, Hash)>

  function RingGet(ring: HashRing, n: nat): Option<Hash> {
    if n % 256 in ring && ring[n % 256].0 == n then Some(ring[n % 256].1) else None
  }

  /** What BLOCKHASH answers: the cache, and the database for what the cache lacks. */
  function Visible(stored: Hashes, ring: HashRing, number: nat): View {
    seq(256, (i: nat) => if i < number then BlockHash(stored, ring, number - 1 - i) else None)
  }

  function BlockHash(stored: Hashes, ring: HashRing, n: nat): Option<Hash> {
    if RingGet(ring, n).Some? then RingGet(ring, n) else Lookup(stored, n)
  }

  function Seed(ring: HashRing, seeds: seq<(nat, Hash)>): HashRing {
    if seeds == [] then ring
    else
      var last := seeds[|seeds| - 1];
      Seed(ring, seeds[..|seeds| - 1])[last.0 % 256 := last]
  }

  /**
   `gas` and `blobGas` count within the current segment, the offsets cover the finished ones.
   `marks` lists, for each event of `trace`, the block-access-list index it ran at.
   */
  datatype Exec = Exec(
    next: nat, txCount: nat, env: EvmEnv, ctx: Ctx, gas: nat, blobGas: nat, receipts: seq<Receipt>,
    requests: seq<Request>, gasOffset: nat, blobGasOffset: nat,
    trace: seq<Event>, marks: seq<nat>, bal: nat, ring: HashRing)

  function Logged(s: Exec, e: Event): Exec {
    s.(trace := s.trace + [e], marks := s.marks + [s.bal])
  }

  function Bumped(s: Exec): Exec { s.(bal := s.bal + 1) }

  /** Initialisation at segment 0 followed by its pre-execution changes. */
  function Begin(plan: Plan, ring: HashRing): Exec
    requires plan.segments != []
  {
    var seg := plan.segments[0];
    var env := EnvOf(seg.env);
    Logged(Exec(1, 0, env, seg.ctx, 0, 0, [], [], 0, 0, [], [], 0, Seed(ring, plan.HashesForBlock(env.number))),
           Pre(env, seg.ctx))
  }

  /** Commits a transaction that ran as `e`, here or elsewhere, with result `r`. */
  function CommitResult(s: Exec, e: Event, r: TxResult): Exec {
    Logged(s, e).(
      gas := s.gas + r.gas, blobGas := s.blobGas + r.blobGas,
      receipts := s.receipts + [Receipt(s.gas + r.gas + s.gasOffset, r.logs)], txCount := s.txCount + 1)
  }

  /** What the executor itself finds when it runs a transaction. */
  function RunIn(m: Machine, s: Exec, tx: Transaction): TxResult {
    m.run(s.trace, Visible(m.stored, s.ring, s.env.number), Tx(s.env, s.ctx, tx))
  }

  /** Runs and commits one transaction inside the current segment. */
  function CommitTx(m: Machine, s: Exec, tx: Transaction): Exec {
    CommitResult(s, Tx(s.env, s.ctx, tx), RunIn(m, s, tx))
  }

  function LogsIn(receipts: seq<Receipt>): seq<Logs> {
    seq(|receipts|, i requires 0 <= i < |receipts| => receipts[i].logs)
  }

  /** The requests at the end of a segment, read off all receipts that the executor holds. */
  function RequestsAtEnd(m: Machine, s: Exec, post: Event): seq<Request> {
    Deposits(m.deposits, post, LogsIn(s.receipts)) + m.system(s.trace, Visible(m.stored, s.ring, s.env.number), post)
  }

  /** Finishes the current segment: its post-execution changes, then its totals. */
  function EndSegment(m: Machine, plan: Plan, s: Exec): Exec
    requires 1 <= s.next <= |plan.segments|
  {
    var post := Post(s.env, plan.segments[s.next - 1].ctx);
    Logged(Bumped(s), post).(
      ctx := post.ctx, gasOffset := s.gasOffset + s.gas, blobGasOffset := s.blobGasOffset + s.blobGas,
      requests := s.requests + RequestsAtEnd(m, s, post))
  }

  /** Starts the next segment: its environment and hashes, then its pre-execution changes. */
  function StartSegment(plan: Plan, s: Exec): Exec
    requires s.next < |plan.segments|
  {
    var seg := plan.segments[s.next];
    var env := EnvOf(seg.env);
    Logged(
      Bumped(s).(next := s.next + 1, env := env, ctx := seg.ctx, gas := 0, blobGas := 0,
                 ring := Seed(s.ring, plan.HashesForBlock(env.number))),
      Pre(env, seg.ctx))
  }

  function Boundary(m: Machine, plan: Plan, s: Exec): Exec
    requires 1 <= s.next < |plan.segments|
  {
    StartSegment(plan, EndSegment(m, plan, s))
  }

  predicate Due(plan: Plan, s: Exec) {
    1 <= s.next < |plan.segments| && s.txCount == plan.segments[s.next].startTx
  }

  /** Crosses every boundary that is due. */
  function Boundaries(m: Machine, plan: Plan, s: Exec): Exec
    decreases |plan.segments| - s.next
  {
    if Due(plan, s) then Boundaries(m, plan, Boundary(m, plan, s)) else s
  }

  function Commit(m: Machine, plan: Plan, s: Exec, tx: Transaction): Exec {
    Boundaries(m, plan, CommitTx(m, s, tx))
  }

  /** Receipts, gas, blob gas and requests of the whole big block, and its events. */
  datatype Output = Output(
    receipts: seq<Receipt>, gas: nat, blobGas: nat, requests: seq<Request>, trace: seq<Event>, marks: seq<nat>)

  function Finish(m: Machine, plan: Plan, s: Exec): Output
    requires plan.segments != []
  {
    var post := Post(s.env, plan.segments[|plan.segments| - 1].ctx);
    var t := Logged(s, post);
    Output(s.receipts, s.gas + s.gasOffset, s.blobGas + s.blobGasOffset,
           s.requests + RequestsAtEnd(m, s, post), t.trace, t.marks)
  }

  /** The driver: the index is bumped before every transaction and before the end of the block. */
  function Drive(m: Machine, plan: Plan, s: Exec, txs: seq<Transaction>): Exec
    decreases |txs|
  {
    if txs == [] then s else Drive(m, plan, Commit(m, plan, Bumped(s), txs[0]), txs[1..])
  }

  function ExecuteBigBlock(m: Machine, plan: Plan, ring: HashRing, txs: seq<Transaction>): Output
    requires plan.segments != []
  {
    Finish(m, plan, Bumped(Drive(m, plan, Begin(plan, ring), txs)))
  }

  // ---------------------------------------------------------------------------------------
  // Alignment with the reference
  // ---------------------------------------------------------------------------------------

  /** The reference outcome after the blocks below `k` and the first `j` transactions of block `k`. */
  function InBlock(m: Machine, ps: seq<Payload>, k: nat, j: nat): Outcome
    requires k < |ps| && j <= |ps[k].txs|
  {
    RunTxs(m, BeginBlock(RunBlocks(m, ps[..k]), ps[k]), ps[k], ps[k].txs[..j])
  }

  /** Events are numbered consecutively. */
  ghost predicate Numbered(s: Exec) {
    && |s.marks| == |s.trace| == s.bal + 1
    && forall i :: 0 <= i < |s.marks| ==> s.marks[i] == i
  }

  /** The requests that executors holding all receipts so far find at the ends of the first `n` blocks. */
  function Carried(m: Machine, ps: seq<Payload>, n: nat): seq<Request>
    requires n <= |ps|
  {
    if n == 0 then []
    else
      var p, o := ps[n - 1], InBlock(m, ps, n - 1, |ps[n - 1].txs|);
      var e := Post(EnvOf(p.env), p.ctx);
      Carried(m, ps, n - 1) + (Deposits(m.deposits, e, LogsOf(o.results)) + m.system(o.trace, [], e))
  }

  /** Receipts and gas are those of the reference, requests those of carried receipts. */
  ghost predicate Counted(m: Machine, ps: seq<Payload>, s: Exec, k: nat, j: nat)
    requires k < |ps| && j <= |ps[k].txs|
  {
    var o, base := InBlock(m, ps, k, j), RunBlocks(m, ps[..k]);
    && s.receipts == ReceiptsOf(o.results)
    && s.gasOffset == GasOf(base.results) && s.gas + s.gasOffset == GasOf(o.results)
    && s.blobGasOffset == BlobGasOf(base.results) && s.blobGas + s.blobGasOffset == BlobGasOf(o.results)
    && s.requests == Carried(m, ps, k)
  }

  /** The executor is where the reference is, in the environment and context of its block. */
  ghost predicate Placed(m: Machine, ps: seq<Payload>, s: Exec, k: nat, j: nat)
    requires k < |ps| && j <= |ps[k].txs|
  {
    && s.trace == InBlock(m, ps, k, j).trace
    && s.next == k + 1 && s.txCount == StartTx(ps, k) + j
    && s.env == EnvOf(ps[k].env) && s.ctx == ps[k].ctx
    && Numbered(s)
  }

  /** The executor is where the reference is, with its results too if these do not depend on hashes. */
  ghost predicate At(m: Machine, ps: seq<Payload>, s: Exec, k: nat, j: nat) {
    && k < |ps| && j <= |ps[k].txs|
    && Placed(m, ps, s, k, j) && (IgnoresHashes(m) ==> Counted(m, ps, s, k, j))
  }

  /** Running transactions adds the same results to the block's own as to all. */
  lemma {:induction false} RunTxsOwn(m: Machine, o: Outcome, p: Payload, txs: seq<Transaction>) returns (more: seq<TxResult>)
    ensures RunTxs(m, o, p, txs).requests == o.requests
    ensures RunTxs(m, o, p, txs).results == o.results + more && RunTxs(m, o, p, txs).own == o.own + more
  {
    if txs == [] {
      more := [];
    } else {
      more := RunTxsOwn(m, o, p, txs[..|txs| - 1]);
      var r := m.run(RunTxs(m, o, p, txs[..|txs| - 1]).trace, [], Tx(EnvOf(p.env), p.ctx, txs[|txs| - 1]));
      assert o.results + more + [r] == o.results + (more + [r]) && o.own + more + [r] == o.own + (more + [r]);
      more := more + [r];
    }
  }

  lemma {:induction false} ReceiptsAppend(s: seq<TxResult>, r: TxResult)
    ensures GasOf(s + [r]) == GasOf(s) + r.gas && BlobGasOf(s + [r]) == BlobGasOf(s) + r.blobGas
    ensures ReceiptsOf(s + [r]) == ReceiptsOf(s) + [Receipt(GasOf(s) + r.gas, r.logs)]
  {
    var t := s + [r];
    assert t[..|s|] == s && t[..|t|] == t;
    forall i | 0 <= i < |s| ensures ReceiptsOf(t)[i] == ReceiptsOf(s)[i] {
      assert t[..i + 1] == s[..i + 1];
    }
  }

  lemma {:induction false} LogsOfReceipts(results: seq<TxResult>)
    ensures LogsIn(ReceiptsOf(results)) == LogsOf(results)
  {
  }

  lemma {:induction false} BeginAt(m: Machine, ps: seq<Payload>, plan: Plan, ring: HashRing)
    requires ps != [] && plan.segments == SegmentsOf(ps)
    ensures At(m, ps, Begin(plan, ring), 0, 0)
  {
    assert ps[..0] == [];
  }

  lemma {:induction false} NextTx(m: Machine, ps: seq<Payload>, k: nat, j: nat)
    requires k < |ps| && j < |ps[k].txs|
    ensures InBlock(m, ps, k, j + 1) == RunTx(m, InBlock(m, ps, k, j), ps[k], ps[k].txs[j])
  {
    assert ps[k].txs[..j + 1][..j] == ps[k].txs[..j];
  }

  lemma {:induction false} CommitTxAt(m: Machine, ps: seq<Payload>, s: Exec, k: nat, j: nat)
    requires At(m, ps, s, k, j) && j < |ps[k].txs|
    ensures At(m, ps, CommitTx(m, Bumped(s), ps[k].txs[j]), k, j + 1)
  {
    assert Placed(m, ps, CommitTx(m, Bumped(s), ps[k].txs[j]), k, j + 1) by { NextTx(m, ps, k, j); }
    if IgnoresHashes(m) {
      CommitTxCounted(m, ps, s, k, j);
    }
  }

  lemma {:induction false} CommitTxCounted(m: Machine, ps: seq<Payload>, s: Exec, k: nat, j: nat)
    requires At(m, ps, s, k, j) && j < |ps[k].txs| && IgnoresHashes(m)
    ensures Counted(m, ps, CommitTx(m, Bumped(s), ps[k].txs[j]), k, j + 1)
  {
    var o, tx := InBlock(m, ps, k, j), ps[k].txs[j];
    NextTx(m, ps, k, j);
    ReceiptsAppend(o.results, m.run(o.trace, [], Tx(s.env, s.ctx, tx)));
  }

  /** The reference outcome at the end of a block is the one the next block starts from. */
  lemma {:induction false} NextBlockStarts(m: Machine, ps: seq<Payload>, k: nat)
    requires k + 1 < |ps|
    ensures var o, o' := InBlock(m, ps, k, |ps[k].txs|), RunBlocks(m, ps[..k + 1]);
            o' == EndBlock(m, o, ps[k]) && InBlock(m, ps, k + 1, 0) == BeginBlock(o', ps[k + 1])
  {
    assert ps[k].txs[..|ps[k].txs|] == ps[k].txs;
    assert ps[..k + 1][..k] == ps[..k];
    assert ps[k + 1].txs[..0] == [];
  }

  lemma {:induction false} BoundaryAt(m: Machine, ps: seq<Payload>, plan: Plan, s: Exec, k: nat)
    requires plan.segments == SegmentsOf(ps)
    requires k + 1 < |ps| && At(m, ps, s, k, |ps[k].txs|)
    ensures At(m, ps, Boundary(m, plan, s), k + 1, 0)
  {
    BoundaryPlaced(m, ps, plan, s, k);
    if IgnoresHashes(m) {
      BoundaryCounted(m, ps, plan, s, k);
    }
  }

  lemma {:induction false} BoundaryPlaced(m: Machine, ps: seq<Payload>, plan: Plan, s: Exec, k: nat)
    requires plan.segments == SegmentsOf(ps)
    requires k + 1 < |ps| && Placed(m, ps, s, k, |ps[k].txs|)
    ensures Placed(m, ps, Boundary(m, plan, s), k + 1, 0)
  {
    NextBlockStarts(m, ps, k);
  }

  lemma {:induction false} BoundaryCounted(m: Machine, ps: seq<Payload>, plan: Plan, s: Exec, k: nat)
    requires plan.segments == SegmentsOf(ps) && IgnoresHashes(m)
    requires k + 1 < |ps| && At(m, ps, s, k, |ps[k].txs|)
    ensures Counted(m, ps, Boundary(m, plan, s), k + 1, 0)
  {
    NextBlockStarts(m, ps, k);
    CarriedAtEnd(m, ps, plan, s, k);
  }

  /** The requests at the end of a segment are read off all receipts so far. */
  lemma {:induction false} CarriedAtEnd(m: Machine, ps: seq<Payload>, plan: Plan, s: Exec, k: nat)
    requires plan.segments == SegmentsOf(ps) && IgnoresHashes(m)
    requires k < |ps| && At(m, ps, s, k, |ps[k].txs|)
    ensures s.requests + RequestsAtEnd(m, s, Post(s.env, plan.segments[k].ctx)) == Carried(m, ps, k + 1)
  {
    LogsOfReceipts(InBlock(m, ps, k, |ps[k].txs|).results);
  }

  /** The transactions still to run from a position on. */
  function Rest(ps: seq<Payload>, k: nat, j: nat): seq<Transaction>
    requires k < |ps| && j <= |ps[k].txs|
  {
    ps[k].txs[j..] + Transactions(ps[k + 1..])
  }

  /** No boundary is due. */
  predicate Settled(ps: seq<Payload>, k: nat, j: nat)
    requires k < |ps|
  {
    j < |ps[k].txs| || k + 1 == |ps|
  }

  lemma {:induction false} RestNext(ps: seq<Payload>, k: nat)
    requires k + 1 < |ps|
    ensures Rest(ps, k, |ps[k].txs|) == Rest(ps, k + 1, 0)
  {
    assert ps[k + 1..][1..] == ps[k + 2..];
  }

  lemma {:induction false} DueAt(m: Machine, ps: seq<Payload>, plan: Plan, s: Exec, k: nat, j: nat)
    requires plan.segments == SegmentsOf(ps) && At(m, ps, s, k, j)
    ensures Due(plan, s) <==> !Settled(ps, k, j)
  {
    if k + 1 < |ps| {
      assert plan.segments[k + 1].startTx == StartTx(ps, k) + |ps[k].txs|;
    }
  }

  /** From any aligned position the boundary loop ends at a settled one, losing no transaction. */
  lemma {:induction false} BoundariesAt(m: Machine, ps: seq<Payload>, plan: Plan, s: Exec, k: nat, j: nat)
    returns (k': nat, j': nat)
    requires plan.segments == SegmentsOf(ps) && At(m, ps, s, k, j)
    ensures At(m, ps, Boundaries(m, plan, s), k', j') && Settled(ps, k', j')
    ensures Rest(ps, k', j') == Rest(ps, k, j)
    decreases |ps| - k
  {
    DueAt(m, ps, plan, s, k, j);
    if k + 1 < |ps| && j == |ps[k].txs| {
      BoundaryAt(m, ps, plan, s, k);
      RestNext(ps, k);
      k', j' := BoundariesAt(m, ps, plan, Boundary(m, plan, s), k + 1, 0);
    } else {
      k', j' := k, j;
    }
  }

  /** One committed transaction moves from one settled position to the next. */
  lemma {:induction false} CommitAt(m: Machine, ps: seq<Payload>, plan: Plan, s: Exec, k: nat, j: nat) returns (k': nat, j': nat)
    requires plan.segments == SegmentsOf(ps) && At(m, ps, s, k, j) && j < |ps[k].txs|
    ensures At(m, ps, Commit(m, plan, Bumped(s), ps[k].txs[j]), k', j') && Settled(ps, k', j')
    ensures Rest(ps, k, j) == [ps[k].txs[j]] + Rest(ps, k', j')
  {
    assert Rest(ps, k, j) == [ps[k].txs[j]] + Rest(ps, k, j + 1);
    CommitTxAt(m, ps, s, k, j);
    k', j' := BoundariesAt(m, ps, plan, CommitTx(m, Bumped(s), ps[k].txs[j]), k, j + 1);
  }

  lemma {:induction false} ConsSplit(x: Transaction, rest: seq<Transaction>, txs: seq<Transaction>, more: seq<Transaction>)
    requires [x] + rest == txs + more && txs != []
    ensures txs[0] == x && rest == txs[1..] + more
  {
    assert ([x] + rest)[1..] == rest && (txs + more)[1..] == txs[1..] + more;
    assert ([x] + rest)[0] == x;
  }

  lemma {:induction false} DriveAt(m: Machine, ps: seq<Payload>, plan: Plan, s: Exec, k: nat, j: nat,
                                   txs: seq<Transaction>, more: seq<Transaction>)
    returns (k': nat, j': nat)
    requires plan.segments == SegmentsOf(ps) && At(m, ps, s, k, j) && Settled(ps, k, j)
    requires Rest(ps, k, j) == txs + more
    ensures At(m, ps, Drive(m, plan, s, txs), k', j') && Settled(ps, k', j')
    ensures Rest(ps, k', j') == more
    decreases |txs|
  {
    if txs == [] {
      k', j' := k, j;
    } else {
      var k1, j1 := CommitAt(m, ps, plan, s, k, j);
      ConsSplit(ps[k].txs[j], Rest(ps, k1, j1), txs, more);
      k', j' := DriveAt(m, ps, plan, Commit(m, plan, Bumped(s), txs[0]), k1, j1, txs[1..], more);
    }
  }

  // ---------------------------------------------------------------------------------------
  // Refinement
  // ---------------------------------------------------------------------------------------

  /** The boundary after an empty first segment is never reached: it is looked for after commits only. */
  predicate Stuck(ps: seq<Payload>) {
    |ps| > 1 && ps[0].txs == []
  }

  /** The executor's position after `t` transactions. */
  lemma {:induction false} PositionAfter(m: Machine, ps: seq<Payload>, plan: Plan, ring: HashRing, t: nat) returns (k: nat, j: nat)
    requires ps != [] && plan.segments == SegmentsOf(ps) && !Stuck(ps) && t <= |Transactions(ps)|
    ensures At(m, ps, Drive(m, plan, Begin(plan, ring), Transactions(ps)[..t]), k, j) && Settled(ps, k, j)
    ensures Rest(ps, k, j) == Transactions(ps)[t..]
  {
    BeginAt(m, ps, plan, ring);
    assert Rest(ps, 0, 0) == Transactions(ps) by { assert ps[0].txs[0..] == ps[0].txs; }
    var txs := Transactions(ps);
    assert txs[..t] + txs[t..] == txs;
    k, j := DriveAt(m, ps, plan, Begin(plan, ring), 0, 0, txs[..t], txs[t..]);
  }

  /** Receipts with cumulative gas, and totals over all blocks. */
  ghost predicate SameResults(out: Output, ref: Outcome) {
    out.receipts == ReceiptsOf(ref.results) && out.gas == GasOf(ref.results) && out.blobGas == BlobGasOf(ref.results)
  }

  /**
   Unless the first of several segments is empty, executing the big block runs exactly the
   events of the original blocks in order, each under its own block's environment and context,
   at consecutive block-access-list indices.
   */
  lemma {:induction false} RunsTheBlocks(m: Machine, ps: seq<Payload>, plan: Plan, ring: HashRing)
    requires ps != [] && plan.segments == SegmentsOf(ps) && !Stuck(ps)
    ensures var out, ref := ExecuteBigBlock(m, plan, ring, Transactions(ps)), RunBlocks(m, ps);
            && out.trace == ref.trace && (IgnoresHashes(m) ==> SameResults(out, ref) && out.requests == Carried(m, ps, |ps|))
            && |out.marks| == |out.trace| && forall i :: 0 <= i < |out.marks| ==> out.marks[i] == i
  {
    var txs := Transactions(ps);
    var k, j := PositionAfter(m, ps, plan, ring, |txs|);
    assert txs[..|txs|] == txs;
    assert k == |ps| - 1 && j == |ps[k].txs|;
    FinishAt(m, ps, plan, Drive(m, plan, Begin(plan, ring), txs));
  }

  /** Finishing at the end of the last block. */
  lemma {:induction false} FinishAt(m: Machine, ps: seq<Payload>, plan: Plan, s: Exec)
    requires ps != [] && plan.segments == SegmentsOf(ps) && At(m, ps, s, |ps| - 1, |ps[|ps| - 1].txs|)
    ensures var out, ref := Finish(m, plan, Bumped(s)), RunBlocks(m, ps);
            && out.trace == ref.trace && (IgnoresHashes(m) ==> SameResults(out, ref) && out.requests == Carried(m, ps, |ps|))
            && |out.marks| == |out.trace| && forall i :: 0 <= i < |out.marks| ==> out.marks[i] == i
  {
    var k := |ps| - 1;
    assert ps[k].txs[..|ps[k].txs|] == ps[k].txs;
    assert RunBlocks(m, ps) == EndBlock(m, InBlock(m, ps, k, |ps[k].txs|), ps[k]);
    if IgnoresHashes(m) {
      CarriedAtEnd(m, ps, plan, s, k);
    }
  }

  function TxTrace(p: Payload, txs: seq<Transaction>): seq<Event> {
    seq(|txs|, i requires 0 <= i < |txs| => Tx(EnvOf(p.env), p.ctx, txs[i]))
  }

  function BlockTrace(p: Payload): seq<Event> {
    [Pre(EnvOf(p.env), p.ctx)] + TxTrace(p, p.txs) + [Post(EnvOf(p.env), p.ctx)]
  }

  function TraceOf(ps: seq<Payload>): seq<Event> {
    if ps == [] then [] else TraceOf(ps[..|ps| - 1]) + BlockTrace(ps[|ps| - 1])
  }

  lemma {:induction false} RunTxsTrace(m: Machine, o: Outcome, p: Payload, txs: seq<Transaction>)
    ensures RunTxs(m, o, p, txs).trace == o.trace + TxTrace(p, txs)
    ensures |RunTxs(m, o, p, txs).results| == |o.results| + |txs|
  {
    if txs != [] {
      RunTxsTrace(m, o, p, txs[..|txs| - 1]);
    }
  }

  lemma {:induction false} RunBlockTrace(m: Machine, o: Outcome, p: Payload)
    ensures RunBlock(m, o, p).trace == o.trace + BlockTrace(p)
    ensures |RunBlock(m, o, p).results| == |o.results| + |p.txs|
  {
    RunTxsTrace(m, BeginBlock(o, p), p, p.txs);
    var pre, post := [Pre(EnvOf(p.env), p.ctx)], [Post(EnvOf(p.env), p.ctx)];
    assert o.trace + pre + TxTrace(p, p.txs) + post == o.trace + (pre + TxTrace(p, p.txs) + post);
  }

  /** The reference trace is pre, transactions, post of each block, in order. */
  lemma {:induction false} RunBlocksTrace(m: Machine, ps: seq<Payload>)
    ensures RunBlocks(m, ps).trace == TraceOf(ps)
    ensures |RunBlocks(m, ps).trace| == StartTx(ps, |ps|) + 2 * |ps|
    ensures |RunBlocks(m, ps).results| == StartTx(ps, |ps|)
  {
    if ps != [] {
      var n := |ps| - 1;
      RunBlocksTrace(m, ps[..n]);
      StartTxPrefix(ps, n, n);
      RunBlockTrace(m, RunBlocks(m, ps[..n]), ps[n]);
    }
  }

  lemma {:induction false} StartTxPrefix(ps: seq<Payload>, n: nat, k: nat)
    requires k <= n <= |ps|
    ensures StartTx(ps[..n], k) == StartTx(ps, k)
  {
    if k > 0 { StartTxPrefix(ps, n, k - 1); }
  }

  lemma {:induction false} TransactionsCount(ps: seq<Payload>)
    ensures |Transactions(ps)| == StartTx(ps, |ps|)
  {
    if ps != [] {
      TransactionsCount(ps[1..]);
      StartTxTail(ps, |ps|);
    }
  }

  lemma {:induction false} StartTxTail(ps: seq<Payload>, k: nat)
    requires 1 <= k <= |ps|
    ensures StartTx(ps, k) == |ps[0].txs| + StartTx(ps[1..], k - 1)
  {
    if k > 1 { StartTxTail(ps, k - 1); }
  }

  lemma {:induction false} DriveStuck(m: Machine, plan: Plan, s: Exec, txs: seq<Transaction>)
    requires s.next == 1 && |plan.segments| > 1 && plan.segments[1].startTx == 0
    ensures Drive(m, plan, s, txs).next == 1
    ensures |Drive(m, plan, s, txs).trace| == |s.trace| + |txs| && Drive(m, plan, s, txs).bal == s.bal + |txs|
    decreases |txs|
  {
    if txs != [] {
      var s' := CommitTx(m, Bumped(s), txs[0]);
      assert Boundaries(m, plan, s') == s';
      DriveStuck(m, plan, s', txs[1..]);
    }
  }

  /** The big block runs the original blocks' events exactly when no empty first segment blocks it. */
  lemma {:induction false} RefinesExactlyWhen(m: Machine, ps: seq<Payload>, plan: Plan, ring: HashRing)
    requires ps != [] && plan.segments == SegmentsOf(ps)
    ensures ExecuteBigBlock(m, plan, ring, Transactions(ps)).trace == TraceOf(ps) <==> !Stuck(ps)
  {
    RunBlocksTrace(m, ps);
    if Stuck(ps) {
      assert StartTx(ps, 1) == StartTx(ps, 0) + |ps[0].txs|;
      DriveStuck(m, plan, Begin(plan, ring), Transactions(ps));
      TransactionsCount(ps);
    } else {
      RunsTheBlocks(m, ps, plan, ring);
    }
  }

  /** An empty block and a block with a transaction: the transaction runs as one of the empty block. */
  lemma {:induction false} EmptyBlockThenOneTx(m: Machine, plan: Plan, ring: HashRing, empty: Payload, full: Payload)
    requires empty == Payload(EvmEnv(1, 0, true), Ctx(0, 0), []) && full == Payload(EvmEnv(2, 0, true), Ctx(0, 0), [7])
    requires plan.segments == SegmentsOf([empty, full])
    ensures Stuck([empty, full])
    ensures Drive(m, plan, Begin(plan, ring), [7]).trace == [Pre(empty.env, empty.ctx), Tx(empty.env, empty.ctx, 7)]
  {
    var ps, s := [empty, full], Begin(plan, ring);
    assert StartTx(ps, 1) == StartTx(ps, 0) + |ps[0].txs|;
    var s' := CommitTx(m, Bumped(s), 7);
    assert Boundaries(m, plan, s') == s';
    assert [7][1..] == [];
  }

  // ---------------------------------------------------------------------------------------
  // Requests
  // ---------------------------------------------------------------------------------------

  lemma {:induction false} DepositsSplit(read: (Event, Logs) -> seq<Request>, post: Event, a: seq<Logs>, b: seq<Logs>)
    ensures Deposits(read, post, a + b) == Deposits(read, post, a) + Deposits(read, post, b)
  {
    if b == [] {
      assert a + b == a;
    } else {
      var n := |b| - 1;
      assert (a + b)[..|a + b| - 1] == a + b[..n];
      DepositsSplit(read, post, a, b[..n]);
    }
  }

  /** What the end of block `k` would read off the receipts of the blocks before it. */
  function ReadAgain(m: Machine, ps: seq<Payload>, k: nat): seq<Request>
    requires k < |ps|
  {
    Deposits(m.deposits, Post(EnvOf(ps[k].env), ps[k].ctx), LogsOf(RunBlocks(m, ps[..k]).results))
  }

  /** At the end of no block do the receipts of earlier blocks give a request. */
  ghost predicate NoneRepeated(m: Machine, ps: seq<Payload>) {
    forall k :: 0 <= k < |ps| ==> ReadAgain(m, ps, k) == []
  }

  /** At the end of a block, the receipts held are the earlier blocks' and the block's own. */
  lemma {:induction false} HeldReceipts(m: Machine, base: Outcome, p: Payload, o: Outcome)
    requires o == RunTxs(m, BeginBlock(base, p), p, p.txs)
    ensures LogsOf(o.results) == LogsOf(base.results) + LogsOf(o.own) && o.requests == base.requests
  {
    var more := RunTxsOwn(m, BeginBlock(base, p), p, p.txs);
    assert [] + more == more;
  }

  lemma {:induction false} BlockEnds(m: Machine, ps: seq<Payload>, k: nat)
    requires k < |ps|
    ensures var base, p := RunBlocks(m, ps[..k]), ps[k];
            var o := RunTxs(m, BeginBlock(base, p), p, p.txs);
            InBlock(m, ps, k, |p.txs|) == o && RunBlocks(m, ps[..k + 1]) == EndBlock(m, o, p)
  {
    assert ps[k].txs[..|ps[k].txs|] == ps[k].txs && ps[..k + 1][..k] == ps[..k];
  }

  /** One block more: the two lists of requests differ by what is read again. */
  lemma {:induction false} RequestsOfOneMore(m: Machine, ps: seq<Payload>, k: nat) returns (own: seq<Request>)
    requires k < |ps|
    ensures Carried(m, ps, k + 1) == Carried(m, ps, k) + (ReadAgain(m, ps, k) + own)
    ensures RunBlocks(m, ps[..k + 1]).requests == RunBlocks(m, ps[..k]).requests + own
  {
    var base, p := RunBlocks(m, ps[..k]), ps[k];
    var o, e := RunTxs(m, BeginBlock(base, p), p, p.txs), Post(EnvOf(p.env), p.ctx);
    BlockEnds(m, ps, k);
    HeldReceipts(m, base, p, o);
    own := DepositsOfBlock(m, base, o, e);
  }

  lemma {:induction false} DepositsOfBlock(m: Machine, base: Outcome, o: Outcome, e: Event) returns (own: seq<Request>)
    requires LogsOf(o.results) == LogsOf(base.results) + LogsOf(o.own)
    ensures own == Deposits(m.deposits, e, LogsOf(o.own)) + m.system(o.trace, [], e)
    ensures Deposits(m.deposits, e, LogsOf(o.results)) + m.system(o.trace, [], e)
         == Deposits(m.deposits, e, LogsOf(base.results)) + own
  {
    DepositsSplit(m.deposits, e, LogsOf(base.results), LogsOf(o.own));
    own := Deposits(m.deposits, e, LogsOf(o.own)) + m.system(o.trace, [], e);
  }

  /** Both lists grow by the same items, the first one by `x` before them. */
  ghost predicate Grows(a: seq<Request>, a': seq<Request>, b: seq<Request>, b': seq<Request>, x: seq<Request>) {
    exists own: seq<Request> :: a' == a + (x + own) && b' == b + own
  }

  lemma {:induction false} GrowsEqual(a: seq<Request>, a': seq<Request>, b: seq<Request>, b': seq<Request>, x: seq<Request>)
    requires Grows(a, a', b, b', x) && |a| >= |b|
    ensures |a'| >= |b'| && (a' == b' <==> a == b && x == [])
  {
    var own: seq<Request> :| a' == a + (x + own) && b' == b + own;
    if a' == b' {
      assert |a'| == |a| + |x| + |own| && |b'| == |b| + |own|;
      assert a'[..|b|] == a && b'[..|b|] == b;
    } else if x == [] {
      assert x + own == own;
    }
  }

  /** Lists that grow in step from the same start are equal exactly when nothing was added to one only. */
  lemma {:induction false} EqualExactlyWhen(a: seq<seq<Request>>, b: seq<seq<Request>>, x: seq<seq<Request>>, n: nat)
    requires |a| == |b| == |x| + 1 && a[0] == b[0] && n <= |x|
    requires forall k :: 0 <= k < |x| ==> Grows(a[k], a[k + 1], b[k], b[k + 1], x[k])
    ensures |a[n]| >= |b[n]| && (a[n] == b[n] <==> forall k :: 0 <= k < n ==> x[k] == [])
  {
    if n > 0 {
      EqualExactlyWhen(a, b, x, n - 1);
      GrowsEqual(a[n - 1], a[n], b[n - 1], b[n], x[n - 1]);
    }
  }

  /** Carrying the receipts forward leaves the requests as they should be exactly when none is read again. */
  lemma {:induction false} CarriedExactlyWhen(m: Machine, ps: seq<Payload>)
    ensures Carried(m, ps, |ps|) == RunBlocks(m, ps).requests <==> NoneRepeated(m, ps)
  {
    var a := seq(|ps| + 1, k requires 0 <= k <= |ps| => Carried(m, ps, k));
    var b := seq(|ps| + 1, k requires 0 <= k <= |ps| => RunBlocks(m, ps[..k]).requests);
    var x := seq(|ps|, k requires 0 <= k < |ps| => ReadAgain(m, ps, k));
    forall k | 0 <= k < |x| ensures Grows(a[k], a[k + 1], b[k], b[k + 1], x[k]) {
      var own := RequestsOfOneMore(m, ps, k);
      assert a[k + 1] == a[k] + (x[k] + own) && b[k + 1] == b[k] + own;
    }
    assert ps[..0] == [] && ps[..|ps|] == ps;
    EqualExactlyWhen(a, b, x, |ps|);
    assert forall k :: 0 <= k < |ps| ==> x[k] == ReadAgain(m, ps, k);
  }

  /** What gives nothing gives nothing in part, whichever block reads it. */
  lemma {:induction false} FewerDeposits(read: (Event, Logs) -> seq<Request>, e: Event, e': Event, few: seq<TxResult>, all: seq<TxResult>)
    requires few <= all && Deposits(read, e, LogsOf(all)) == [] && forall l :: read(e, l) == read(e', l)
    ensures Deposits(read, e', LogsOf(few)) == []
  {
    assert LogsOf(all) == LogsOf(few) + LogsOf(all)[|few|..];
    DepositsSplit(read, e, LogsOf(few), LogsOf(all)[|few|..]);
    SameDeposits(read, e, e', LogsOf(few));
  }

  ghost predicate SameForAllBlocks(m: Machine) {
    forall e, e', l :: m.deposits(e, l) == m.deposits(e', l)
  }

  /**
   If what is read off a receipt does not depend on the block that reads it, the requests are as
   they should be exactly when no receipt before the last block gives one.
   */
  lemma {:induction false} OnlyTheLastBlockMayDeposit(m: Machine, ps: seq<Payload>)
    requires ps != [] && SameForAllBlocks(m)
    ensures NoneRepeated(m, ps) <==> ReadAgain(m, ps, |ps| - 1) == []
  {
    var last := |ps| - 1;
    if ReadAgain(m, ps, last) == [] {
      forall k | 0 <= k < |ps| ensures ReadAgain(m, ps, k) == [] {
        EarlierReadsNothing(m, ps, k, last);
      }
    }
  }

  lemma {:induction false} EarlierReadsNothing(m: Machine, ps: seq<Payload>, k: nat, last: nat)
    requires k <= last < |ps| && SameForAllBlocks(m) && ReadAgain(m, ps, last) == []
    ensures ReadAgain(m, ps, k) == []
  {
    assert ps[..last][..k] == ps[..k];
    RunBlocksPrefix(m, ps[..last], k);
    FewerDeposits(m.deposits, Post(EnvOf(ps[last].env), ps[last].ctx), Post(EnvOf(ps[k].env), ps[k].ctx),
                  RunBlocks(m, ps[..k]).results, RunBlocks(m, ps[..last]).results);
  }

  lemma {:induction false} SameDeposits(read: (Event, Logs) -> seq<Request>, e: Event, e': Event, logs: seq<Logs>)
    requires forall l :: read(e, l) == read(e', l)
    ensures Deposits(read, e, logs) == Deposits(read, e', logs)
  {
    if logs != [] { SameDeposits(read, e, e', logs[..|logs| - 1]); }
  }

  /** A machine on which every transaction makes one deposit. */
  function Depositing(): Machine {
    Machine((t, v, e) => TxResult(21000, 0, 7), (t, v, e) => [], (e, logs) => [logs], map[])
  }

  /** A block with one transaction. */
  function OneTx(number: nat): Payload {
    Payload(EvmEnv(number, 0, true), Ctx(0, 0), [number])
  }

  lemma {:induction false} EachDeposits(e: Event, logs: seq<Logs>)
    ensures Deposits(Depositing().deposits, e, logs) == logs
  {
    if logs != [] { EachDeposits(e, logs[..|logs| - 1]); }
  }

  lemma {:induction false} OneTxBlock(o: Outcome, n: nat)
    ensures var m, r, p := Depositing(), TxResult(21000, 0, 7), OneTx(n);
            var o' := RunTxs(m, BeginBlock(o, p), p, p.txs);
            o'.results == o.results + [r] && EndBlock(m, o', p).requests == o.requests + [7]
  {
    var m, r, p := Depositing(), TxResult(21000, 0, 7), OneTx(n);
    assert p.txs[..0] == [];
    var o' := RunTxs(m, BeginBlock(o, p), p, p.txs);
    assert o'.own == [r] && LogsOf([r]) == [7];
    EachDeposits(Post(EnvOf(p.env), p.ctx), [7]);
  }

  lemma {:induction false} CarriedEach(ps: seq<Payload>, k: nat)
    requires k < |ps|
    ensures Carried(Depositing(), ps, k + 1)
         == Carried(Depositing(), ps, k) + LogsOf(InBlock(Depositing(), ps, k, |ps[k].txs|).results)
  {
    var m, logs := Depositing(), LogsOf(InBlock(Depositing(), ps, k, |ps[k].txs|).results);
    EachDeposits(Post(EnvOf(ps[k].env), ps[k].ctx), logs);
    assert logs + [] == logs;
  }

  lemma {:induction false} TwoDeposits(ps: seq<Payload>, first: Outcome, second: Outcome)
    requires ps == [OneTx(1), OneTx(2)]
    requires first == InBlock(Depositing(), ps, 0, 1) && second == InBlock(Depositing(), ps, 1, 1)
    ensures RunBlocks(Depositing(), ps).requests == [7, 7]
    ensures LogsOf(first.results) == [7] && LogsOf(second.results) == [7, 7]
  {
    var m := Depositing();
    assert ps[..0] == [] && ps[..1] == [OneTx(1)] && ps[..1][..0] == [];
    assert OneTx(1).txs[..1] == OneTx(1).txs && OneTx(2).txs[..1] == OneTx(2).txs;
    OneTxBlock(RunBlocks(m, []), 1);
    OneTxBlock(RunBlocks(m, ps[..1]), 2);
  }

  /** Two blocks with a deposit each: the big block reports three. */
  lemma {:induction false} DepositReportedTwice(plan: Plan, ring: HashRing)
    requires plan.segments == SegmentsOf([OneTx(1), OneTx(2)])
    ensures RunBlocks(Depositing(), [OneTx(1), OneTx(2)]).requests == [7, 7]
    ensures ExecuteBigBlock(Depositing(), plan, ring, [1, 2]).requests == [7, 7, 7]
  {
    var m, ps := Depositing(), [OneTx(1), OneTx(2)];
    TwoDeposits(ps, InBlock(m, ps, 0, 1), InBlock(m, ps, 1, 1));
    CarriedEach(ps, 0);
    CarriedEach(ps, 1);
    assert Transactions(ps) == [1, 2] by { assert ps[1..] == [ps[1]] && ps[1..][1..] == []; }
    RunsTheBlocks(m, ps, plan, ring);
  }

  // ---------------------------------------------------------------------------------------
  // Gas at every step
  // ---------------------------------------------------------------------------------------

  lemma {:induction false} RunTxsPrefix(m: Machine, o: Outcome, p: Payload, txs: seq<Transaction>, j: nat)
    requires j <= |txs|
    ensures o.results <= RunTxs(m, o, p, txs[..j]).results <= RunTxs(m, o, p, txs).results
  {
    if j == |txs| {
      assert txs[..j] == txs;
      if txs != [] { RunTxsPrefix(m, o, p, txs[..j - 1], 0); }
    } else {
      assert txs[..|txs| - 1][..j] == txs[..j];
      RunTxsPrefix(m, o, p, txs[..|txs| - 1], j);
    }
  }

  lemma {:induction false} RunBlocksPrefix(m: Machine, ps: seq<Payload>, k: nat)
    requires k <= |ps|
    ensures RunBlocks(m, ps[..k]).results <= RunBlocks(m, ps).results
  {
    if k == |ps| {
      assert ps[..k] == ps;
    } else {
      var n := |ps| - 1;
      assert ps[..n][..k] == ps[..k];
      RunBlocksPrefix(m, ps[..n], k);
      RunTxsPrefix(m, BeginBlock(RunBlocks(m, ps[..n]), ps[n]), ps[n], ps[n].txs, 0);
    }
  }

  lemma {:induction false} InBlockGas(m: Machine, ps: seq<Payload>, k: nat, j: nat)
    requires k < |ps| && j <= |ps[k].txs|
    ensures |InBlock(m, ps, k, j).results| == StartTx(ps, k) + j
    ensures InBlock(m, ps, k, j).results <= RunBlocks(m, ps).results
  {
    var o := BeginBlock(RunBlocks(m, ps[..k]), ps[k]);
    RunBlocksTrace(m, ps[..k]);
    StartTxPrefix(ps, k, k);
    RunTxsTrace(m, o, ps[k], ps[k].txs[..j]);
    RunTxsPrefix(m, o, ps[k], ps[k].txs, j);
    assert ps[..k + 1][..k] == ps[..k];
    RunBlocksPrefix(m, ps, k + 1);
  }

  lemma {:induction false} GasAfter(m: Machine, ps: seq<Payload>, plan: Plan, ring: HashRing, t: nat)
    requires ps != [] && plan.segments == SegmentsOf(ps) && !Stuck(ps) && t <= |Transactions(ps)| && IgnoresHashes(m)
    ensures var s := Drive(m, plan, Begin(plan, ring), Transactions(ps)[..t]);
            var results := RunBlocks(m, ps).results;
            t <= |results| && s.receipts == ReceiptsOf(results[..t]) && s.gas + s.gasOffset == GasOf(results[..t])
  {
    var k, j := PositionAfter(m, ps, plan, ring, t);
    InBlockGas(m, ps, k, j);
    DriveCount(m, plan, Begin(plan, ring), Transactions(ps)[..t]);
    assert RunBlocks(m, ps).results[..t] == InBlock(m, ps, k, j).results;
  }

  lemma {:induction false} BoundariesCount(m: Machine, plan: Plan, s: Exec)
    ensures Boundaries(m, plan, s).txCount == s.txCount
    decreases |plan.segments| - s.next
  {
    if Due(plan, s) { BoundariesCount(m, plan, Boundary(m, plan, s)); }
  }

  lemma {:induction false} DriveCount(m: Machine, plan: Plan, s: Exec, txs: seq<Transaction>)
    ensures Drive(m, plan, s, txs).txCount == s.txCount + |txs|
    decreases |txs|
  {
    if txs != [] {
      BoundariesCount(m, plan, CommitTx(m, Bumped(s), txs[0]));
      DriveCount(m, plan, Commit(m, plan, Bumped(s), txs[0]), txs[1..]);
    }
  }

  // ---------------------------------------------------------------------------------------
  // Block-access-list workers
  // ---------------------------------------------------------------------------------------

  /** The index a worker runs transaction `i` at. */
  function WorkerIndex(plan: Plan, i: nat): nat {
    i + 1 + 2 * plan.SegmentIndexForTx(i)
  }

  lemma {:induction false} StartTxMonotone(ps: seq<Payload>, a: nat, b: nat)
    requires a <= b <= |ps|
    ensures StartTx(ps, a) <= StartTx(ps, b)
  {
    if a < b { StartTxMonotone(ps, a, b - 1); }
  }

  /** The segment found for a transaction is the one that contains it. */
  lemma {:induction false} SegmentIndexIs(ps: seq<Payload>, plan: Plan, k: nat, j: nat)
    requires plan.segments == SegmentsOf(ps) && k < |ps| && j < |ps[k].txs|
    ensures plan.SegmentIndexForTx(StartTx(ps, k) + j) == k
  {
    var i := StartTx(ps, k) + j;
    var p := plan.PartitionPoint(i);
    StartTxMonotone(ps, if p <= k then p else k, k);
    assert p > k;
    assert StartTx(ps, k + 1) > i;
    assert k + 1 < |ps| ==> plan.segments[k + 1].startTx > i;
  }

  /** Right before transaction `i` its own segment is active, and the next index is the worker's. */
  lemma {:induction false} BeforeTx(m: Machine, ps: seq<Payload>, plan: Plan, ring: HashRing, i: nat, s: Exec)
    requires ps != [] && plan.segments == SegmentsOf(ps) && !Stuck(ps) && i < |Transactions(ps)|
    requires s == Drive(m, plan, Begin(plan, ring), Transactions(ps)[..i])
    ensures var k := plan.SegmentIndexForTx(i);
            k < |ps| && s.env == EnvOf(ps[k].env) && s.ctx == ps[k].ctx && |s.trace| == s.bal + 1 == WorkerIndex(plan, i)
  {
    var k, j := PositionAfter(m, ps, plan, ring, i);
    DriveCount(m, plan, Begin(plan, ring), Transactions(ps)[..i]);
    assert |Rest(ps, k, j)| > 0;
    SegmentIndexIs(ps, plan, k, j);
    RunBlocksTrace(m, ps[..k]);
    StartTxPrefix(ps, k, k);
    RunTxsTrace(m, BeginBlock(RunBlocks(m, ps[..k]), ps[k]), ps[k], ps[k].txs[..j]);
  }

  /** The canonical index of transaction `i` is the worker's index exactly when nothing is stuck. */
  lemma {:induction false} WorkerIndexExactlyWhen(m: Machine, ps: seq<Payload>, plan: Plan, ring: HashRing, i: nat)
    requires ps != [] && plan.segments == SegmentsOf(ps) && i < |Transactions(ps)|
    ensures Bumped(Drive(m, plan, Begin(plan, ring), Transactions(ps)[..i])).bal == WorkerIndex(plan, i) <==> !Stuck(ps)
  {
    if Stuck(ps) {
      assert StartTx(ps, 1) == StartTx(ps, 0) + |ps[0].txs|;
      DriveStuck(m, plan, Begin(plan, ring), Transactions(ps)[..i]);
      assert plan.segments[0].startTx <= i && plan.segments[1].startTx <= i;
      assert plan.PartitionPoint(i) >= 2;
    } else {
      BeforeTx(m, ps, plan, ring, i, Drive(m, plan, Begin(plan, ring), Transactions(ps)[..i]));
    }
  }

  lemma {:induction false} BoundariesExtend(m: Machine, plan: Plan, s: Exec)
    ensures s.trace <= Boundaries(m, plan, s).trace
    decreases |plan.segments| - s.next
  {
    if Due(plan, s) { BoundariesExtend(m, plan, Boundary(m, plan, s)); }
  }

  lemma {:induction false} DriveExtends(m: Machine, plan: Plan, s: Exec, txs: seq<Transaction>)
    ensures s.trace <= Drive(m, plan, s, txs).trace
    decreases |txs|
  {
    if txs != [] {
      BoundariesExtend(m, plan, CommitTx(m, Bumped(s), txs[0]));
      DriveExtends(m, plan, Commit(m, plan, Bumped(s), txs[0]), txs[1..]);
    }
  }

  lemma {:induction false} DriveSplit(m: Machine, plan: Plan, s: Exec, a: seq<Transaction>, b: seq<Transaction>)
    ensures Drive(m, plan, s, a + b) == Drive(m, plan, Drive(m, plan, s, a), b)
    decreases |a|
  {
    if a == [] {
      assert a + b == b;
    } else {
      assert (a + b)[1..] == a[1..] + b;
      DriveSplit(m, plan, Commit(m, plan, Bumped(s), a[0]), a[1..], b);
    }
  }

  /** The transaction is the first event after the prefix that led to it. */
  lemma {:induction false} TxFollowsPrefix(m: Machine, plan: Plan, ring: HashRing, txs: seq<Transaction>, i: nat)
    requires plan.segments != [] && i < |txs|
    ensures var s := Drive(m, plan, Begin(plan, ring), txs[..i]);
            s.trace + [Tx(s.env, s.ctx, txs[i])] <= ExecuteBigBlock(m, plan, ring, txs).trace
  {
    var s := Drive(m, plan, Begin(plan, ring), txs[..i]);
    assert txs[..i] + txs[i..] == txs;
    DriveSplit(m, plan, Begin(plan, ring), txs[..i], txs[i..]);
    BoundariesExtend(m, plan, CommitTx(m, Bumped(s), txs[i]));
    DriveExtends(m, plan, Commit(m, plan, Bumped(s), txs[i]), txs[i..][1..]);
  }

  /**
   A worker that reads everything with an index below its own sees exactly the canonical events
   before its transaction, and the event with its own index is that transaction, in the
   environment and context of the block it came from.
   */
  lemma {:induction false} WorkerSeesPrefix(m: Machine, ps: seq<Payload>, plan: Plan, ring: HashRing, i: nat, s: Exec, out: Output)
    requires ps != [] && plan.segments == SegmentsOf(ps) && !Stuck(ps) && i < |Transactions(ps)|
    requires s == Drive(m, plan, Begin(plan, ring), Transactions(ps)[..i])
    requires out == ExecuteBigBlock(m, plan, ring, Transactions(ps))
    ensures var w, k := WorkerIndex(plan, i), plan.SegmentIndexForTx(i);
            && w < |out.trace| == |out.marks| && k < |ps|
            && out.trace[..w] == s.trace && out.trace[w] == Tx(EnvOf(ps[k].env), ps[k].ctx, Transactions(ps)[i])
            && forall e :: 0 <= e < |out.marks| ==> (out.marks[e] < w <==> e < w)
  {
    BeforeTx(m, ps, plan, ring, i, s);
    TxFollowsPrefix(m, plan, ring, Transactions(ps), i);
    RunsTheBlocks(m, ps, plan, ring);
    assert out.trace[..|s.trace|] == s.trace;
  }

  // ---------------------------------------------------------------------------------------
  // Block hashes
  // ---------------------------------------------------------------------------------------

  /** One hash per number. */
  ghost predicate OneHashEach(seeds: seq<(nat, Hash)>) {
    forall x, y :: x in seeds && y in seeds && x.0 == y.0 ==> x == y
  }

  lemma {:induction false} WindowResidues(a: nat, b: nat, number: nat)
    requires InWindow(a, number) && InWindow(b, number) && a != b
    ensures a % 256 != b % 256
  {
    var qa, qb := a / 256, b / 256;
    assert a == 256 * qa + a % 256 && b == 256 * qb + b % 256;
    assert a % 256 == b % 256 ==> a - b == 256 * (qa - qb);
  }

  /** Seeding a window of 256 numbers overwrites none of them. */
  lemma {:induction false} SeedGet(ring: HashRing, seeds: seq<(nat, Hash)>, number: nat, x: (nat, Hash))
    requires forall y :: y in seeds ==> InWindow(y.0, number) && (y.0 == x.0 ==> y == x)
    requires x in seeds
    ensures RingGet(Seed(ring, seeds), x.0) == Some(x.1)
  {
    var n := |seeds| - 1;
    var last := seeds[n];
    assert last in seeds;
    if last != x {
      assert x in seeds[..n];
      SeedGet(ring, seeds[..n], number, x);
      WindowResidues(x.0, last.0, number);
    }
  }

  /** Every seed within the 256 blocks below the current segment can be looked up. */
  ghost predicate Seeded(plan: Plan, s: Exec) {
    forall x :: x in plan.hashesToSeed && InWindow(x.0, s.env.number) ==> RingGet(s.ring, x.0) == Some(x.1)
  }

  lemma {:induction false} SeedIsSeeded(plan: Plan, ring: HashRing, number: nat, x: (nat, Hash))
    requires OneHashEach(plan.hashesToSeed) && x in plan.hashesToSeed && InWindow(x.0, number)
    ensures RingGet(Seed(ring, plan.HashesForBlock(number)), x.0) == Some(x.1)
  {
    SeedGet(ring, plan.HashesForBlock(number), number, x);
  }

  lemma {:induction false} BeginSeeded(plan: Plan, ring: HashRing)
    requires plan.segments != [] && OneHashEach(plan.hashesToSeed)
    ensures Seeded(plan, Begin(plan, ring))
  {
    var s := Begin(plan, ring);
    forall x | x in plan.hashesToSeed && InWindow(x.0, s.env.number) ensures RingGet(s.ring, x.0) == Some(x.1) {
      SeedIsSeeded(plan, ring, s.env.number, x);
    }
  }

  lemma {:induction false} BoundariesSeeded(m: Machine, plan: Plan, s: Exec)
    requires OneHashEach(plan.hashesToSeed) && Seeded(plan, s)
    ensures Seeded(plan, Boundaries(m, plan, s))
    decreases |plan.segments| - s.next
  {
    if Due(plan, s) {
      var t := Boundary(m, plan, s);
      forall x | x in plan.hashesToSeed && InWindow(x.0, t.env.number) ensures RingGet(t.ring, x.0) == Some(x.1) {
        SeedIsSeeded(plan, s.ring, t.env.number, x);
      }
      BoundariesSeeded(m, plan, t);
    }
  }

  /** In every segment, all known hashes of its 256-block window are in the cache. */
  lemma {:induction false} HashesAtEveryStep(m: Machine, plan: Plan, s: Exec, txs: seq<Transaction>)
    requires OneHashEach(plan.hashesToSeed) && Seeded(plan, s)
    ensures Seeded(plan, Drive(m, plan, s, txs))
    decreases |txs|
  {
    if txs != [] {
      BoundariesSeeded(m, plan, CommitTx(m, Bumped(s), txs[0]));
      HashesAtEveryStep(m, plan, Commit(m, plan, Bumped(s), txs[0]), txs[1..]);
    }
  }

  // ---------------------------------------------------------------------------------------
  // With the right hashes the executor's machine is the one of the reference
  // ---------------------------------------------------------------------------------------

  ghost predicate IsSeeded(plan: Plan, n: nat) {
    exists x :: x in plan.hashesToSeed && x.0 == n
  }

  /** Every hash below block `number` that the chain has is seeded or in the database, and no other is. */
  ghost predicate Resolved(stored: Hashes, plan: Plan, truth: Hashes, number: nat) {
    forall n :: InWindow(n, number) ==> IsSeeded(plan, n) || Lookup(stored, n) == Lookup(truth, n)
  }

  /** The seeds are true, and in each segment they and the database cover its 256 blocks. */
  ghost predicate RightHashes(stored: Hashes, plan: Plan, truth: Hashes) {
    && (forall x :: x in plan.hashesToSeed ==> Lookup(truth, x.0) == Some(x.1))
    && (forall k :: 0 <= k < |plan.segments| ==> Resolved(stored, plan, truth, plan.segments[k].env.number))
  }

  /** The cache holds true hashes only. */
  ghost predicate TrueRing(ring: HashRing, truth: Hashes) {
    forall c :: c in ring ==> Lookup(truth, ring[c].0) == Some(ring[c].1)
  }

  lemma {:induction false} SeedTrue(ring: HashRing, seeds: seq<(nat, Hash)>, truth: Hashes)
    requires TrueRing(ring, truth) && forall x :: x in seeds ==> Lookup(truth, x.0) == Some(x.1)
    ensures TrueRing(Seed(ring, seeds), truth)
  {
    if seeds != [] {
      SeedTrue(ring, seeds[..|seeds| - 1], truth);
      assert seeds[|seeds| - 1] in seeds;
    }
  }

  /** With a true cache that holds all seeds of the window, every answer is the true one. */
  lemma {:induction false} AnswerIsTrue(stored: Hashes, plan: Plan, truth: Hashes, ring: HashRing, number: nat, n: nat)
    requires RightHashes(stored, plan, truth) && TrueRing(ring, truth) && Resolved(stored, plan, truth, number)
    requires InWindow(n, number)
    ensures BlockHash(stored, Seed(ring, plan.HashesForBlock(number)), n) == Lookup(truth, n)
  {
    var seeds := plan.HashesForBlock(number);
    SeedTrue(ring, seeds, truth);
    if IsSeeded(plan, n) {
      var x :| x in plan.hashesToSeed && x.0 == n;
      SeedIsSeeded(plan, ring, number, x);
    }
  }

  lemma {:induction false} VisibleIsWindow(stored: Hashes, ring: HashRing, truth: Hashes, number: nat)
    requires forall n :: InWindow(n, number) ==> BlockHash(stored, ring, n) == Lookup(truth, n)
    ensures Visible(stored, ring, number) == Window(truth, number)
  {
    var a, b := Visible(stored, ring, number), Window(truth, number);
    forall i | 0 <= i < 256 ensures a[i] == b[i] {
      if i < number {
        var n: nat := number - 1 - i;
        assert InWindow(n, number);
        assert a[i] == BlockHash(stored, ring, n) && b[i] == Lookup(truth, n);
      }
    }
  }

  lemma {:induction false} EnteredSeesTruth(stored: Hashes, plan: Plan, truth: Hashes, ring: HashRing, number: nat)
    requires RightHashes(stored, plan, truth) && TrueRing(ring, truth) && Resolved(stored, plan, truth, number)
    ensures var ring' := Seed(ring, plan.HashesForBlock(number));
            TrueRing(ring', truth) && Visible(stored, ring', number) == Window(truth, number)
  {
    SeedTrue(ring, plan.HashesForBlock(number), truth);
    var ring' := Seed(ring, plan.HashesForBlock(number));
    forall n: nat | InWindow(n, number) ensures BlockHash(stored, ring', n) == Lookup(truth, n) {
      AnswerIsTrue(stored, plan, truth, ring, number, n);
    }
    VisibleIsWindow(stored, ring', truth, number);
  }

  /** The current segment sees the true hashes. */
  ghost predicate SeesTruth(m: Machine, truth: Hashes, s: Exec) {
    TrueRing(s.ring, truth) && Visible(m.stored, s.ring, s.env.number) == Window(truth, s.env.number)
  }

  lemma {:induction false} CommitKnowing(m: Machine, truth: Hashes, s: Exec, tx: Transaction)
    requires SeesTruth(m, truth, s)
    ensures CommitTx(m, Bumped(s), tx) == CommitTx(Knowing(m, truth), Bumped(s), tx)
    ensures SeesTruth(m, truth, CommitTx(m, Bumped(s), tx))
  {
  }

  lemma {:induction false} RequestsKnowing(m: Machine, truth: Hashes, s: Exec, post: Event)
    requires SeesTruth(m, truth, s) && post.env == s.env
    ensures RequestsAtEnd(m, s, post) == RequestsAtEnd(Knowing(m, truth), s, post)
  {
  }

  lemma {:induction false} BoundaryKnowing(m: Machine, plan: Plan, truth: Hashes, s: Exec)
    requires RightHashes(m.stored, plan, truth) && SeesTruth(m, truth, s) && 1 <= s.next < |plan.segments|
    ensures Boundary(m, plan, s) == Boundary(Knowing(m, truth), plan, s)
    ensures SeesTruth(m, truth, Boundary(m, plan, s))
  {
    EnteredSeesTruth(m.stored, plan, truth, s.ring, plan.segments[s.next].env.number);
    RequestsKnowing(m, truth, s, Post(s.env, plan.segments[s.next - 1].ctx));
  }

  lemma {:induction false} BoundariesKnowing(m: Machine, plan: Plan, truth: Hashes, s: Exec)
    requires RightHashes(m.stored, plan, truth) && SeesTruth(m, truth, s)
    ensures Boundaries(m, plan, s) == Boundaries(Knowing(m, truth), plan, s)
    ensures SeesTruth(m, truth, Boundaries(m, plan, s))
    decreases |plan.segments| - s.next
  {
    if Due(plan, s) {
      BoundaryKnowing(m, plan, truth, s);
      BoundariesKnowing(m, plan, truth, Boundary(m, plan, s));
    }
  }

  lemma {:induction false} DriveKnowing(m: Machine, plan: Plan, truth: Hashes, s: Exec, txs: seq<Transaction>)
    requires RightHashes(m.stored, plan, truth) && SeesTruth(m, truth, s)
    ensures Drive(m, plan, s, txs) == Drive(Knowing(m, truth), plan, s, txs)
    ensures SeesTruth(m, truth, Drive(m, plan, s, txs))
    decreases |txs|
  {
    if txs != [] {
      CommitKnowing(m, truth, s, txs[0]);
      BoundariesKnowing(m, plan, truth, CommitTx(m, Bumped(s), txs[0]));
      DriveKnowing(m, plan, truth, Commit(m, plan, Bumped(s), txs[0]), txs[1..]);
    }
  }

  lemma {:induction false} BeginSeesTruth(m: Machine, plan: Plan, truth: Hashes, ring: HashRing)
    requires plan.segments != [] && RightHashes(m.stored, plan, truth) && TrueRing(ring, truth)
    ensures SeesTruth(m, truth, Begin(plan, ring))
  {
    EnteredSeesTruth(m.stored, plan, truth, ring, plan.segments[0].env.number);
  }

  lemma {:induction false} ExecuteKnowing(m: Machine, truth: Hashes, plan: Plan, ring: HashRing, txs: seq<Transaction>)
    requires plan.segments != [] && RightHashes(m.stored, plan, truth) && TrueRing(ring, truth)
    ensures ExecuteBigBlock(m, plan, ring, txs) == ExecuteBigBlock(Knowing(m, truth), plan, ring, txs)
  {
    BeginSeesTruth(m, plan, truth, ring);
    DriveKnowing(m, plan, truth, Begin(plan, ring), txs);
    var s := Bumped(Drive(m, plan, Begin(plan, ring), txs));
    RequestsKnowing(m, truth, s, Post(s.env, plan.segments[|plan.segments| - 1].ctx));
  }

  /**
   For any machine, if the seeds and the database give the true hashes: unless the first of
   several segments is empty, the big block has the receipts, gas and blob gas of the original
   blocks run one after the other, each seeing the true hashes of its ancestors. It has their
   requests if and only if none is read off a receipt twice.
   */
  lemma {:induction false} BigBlockRefinesSequential(m: Machine, truth: Hashes, ps: seq<Payload>, plan: Plan, ring: HashRing)
    requires ps != [] && plan.segments == SegmentsOf(ps) && !Stuck(ps)
    requires RightHashes(m.stored, plan, truth) && TrueRing(ring, truth)
    ensures var out, ref := ExecuteBigBlock(m, plan, ring, Transactions(ps)), RunBlocks(Knowing(m, truth), ps);
            && out.trace == ref.trace && SameResults(out, ref)
            && (out.requests == ref.requests <==> NoneRepeated(Knowing(m, truth), ps))
  {
    var k := Knowing(m, truth);
    ExecuteKnowing(m, truth, plan, ring, Transactions(ps));
    KnowingIgnores(m, truth);
    RunsTheBlocks(k, ps, plan, ring);
    CarriedExactlyWhen(k, ps);
    assert ps[..|ps|] == ps;
  }

  /**
   After any number of committed transactions, across any boundaries, receipt i carries the gas
   of transactions 0 to i over all segments, and offset plus segment gas is the total so far.
   */
  lemma {:induction false} GasAtEveryStep(m: Machine, truth: Hashes, ps: seq<Payload>, plan: Plan, ring: HashRing, t: nat)
    requires ps != [] && plan.segments == SegmentsOf(ps) && !Stuck(ps) && t <= |Transactions(ps)|
    requires RightHashes(m.stored, plan, truth) && TrueRing(ring, truth)
    ensures var s := Drive(m, plan, Begin(plan, ring), Transactions(ps)[..t]);
            var results := RunBlocks(Knowing(m, truth), ps).results;
            t <= |results| && s.receipts == ReceiptsOf(results[..t]) && s.gas + s.gasOffset == GasOf(results[..t])
  {
    BeginSeesTruth(m, plan, truth, ring);
    DriveKnowing(m, plan, truth, Begin(plan, ring), Transactions(ps)[..t]);
    KnowingIgnores(m, truth);
    GasAfter(Knowing(m, truth), ps, plan, ring, t);
  }

  /** Each block after the first names the hash of the block before it among the seeds. */
  ghost predicate ParentsSeeded(ps: seq<Payload>, plan: Plan) {
    forall k :: 0 < k < |ps| ==> ps[k].env.number > 0 && (ps[k].env.number - 1, ps[k].ctx.parentHash) in plan.hashesToSeed
  }

  ghost predicate Consecutive(ps: seq<Payload>) {
    forall k :: 0 <= k < |ps| ==> ps[k].env.number == ps[0].env.number + k
  }

  lemma {:induction false} ParentSeeded(ps: seq<Payload>, plan: Plan, n: nat)
    requires Consecutive(ps) && ParentsSeeded(ps, plan) && ps != []
    requires ps[0].env.number <= n < ps[0].env.number + |ps| - 1
    ensures IsSeeded(plan, n)
  {
    var i := n - ps[0].env.number + 1;
    assert ps[i].env.number == ps[0].env.number + i;
    var x: (nat, Hash) := (ps[i].env.number - 1, ps[i].ctx.parentHash);
    assert x in plan.hashesToSeed && x.0 == n;
  }

  /**
   For consecutive blocks it is enough that the database knows the hashes below the first block,
   and that each later block names its predecessor's hash and all seeds are true.
   */
  lemma {:induction false} ConsecutiveBlocksResolve(stored: Hashes, ps: seq<Payload>, plan: Plan, truth: Hashes)
    requires plan.segments == SegmentsOf(ps) && ps != [] && Consecutive(ps) && ParentsSeeded(ps, plan)
    requires forall n: nat :: n < ps[0].env.number ==> Lookup(stored, n) == Lookup(truth, n)
    requires forall x :: x in plan.hashesToSeed ==> Lookup(truth, x.0) == Some(x.1)
    ensures RightHashes(stored, plan, truth)
  {
    forall k | 0 <= k < |ps| ensures Resolved(stored, plan, truth, plan.segments[k].env.number) {
      var number := plan.segments[k].env.number;
      assert number == ps[0].env.number + k by { assert ps[k].env.number == ps[0].env.number + k; }
      forall n: nat | InWindow(n, number) ensures IsSeeded(plan, n) || Lookup(stored, n) == Lookup(truth, n) {
        if n >= ps[0].env.number { ParentSeeded(ps, plan, n); }
      }
    }
  }
}
