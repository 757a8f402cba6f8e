/**
 The big-block executor as the mutable object of bin/reth-bb/src/evm.rs, and the payload
 conversion of bin/reth-bb/src/evm_config.rs, proved against the functions of `BigBlock`.
 */
module BigBlockExecutor {
  import opened Prelude
  import opened BigBlock

  /** The environment, context and block hashes of segment `k`. */
  ghost function Entered(plan: Plan, s: Exec, k: nat): Exec
    requires k < |plan.segments|
  {
    var seg := plan.segments[k];
    s.(env := EnvOf(seg.env), ctx := seg.ctx, ring := Seed(s.ring, plan.HashesForBlock(seg.env.number)))
  }

  /**
   The state after initialization. Index 0 means canonical execution from segment 0; a positive
   index is a worker for one transaction and moves to that transaction's place in the numbering
   that also counts the boundary events. Only canonical execution counts as initialized then.
   */
  ghost function Initialized(plan: Plan, s: Exec, done: bool): Exec
    requires plan.segments != []
  {
    if done then s
    else if s.bal == 0 then Entered(plan, s, 0)
    else Entered(plan, s, plan.SegmentIndexForTx(s.bal - 1)).(bal := WorkerIndex(plan, s.bal - 1))
  }

  /**
   The events an executor's reads see: everything that ran on its own database, or, with a block
   access list from elsewhere, the events of that list below the current index.
   */
  function History(received: Option<seq<Event>>, trace: seq<Event>, index: nat): seq<Event> {
    match received
    case None => trace
    case Some(events) => events[..Min(index, |events|)]
  }

  class BbBlockExecutor {
    const machine: Machine
    const plan: Plan
    const received: Option<seq<Event>>

    // position in the plan
    var nextSegment: nat
    var txCounter: nat
    // the inner executor of the current segment
    var env: EvmEnv
    var ctx: Ctx
    var gasUsed: nat
    var blobGasUsed: nat
    var receipts: seq<Receipt>
    // results of finished segments
    var accumulatedRequests: seq<Request>
    var gasUsedOffset: nat
    var blobGasUsedOffset: nat
    var initialized: bool
    // the database
    var trace: seq<Event>
    var marks: seq<nat>
    var balIndex: nat
    var ring: HashRing

    ghost function State(): Exec
      reads this
    {
      Exec(nextSegment, txCounter, env, ctx, gasUsed, blobGasUsed, receipts, accumulatedRequests,
           gasUsedOffset, blobGasUsedOffset, trace, marks, balIndex, ring)
    }

    constructor (machine: Machine, plan: Plan, received: Option<seq<Event>>, env: EvmEnv, ring: HashRing, balIndex: nat)
      requires plan.segments != []
      ensures this.machine == machine && this.plan == plan && this.received == received && !initialized
      ensures State() == Exec(1, 0, env, plan.segments[0].ctx, 0, 0, [], [], 0, 0, [], [], balIndex, ring)
    {
      this.machine, this.plan, this.received := machine, plan, received;
      nextSegment, txCounter := 1, 0;
      this.env, ctx := env, plan.segments[0].ctx;
      gasUsed, blobGasUsed, receipts := 0, 0, [];
      accumulatedRequests, gasUsedOffset, blobGasUsedOffset := [], 0, 0;
      initialized := false;
      trace, marks, this.balIndex, this.ring := [], [], balIndex, ring;
    }

    /** Takes over the environment, context and block hashes of a segment. */
    method Enter(k: nat)
      requires k < |plan.segments|
      modifies this
      ensures State() == Entered(plan, old(State()), k) && initialized == old(initialized)
    {
      var seg := plan.segments[k];
      env, ctx := EnvOf(seg.env), seg.ctx;
      ring := Seed(ring, plan.HashesForBlock(env.number));
    }

    /** Selects the starting segment. */
    method Initialize()
      requires plan.segments != []
      modifies this
      ensures State() == Initialized(plan, old(State()), old(initialized))
      ensures initialized == (old(initialized) || old(balIndex) == 0)
    {
      if initialized {
        return;
      }
      var k := 0;
      if balIndex > 0 {
        k := plan.SegmentIndexForTx(balIndex - 1);
        balIndex := balIndex + 2 * k;
      } else {
        initialized := true;
      }
      Enter(k);
    }

    /** Runs one event on the database at the current index. */
    method Run(e: Event)
      modifies this
      ensures State() == Logged(old(State()), e) && initialized == old(initialized)
    {
      trace := trace + [e];
      marks := marks + [balIndex];
    }

    method BumpBalIndex()
      modifies this
      ensures State() == Bumped(old(State())) && initialized == old(initialized)
    {
      balIndex := balIndex + 1;
    }

    method SetBalIndex(index: nat)
      modifies this
      ensures State() == old(State()).(bal := index) && initialized == old(initialized)
    {
      balIndex := index;
    }

    method ApplyPreExecutionChanges()
      requires plan.segments != []
      modifies this
      ensures var s := Initialized(plan, old(State()), old(initialized)); State() == Logged(s, Pre(s.env, s.ctx))
      ensures initialized == (old(initialized) || old(balIndex) == 0)
    {
      Initialize();
      Run(Pre(env, ctx));
    }

    /** The requests that the inner executor finds at its end, in its receipts and by its system calls. */
    function RequestsOfInner(post: Event): seq<Request>
      reads this
    {
      Deposits(machine.deposits, post, LogsIn(receipts)) + machine.system(trace, Visible(machine.stored, ring, env.number), post)
    }

    /** Finishes the inner executor for the completed segment. */
    method FinishSegment()
      requires 1 <= nextSegment <= |plan.segments|
      modifies this
      ensures State() == EndSegment(machine, plan, old(State()))
      ensures initialized == old(initialized)
    {
      ctx := plan.segments[nextSegment - 1].ctx;
      BumpBalIndex();
      var post := Post(env, ctx);
      accumulatedRequests := accumulatedRequests + RequestsOfInner(post);
      Run(post);
      AddOffsets();
    }

    method AddOffsets()
      modifies this
      ensures State() == old(State().(gasOffset := gasUsedOffset + gasUsed, blobGasOffset := blobGasUsedOffset + blobGasUsed))
      ensures initialized == old(initialized)
    {
      gasUsedOffset := gasUsedOffset + gasUsed;
      blobGasUsedOffset := blobGasUsedOffset + blobGasUsed;
    }

    method ApplySegmentBoundary()
      requires 1 <= nextSegment < |plan.segments|
      modifies this
      ensures State() == Boundary(machine, plan, old(State())) && initialized == old(initialized)
    {
      FinishSegment();
      nextSegment := nextSegment + 1;
      BumpBalIndex();
      // build a new inner executor that carries the receipts forward
      gasUsed, blobGasUsed := 0, 0;
      Enter(nextSegment - 1);
      Run(Pre(env, ctx));
    }

    /** Runs a transaction on the history that the current index sees, and changes no state. */
    method ExecuteTransactionWithoutCommit(tx: Transaction) returns (e: Event, r: TxResult)
      requires plan.segments != []
      modifies this
      ensures var s := Initialized(plan, old(State()), old(initialized));
              && State() == s && e == Tx(s.env, s.ctx, tx)
              && r == machine.run(History(received, s.trace, s.bal), Visible(machine.stored, s.ring, s.env.number), e)
      ensures initialized == (old(initialized) || old(balIndex) == 0)
    {
      Initialize();
      e := Tx(env, ctx, tx);
      r := machine.run(History(received, trace, balIndex), Visible(machine.stored, ring, env.number), e);
    }

    /** Commits to the inner executor, whose receipts count the gas of the segment. */
    method CommitInner(e: Event, r: TxResult)
      modifies this
      ensures var s := old(State());
              State() == Logged(s, e).(gas := s.gas + r.gas, blobGas := s.blobGas + r.blobGas,
                                       receipts := s.receipts + [Receipt(s.gas + r.gas, r.logs)])
      ensures initialized == old(initialized)
    {
      gasUsed := gasUsed + r.gas;
      blobGasUsed := blobGasUsed + r.blobGas;
      receipts := receipts + [Receipt(gasUsed, r.logs)];
      Run(e);
    }

    /** Makes the gas of the last receipt global. */
    method FixLastReceipt()
      requires receipts != []
      modifies this
      ensures var last := old(receipts)[|old(receipts)| - 1];
              State() == old(State()).(receipts := old(receipts)[..|old(receipts)| - 1] + [Receipt(last.gas + gasUsedOffset, last.logs)])
      ensures initialized == old(initialized)
    {
      var last := receipts[|receipts| - 1];
      assert receipts == receipts[..|receipts| - 1] + [last];
      if gasUsedOffset > 0 {
        receipts := receipts[|receipts| - 1 := Receipt(last.gas + gasUsedOffset, last.logs)];
      }
    }

    method CommitOne(e: Event, r: TxResult)
      modifies this
      ensures State() == CommitResult(old(State()), e, r) && initialized == old(initialized)
    {
      CommitInner(e, r);
      FixLastReceipt();
      txCounter := txCounter + 1;
    }

    method CommitTransaction(e: Event, r: TxResult)
      requires nextSegment >= 1
      modifies this
      ensures State() == Boundaries(machine, plan, CommitResult(old(State()), e, r)) && initialized == old(initialized)
      ensures nextSegment >= 1
    {
      CommitOne(e, r);
      ghost var committed := State();
      while nextSegment < |plan.segments| && txCounter == plan.segments[nextSegment].startTx
        invariant nextSegment >= 1 && initialized == old(initialized)
        invariant Boundaries(machine, plan, State()) == Boundaries(machine, plan, committed)
        decreases |plan.segments| - nextSegment
      {
        ApplySegmentBoundary();
      }
    }

    method Finish() returns (out: Output)
      requires plan.segments != []
      modifies this
      ensures out == BigBlock.Finish(machine, plan, old(State()))
    {
      ctx := plan.segments[|plan.segments| - 1].ctx;
      var post := Post(env, ctx);
      var requests := RequestsOfInner(post);
      Run(post);
      if accumulatedRequests != [] {
        requests := accumulatedRequests + requests;
      }
      out := Output(receipts, gasUsed + gasUsedOffset, blobGasUsed + blobGasUsedOffset, requests, trace, marks);
    }
  }

  // ---------------------------------------------------------------------------------------
  // From payload to plan
  // ---------------------------------------------------------------------------------------

  /** Only the first block of a payload can be number 0. */
  predicate AboveZero(ps: seq<Payload>) {
    forall k :: 0 < k < |ps| ==> ps[k].env.number > 0
  }

  /** Each block after the first knows the hash of the block before it. */
  function ParentHashes(ps: seq<Payload>): seq<(nat, Hash)>
    requires AboveZero(ps)
  {
    if |ps| <= 1 then []
    else
      var last := ps[|ps| - 1];
      ParentHashes(ps[..|ps| - 1]) + [(last.env.number - 1, last.ctx.parentHash)]
  }

  lemma {:induction false} ParentHashesContain(ps: seq<Payload>, k: nat)
    requires AboveZero(ps) && 0 < k < |ps|
    ensures (ps[k].env.number - 1, ps[k].ctx.parentHash) in ParentHashes(ps)
  {
    if k < |ps| - 1 {
      ParentHashesContain(ps[..|ps| - 1], k);
    }
  }

  ghost predicate SortedByNumber(s: seq<(nat, Hash)>) {
    forall i, j :: 0 <= i < j < |s| ==> s[i].0 <= s[j].0
  }

  /** Puts `x` in front of the first entry with a larger number. */
  method InsertByNumber(s: seq<(nat, Hash)>, x: (nat, Hash)) returns (r: seq<(nat, Hash)>)
    requires SortedByNumber(s)
    ensures SortedByNumber(r) && multiset(r) == multiset(s) + multiset{x}
  {
    var i := 0;
    while i < |s| && s[i].0 <= x.0
      invariant 0 <= i <= |s| && forall j :: 0 <= j < i ==> s[j].0 <= x.0
    {
      i := i + 1;
    }
    assert s == s[..i] + s[i..];
    r := s[..i] + [x] + s[i..];
    InsertedSorted(s, i, x, r);
  }

  lemma {:induction false} InsertedSorted(s: seq<(nat, Hash)>, i: nat, x: (nat, Hash), r: seq<(nat, Hash)>)
    requires SortedByNumber(s) && i <= |s| && r == s[..i] + [x] + s[i..]
    requires (forall j :: 0 <= j < i ==> s[j].0 <= x.0) && (i < |s| ==> x.0 < s[i].0)
    ensures SortedByNumber(r)
  {
    forall a, b | 0 <= a < b < |r| ensures r[a].0 <= r[b].0 {
      var a', b' := if a < i then a else a - 1, if b < i then b else b - 1;
      assert a != i ==> r[a] == s[a'];
      assert b != i ==> r[b] == s[b'];
    }
  }

  /** Some permutation of `s` sorted by number; equal numbers may end up in any order. */
  method SortByNumber(s: seq<(nat, Hash)>) returns (r: seq<(nat, Hash)>)
    ensures SortedByNumber(r) && multiset(r) == multiset(s)
  {
    r := [];
    for i := 0 to |s|
      invariant SortedByNumber(r) && multiset(r) == multiset(s[..i])
    {
      r := InsertByNumber(r, s[i]);
      assert s[..i + 1] == s[..i] + [s[i]];
    }
    assert s[..|s|] == s;
  }

  /** Segment boundaries are the running transaction count. */
  method BuildSegments(ps: seq<Payload>) returns (segments: seq<Segment>)
    ensures segments == SegmentsOf(ps)
  {
    var currentTx := 0;
    segments := [];
    for i := 0 to |ps|
      invariant currentTx == StartTx(ps, i)
      invariant segments == SegmentsOf(ps)[..i]
    {
      segments := segments + [Segment(currentTx, EnvOf(ps[i].env), ps[i].ctx)];
      currentTx := currentTx + |ps[i].txs|;
    }
  }

  /**
   The seeds are the payload's prior hashes together with every later block's parent hash,
   sorted by number.
   */
  method ContextForPayload(ps: seq<Payload>, prior: seq<(nat, Hash)>) returns (plan: Plan)
    requires AboveZero(ps)
    ensures plan.segments == SegmentsOf(ps)
    ensures multiset(plan.hashesToSeed) == multiset(ParentHashes(ps)) + multiset(prior)
    ensures SortedByNumber(plan.hashesToSeed)
  {
    var segments := BuildSegments(ps);
    var seeds: seq<(nat, Hash)> := [];
    for i := (if segments == [] then 0 else 1) to |segments|
      invariant seeds == ParentHashes(ps[..i])
    {
      seeds := seeds + [(segments[i].env.number - 1, segments[i].ctx.parentHash)];
      assert ps[..i + 1][..i] == ps[..i];
    }
    assert ps[..|ps|] == ps;
    var sorted := SortByNumber(seeds + prior);
    plan := Plan(segments, sorted);
  }

  // ---------------------------------------------------------------------------------------
  // The whole block
  // ---------------------------------------------------------------------------------------

  /** Runs and commits the transactions one by one, and finishes. */
  method RunPlan(machine: Machine, plan: Plan, env: EvmEnv, ring: HashRing, txs: seq<Transaction>) returns (out: Output)
    requires plan.segments != []
    ensures out == ExecuteBigBlock(machine, plan, ring, txs)
  {
    var executor := new BbBlockExecutor(machine, plan, None, env, ring, 0);
    executor.ApplyPreExecutionChanges();
    for i := 0 to |txs|
      invariant executor.nextSegment >= 1 && executor.initialized
      invariant Drive(machine, plan, executor.State(), txs[i..]) == Drive(machine, plan, Begin(plan, ring), txs)
    {
      assert txs[i..][1..] == txs[i + 1..];
      executor.BumpBalIndex();
      var e, r := executor.ExecuteTransactionWithoutCommit(txs[i]);
      executor.CommitTransaction(e, r);
    }
    executor.BumpBalIndex();
    out := executor.Finish();
  }

  /** The payload's hashes are true, and with the database's they cover every block's window. */
  ghost predicate TruePayload(stored: Hashes, ps: seq<Payload>, prior: seq<(nat, Hash)>, truth: Hashes)
    requires AboveZero(ps)
  {
    RightHashes(stored, Plan(SegmentsOf(ps), ParentHashes(ps) + prior), truth)
  }

  /** The order of the seeds does not matter. */
  lemma {:induction false} SameSeeds(stored: Hashes, ps: seq<Payload>, prior: seq<(nat, Hash)>, plan: Plan, truth: Hashes)
    requires AboveZero(ps) && plan.segments == SegmentsOf(ps) && TruePayload(stored, ps, prior, truth)
    requires multiset(plan.hashesToSeed) == multiset(ParentHashes(ps)) + multiset(prior)
    ensures RightHashes(stored, plan, truth)
  {
    var seeds := ParentHashes(ps) + prior;
    forall x ensures x in seeds <==> x in plan.hashesToSeed {
      assert x in seeds <==> x in multiset(seeds);
      assert x in plan.hashesToSeed <==> x in multiset(plan.hashesToSeed);
    }
    SameMembers(stored, Plan(SegmentsOf(ps), seeds), plan, truth);
  }

  lemma {:induction false} SameMembers(stored: Hashes, a: Plan, b: Plan, truth: Hashes)
    requires a.segments == b.segments && (forall x :: x in a.hashesToSeed <==> x in b.hashesToSeed)
    requires RightHashes(stored, a, truth)
    ensures RightHashes(stored, b, truth)
  {
    forall k | 0 <= k < |b.segments| ensures Resolved(stored, b, truth, b.segments[k].env.number) {
      var number := b.segments[k].env.number;
      assert Resolved(stored, a, truth, number);
      forall n: nat | InWindow(n, number) ensures IsSeeded(b, n) || Lookup(stored, n) == Lookup(truth, n) {
        assert IsSeeded(a, n) ==> IsSeeded(b, n);
      }
    }
  }

  /** Executing a payload as one big block against executing its blocks one after the other. */
  method ExecuteBlock(machine: Machine, ps: seq<Payload>, prior: seq<(nat, Hash)>, env: EvmEnv, ring: HashRing, ghost truth: Hashes)
    returns (out: Output)
    requires ps != [] && AboveZero(ps)
    ensures out.trace == TraceOf(ps) <==> !Stuck(ps)
    ensures !Stuck(ps) ==> |out.marks| == |out.trace| && forall i :: 0 <= i < |out.marks| ==> out.marks[i] == i
    ensures !Stuck(ps) && TrueRing(ring, truth) && TruePayload(machine.stored, ps, prior, truth) ==>
              var ref := RunBlocks(Knowing(machine, truth), ps);
              && SameResults(out, ref)
              && (out.requests == ref.requests <==> NoneRepeated(Knowing(machine, truth), ps))
  {
    var plan := ContextForPayload(ps, prior);
    out := RunPlan(machine, plan, env, ring, Transactions(ps));
    RefinesExactlyWhen(machine, ps, plan, ring);
    if !Stuck(ps) {
      RunsTheBlocks(machine, ps, plan, ring);
      if TrueRing(ring, truth) && TruePayload(machine.stored, ps, prior, truth) {
        SameSeeds(machine.stored, ps, prior, plan, truth);
        BigBlockRefinesSequential(machine, truth, ps, plan, ring);
      }
    }
  }

  lemma {:induction false} SeededParent(ps: seq<Payload>, plan: Plan, s: Exec, i: nat)
    requires AboveZero(ps) && 0 < i < |ps|
    requires Seeded(plan, s) && forall x :: x in ParentHashes(ps) ==> x in plan.hashesToSeed
    requires InWindow(ps[i].env.number - 1, s.env.number)
    ensures RingGet(s.ring, ps[i].env.number - 1) == Some(ps[i].ctx.parentHash)
  {
    ParentHashesContain(ps, i);
  }

  /**
   While a segment runs, the hash of every earlier block of the payload within its 256-block
   window is the one the following block names as its parent.
   */
  lemma {:induction false} EarlierBlockHash(machine: Machine, ps: seq<Payload>, plan: Plan, ring: HashRing, s: Exec, t: nat, k: nat, i: nat)
    requires AboveZero(ps) && 0 < i < |ps| && k < |ps|
    requires plan.segments == SegmentsOf(ps) && OneHashEach(plan.hashesToSeed)
    requires forall x :: x in ParentHashes(ps) ==> x in plan.hashesToSeed
    requires t <= |Transactions(ps)| && s == Drive(machine, plan, Begin(plan, ring), Transactions(ps)[..t])
    requires s.env == EnvOf(ps[k].env) && InWindow(ps[i].env.number - 1, ps[k].env.number)
    ensures RingGet(s.ring, ps[i].env.number - 1) == Some(ps[i].ctx.parentHash)
  {
    assert Seeded(plan, s) by {
      BeginSeeded(plan, ring);
      HashesAtEveryStep(machine, plan, Begin(plan, ring), Transactions(ps)[..t]);
    }
    SeededParent(ps, plan, s, i);
  }
}
