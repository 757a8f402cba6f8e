/**
 Parallel execution of a big block with a block access list: workers run the transactions in any
 order against the received list, their results are put back in order, and a canonical executor
 commits them (crates/engine/tree/src/tree/payload_processor/bal/execute.rs, worker.rs,
 ordered_outputs.rs).
 */
module BalWorkers {
  import opened Prelude
  import opened BigBlock
  import opened BigBlockExecutor

  /** A transaction that a worker ran as `event`. */
  datatype WorkerOutput = WorkerOutput(index: nat, event: Event, result: TxResult)

  // ---------------------------------------------------------------------------------------
  // One worker
  // ---------------------------------------------------------------------------------------

  /** The cache of a worker that has taken over the segment of transaction `i`. */
  function RingFor(plan: Plan, ring: HashRing, i: nat): HashRing
    requires plan.segments != []
  {
    Seed(ring, plan.HashesForBlock(plan.segments[plan.SegmentIndexForTx(i)].env.number))
  }

  /** What a worker with the given cache finds for transaction `i` against the received list. */
  function OutputOf(m: Machine, plan: Plan, ring: HashRing, received: seq<Event>, i: nat, tx: Transaction): WorkerOutput
    requires plan.segments != []
  {
    var seg := plan.segments[plan.SegmentIndexForTx(i)];
    var env := EnvOf(seg.env);
    var e := Tx(env, seg.ctx, tx);
    var seen := History(Some(received), [], WorkerIndex(plan, i));
    WorkerOutput(i, e, m.run(seen, Visible(m.stored, RingFor(plan, ring, i), env.number), e))
  }

  /** The output for transaction `i` of some worker whose cache was true when it took the job. */
  ghost predicate FromWorker(m: Machine, plan: Plan, truth: Hashes, received: seq<Event>, i: nat, tx: Transaction, o: WorkerOutput)
    requires plan.segments != []
  {
    exists ring :: TrueRing(ring, truth) && o == OutputOf(m, plan, ring, received, i, tx)
  }

  ghost predicate TrueSeeds(plan: Plan, truth: Hashes) {
    forall x :: x in plan.hashesToSeed ==> Lookup(truth, x.0) == Some(x.1)
  }

  /** One job: the executor moves to the segment of the transaction and runs it. */
  method RunJob(executor: BbBlockExecutor, i: nat, tx: Transaction) returns (o: WorkerOutput)
    requires executor.plan.segments != [] && !executor.initialized && executor.received.Some?
    modifies executor
    ensures o == OutputOf(executor.machine, executor.plan, old(executor.ring), executor.received.value, i, tx)
    ensures executor.ring == RingFor(executor.plan, old(executor.ring), i) && !executor.initialized
  {
    executor.SetBalIndex(i + 1);
    var e, r := executor.ExecuteTransactionWithoutCommit(tx);
    o := WorkerOutput(i, e, r);
  }

  /**
   A worker keeps one executor for all jobs it takes, whatever their order: each time the executor
   moves to the segment of the job, and its cache stays true.
   */
  method Work(machine: Machine, plan: Plan, env: EvmEnv, ring: HashRing, received: seq<Event>, jobs: seq<(nat, Transaction)>,
              ghost truth: Hashes)
    returns (outputs: seq<WorkerOutput>)
    requires plan.segments != []
    ensures |outputs| == |jobs|
    ensures TrueSeeds(plan, truth) && TrueRing(ring, truth) ==>
              forall n :: 0 <= n < |jobs| ==> FromWorker(machine, plan, truth, received, jobs[n].0, jobs[n].1, outputs[n])
  {
    ghost var hold := TrueSeeds(plan, truth) && TrueRing(ring, truth);
    var executor := new BbBlockExecutor(machine, plan, Some(received), env, ring, 0);
    outputs := [];
    for n := 0 to |jobs|
      invariant !executor.initialized && (hold ==> TrueRing(executor.ring, truth)) && |outputs| == n
      invariant hold ==> forall n' :: 0 <= n' < n ==> FromWorker(machine, plan, truth, received, jobs[n'].0, jobs[n'].1, outputs[n'])
    {
      ghost var before := executor.ring;
      var o := RunJob(executor, jobs[n].0, jobs[n].1);
      if hold {
        SeedTrue(before, plan.HashesForBlock(plan.segments[plan.SegmentIndexForTx(jobs[n].0)].env.number), truth);
      }
      outputs := outputs + [o];
    }
  }

  // ---------------------------------------------------------------------------------------
  // Committing what workers found
  // ---------------------------------------------------------------------------------------

  /** Commits outputs in the given order. */
  function DriveOutputs(m: Machine, plan: Plan, s: Exec, outputs: seq<WorkerOutput>): Exec
    decreases |outputs|
  {
    if outputs == [] then s
    else
      var o := outputs[0];
      DriveOutputs(m, plan, Boundaries(m, plan, CommitResult(Bumped(s), o.event, o.result)), outputs[1..])
  }

  function ExecuteOutputs(m: Machine, plan: Plan, ring: HashRing, outputs: seq<WorkerOutput>): Output
    requires plan.segments != []
  {
    Finish(m, plan, Bumped(DriveOutputs(m, plan, Begin(plan, ring), outputs)))
  }

  /** The output is what the canonical executor finds when it runs transaction `i` itself. */
  ghost predicate Canonical(m: Machine, plan: Plan, s: Exec, txs: seq<Transaction>, i: nat, o: WorkerOutput)
    requires i < |txs|
  {
    var t := Drive(m, plan, s, txs[..i]);
    o.event == Tx(t.env, t.ctx, txs[i]) && o.result == RunIn(m, t, txs[i])
  }

  /** Committing outputs that are all canonical is the same as running the transactions. */
  lemma {:induction false} CanonicalOutputs(m: Machine, plan: Plan, s: Exec, txs: seq<Transaction>, outputs: seq<WorkerOutput>)
    requires |outputs| == |txs| && forall i :: 0 <= i < |txs| ==> Canonical(m, plan, s, txs, i, outputs[i])
    ensures DriveOutputs(m, plan, s, outputs) == Drive(m, plan, s, txs)
    decreases |txs|
  {
    if txs != [] {
      assert txs[..0] == [] && Canonical(m, plan, s, txs, 0, outputs[0]);
      var s' := Commit(m, plan, Bumped(s), txs[0]);
      forall i | 0 <= i < |txs[1..]| ensures Canonical(m, plan, s', txs[1..], i, outputs[1..][i]) {
        assert txs[..i + 1][1..] == txs[1..][..i];
        assert Canonical(m, plan, s, txs, i + 1, outputs[i + 1]);
      }
      CanonicalOutputs(m, plan, s', txs[1..], outputs[1..]);
    }
  }

  /** Against the true list and with a true cache, a worker finds what the canonical executor finds. */
  lemma {:induction false} WorkerIsCanonical(m: Machine, truth: Hashes, ps: seq<Payload>, plan: Plan, ring: HashRing, i: nat, o: WorkerOutput)
    requires ps != [] && plan.segments == SegmentsOf(ps) && !Stuck(ps) && i < |Transactions(ps)|
    requires RightHashes(m.stored, plan, truth) && TrueRing(ring, truth)
    requires FromWorker(m, plan, truth, TraceOf(ps), i, Transactions(ps)[i], o)
    ensures Canonical(m, plan, Begin(plan, ring), Transactions(ps), i, o)
  {
    var txs := Transactions(ps);
    var s := Drive(m, plan, Begin(plan, ring), txs[..i]);
    BeginSeesTruth(m, plan, truth, ring);
    DriveKnowing(m, plan, truth, Begin(plan, ring), txs[..i]);
    RefinesExactlyWhen(m, ps, plan, ring);
    WorkerSeesPrefix(m, ps, plan, ring, i, s, ExecuteBigBlock(m, plan, ring, txs));
    BeforeTx(m, ps, plan, ring, i, s);
    var ring' :| TrueRing(ring', truth) && o == OutputOf(m, plan, ring', TraceOf(ps), i, txs[i]);
    EnteredSeesTruth(m.stored, plan, truth, ring', s.env.number);
  }

  /** Committing what workers found, in order, is executing the big block. */
  lemma {:induction false} WorkersRefine(m: Machine, truth: Hashes, ps: seq<Payload>, plan: Plan, ring: HashRing, outputs: seq<WorkerOutput>)
    requires ps != [] && plan.segments == SegmentsOf(ps) && !Stuck(ps)
    requires RightHashes(m.stored, plan, truth) && TrueRing(ring, truth)
    requires |outputs| == |Transactions(ps)|
    requires forall i :: 0 <= i < |outputs| ==> FromWorker(m, plan, truth, TraceOf(ps), i, Transactions(ps)[i], outputs[i])
    ensures ExecuteOutputs(m, plan, ring, outputs) == ExecuteBigBlock(m, plan, ring, Transactions(ps))
  {
    forall i | 0 <= i < |outputs| ensures Canonical(m, plan, Begin(plan, ring), Transactions(ps), i, outputs[i]) {
      WorkerIsCanonical(m, truth, ps, plan, ring, i, outputs[i]);
    }
    CanonicalOutputs(m, plan, Begin(plan, ring), Transactions(ps), outputs);
  }

  // ---------------------------------------------------------------------------------------
  // Putting outputs back in order
  // ---------------------------------------------------------------------------------------

  /** What arrives on the result channel. */
  datatype Message = Sent(output: WorkerOutput) | Failure(code: nat)

  /** A worker's own error, a channel that closed early, or an index that cannot be (where the source panics). */
  datatype OrderError = Worker(code: nat) | ResultChannelClosed | BadIndex

  /** The first output for transaction `i`. */
  function Find(messages: seq<Message>, i: nat): Option<WorkerOutput> {
    if messages == [] then None
    else
      var n := |messages| - 1;
      if Find(messages[..n], i).Some? then Find(messages[..n], i)
      else if messages[n].Sent? && messages[n].output.index == i then Some(messages[n].output)
      else None
  }

  /** The first output for transaction `i` among the first `n` messages. */
  function Arrived(messages: seq<Message>, n: nat, i: nat): Option<WorkerOutput>
    requires n <= |messages|
  {
    Find(messages[..n], i)
  }

  /** Message `n` is the first output for some transaction. */
  predicate Fresh(messages: seq<Message>, total: nat, n: nat)
    requires n < |messages|
  {
    messages[n].Sent? && messages[n].output.index < total && Arrived(messages, n, messages[n].output.index) == None
  }

  ghost predicate AllFresh(messages: seq<Message>, total: nat, n: nat) {
    n <= |messages| && forall j :: 0 <= j < n ==> Fresh(messages, total, j)
  }

  /** The first messages are one output for each transaction, in some order. */
  ghost predicate Complete(messages: seq<Message>, total: nat) {
    AllFresh(messages, total, total)
  }

  lemma {:induction false} FindNext(messages: seq<Message>, n: nat, i: nat)
    requires n < |messages| && messages[n].Sent?
    ensures Arrived(messages, n + 1, i) ==
              if Arrived(messages, n, i).Some? || i != messages[n].output.index then Arrived(messages, n, i)
              else Some(messages[n].output)
  {
    assert messages[..n + 1][..n] == messages[..n];
  }

  /** A first output stays the first one when more arrive. */
  lemma {:induction false} FindStable(messages: seq<Message>, n: nat, i: nat)
    requires n <= |messages| && Arrived(messages, n, i).Some?
    ensures Find(messages, i) == Arrived(messages, n, i)
  {
    if n == |messages| {
      assert messages[..n] == messages;
    } else {
      var last := |messages| - 1;
      assert messages[..last][..n] == messages[..n];
      FindStable(messages[..last], n, i);
    }
  }

  lemma {:induction false} FoundIsSent(messages: seq<Message>, i: nat)
    requires Find(messages, i).Some?
    ensures Find(messages, i).value.index == i && Sent(Find(messages, i).value) in messages
  {
    var n := |messages| - 1;
    if Arrived(messages, n, i).Some? { FoundIsSent(messages[..n], i); }
  }

  /** The transactions that have an output. */
  ghost function Indices(messages: seq<Message>): set<nat> {
    if messages == [] then {}
    else
      var n := |messages| - 1;
      Indices(messages[..n]) + if messages[n].Sent? then {messages[n].output.index} else {}
  }

  lemma {:induction false} IndicesFound(messages: seq<Message>, i: nat)
    ensures i in Indices(messages) <==> Find(messages, i).Some?
  {
    if messages != [] { IndicesFound(messages[..|messages| - 1], i); }
  }

  lemma {:induction false} IndicesCount(messages: seq<Message>, total: nat, n: nat)
    requires AllFresh(messages, total, n)
    ensures |Indices(messages[..n])| == n && forall i :: i in Indices(messages[..n]) ==> i < total
  {
    if n > 0 {
      IndicesCount(messages, total, n - 1);
      assert Fresh(messages, total, n - 1);
      assert messages[..n][..n - 1] == messages[..n - 1];
      IndicesFound(messages[..n - 1], messages[n - 1].output.index);
    }
  }

  lemma {:induction false} AtMost(s: set<nat>, n: nat)
    requires forall i :: i in s ==> i < n
    ensures |s| <= n
  {
    if n == 0 {
      assert s == {};
    } else {
      AtMost(s - {n - 1}, n - 1);
    }
  }

  lemma {:induction false} AtLeast(s: set<nat>, n: nat)
    requires forall i: nat :: i < n ==> i in s
    ensures |s| >= n
  {
    if n > 0 {
      AtLeast(s - {n - 1}, n - 1);
    }
  }

  /** While an output is missing, fewer messages have come than there are transactions. */
  lemma {:induction false} MissingMeansMore(messages: seq<Message>, total: nat, n: nat, i: nat)
    requires AllFresh(messages, total, n) && i < total && Arrived(messages, n, i) == None
    ensures n < total
  {
    var s := Indices(messages[..n]);
    IndicesCount(messages, total, n);
    IndicesFound(messages[..n], i);
    AtMost(s + {i}, total);
  }

  /** Once every output has come, the messages were complete. */
  lemma {:induction false} AllFound(messages: seq<Message>, total: nat, n: nat)
    requires AllFresh(messages, total, n) && forall i :: 0 <= i < total ==> Arrived(messages, n, i).Some?
    ensures Complete(messages, total)
  {
    IndicesCount(messages, total, n);
    forall i: nat | i < total ensures i in Indices(messages[..n]) {
      assert Arrived(messages, n, i).Some?;
      IndicesFound(messages[..n], i);
    }
    AtLeast(Indices(messages[..n]), total);
  }

  /** A slot is empty again once its output has been handed out, and before that holds what has come. */
  ghost predicate SlotRight(messages: seq<Message>, n: nat, pending: seq<Option<WorkerOutput>>, next: nat, i: nat)
    requires n <= |messages| && i < |pending|
  {
    if i < next then Arrived(messages, n, i).Some? && pending[i] == None else pending[i] == Arrived(messages, n, i)
  }

  /** The buffer after `n` messages, with the outputs below `next` handed out. */
  ghost predicate Filed(messages: seq<Message>, total: nat, n: nat, pending: seq<Option<WorkerOutput>>, next: nat) {
    && next <= total == |pending|
    && AllFresh(messages, total, n)
    && forall i :: 0 <= i < total ==> SlotRight(messages, n, pending, next, i)
  }

  /** The test on the buffer finds out whether the next message is fresh. */
  lemma {:induction false} FreshTest(messages: seq<Message>, total: nat, n: nat, pending: seq<Option<WorkerOutput>>, next: nat)
    requires Filed(messages, total, n, pending, next) && n < |messages|
    ensures Fresh(messages, total, n) <==>
              messages[n].Sent? && (var i := messages[n].output.index; next <= i < total && pending[i] == None)
  {
    if messages[n].Sent? && messages[n].output.index < total {
      assert SlotRight(messages, n, pending, next, messages[n].output.index);
    }
  }

  lemma {:induction false} FileNext(messages: seq<Message>, total: nat, n: nat, pending: seq<Option<WorkerOutput>>, next: nat)
    requires Filed(messages, total, n, pending, next) && n < |messages| && Fresh(messages, total, n)
    ensures var o := messages[n].output;
            o.index < |pending| && Filed(messages, total, n + 1, pending[o.index := Some(o)], next)
  {
    var o := messages[n].output;
    var filed := pending[o.index := Some(o)];
    assert SlotRight(messages, n, pending, next, o.index);
    var n' := n + 1;
    forall i | 0 <= i < total ensures SlotRight(messages, n', filed, next, i) {
      assert SlotRight(messages, n, pending, next, i);
      FindNext(messages, n, i);
    }
  }

  /** Handing out the next output. */
  lemma {:induction false} HandOut(messages: seq<Message>, total: nat, n: nat, pending: seq<Option<WorkerOutput>>, next: nat)
    requires Filed(messages, total, n, pending, next) && next < total && pending[next].Some?
    ensures Filed(messages, total, n, pending[next := None], next + 1) && Find(messages, next) == pending[next]
  {
    assert SlotRight(messages, n, pending, next, next);
    FindStable(messages, n, next);
    var pending', next' := pending[next := None], next + 1;
    forall i | 0 <= i < total ensures SlotRight(messages, n, pending', next', i) {
      assert SlotRight(messages, n, pending, next, i);
    }
  }

  lemma {:induction false} AllHandedOut(messages: seq<Message>, total: nat, n: nat, pending: seq<Option<WorkerOutput>>)
    requires Filed(messages, total, n, pending, total)
    ensures Complete(messages, total)
  {
    forall i | 0 <= i < total ensures Arrived(messages, n, i).Some? {
      assert SlotRight(messages, n, pending, total, i);
    }
    AllFound(messages, total, n);
  }

  lemma {:induction false} NotComplete(messages: seq<Message>, total: nat, n: nat)
    requires n < total && (n < |messages| ==> !Fresh(messages, total, n)) && n <= |messages|
    ensures !Complete(messages, total)
  {
  }

  class OrderedWorkerOutputs {
    const total: nat
    const messages: seq<Message>

    /** How many messages have been taken off the channel. */
    var received: nat
    var pending: seq<Option<WorkerOutput>>
    var next: nat
    var failed: bool

    ghost predicate Valid()
      reads this
    {
      Filed(messages, total, received, pending, next)
    }

    constructor (messages: seq<Message>, total: nat)
      ensures Valid() && this.messages == messages && this.total == total
      ensures next == 0 && !failed
    {
      this.messages, this.total := messages, total;
      received, next, failed := 0, 0, false;
      pending := seq(total, i => None);
    }

    /** Takes one message off the channel and files it. */
    method Receive() returns (error: Option<OrderError>)
      requires Valid() && next < total && pending[next] == None
      modifies this`received, this`pending
      ensures Valid()
      ensures error == None ==> received == old(received) + 1
      ensures error != None ==> !Complete(messages, total)
    {
      assert SlotRight(messages, received, pending, next, next);
      MissingMeansMore(messages, total, received, next);
      if received == |messages| {
        NotComplete(messages, total, received);
        return Some(ResultChannelClosed);
      }
      FreshTest(messages, total, received, pending, next);
      var message := messages[received];
      if message.Failure? {
        NotComplete(messages, total, received);
        return Some(Worker(message.code));
      }
      var index := message.output.index;
      if index >= total || index < next || pending[index].Some? {
        NotComplete(messages, total, received);
        return Some(BadIndex);
      }
      FileNext(messages, total, received, pending, next);
      received := received + 1;
      pending := pending[index := Some(message.output)];
      return None;
    }

    /**
     Hands out the outputs in transaction order, each as soon as it and all before it have come.
     It fails if and only if the messages are not one output for each transaction.
     */
    method Next() returns (item: Option<Result<WorkerOutput, OrderError>>)
      requires Valid()
      modifies this
      ensures Valid()
      ensures item == None <==> old(failed) || old(next) == total
      ensures item == None ==> next == old(next) && failed == old(failed)
      ensures item == None && !failed ==> Complete(messages, total)
      ensures item.Some? && item.value.Ok? ==>
                !failed && next == old(next) + 1 && Find(messages, old(next)) == Some(item.value.value)
      ensures item.Some? && item.value.Err? ==> failed && !Complete(messages, total)
    {
      if failed || next >= total {
        if next == total { AllHandedOut(messages, total, received, pending); }
        return None;
      }
      while pending[next] == None
        invariant Valid() && next == old(next) < total && !failed
        decreases |messages| - received
      {
        var error := Receive();
        if error.Some? {
          failed := true;
          return Some(Err(error.value));
        }
      }
      var output := pending[next].value;
      HandOut(messages, total, received, pending, next);
      pending := pending[next := None];
      next := next + 1;
      return Some(Ok(output));
    }
  }

  // ---------------------------------------------------------------------------------------
  // The whole block in parallel
  // ---------------------------------------------------------------------------------------

  ghost predicate Found(messages: seq<Message>, total: nat) {
    forall i :: 0 <= i < total ==> Find(messages, i).Some?
  }

  /** The outputs in transaction order. */
  ghost function Ordered(messages: seq<Message>, total: nat): seq<WorkerOutput>
    requires Found(messages, total)
  {
    seq(total, i requires 0 <= i < total => Find(messages, i).value)
  }

  /** Every output that arrives is a worker's, against the true list and with a true cache. */
  ghost predicate AllFromWorkers(m: Machine, plan: Plan, truth: Hashes, ps: seq<Payload>, messages: seq<Message>)
    requires plan.segments != []
  {
    forall o :: Sent(o) in messages && o.index < |Transactions(ps)| ==>
      FromWorker(m, plan, truth, TraceOf(ps), o.index, Transactions(ps)[o.index], o)
  }

  /** Whatever the order in which workers take jobs and their outputs arrive, the block is the same. */
  lemma {:induction false} AnyArrivalOrder(m: Machine, truth: Hashes, ps: seq<Payload>, plan: Plan, ring: HashRing, messages: seq<Message>)
    requires ps != [] && plan.segments == SegmentsOf(ps) && !Stuck(ps)
    requires RightHashes(m.stored, plan, truth) && TrueRing(ring, truth)
    requires AllFromWorkers(m, plan, truth, ps, messages) && Found(messages, |Transactions(ps)|)
    ensures ExecuteOutputs(m, plan, ring, Ordered(messages, |Transactions(ps)|)) == ExecuteBigBlock(m, plan, ring, Transactions(ps))
  {
    var txs := Transactions(ps);
    var outputs := Ordered(messages, |txs|);
    forall i | 0 <= i < |txs| ensures FromWorker(m, plan, truth, TraceOf(ps), i, txs[i], outputs[i]) {
      FoundIsSent(messages, i);
    }
    WorkersRefine(m, truth, ps, plan, ring, outputs);
  }

  /** The block that the workers' outputs make, against the original blocks one after the other. */
  lemma {:induction false} ParallelRefinesSequential(m: Machine, truth: Hashes, ps: seq<Payload>, plan: Plan, ring: HashRing, messages: seq<Message>)
    requires ps != [] && plan.segments == SegmentsOf(ps) && !Stuck(ps)
    requires RightHashes(m.stored, plan, truth) && TrueRing(ring, truth)
    requires AllFromWorkers(m, plan, truth, ps, messages) && Found(messages, |Transactions(ps)|)
    ensures var out, ref := ExecuteOutputs(m, plan, ring, Ordered(messages, |Transactions(ps)|)), RunBlocks(Knowing(m, truth), ps);
            && out.trace == ref.trace && SameResults(out, ref)
            && (out.requests == ref.requests <==> NoneRepeated(Knowing(m, truth), ps))
  {
    AnyArrivalOrder(m, truth, ps, plan, ring, messages);
    BigBlockRefinesSequential(m, truth, ps, plan, ring);
  }

  lemma {:induction false} DriveOneMore(m: Machine, plan: Plan, s: Exec, outputs: seq<WorkerOutput>, o: WorkerOutput)
    ensures DriveOutputs(m, plan, s, outputs + [o])
         == Boundaries(m, plan, CommitResult(Bumped(DriveOutputs(m, plan, s, outputs)), o.event, o.result))
    decreases |outputs|
  {
    if outputs == [] {
      assert (outputs + [o])[1..] == [];
    } else {
      assert (outputs + [o])[1..] == outputs[1..] + [o];
      DriveOneMore(m, plan, Boundaries(m, plan, CommitResult(Bumped(s), outputs[0].event, outputs[0].result)), outputs[1..], o);
    }
  }

  /** The outputs are the first ones for the first transactions. */
  ghost predicate FirstOnes(messages: seq<Message>, outputs: seq<WorkerOutput>) {
    forall i :: 0 <= i < |outputs| ==> Find(messages, i) == Some(outputs[i])
  }

  /** Commits one output at the next index. */
  method CommitOutput(executor: BbBlockExecutor, o: WorkerOutput, ghost s: Exec, ghost outputs: seq<WorkerOutput>)
    requires executor.nextSegment >= 1
    requires executor.State() == DriveOutputs(executor.machine, executor.plan, s, outputs)
    modifies executor
    ensures executor.nextSegment >= 1
    ensures executor.State() == DriveOutputs(executor.machine, executor.plan, s, outputs + [o])
  {
    DriveOneMore(executor.machine, executor.plan, s, outputs, o);
    executor.BumpBalIndex();
    executor.CommitTransaction(o.event, o.result);
  }

  /** Commits the outputs in order as they come. */
  method CommitAll(executor: BbBlockExecutor, ordered: OrderedWorkerOutputs, ghost s: Exec)
    returns (error: Option<OrderError>, ghost outputs: seq<WorkerOutput>)
    requires ordered.Valid() && !ordered.failed && ordered.next == 0
    requires executor.nextSegment >= 1 && executor.State() == s
    modifies executor, ordered
    ensures error == None <==> Complete(ordered.messages, ordered.total)
    ensures error == None ==> |outputs| == ordered.total && FirstOnes(ordered.messages, outputs)
    ensures executor.State() == DriveOutputs(executor.machine, executor.plan, s, outputs)
  {
    outputs := [];
    while true
      invariant ordered.Valid() && !ordered.failed && executor.nextSegment >= 1
      invariant executor.State() == DriveOutputs(executor.machine, executor.plan, s, outputs)
      invariant ordered.next == |outputs| && FirstOnes(ordered.messages, outputs)
      decreases ordered.total - |outputs|
    {
      var item := ordered.Next();
      match item {
        case None => return None, outputs;
        case Some(Err(e)) => return Some(e), outputs;
        case Some(Ok(o)) =>
          CommitOutput(executor, o, s, outputs);
          outputs := outputs + [o];
      }
    }
  }

  /**
   The canonical executor commits the workers' outputs. It finishes the block exactly when the
   messages are one output for each transaction, in any order.
   */
  method ExecuteWithWorkers(machine: Machine, plan: Plan, env: EvmEnv, ring: HashRing, messages: seq<Message>, total: nat)
    returns (r: Result<Output, OrderError>)
    requires plan.segments != []
    ensures r.Ok? <==> Complete(messages, total)
    ensures r.Ok? ==> Found(messages, total) && r.value == ExecuteOutputs(machine, plan, ring, Ordered(messages, total))
  {
    var executor := new BbBlockExecutor(machine, plan, None, env, ring, 0);
    executor.ApplyPreExecutionChanges();
    var ordered := new OrderedWorkerOutputs(messages, total);
    ghost var outputs;
    var error;
    error, outputs := CommitAll(executor, ordered, Begin(plan, ring));
    if error.Some? {
      return Err(error.value);
    }
    assert outputs == Ordered(messages, total);
    executor.BumpBalIndex();
    var out := executor.Finish();
    return Ok(out);
  }
}
