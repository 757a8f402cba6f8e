/**
 The read cache in front of a database (crates/revm/src/cached.rs). Reads insert what they miss;
 caches of the same state can be merged.
 */
module CachedReads {
  import opened Prelude
  import opened Blocks

  /** A database: every read may fail. */
  datatype Source<E> = Source(
    basic: Address -> Result<Option<Account>, E>,
    code: Hash -> Result<Code, E>,
    storage: (Address, Slot) -> Result<Word, E>,
    blockHash: nat -> Result<Hash, E>)

  datatype CachedAccount = CachedAccount(info: Option<Account>, storage: map<Slot, Word>)

  datatype Cache = Cache(
    accounts: map<Address, CachedAccount>, contracts: map<Hash, Code>, blockHashes: map<nat, Hash>)

  ghost predicate AccountAgrees<E>(db: Source<E>, a: Address, account: CachedAccount) {
    && db.basic(a) == Ok(account.info)
    && forall i :: i in account.storage ==> db.storage(a, i) == Ok(account.storage[i])
  }

  /** Everything cached is what the database says. */
  ghost predicate Agrees<E>(db: Source<E>, c: Cache) {
    && (forall a {:trigger AccountAgrees(db, a, c.accounts[a])} :: a in c.accounts ==> AccountAgrees(db, a, c.accounts[a]))
    && (forall h :: h in c.contracts ==> db.code(h) == Ok(c.contracts[h]))
    && (forall n :: n in c.blockHashes ==> db.blockHash(n) == Ok(c.blockHashes[n]))
  }

  /** An account that does not exist has no storage. */
  ghost predicate AbsentIsZero<E>(db: Source<E>, a: Address, i: Slot) {
    db.basic(a) == Ok(None) ==> db.storage(a, i) == Ok(0)
  }

  class CachedReadsDb<E> {
    const db: Source<E>
    var accounts: map<Address, CachedAccount>
    var contracts: map<Hash, Code>
    var blockHashes: map<nat, Hash>

    ghost function State(): Cache
      reads this
    {
      Cache(accounts, contracts, blockHashes)
    }

    constructor (db: Source<E>, c: Cache)
      ensures this.db == db && State() == c
    {
      this.db := db;
      accounts, contracts, blockHashes := c.accounts, c.contracts, c.blockHashes;
    }

    method Basic(a: Address) returns (r: Result<Option<Account>, E>)
      modifies this
      ensures (State(), BasicAnswer(r)) == Step(db, old(State()), ReadBasic(a))
    {
      if a in accounts {
        return Ok(accounts[a].info);
      }
      r := db.basic(a);
      if r.Ok? {
        accounts := accounts[a := CachedAccount(r.value, map[])];
      }
    }

    method CodeByHash(h: Hash) returns (r: Result<Code, E>)
      modifies this
      ensures (State(), CodeAnswer(r)) == Step(db, old(State()), ReadCode(h))
    {
      if h in contracts {
        return Ok(contracts[h]);
      }
      r := db.code(h);
      if r.Ok? {
        contracts := contracts[h := r.value];
      }
    }

    method Storage(a: Address, i: Slot) returns (r: Result<Word, E>)
      modifies this
      ensures (State(), WordAnswer(r)) == Step(db, old(State()), ReadStorage(a, i))
    {
      if a in accounts {
        var account := accounts[a];
        if i in account.storage {
          return Ok(account.storage[i]);
        }
        r := db.storage(a, i);
        if r.Ok? {
          accounts := accounts[a := account.(storage := account.storage[i := r.value])];
        }
        return;
      }
      // the account needs to be loaded before its slots
      var info := db.basic(a);
      if info.Err? {
        return Err(info.error);
      }
      if info.value.None? {
        accounts := accounts[a := CachedAccount(None, map[])];
        return Ok(0);
      }
      r := db.storage(a, i);
      if r.Ok? {
        accounts := accounts[a := CachedAccount(info.value, map[i := r.value])];
      }
    }

    method BlockHash(n: nat) returns (r: Result<Hash, E>)
      modifies this
      ensures (State(), HashAnswer(r)) == Step(db, old(State()), ReadBlockHash(n))
    {
      if n in blockHashes {
        return Ok(blockHashes[n]);
      }
      r := db.blockHash(n);
      if r.Ok? {
        blockHashes := blockHashes[n := r.value];
      }
    }

    method Extend(other: Cache)
      modifies this
      ensures (State(), Done) == Step(db, old(State()), Merge(other))
    {
      accounts := accounts + other.accounts;
      contracts := contracts + other.contracts;
      blockHashes := blockHashes + other.blockHashes;
    }
  }

  // ---------------------------------------------------------------------------------------
  // One operation
  // ---------------------------------------------------------------------------------------

  datatype Op =
    | ReadBasic(a: Address) | ReadCode(h: Hash) | ReadStorage(a: Address, i: Slot) | ReadBlockHash(n: nat)
    | Merge(other: Cache)

  datatype Answer<E> =
    | BasicAnswer(account: Result<Option<Account>, E>)
    | CodeAnswer(code: Result<Code, E>)
    | WordAnswer(word: Result<Word, E>)
    | HashAnswer(hash: Result<Hash, E>)
    | Done

  /** What the database itself answers. */
  function Direct<E>(db: Source<E>, op: Op): Answer<E> {
    match op
    case ReadBasic(a) => BasicAnswer(db.basic(a))
    case ReadCode(h) => CodeAnswer(db.code(h))
    case ReadStorage(a, i) => WordAnswer(db.storage(a, i))
    case ReadBlockHash(n) => HashAnswer(db.blockHash(n))
    case Merge(_) => Done
  }

  function StepStorage<E>(db: Source<E>, c: Cache, a: Address, i: Slot): (Cache, Result<Word, E>) {
    if a in c.accounts then
      var account := c.accounts[a];
      if i in account.storage then (c, Ok(account.storage[i]))
      else match db.storage(a, i)
           case Ok(v) => (c.(accounts := c.accounts[a := account.(storage := account.storage[i := v])]), Ok(v))
           case Err(e) => (c, Err(e))
    else match db.basic(a)
         case Err(e) => (c, Err(e))
         case Ok(None) => (c.(accounts := c.accounts[a := CachedAccount(None, map[])]), Ok(0))
         case Ok(info) =>
           match db.storage(a, i)
           case Ok(v) => (c.(accounts := c.accounts[a := CachedAccount(info, map[i := v])]), Ok(v))
           case Err(e) => (c, Err(e))
  }

  function Step<E>(db: Source<E>, c: Cache, op: Op): (Cache, Answer<E>) {
    match op
    case ReadBasic(a) =>
      if a in c.accounts then (c, BasicAnswer(Ok(c.accounts[a].info)))
      else (match db.basic(a)
            case Ok(info) => (c.(accounts := c.accounts[a := CachedAccount(info, map[])]), BasicAnswer(Ok(info)))
            case Err(e) => (c, BasicAnswer(Err(e))))
    case ReadCode(h) =>
      if h in c.contracts then (c, CodeAnswer(Ok(c.contracts[h])))
      else (match db.code(h)
            case Ok(code) => (c.(contracts := c.contracts[h := code]), CodeAnswer(Ok(code)))
            case Err(e) => (c, CodeAnswer(Err(e))))
    case ReadStorage(a, i) =>
      var r := StepStorage(db, c, a, i);
      (r.0, WordAnswer(r.1))
    case ReadBlockHash(n) =>
      if n in c.blockHashes then (c, HashAnswer(Ok(c.blockHashes[n])))
      else (match db.blockHash(n)
            case Ok(hash) => (c.(blockHashes := c.blockHashes[n := hash]), HashAnswer(Ok(hash)))
            case Err(e) => (c, HashAnswer(Err(e))))
    case Merge(other) =>
      (Cache(c.accounts + other.accounts, c.contracts + other.contracts, c.blockHashes + other.blockHashes), Done)
  }

  predicate Failed<E>(answer: Answer<E>) {
    match answer
    case BasicAnswer(r) => r.Err?
    case CodeAnswer(r) => r.Err?
    case WordAnswer(r) => r.Err?
    case HashAnswer(r) => r.Err?
    case Done => false
  }

  /** `db` reads the state `truth`, but at this moment some of its reads fail. */
  ghost predicate Reads<E>(db: Source<E>, truth: Source<E>) {
    && (forall a :: db.basic(a).Ok? ==> db.basic(a) == truth.basic(a))
    && (forall h :: db.code(h).Ok? ==> db.code(h) == truth.code(h))
    && (forall a, i :: db.storage(a, i).Ok? ==> db.storage(a, i) == truth.storage(a, i))
    && (forall n :: db.blockHash(n).Ok? ==> db.blockHash(n) == truth.blockHash(n))
  }

  /** None of the reads that `op` may need fails. */
  ghost predicate Available<E>(db: Source<E>, op: Op) {
    !Failed(Direct(db, op)) && (op.ReadStorage? ==> db.basic(op.a).Ok?)
  }

  /**
   The cached answer to `op`: the state's own, except that a storage read of an account that is
   not cached answers 0 when the account is absent. It fails only if the database does, and
   then the cache stays as it was.
   */
  ghost predicate FaithfulAnswer<E>(truth: Source<E>, db: Source<E>, c: Cache, op: Op) {
    var (c', answer) := Step(db, c, op);
    && (Failed(answer) ==> c' == c && !Available(db, op))
    && (!Failed(answer) ==>
          || answer == Direct(truth, op)
          || (op.ReadStorage? && truth.basic(op.a) == Ok(None) && answer == WordAnswer(Ok(0))))
  }

  lemma {:induction false} StorageStepAgrees<E>(truth: Source<E>, db: Source<E>, c: Cache, a: Address, i: Slot)
    requires Agrees(truth, c) && Reads(db, truth)
    ensures Agrees(truth, StepStorage(db, c, a, i).0) && FaithfulAnswer(truth, db, c, ReadStorage(a, i))
  {
    var c' := StepStorage(db, c, a, i).0;
    if a in c.accounts { assert AccountAgrees(truth, a, c.accounts[a]); }
    forall b | b in c'.accounts ensures AccountAgrees(truth, b, c'.accounts[b]) {
      if b in c.accounts { assert AccountAgrees(truth, b, c.accounts[b]); }
    }
  }

  lemma {:induction false} BasicStepAgrees<E>(truth: Source<E>, db: Source<E>, c: Cache, a: Address)
    requires Agrees(truth, c) && Reads(db, truth)
    ensures Agrees(truth, Step(db, c, ReadBasic(a)).0) && FaithfulAnswer(truth, db, c, ReadBasic(a))
  {
    var c' := Step(db, c, ReadBasic(a)).0;
    if a in c.accounts { assert AccountAgrees(truth, a, c.accounts[a]); }
    forall b | b in c'.accounts ensures AccountAgrees(truth, b, c'.accounts[b]) {
      if b in c.accounts { assert AccountAgrees(truth, b, c.accounts[b]); }
    }
  }

  lemma {:induction false} MergeAgrees<E>(truth: Source<E>, db: Source<E>, c: Cache, other: Cache)
    requires Agrees(truth, c) && Agrees(truth, other)
    ensures Agrees(truth, Step(db, c, Merge(other)).0) && FaithfulAnswer(truth, db, c, Merge(other))
  {
    var c' := Step(db, c, Merge(other)).0;
    forall b | b in c'.accounts ensures AccountAgrees(truth, b, c'.accounts[b]) {
      if b in c.accounts { assert AccountAgrees(truth, b, c.accounts[b]); }
      if b in other.accounts { assert AccountAgrees(truth, b, other.accounts[b]); }
    }
  }

  lemma {:induction false} StepAgrees<E>(truth: Source<E>, db: Source<E>, c: Cache, op: Op)
    requires Agrees(truth, c) && Reads(db, truth) && (op.Merge? ==> Agrees(truth, op.other))
    ensures Agrees(truth, Step(db, c, op).0) && FaithfulAnswer(truth, db, c, op)
  {
    match op
    case ReadStorage(a, i) => StorageStepAgrees(truth, db, c, a, i);
    case ReadBasic(a) => BasicStepAgrees(truth, db, c, a);
    case Merge(other) => MergeAgrees(truth, db, c, other);
    case _ =>
  }

  // ---------------------------------------------------------------------------------------
  // Runs
  // ---------------------------------------------------------------------------------------

  const EMPTY := Cache(map[], map[], map[])

  /** Operation `k` may be run: the database reads the state, and a cache to merge agrees with it. */
  ghost predicate Sound<E>(truth: Source<E>, db: Source<E>, op: Op) {
    Reads(db, truth) && (op.Merge? ==> Agrees(truth, op.other))
  }

  /** Step `k` may be run, and leaves the next cache; the database is then `dbs[k]`. */
  ghost predicate StepAt<E>(truth: Source<E>, dbs: seq<Source<E>>, ops: seq<Op>, caches: seq<Cache>, k: nat)
    requires |dbs| == |ops| && |caches| == |ops| + 1 && k < |ops|
  {
    Sound(truth, dbs[k], ops[k]) && caches[k + 1] == Step(dbs[k], caches[k], ops[k]).0
  }

  /** The caches a sequence of operations goes through. */
  ghost predicate IsRun<E>(truth: Source<E>, dbs: seq<Source<E>>, ops: seq<Op>, caches: seq<Cache>) {
    && |dbs| == |ops| && |caches| == |ops| + 1
    && caches[0] == EMPTY
    && forall k :: 0 <= k < |ops| ==> StepAt(truth, dbs, ops, caches, k)
  }

  lemma {:induction false} RunAgrees<E>(truth: Source<E>, dbs: seq<Source<E>>, ops: seq<Op>, caches: seq<Cache>, k: nat)
    requires IsRun(truth, dbs, ops, caches) && k < |caches|
    ensures Agrees(truth, caches[k])
  {
    if k > 0 {
      RunAgrees(truth, dbs, ops, caches, k - 1);
      assert StepAt(truth, dbs, ops, caches, k - 1);
      StepAgrees(truth, dbs[k - 1], caches[k - 1], ops[k - 1]);
    }
  }

  /** The state has an answer to everything. */
  ghost predicate Complete<E>(truth: Source<E>) {
    && (forall a :: truth.basic(a).Ok?) && (forall h :: truth.code(h).Ok?)
    && (forall a, i :: truth.storage(a, i).Ok?) && (forall n :: truth.blockHash(n).Ok?)
  }

  ghost predicate TrueAnswer<E>(truth: Source<E>, db: Source<E>, c: Cache, op: Op) {
    var answer := Step(db, c, op).1;
    Failed(answer) || answer == Direct(truth, op)
  }

  /** Every answer in the run that is not a failure is the state's own. */
  ghost predicate Transparent<E>(truth: Source<E>, dbs: seq<Source<E>>, ops: seq<Op>, caches: seq<Cache>)
    requires IsRun(truth, dbs, ops, caches)
  {
    forall k {:trigger ops[k]} :: 0 <= k < |ops| ==> TrueAnswer(truth, dbs[k], caches[k], ops[k])
  }

  /**
   Over any sequence of reads and merges with caches of the same state, with reads failing at
   any time, every answer that is not a failure is the state's own, exactly when absent
   accounts have zero storage.
   */
  lemma {:induction false} TransparentExactlyWhen<E>(truth: Source<E>)
    requires Complete(truth)
    ensures (forall dbs, ops, caches :: IsRun(truth, dbs, ops, caches) ==> Transparent(truth, dbs, ops, caches))
       <==> (forall a, i :: AbsentIsZero(truth, a, i))
  {
    if forall a, i :: AbsentIsZero(truth, a, i) {
      forall dbs: seq<Source<E>>, ops: seq<Op>, caches: seq<Cache> | IsRun(truth, dbs, ops, caches)
        ensures Transparent(truth, dbs, ops, caches)
      {
        forall k | 0 <= k < |ops| ensures TrueAnswer(truth, dbs[k], caches[k], ops[k]) {
          RunAgrees(truth, dbs, ops, caches, k);
          assert StepAt(truth, dbs, ops, caches, k);
          StepAgrees(truth, dbs[k], caches[k], ops[k]);
          if ops[k].ReadStorage? { assert AbsentIsZero(truth, ops[k].a, ops[k].i); }
        }
      }
    } else {
      var a, i :| !AbsentIsZero(truth, a, i);
      var dbs, ops, caches := [truth], [ReadStorage(a, i)], [EMPTY, Step(truth, EMPTY, ReadStorage(a, i)).0];
      assert StepAt(truth, dbs, ops, caches, 0);
      assert IsRun(truth, dbs, ops, caches);
      assert !TrueAnswer(truth, dbs[0], caches[0], ops[0]);
      assert !Transparent(truth, dbs, ops, caches);
    }
  }

  /** A state in which an absent account has storage: the cache answers 0 where the state answers 7. */
  lemma {:induction false} AbsentWithStorage(truth: Source<nat>, a: Address, i: Slot)
    requires truth.basic(a) == Ok(None) && truth.storage(a, i) == Ok(7)
    ensures !AbsentIsZero(truth, a, i)
    ensures Step(truth, EMPTY, ReadStorage(a, i)).1 == WordAnswer(Ok(0)) && Direct(truth, ReadStorage(a, i)) == WordAnswer(Ok(7))
  {
  }

  /** The databases, operations and caches of a sequence of steps. */
  datatype Steps<E> = Steps(dbs: seq<Source<E>>, ops: seq<Op>, caches: seq<Cache>)
  {
    ghost predicate Shaped() { |dbs| == |ops| && |caches| == |ops| + 1 }

    ghost function AnswerAt(k: nat): Answer<E>
      requires Shaped() && k < |ops|
    {
      Step(dbs[k], caches[k], ops[k]).1
    }

    ghost function First(n: nat): Steps<E>
      requires Shaped() && n <= |ops|
    {
      Steps(dbs[..n], ops[..n], caches[..n + 1])
    }

    /** The steps that did not fail, each with the cache it left. */
    ghost function Succeeded(n: nat): Steps<E>
      requires Shaped() && n <= |ops|
    {
      if n == 0 then First(0)
      else
        var r := Succeeded(n - 1);
        if Failed(AnswerAt(n - 1)) then r
        else Steps(r.dbs + [dbs[n - 1]], r.ops + [ops[n - 1]], r.caches + [caches[n]])
    }

    /** The answers to the first `n` steps that are not failures. */
    ghost function Successes(n: nat): seq<Answer<E>>
      requires Shaped() && n <= |ops|
    {
      if n == 0 then []
      else Successes(n - 1) + if Failed(AnswerAt(n - 1)) then [] else [AnswerAt(n - 1)]
    }
  }

  /** `r` is a run on its own, ends with cache `c`, and every answer in it is the one listed. */
  ghost predicate RunsTo<E>(truth: Source<E>, r: Steps<E>, c: Cache, answers: seq<Answer<E>>) {
    && r.Shaped() && IsRun(truth, r.dbs, r.ops, r.caches) && r.caches[|r.ops|] == c
    && |answers| == |r.ops| && forall k :: 0 <= k < |r.ops| ==> r.AnswerAt(k) == answers[k]
  }

  lemma {:induction false} OneMoreStep<E>(truth: Source<E>, r: Steps<E>, c: Cache, answers: seq<Answer<E>>, db: Source<E>, op: Op)
    requires RunsTo(truth, r, c, answers) && Sound(truth, db, op)
    ensures var (c', answer) := Step(db, c, op);
            RunsTo(truth, Steps(r.dbs + [db], r.ops + [op], r.caches + [c']), c', answers + [answer])
  {
    var (c', answer) := Step(db, c, op);
    var r' := Steps(r.dbs + [db], r.ops + [op], r.caches + [c']);
    forall k | 0 <= k < |r'.ops|
      ensures StepAt(truth, r'.dbs, r'.ops, r'.caches, k) && r'.AnswerAt(k) == (answers + [answer])[k]
    {
      if k < |r.ops| {
        assert StepAt(truth, r.dbs, r.ops, r.caches, k) && r.AnswerAt(k) == answers[k];
      }
    }
  }

  lemma {:induction false} FailedStepKeeps<E>(db: Source<E>, c: Cache, op: Op)
    ensures Failed(Step(db, c, op).1) ==> Step(db, c, op).0 == c
  {
  }

  /** With the failed ones among the first `n` steps deleted, the rest run to the same cache with the same answers. */
  ghost predicate NoTrace<E>(truth: Source<E>, s: Steps<E>, n: nat)
    requires s.Shaped() && n <= |s.ops|
  {
    RunsTo(truth, s.Succeeded(n), s.caches[n], s.Successes(n))
  }

  lemma {:induction false} NoTraceStart<E>(truth: Source<E>, s: Steps<E>)
    requires s.Shaped() && s.caches[0] == EMPTY
    ensures NoTrace(truth, s, 0)
  {
    var r := s.Succeeded(0);
    assert r.dbs == [] && r.ops == [] && r.caches == [EMPTY];
  }

  lemma {:induction false} NoTraceNext<E>(truth: Source<E>, s: Steps<E>, k: nat)
    requires s.Shaped() && IsRun(truth, s.dbs, s.ops, s.caches) && k < |s.ops| && NoTrace(truth, s, k)
    ensures NoTrace(truth, s, k + 1)
  {
    assert StepAt(truth, s.dbs, s.ops, s.caches, k);
    if Failed(s.AnswerAt(k)) {
      FailedStepKeeps(s.dbs[k], s.caches[k], s.ops[k]);
    } else {
      OneMoreStep(truth, s.Succeeded(k), s.caches[k], s.Successes(k), s.dbs[k], s.ops[k]);
    }
  }

  /**
   Failures leave no trace: with its failed steps deleted, a run of reads and merges is still a
   run, through to the same cache, and its answers are the ones that were not failures.
   */
  lemma {:induction false} FailuresLeaveNoTrace<E>(truth: Source<E>, s: Steps<E>, n: nat)
    requires s.Shaped() && IsRun(truth, s.dbs, s.ops, s.caches) && n <= |s.ops|
    ensures NoTrace(truth, s, n)
  {
    if n == 0 {
      NoTraceStart(truth, s);
    } else {
      FailuresLeaveNoTrace(truth, s, n - 1);
      NoTraceNext(truth, s, n - 1);
    }
  }
}
