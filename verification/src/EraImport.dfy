/**
 The import of ERA history files (crates/era-utils/src/history.rs): blocks are appended to
 append-only segments that accept only the next block number, receipts may be backfilled below
 the headers tip, and stage checkpoints are saved after every file.

 The static-file writers and the database transaction of one file are a value that is kept when
 the file succeeds and dropped when it fails.
 */
module EraImport {
  import opened Prelude
  import Etl
  import HeaderIndex
  import Lexicographic

  type Hash = b: Bytes | |b| == 32 witness seq(32, i => 0)
  type Receipt = nat

  /** An append-only segment: row i belongs to block `base + i`. */
  datatype Segment<T> = Segment(base: nat, rows: seq<T>)
  {
    function Next(): nat { base + |rows| }

    function Tip(): Option<nat> {
      if rows == [] then None else Some(base + |rows| - 1)
    }

    function Get(number: nat): Option<T> {
      if base <= number < base + |rows| then Some(rows[number - base]) else None
    }

    function Push(row: T): Segment<T> { Segment(base, rows + [row]) }
  }

  /** One decoded block of an ERA file. `receipts` is absent if the file has none. */
  datatype EraBlock = EraBlock(number: nat, hash: Hash, txCount: nat, receipts: Option<seq<Receipt>>)

  datatype Error =
    | Undecodable | NotMarked | Gap | UnexpectedNumber | HashMismatch
    | BadReceipts | NoReceipts | NoBody | CountMismatch | UnexpectedTxNumber
    | WrongDestination | NothingExecuted | NothingToRepair | WrongTarget | Unrepresentable | NotAscending | RanOut

  /** An ERA file: its blocks, some of which may fail to decode, and whether it can be marked as processed. */
  datatype EraFile = EraFile(blocks: seq<Result<EraBlock, Error>>, canMark: bool)

  /**
   What the import writes. `indexed` collects the hashes of new headers, `nextReceiptTx` is the
   transaction number the receipts segment expects next.
   */
  datatype Store = Store(
    headers: Segment<Hash>, bodies: Segment<nat>, receipts: Segment<seq<Receipt>>, nextReceiptTx: Option<nat>,
    indexed: seq<(Hash, nat)>, headersCheckpoint: Option<nat>, bodiesCheckpoint: Option<nat>, executionCheckpoint: Option<nat>,
    headerNumbers: HeaderIndex.Table)

  /**
   Blocks up to `headersTip` only have their receipts backfilled. `verify` stands for the bloom
   check and, if its flag is set, the receipts-root check.
   */
  datatype Policy = Policy(
    headersTip: nat, isVerifiable: nat -> bool, verify: (EraBlock, seq<Receipt>, bool) -> bool, withReceipts: bool)

  /** Number of the first transaction of a block. */
  function FirstTx(bodies: Segment<nat>, number: nat): nat
    requires bodies.Get(number).Some?
  {
    Sum(bodies.rows[..number - bodies.base])
  }

  // ---------------------------------------------------------------------------------------
  // One block
  // ---------------------------------------------------------------------------------------

  /** Header, body and hash index of a new block. */
  function WriteBlock(st: Store, b: EraBlock): Result<Store, Error> {
    if b.number != st.headers.Next() || b.number != st.bodies.Next() then Err(UnexpectedNumber)
    else Ok(st.(headers := st.headers.Push(b.hash), bodies := st.bodies.Push(b.txCount),
                indexed := st.indexed + [(b.hash, b.number)]))
  }

  function WriteBlockReceipts(st: Store, number: nat, receipts: Option<seq<Receipt>>): Result<Store, Error> {
    if receipts.None? then Err(NoReceipts)
    else if st.bodies.Get(number).None? then Err(NoBody)
    else if |receipts.value| != st.bodies.Get(number).value then Err(CountMismatch)
    else if number != st.receipts.Next() then Err(UnexpectedNumber)
    else
      var first, rs := FirstTx(st.bodies, number), receipts.value;
      if rs != [] && st.nextReceiptTx.Some? && st.nextReceiptTx.value != first then Err(UnexpectedTxNumber)
      else Ok(st.(receipts := st.receipts.Push(rs),
                  nextReceiptTx := if rs == [] then st.nextReceiptTx else Some(first + |rs|)))
  }

  /** Everything the loop does with a block that continues the chain. */
  function AcceptBlock(st: Store, b: EraBlock, policy: Policy): Result<Store, Error> {
    var written :=
      if b.number > policy.headersTip then WriteBlock(st, b)
      else if st.headers.Get(b.number) != Some(b.hash) then Err(HashMismatch)
      else Ok(st);
    if written.Err? || !policy.withReceipts then written
    else if b.receipts.Some? && !policy.verify(b, b.receipts.value, policy.isVerifiable(b.number)) then Err(BadReceipts)
    else WriteBlockReceipts(written.value, b.number, b.receipts)
  }

  // ---------------------------------------------------------------------------------------
  // What a stretch of accepted blocks has done
  // ---------------------------------------------------------------------------------------

  /** How many of the accepted blocks lie at or below the headers tip. */
  function Backfilled(s: nat, policy: Policy, n: nat): nat {
    if policy.headersTip <= s then 0 else if policy.headersTip - s < n then policy.headersTip - s else n
  }

  function HashesOf(blocks: seq<EraBlock>): seq<Hash> {
    seq(|blocks|, i requires 0 <= i < |blocks| => blocks[i].hash)
  }

  function TxCountsOf(blocks: seq<EraBlock>): seq<nat> {
    seq(|blocks|, i requires 0 <= i < |blocks| => blocks[i].txCount)
  }

  function IndexOf(blocks: seq<EraBlock>): seq<(Hash, nat)> {
    seq(|blocks|, i requires 0 <= i < |blocks| => (blocks[i].hash, blocks[i].number))
  }

  function ReceiptsOf(blocks: seq<EraBlock>): seq<seq<Receipt>> {
    seq(|blocks|, i requires 0 <= i < |blocks| => blocks[i].receipts.GetOr([]))
  }

  /** `blocks` are numbered s+1, s+2, and so on. */
  ghost predicate Numbered(blocks: seq<EraBlock>, s: nat) {
    forall i :: 0 <= i < |blocks| ==> blocks[i].number == s + 1 + i
  }

  /** A backfilled block is the one already stored at its height. */
  ghost predicate Matches(st: Store, b: EraBlock) {
    st.headers.Get(b.number) == Some(b.hash)
  }

  /** An accepted block's receipts passed the checks and are one per transaction. */
  ghost predicate Verified(st: Store, policy: Policy, b: EraBlock) {
    && b.receipts.Some?
    && policy.verify(b, b.receipts.value, policy.isVerifiable(b.number))
    && st.bodies.Get(b.number) == Some(|b.receipts.value|)
  }

  /** Headers, bodies and the hash index gained exactly the blocks above the headers tip. */
  ghost predicate WroteBlocks(st: Store, st': Store, s: nat, blocks: seq<EraBlock>, policy: Policy) {
    var k := Backfilled(s, policy, |blocks|);
    var added := blocks[k..];
    && st'.headers == Segment(st.headers.base, st.headers.rows + HashesOf(added))
    && st'.bodies == Segment(st.bodies.base, st.bodies.rows + TxCountsOf(added))
    && st'.indexed == st.indexed + IndexOf(added)
    && (added != [] ==> st.headers.Next() == st.bodies.Next() == s + 1 + k)
    && (forall i {:trigger Matches(st, blocks[i])} :: 0 <= i < k ==> Matches(st, blocks[i]))
  }

  /** The receipts segment gained exactly the receipts of all blocks, if requested, all verified. */
  ghost predicate WroteReceipts(st: Store, st': Store, s: nat, blocks: seq<EraBlock>, policy: Policy) {
    if policy.withReceipts then
      && st'.receipts == Segment(st.receipts.base, st.receipts.rows + ReceiptsOf(blocks))
      && (blocks != [] ==> st.receipts.Next() == s + 1)
      && (forall i {:trigger Verified(st', policy, blocks[i])} :: 0 <= i < |blocks| ==> Verified(st', policy, blocks[i]))
    else st'.receipts == st.receipts
  }

  ghost predicate SameRest(st: Store, st': Store) {
    && st'.headersCheckpoint == st.headersCheckpoint && st'.bodiesCheckpoint == st.bodiesCheckpoint
    && st'.executionCheckpoint == st.executionCheckpoint && st'.headerNumbers == st.headerNumbers
  }

  /** `st'` is `st` after accepting `blocks` from height `s` on. */
  ghost predicate Imported(st: Store, st': Store, s: nat, blocks: seq<EraBlock>, policy: Policy) {
    && Numbered(blocks, s) && SameRest(st, st')
    && WroteBlocks(st, st', s, blocks, policy) && WroteReceipts(st, st', s, blocks, policy)
  }

  lemma {:induction false} ImportedNothing(st: Store, s: nat, policy: Policy)
    ensures Imported(st, st, s, [], policy)
  {
    assert HashesOf([]) == [] && TxCountsOf([]) == [] && IndexOf([]) == [] && ReceiptsOf([]) == [];
    assert st.headers.rows + [] == st.headers.rows && st.bodies.rows + [] == st.bodies.rows;
    assert st.indexed + [] == st.indexed && st.receipts.rows + [] == st.receipts.rows;
  }

  /** Header, body and index after one more block. */
  function Written(st: Store, b: EraBlock, policy: Policy): Store {
    if b.number > policy.headersTip
    then st.(headers := st.headers.Push(b.hash), bodies := st.bodies.Push(b.txCount), indexed := st.indexed + [(b.hash, b.number)])
    else st
  }

  /** When a block is accepted: it is the next one or the stored one, and its receipts can be appended. */
  ghost predicate Acceptable(st: Store, b: EraBlock, policy: Policy) {
    var written := Written(st, b, policy);
    && (if b.number > policy.headersTip then b.number == st.headers.Next() == st.bodies.Next() else Matches(st, b))
    && (policy.withReceipts ==>
          && Verified(written, policy, b) && b.number == st.receipts.Next()
          && (b.receipts.value == [] || st.nextReceiptTx == None || st.nextReceiptTx.value == FirstTx(written.bodies, b.number)))
  }

  lemma {:induction false} AcceptedExactlyWhen(st: Store, b: EraBlock, policy: Policy)
    ensures AcceptBlock(st, b, policy).Ok? <==> Acceptable(st, b, policy)
  {
  }

  /** What accepting a block says about it and the new state. */
  lemma {:induction false} Accepted(st: Store, b: EraBlock, policy: Policy)
    requires AcceptBlock(st, b, policy).Ok?
    ensures var st', written := AcceptBlock(st, b, policy).value, Written(st, b, policy);
            && (b.number > policy.headersTip ==> b.number == st.headers.Next() == st.bodies.Next())
            && (b.number <= policy.headersTip ==> Matches(st, b))
            && st' == written.(receipts := st'.receipts, nextReceiptTx := st'.nextReceiptTx)
            && (!policy.withReceipts ==> st'.receipts == st.receipts)
            && (policy.withReceipts ==> b.number == st.receipts.Next() && Verified(st', policy, b)
                                        && st'.receipts == st.receipts.Push(b.receipts.GetOr([])))
  {
  }

  lemma {:induction false} SplitConcat(a: seq<EraBlock>, b: seq<EraBlock>, s: nat, policy: Policy)
    ensures var ka, kb := Backfilled(s, policy, |a|), Backfilled(s + |a|, policy, |b|);
            var k := Backfilled(s, policy, |a| + |b|);
            && k == ka + kb && (kb > 0 ==> ka == |a|)
            && (a + b)[k..] == a[ka..] + b[kb..]
  {
  }

  lemma {:induction false} OfConcat(a: seq<EraBlock>, b: seq<EraBlock>)
    ensures HashesOf(a + b) == HashesOf(a) + HashesOf(b) && TxCountsOf(a + b) == TxCountsOf(a) + TxCountsOf(b)
    ensures IndexOf(a + b) == IndexOf(a) + IndexOf(b) && ReceiptsOf(a + b) == ReceiptsOf(a) + ReceiptsOf(b)
  {
  }

  /** A header backfilled by the second stretch was there before the first. */
  lemma {:induction false} MatchedBefore(st: Store, st1: Store, s: nat, a: seq<EraBlock>, b: seq<EraBlock>, i: nat, policy: Policy)
    requires WroteBlocks(st, st1, s, a, policy) && |a| <= i < Backfilled(s, policy, |a| + |b|)
    requires Matches(st1, b[i - |a|])
    ensures Matches(st, (a + b)[i])
  {
    assert HashesOf([]) == [] && st.headers.rows + [] == st.headers.rows;
  }

  /** Two stretches in a row are one stretch. */
  lemma {:induction false} WroteBlocksTwice(st: Store, st1: Store, st2: Store, s: nat, a: seq<EraBlock>, b: seq<EraBlock>, policy: Policy)
    requires WroteBlocks(st, st1, s, a, policy) && WroteBlocks(st1, st2, s + |a|, b, policy)
    ensures WroteBlocks(st, st2, s, a + b, policy)
  {
    var ka, kb, all := Backfilled(s, policy, |a|), Backfilled(s + |a|, policy, |b|), a + b;
    SplitConcat(a, b, s, policy);
    forall i | 0 <= i < ka + kb ensures Matches(st, all[i]) {
      if i < |a| {
        assert Matches(st, a[i]);
      } else {
        assert Matches(st1, b[i - |a|]);
        MatchedBefore(st, st1, s, a, b, i, policy);
      }
    }
    OfConcat(a[ka..], b[kb..]);
    Appended(st.headers.rows, HashesOf(a[ka..]), HashesOf(b[kb..]));
    Appended(st.bodies.rows, TxCountsOf(a[ka..]), TxCountsOf(b[kb..]));
    Appended(st.indexed, IndexOf(a[ka..]), IndexOf(b[kb..]));
  }

  lemma {:induction false} Appended<T>(x: seq<T>, y: seq<T>, z: seq<T>)
    ensures x + y + z == x + (y + z)
  {
  }

  /** Appending more bodies leaves a verified block verified. */
  lemma {:induction false} StillVerified(st1: Store, st2: Store, s: nat, b: seq<EraBlock>, x: EraBlock, policy: Policy)
    requires WroteBlocks(st1, st2, s, b, policy) && Verified(st1, policy, x)
    ensures Verified(st2, policy, x)
  {
  }

  lemma {:induction false} WroteReceiptsTwice(st: Store, st1: Store, st2: Store, s: nat, a: seq<EraBlock>, b: seq<EraBlock>, policy: Policy)
    requires WroteReceipts(st, st1, s, a, policy) && WroteReceipts(st1, st2, s + |a|, b, policy)
    requires WroteBlocks(st1, st2, s + |a|, b, policy)
    ensures WroteReceipts(st, st2, s, a + b, policy)
  {
    var all := a + b;
    if policy.withReceipts {
      forall i | 0 <= i < |all| ensures Verified(st2, policy, all[i]) {
        if i < |a| {
          assert Verified(st1, policy, a[i]);
          StillVerified(st1, st2, s + |a|, b, a[i], policy);
        } else {
          assert Verified(st2, policy, b[i - |a|]);
        }
      }
      OfConcat(a, b);
      Appended(st.receipts.rows, ReceiptsOf(a), ReceiptsOf(b));
    }
  }

  lemma {:induction false} WroteOneBlock(st: Store, st': Store, b: EraBlock, policy: Policy)
    requires b.number > 0 && AcceptBlock(st, b, policy) == Ok(st')
    ensures WroteBlocks(st, st', b.number - 1, [b], policy)
  {
    Accepted(st, b, policy);
    if b.number <= policy.headersTip {
      assert [b][1..] == [] && HashesOf([]) == [] && TxCountsOf([]) == [] && IndexOf([]) == [];
      assert st.headers.rows + [] == st.headers.rows && st.bodies.rows + [] == st.bodies.rows && st.indexed + [] == st.indexed;
    } else {
      assert [b][0..] == [b] && HashesOf([b]) == [b.hash] && TxCountsOf([b]) == [b.txCount] && IndexOf([b]) == [(b.hash, b.number)];
    }
  }

  lemma {:induction false} WroteOneReceipts(st: Store, st': Store, b: EraBlock, policy: Policy)
    requires b.number > 0 && AcceptBlock(st, b, policy) == Ok(st')
    ensures WroteReceipts(st, st', b.number - 1, [b], policy)
  {
    Accepted(st, b, policy);
    assert ReceiptsOf([b]) == [b.receipts.GetOr([])];
  }

  lemma {:induction false} ImportedOne(st: Store, st1: Store, st2: Store, s: nat, blocks: seq<EraBlock>, b: EraBlock, policy: Policy)
    requires Imported(st, st1, s, blocks, policy) && b.number == s + 1 + |blocks|
    requires AcceptBlock(st1, b, policy) == Ok(st2)
    ensures Imported(st, st2, s, blocks + [b], policy)
  {
    Accepted(st1, b, policy);
    WroteOneBlock(st1, st2, b, policy);
    WroteOneReceipts(st1, st2, b, policy);
    WroteBlocksTwice(st, st1, st2, s, blocks, [b], policy);
    WroteReceiptsTwice(st, st1, st2, s, blocks, [b], policy);
  }

  // ---------------------------------------------------------------------------------------
  // One file
  // ---------------------------------------------------------------------------------------

  /** Every block of the file that decodes is at or below `h`. */
  ghost predicate AllAtMost(blocks: seq<Result<EraBlock, Error>>, h: nat) {
    forall i :: 0 <= i < |blocks| && blocks[i].Ok? ==> blocks[i].value.number <= h
  }

  /** The outcome of one file: the new state, the height reached, and whether it was marked. */
  datatype Processed = Processed(store: Store, height: nat, marked: bool)

  /**
   The walk over a file's blocks from height `last` on: skip what is not above it, stop past the
   target, reject gaps, accept the rest, and mark the file when its end is reached.
   */
  function Walk(st: Store, last: nat, blocks: seq<Result<EraBlock, Error>>, canMark: bool, target: Option<nat>, policy: Policy)
    : Result<Processed, Error>
    decreases |blocks|
  {
    if blocks == [] then (if canMark then Ok(Processed(st, last, true)) else Err(NotMarked))
    else match blocks[0]
         case Err(e) => Err(e)
         case Ok(b) =>
           if b.number <= last then Walk(st, last, blocks[1..], canMark, target, policy)
           else if target.Some? && b.number > target.value then Ok(Processed(st, last, false))
           else if b.number != last + 1 then Err(Gap)
           else match AcceptBlock(st, b, policy)
                case Err(e) => Err(e)
                case Ok(st') => Walk(st', b.number, blocks[1..], canMark, target, policy)
  }

  /** Accepts blocks one after the other. */
  function AcceptAll(st: Store, blocks: seq<EraBlock>, policy: Policy): Result<Store, Error>
    decreases |blocks|
  {
    if blocks == [] then Ok(st)
    else match AcceptBlock(st, blocks[0], policy)
         case Err(e) => Err(e)
         case Ok(st') => AcceptAll(st', blocks[1..], policy)
  }

  lemma {:induction false} NumberedTail(blocks: seq<EraBlock>, s: nat)
    requires Numbered(blocks, s) && blocks != []
    ensures blocks[0].number == s + 1 && Numbered(blocks[1..], s + 1)
  {
  }

  lemma {:induction false} AcceptAllImports(base: Store, st: Store, start: nat, before: seq<EraBlock>,
                                        blocks: seq<EraBlock>, policy: Policy)
    requires Imported(base, st, start, before, policy) && Numbered(blocks, start + |before|) && AcceptAll(st, blocks, policy).Ok?
    ensures Imported(base, AcceptAll(st, blocks, policy).value, start, before + blocks, policy)
    decreases |blocks|
  {
    if blocks == [] {
      assert before + blocks == before;
    } else {
      NumberedTail(blocks, start + |before|);
      var b, tail := blocks[0], blocks[1..];
      var st' := AcceptBlock(st, b, policy).value;
      ImportedOne(base, st, st', start, before, b, policy);
      AcceptAllImports(base, st', start, before + [b], tail, policy);
      assert before + [b] + tail == before + blocks;
    }
  }

  /** A successful walk accepts the next numbers up to the height it reports. */
  lemma {:induction false} WalkAccepts(st: Store, last: nat, blocks: seq<Result<EraBlock, Error>>, canMark: bool,
                                       target: Option<nat>, policy: Policy)
    returns (accepted: seq<EraBlock>)
    requires Walk(st, last, blocks, canMark, target, policy).Ok?
    ensures var p := Walk(st, last, blocks, canMark, target, policy).value;
            && AcceptAll(st, accepted, policy) == Ok(p.store) && Numbered(accepted, last) && p.height == last + |accepted|
            && (forall b :: b in accepted ==> Ok(b) in blocks)
            && (target.Some? ==> p.height <= Max(last, target.value))
            && (p.marked <==> AllAtMost(blocks, p.height))
    decreases |blocks|
  {
    accepted := [];
    if blocks != [] {
      var b, tail := blocks[0].value, blocks[1..];
      assert blocks == [blocks[0]] + tail;
      if b.number <= last {
        accepted := WalkAccepts(st, last, tail, canMark, target, policy);
      } else if !(target.Some? && b.number > target.value) {
        var rest := WalkAccepts(AcceptBlock(st, b, policy).value, b.number, tail, canMark, target, policy);
        accepted := [b] + rest;
        assert accepted[1..] == rest;
      }
      AllAtMostCons(blocks, Walk(st, last, blocks, canMark, target, policy).value.height);
    }
  }

  /** Headers above the headers tip, and receipts if wanted, are written for exactly the accepted blocks. */
  lemma {:induction false} WalkImports(st: Store, last: nat, blocks: seq<Result<EraBlock, Error>>, canMark: bool,
                                       target: Option<nat>, policy: Policy)
    returns (accepted: seq<EraBlock>)
    requires Walk(st, last, blocks, canMark, target, policy).Ok?
    ensures var p := Walk(st, last, blocks, canMark, target, policy).value;
            && Imported(st, p.store, last, accepted, policy)
            && p.height == last + |accepted|
            && (forall b :: b in accepted ==> Ok(b) in blocks)
            && (target.Some? ==> p.height <= Max(last, target.value))
            && (p.marked <==> AllAtMost(blocks, p.height))
  {
    accepted := WalkAccepts(st, last, blocks, canMark, target, policy);
    ImportedNothing(st, last, policy);
    AcceptAllImports(st, st, last, [], accepted, policy);
    assert [] + accepted == accepted;
  }

  lemma {:induction false} AllAtMostCons(blocks: seq<Result<EraBlock, Error>>, h: nat)
    requires blocks != []
    ensures AllAtMost(blocks, h) <==> (blocks[0].Ok? ==> blocks[0].value.number <= h) && AllAtMost(blocks[1..], h)
  {
    if (blocks[0].Ok? ==> blocks[0].value.number <= h) && AllAtMost(blocks[1..], h) {
      forall i | 0 <= i < |blocks| && blocks[i].Ok? ensures blocks[i].value.number <= h {
        if i > 0 { assert blocks[i] == blocks[1..][i - 1]; }
      }
    }
  }

  /**
   On success the accepted blocks are exactly those numbered start+1 to the height reached, and
   the file is marked exactly when it holds no block above that.
   */
  method ProcessIter(st: Store, file: EraFile, start: nat, target: Option<nat>, policy: Policy)
    returns (r: Result<Processed, Error>, ghost accepted: seq<EraBlock>)
    ensures r == Walk(st, start, file.blocks, file.canMark, target, policy)
    ensures r.Ok? ==>
              && Imported(st, r.value.store, start, accepted, policy)
              && r.value.height == start + |accepted|
              && (forall b :: b in accepted ==> Ok(b) in file.blocks)
              && (target.Some? ==> r.value.height <= Max(start, target.value))
              && (r.value.marked <==> AllAtMost(file.blocks, r.value.height))
  {
    accepted := [];
    if Walk(st, start, file.blocks, file.canMark, target, policy).Ok? {
      accepted := WalkImports(st, start, file.blocks, file.canMark, target, policy);
    }
    var store, last: nat := st, start;
    for i := 0 to |file.blocks|
      invariant Walk(st, start, file.blocks, file.canMark, target, policy)
             == Walk(store, last, file.blocks[i..], file.canMark, target, policy)
    {
      assert file.blocks[i..][1..] == file.blocks[i + 1..];
      if file.blocks[i].Err? {
        return Err(file.blocks[i].error), accepted;
      }
      var b := file.blocks[i].value;
      if b.number <= last {
        continue;
      }
      if target.Some? && b.number > target.value {
        return Ok(Processed(store, last, false)), accepted;
      }
      if b.number != last + 1 {
        return Err(Gap), accepted;
      }
      last := b.number;
      var next := AcceptBlock(store, b, policy);
      if next.Err? {
        return Err(next.error), accepted;
      }
      store := next.value;
    }
    if !file.canMark {
      return Err(NotMarked), accepted;
    }
    r := Ok(Processed(store, last, true));
  }

  /** The segments end where a walk from height `last` on expects them to. */
  ghost predicate Ready(st: Store, last: nat, policy: Policy) {
    && st.headers.Next() == st.bodies.Next() == Max(last, policy.headersTip) + 1
    && (policy.withReceipts ==>
          && st.receipts.Next() == last + 1 && st.bodies.base <= last + 1
          && (st.nextReceiptTx.Some? ==> st.nextReceiptTx.value == Sum(st.bodies.rows[..last + 1 - st.bodies.base])))
  }

  /** A block that is stored already is the stored one; receipts are verified and one per transaction. */
  ghost predicate Suits(st: Store, b: EraBlock, policy: Policy) {
    && (b.number <= policy.headersTip ==> Matches(st, b))
    && (policy.withReceipts ==>
          && b.receipts.Some? && policy.verify(b, b.receipts.value, policy.isVerifiable(b.number))
          && Some(|b.receipts.value|) == if b.number <= policy.headersTip then st.bodies.Get(b.number) else Some(b.txCount))
  }

  /** The block lies between the height reached and the target. */
  predicate ToImport(b: EraBlock, last: nat, target: Option<nat>) {
    last < b.number && (target.Some? ==> b.number <= target.value)
  }

  ghost predicate AllSuit(st: Store, last: nat, blocks: seq<Result<EraBlock, Error>>, target: Option<nat>, policy: Policy) {
    forall i :: 0 <= i < |blocks| && blocks[i].Ok? && ToImport(blocks[i].value, last, target) ==> Suits(st, blocks[i].value, policy)
  }

  /** The blocks decode and are numbered from `first` on. */
  ghost predicate Consecutive(blocks: seq<Result<EraBlock, Error>>, first: nat) {
    forall i :: 0 <= i < |blocks| ==> blocks[i].Ok? && blocks[i].value.number == first + i
  }

  lemma {:induction false} NextIsAccepted(st: Store, last: nat, b: EraBlock, policy: Policy)
    requires Ready(st, last, policy) && b.number == last + 1
    ensures AcceptBlock(st, b, policy).Ok? <==> Suits(st, b, policy)
  {
    AcceptedExactlyWhen(st, b, policy);
    if policy.withReceipts {
      var n := last + 1 - st.bodies.base;
      assert Written(st, b, policy).bodies.rows[..n] == st.bodies.rows[..n];
    }
  }

  lemma {:induction false} SumNext(s: seq<nat>, n: nat)
    requires n < |s|
    ensures Sum(s[..n + 1]) == Sum(s[..n]) + s[n]
  {
    assert s[..n + 1][..n] == s[..n];
  }

  lemma {:induction false} AcceptedStaysReady(st: Store, last: nat, b: EraBlock, policy: Policy)
    requires Ready(st, last, policy) && b.number == last + 1 && AcceptBlock(st, b, policy).Ok?
    ensures Ready(AcceptBlock(st, b, policy).value, b.number, policy)
  {
    Accepted(st, b, policy);
    if policy.withReceipts {
      var rows, n := AcceptBlock(st, b, policy).value.bodies.rows, last + 1 - st.bodies.base;
      assert rows[..n] == st.bodies.rows[..n];
      SumNext(rows, n);
    }
  }

  lemma {:induction false} SuitsAfter(st: Store, b: EraBlock, c: EraBlock, policy: Policy)
    requires AcceptBlock(st, b, policy).Ok? && c.number > b.number
    ensures Suits(AcceptBlock(st, b, policy).value, c, policy) <==> Suits(st, c, policy)
  {
    Accepted(st, b, policy);
  }

  /** What is asked of the rest of a file before and after its first block is accepted. */
  lemma {:induction false} RestSuits(st: Store, last: nat, b: EraBlock, tail: seq<Result<EraBlock, Error>>,
                                     target: Option<nat>, policy: Policy)
    requires AcceptBlock(st, b, policy).Ok? && b.number == last + 1 && Consecutive(tail, b.number + 1)
    ensures AllSuit(AcceptBlock(st, b, policy).value, b.number, tail, target, policy) <==> AllSuit(st, last, tail, target, policy)
  {
    forall i | 0 <= i < |tail|
      ensures Suits(AcceptBlock(st, b, policy).value, tail[i].value, policy) <==> Suits(st, tail[i].value, policy)
    {
      SuitsAfter(st, b, tail[i].value, policy);
    }
  }

  lemma {:induction false} AllSuitCons(st: Store, last: nat, blocks: seq<Result<EraBlock, Error>>, target: Option<nat>, policy: Policy)
    requires blocks != [] && blocks[0].Ok?
    ensures AllSuit(st, last, blocks, target, policy) <==>
              && (ToImport(blocks[0].value, last, target) ==> Suits(st, blocks[0].value, policy))
              && AllSuit(st, last, blocks[1..], target, policy)
  {
    var tail := blocks[1..];
    assert forall i :: 0 < i < |blocks| ==> blocks[i] == tail[i - 1];
    if AllSuit(st, last, blocks, target, policy) {
      forall i | 0 <= i < |tail| && tail[i].Ok? && ToImport(tail[i].value, last, target) ensures Suits(st, tail[i].value, policy) {
        assert tail[i] == blocks[i + 1];
      }
    }
  }

  /** The last block of a file whose blocks are numbered from `first` on. */
  function FileEnd(blocks: seq<Result<EraBlock, Error>>, first: nat, last: nat): nat {
    if blocks == [] then last else first + |blocks| - 1
  }

  /** A file of consecutive blocks that ends beyond the target is not read to its end. */
  predicate StopsEarly(blocks: seq<Result<EraBlock, Error>>, first: nat, last: nat, target: Option<nat>) {
    target.Some? && FileEnd(blocks, first, last) > Max(last, target.value)
  }

  lemma {:induction false} StopSuits(st: Store, last: nat, blocks: seq<Result<EraBlock, Error>>, first: nat, target: nat, policy: Policy)
    requires Consecutive(blocks, first) && first > target
    ensures AllSuit(st, last, blocks, Some(target), policy)
  {
  }

  /**
   A readable file of consecutive blocks that joins on to the stored chain is imported, to its
   end or the target, if and only if every block to import suits the store, and it can be
   marked if its end is reached. This covers new blocks and receipts that are filled in below
   the headers tip.
   */
  lemma {:induction false} FileSucceedsExactlyWhen(st: Store, last: nat, blocks: seq<Result<EraBlock, Error>>, first: nat, canMark: bool,
                                                   target: Option<nat>, policy: Policy)
    requires Ready(st, last, policy) && first <= last + 1 && Consecutive(blocks, first)
    ensures var r := Walk(st, last, blocks, canMark, target, policy);
            && (r.Ok? <==> AllSuit(st, last, blocks, target, policy) && (canMark || StopsEarly(blocks, first, last, target)))
            && (r.Ok? ==>
                  r.value.height == Max(last, if StopsEarly(blocks, first, last, target) then target.value else FileEnd(blocks, first, last)))
    decreases |blocks|
  {
    if blocks != [] {
      var b, tail := blocks[0].value, blocks[1..];
      assert b.number == first;
      assert Consecutive(tail, first + 1) by {
        forall i | 0 <= i < |tail| ensures tail[i].Ok? && tail[i].value.number == first + 1 + i { assert tail[i] == blocks[i + 1]; }
      }
      AllSuitCons(st, last, blocks, target, policy);
      if b.number <= last {
        FileSucceedsExactlyWhen(st, last, tail, first + 1, canMark, target, policy);
      } else if target.Some? && b.number > target.value {
        StopSuits(st, last, blocks, first, target.value, policy);
      } else {
        NextIsAccepted(st, last, b, policy);
        if AcceptBlock(st, b, policy).Ok? {
          AcceptedStaysReady(st, last, b, policy);
          RestSuits(st, last, b, tail, target, policy);
          FileSucceedsExactlyWhen(AcceptBlock(st, b, policy).value, b.number, tail, first + 1, canMark, target, policy);
        }
      }
    }
  }

  // ---------------------------------------------------------------------------------------
  // All files
  // ---------------------------------------------------------------------------------------

  function SaveCheckpoints(st: Store, to: nat): Store {
    st.(headersCheckpoint := Some(to), bodiesCheckpoint := Some(to))
  }

  /** What has been committed when the loop over the files ends, and the error that ended it. */
  datatype Progress = Progress(store: Store, height: nat, error: Option<Error>)

  function ImportFiles(st: Store, height: nat, files: seq<Result<EraFile, Error>>, to: Option<nat>, policy: Policy): Progress
    decreases |files|
  {
    if files == [] then Progress(st, height, None)
    else match files[0]
         case Err(e) => Progress(st, height, Some(e))
         case Ok(f) =>
           match Walk(st, height, f.blocks, f.canMark, to, policy)
           case Err(e) => Progress(st, height, Some(e))
           case Ok(p) =>
             var st' := SaveCheckpoints(p.store, Max(p.height, policy.headersTip));
             if to.Some? && p.height >= to.value then Progress(st', p.height, None)
             else ImportFiles(st', p.height, files[1..], to, policy)
  }

  /** Where the checkpoints are after some files: as before, or at the height reached, but not below the headers tip. */
  ghost predicate CheckpointsAt(st: Store, st': Store, height: nat, height': nat, policy: Policy) {
    || (st'.headersCheckpoint == st.headersCheckpoint && st'.bodiesCheckpoint == st.bodiesCheckpoint && height' == height)
    || st'.headersCheckpoint == st'.bodiesCheckpoint == Some(Max(height', policy.headersTip))
  }

  /** All that one run of the loop has done, whether or not it ended in an error. */
  ghost predicate Outcome(st: Store, st': Store, height: nat, height': nat, accepted: seq<EraBlock>, policy: Policy) {
    && Numbered(accepted, height) && height' == height + |accepted|
    && WroteBlocks(st, st', height, accepted, policy) && WroteReceipts(st, st', height, accepted, policy)
    && CheckpointsAt(st, st', height, height', policy)
    && st'.executionCheckpoint == st.executionCheckpoint && st'.headerNumbers == st.headerNumbers
  }

  /** What the loop over the files has done, for any list of files, successful or not. */
  lemma {:induction false} ImportFilesOutcome(st: Store, height: nat, files: seq<Result<EraFile, Error>>, to: Option<nat>, policy: Policy)
    returns (accepted: seq<EraBlock>)
    ensures var p := ImportFiles(st, height, files, to, policy);
            && Outcome(st, p.store, height, p.height, accepted, policy)
            && (to.Some? ==> p.height <= Max(height, to.value))
    decreases |files|
  {
    ImportedNothing(st, height, policy);
    accepted := [];
    if files != [] && files[0].Ok? {
      var f := files[0].value;
      var walk := Walk(st, height, f.blocks, f.canMark, to, policy);
      if walk.Ok? {
        var first := WalkImports(st, height, f.blocks, f.canMark, to, policy);
        var p := walk.value;
        var st' := SaveCheckpoints(p.store, Max(p.height, policy.headersTip));
        assert WroteReceipts(st, st', height, first, policy) by { SameReceipts(st, p.store, st', height, first, policy); }
        if to.Some? && p.height >= to.value {
          accepted := first;
        } else {
          var rest := ImportFilesOutcome(st', p.height, files[1..], to, policy);
          accepted := first + rest;
          var q := ImportFiles(st', p.height, files[1..], to, policy);
          OutcomeTwice(st, st', q.store, height, p.height, q.height, first, rest, policy);
        }
      }
    }
  }

  lemma {:induction false} SameReceipts(st: Store, st1: Store, st2: Store, s: nat, blocks: seq<EraBlock>, policy: Policy)
    requires WroteReceipts(st, st1, s, blocks, policy) && st2.receipts == st1.receipts && st2.bodies == st1.bodies
    ensures WroteReceipts(st, st2, s, blocks, policy)
  {
    if policy.withReceipts {
      forall i | 0 <= i < |blocks| ensures Verified(st2, policy, blocks[i]) {
        assert Verified(st1, policy, blocks[i]);
      }
    }
  }

  lemma {:induction false} OutcomeTwice(st: Store, st1: Store, st2: Store, h: nat, h1: nat, h2: nat,
                                        first: seq<EraBlock>, rest: seq<EraBlock>, policy: Policy)
    requires Outcome(st, st1, h, h1, first, policy) && Outcome(st1, st2, h1, h2, rest, policy)
    requires st1.headersCheckpoint == st1.bodiesCheckpoint == Some(Max(h1, policy.headersTip))
    ensures Outcome(st, st2, h, h2, first + rest, policy)
  {
    WroteBlocksTwice(st, st1, st2, h, first, rest, policy);
    WroteReceiptsTwice(st, st1, st2, h, first, rest, policy);
  }

  ghost predicate NotBelow(before: Option<nat>, after: Option<nat>) {
    before.Some? ==> after.Some? && before.value <= after.value
  }

  /** Neither checkpoint has dropped when the loop over the files ends. */
  ghost predicate Survive(st: Store, height: nat, files: seq<Result<EraFile, Error>>, to: Option<nat>, policy: Policy) {
    var st' := ImportFiles(st, height, files, to, policy).store;
    NotBelow(st.headersCheckpoint, st'.headersCheckpoint) && NotBelow(st.bodiesCheckpoint, st'.bodiesCheckpoint)
  }

  /** The checkpoints survive every list of files exactly when they start at or below the headers tip. */
  lemma {:induction false} CheckpointsNeverDrop(st: Store, height: nat, to: Option<nat>, policy: Policy)
    requires height <= policy.headersTip
    ensures (forall files :: Survive(st, height, files, to, policy))
            <==> NotBelow(st.headersCheckpoint, Some(policy.headersTip)) && NotBelow(st.bodiesCheckpoint, Some(policy.headersTip))
  {
    var empty := [Ok(EraFile([], true))];
    assert ImportFiles(st, height, empty, to, policy).store == SaveCheckpoints(st, policy.headersTip);
    assert Survive(st, height, empty, to, policy) ==>
        NotBelow(st.headersCheckpoint, Some(policy.headersTip)) && NotBelow(st.bodiesCheckpoint, Some(policy.headersTip));
    if NotBelow(st.headersCheckpoint, Some(policy.headersTip)) && NotBelow(st.bodiesCheckpoint, Some(policy.headersTip)) {
      forall files ensures Survive(st, height, files, to, policy) {
        var _ := ImportFilesOutcome(st, height, files, to, policy);
      }
    }
  }

  /** Checkpoints at 10 over a headers tip of 3: one empty file takes them back to 3. */
  lemma {:induction false} EmptyFileLowersCheckpoints(st: Store, policy: Policy)
    requires st.headersCheckpoint == st.bodiesCheckpoint == Some(10) && policy.headersTip == 3
    ensures ImportFiles(st, 0, [Ok(EraFile([], true))], None, policy).store.headersCheckpoint == Some(3)
  {
  }

  method RunFiles(st: Store, height: nat, files: seq<Result<EraFile, Error>>, to: Option<nat>, policy: Policy) returns (p: Progress)
    ensures p == ImportFiles(st, height, files, to, policy)
  {
    var store, h: nat := st, height;
    for i := 0 to |files|
      invariant ImportFiles(st, height, files, to, policy) == ImportFiles(store, h, files[i..], to, policy)
    {
      assert files[i..][1..] == files[i + 1..];
      if files[i].Err? {
        return Progress(store, h, Some(files[i].error));
      }
      var r, _ := ProcessIter(store, files[i].value, h, to, policy);
      if r.Err? {
        return Progress(store, h, Some(r.error));
      }
      h := r.value.height;
      store := SaveCheckpoints(r.value.store, Max(h, policy.headersTip));
      if to.Some? && h >= to.value {
        return Progress(store, h, None);
      }
    }
    p := Progress(store, h, None);
  }

  // ---------------------------------------------------------------------------------------
  // The whole import
  // ---------------------------------------------------------------------------------------

  /** An encoded block number. */
  type Encoded = b: Bytes | |b| <= 8 witness []

  /**
   What the import is given besides the files. `staticReceipts` tells whether the node keeps
   receipts in static files, `capacity` is the buffer size of the hash collector.
   */
  datatype Config = Config(
    genesis: nat, staticReceipts: bool, isVerifiable: nat -> bool, verify: (EraBlock, seq<Receipt>, bool) -> bool,
    encode: nat -> Encoded, capacity: nat)

  function StartHeight(st: Store, storeReceipts: bool, genesis: nat): nat {
    var headersTip := st.headers.Tip().GetOr(genesis);
    var receiptsTip := st.receipts.Tip().GetOr(genesis);
    if storeReceipts && receiptsTip < headersTip then receiptsTip else headersTip
  }

  /** The block a receipt repair must reach, or why there is nothing to repair. */
  function ReceiptsTarget(st: Store, toBlock: Option<nat>, config: Config): (r: Result<nat, Error>)
    ensures r.Ok? ==> Some(r.value) == st.executionCheckpoint
    ensures r.Ok? <==>
              && config.staticReceipts && st.executionCheckpoint.Some?
              && st.executionCheckpoint.value > Max(config.genesis, StartHeight(st, true, config.genesis))
              && (toBlock == None || toBlock == st.executionCheckpoint)
              && config.isVerifiable(StartHeight(st, true, config.genesis) + 1)
  {
    var height := StartHeight(st, true, config.genesis);
    var target := st.executionCheckpoint.GetOr(config.genesis);
    if !config.staticReceipts then Err(WrongDestination)
    else if target <= config.genesis then Err(NothingExecuted)
    else if height >= target then Err(NothingToRepair)
    else if toBlock.Some? && toBlock.value != target then Err(WrongTarget)
    else if !config.isVerifiable(height + 1) then Err(Unrepresentable)
    else Ok(target)
  }

  /** A receipts segment that does not exist yet gets the empty receipts of the genesis block. */
  function Seeded(st: Store, storeReceipts: bool, genesis: nat): Store {
    if storeReceipts && st.receipts.Tip().None? then st.(receipts := Segment(genesis, [[]])) else st
  }

  function EntriesOf(indexed: seq<(Hash, nat)>, encode: nat -> Encoded): seq<Lexicographic.Entry> {
    seq(|indexed|, i requires 0 <= i < |indexed| => Lexicographic.Entry(indexed[i].0, encode(indexed[i].1)))
  }

  lemma {:induction false} EntriesFit(indexed: seq<(Hash, nat)>, encode: nat -> Encoded)
    ensures 32 < Etl.Pow256(Etl.KV_LEN)
    ensures forall e :: e in EntriesOf(indexed, encode) ==> Etl.Fits(e) && |e.key| > 0
  {
    assert Etl.Pow256(2) == 256 * 256;
    assert Etl.Pow256(4) >= Etl.Pow256(2);
    assert Etl.Pow256(6) >= Etl.Pow256(4);
    forall e | e in EntriesOf(indexed, encode) ensures Etl.Fits(e) && |e.key| > 0 {
      var i :| 0 <= i < |indexed| && EntriesOf(indexed, encode)[i] == e;
      assert |indexed[i].0| == 32;
    }
  }

  function PolicyOf(st: Store, storeReceipts: bool, config: Config): Policy {
    Policy(st.headers.Tip().GetOr(config.genesis), config.isVerifiable, config.verify, storeReceipts)
  }

  /** The loop over the files as the import starts it. */
  function Loop(st: Store, files: seq<Result<EraFile, Error>>, to: Option<nat>, storeReceipts: bool, config: Config): Progress {
    ImportFiles(Seeded(st, storeReceipts, config.genesis), StartHeight(st, storeReceipts, config.genesis), files, to,
                PolicyOf(st, storeReceipts, config))
  }

  /** The verdict of the import after the loop over the files. */
  ghost function Verdict(p: Progress, target: Option<nat>, config: Config): Result<nat, Error> {
    if p.error.Some? then Err(p.error.value)
    else if !HeaderIndex.CanIndex(p.store.headerNumbers, EntriesOf(p.store.indexed, config.encode), config.encode(0))
    then Err(NotAscending)
    else if target.Some? && p.height < target.value then Err(RanOut)
    else Ok(p.height)
  }

  /** Where a successful repair ends: on the execution checkpoint, which is the receipts tip. */
  lemma {:induction false} RepairLandsOnCheckpoint(st: Store, files: seq<Result<EraFile, Error>>, toBlock: Option<nat>, config: Config)
    requires ReceiptsTarget(st, toBlock, config).Ok?
    ensures var target := Some(ReceiptsTarget(st, toBlock, config).value);
            var p := Loop(st, files, target, true, config);
            Verdict(p, target, config).Ok? ==> Some(p.height) == st.executionCheckpoint == p.store.receipts.Tip()
  {
    var _ := ImportFilesOutcome(Seeded(st, true, config.genesis), StartHeight(st, true, config.genesis), files,
                                Some(ReceiptsTarget(st, toBlock, config).value), PolicyOf(st, true, config));
  }

  lemma {:induction false} HeadersTipAfter(st: Store, st': Store, height: nat, height': nat, accepted: seq<EraBlock>, policy: Policy, genesis: nat)
    requires Outcome(st, st', height, height', accepted, policy)
    requires policy.headersTip == st.headers.Tip().GetOr(genesis) && height <= policy.headersTip
    ensures st'.headers.Tip().GetOr(genesis) == Max(height', policy.headersTip)
  {
    var k := Backfilled(height, policy, |accepted|);
    assert |HashesOf(accepted[k..])| == |accepted| - k;
  }

  /** Where the headers end after any run, successful or not. */
  lemma {:induction false} HeadersEndAtHeight(st: Store, files: seq<Result<EraFile, Error>>, to: Option<nat>,
                                        storeReceipts: bool, config: Config)
    ensures var p := Loop(st, files, to, storeReceipts, config);
            p.store.headers.Tip().GetOr(config.genesis) == Max(p.height, st.headers.Tip().GetOr(config.genesis))
  {
    var accepted := ImportFilesOutcome(Seeded(st, storeReceipts, config.genesis), StartHeight(st, storeReceipts, config.genesis),
                                       files, to, PolicyOf(st, storeReceipts, config));
    var p := Loop(st, files, to, storeReceipts, config);
    HeadersTipAfter(Seeded(st, storeReceipts, config.genesis), p.store, StartHeight(st, storeReceipts, config.genesis), p.height,
                    accepted, PolicyOf(st, storeReceipts, config), config.genesis);
  }

  /**
   The import, for any list of files. The execution checkpoint is never written, a successful
   receipt repair ends exactly on it, and the hash index gains every new header.
   */
  method Import(st: Store, files: seq<Result<EraFile, Error>>, toBlock: Option<nat>, storeReceipts: bool, config: Config)
    returns (st': Store, r: Result<nat, Error>)
    requires forall k :: k in st.headerNumbers ==> |k| == 32
    ensures st'.executionCheckpoint == st.executionCheckpoint
    ensures storeReceipts && ReceiptsTarget(st, toBlock, config).Err? ==>
              st' == st && r == Err(ReceiptsTarget(st, toBlock, config).error)
    ensures !(storeReceipts && ReceiptsTarget(st, toBlock, config).Err?) ==>
              var target := if storeReceipts then Some(ReceiptsTarget(st, toBlock, config).value) else None;
              var p := Loop(st, files, if target.Some? then target else toBlock, storeReceipts, config);
              && st'.(headerNumbers := p.store.headerNumbers) == p.store
              && r == Verdict(p, target, config)
    ensures r.Ok? ==>
              && st'.headers.Tip().GetOr(config.genesis) == Max(r.value, st.headers.Tip().GetOr(config.genesis))
              && (storeReceipts ==> Some(r.value) == st.executionCheckpoint == st'.receipts.Tip())
              && HeaderIndex.Indexed(st.headerNumbers, EntriesOf(st'.indexed, config.encode), st'.headerNumbers)
  {
    var target: Option<nat> := None;
    if storeReceipts {
      var check := ReceiptsTarget(st, toBlock, config);
      if check.Err? {
        return st, Err(check.error);
      }
      target := Some(check.value);
      RepairLandsOnCheckpoint(st, files, toBlock, config);
    }
    var to := if target.Some? then target else toBlock;
    HeadersEndAtHeight(st, files, to, storeReceipts, config);
    RestKept(st, files, to, storeReceipts, config);
    var seeded, start := Seeded(st, storeReceipts, config.genesis), StartHeight(st, storeReceipts, config.genesis);
    var p := RunFiles(seeded, start, files, to, PolicyOf(st, storeReceipts, config));
    if p.error.Some? {
      return p.store, Err(p.error.value);
    }
    EntriesFit(p.store.indexed, config.encode);
    var entries := EntriesOf(p.store.indexed, config.encode);
    var table := HeaderIndex.BuildIndex(p.store.headerNumbers, entries, config.capacity, config.encode(0));
    if table.None? {
      return p.store, Err(NotAscending);
    }
    st' := p.store.(headerNumbers := table.value);
    r := if target.Some? && p.height < target.value then Err(RanOut) else Ok(p.height);
  }

  lemma {:induction false} RestKept(st: Store, files: seq<Result<EraFile, Error>>, to: Option<nat>, storeReceipts: bool, config: Config)
    ensures var p := Loop(st, files, to, storeReceipts, config);
            p.store.executionCheckpoint == st.executionCheckpoint && p.store.headerNumbers == st.headerNumbers
  {
    var _ := ImportFilesOutcome(Seeded(st, storeReceipts, config.genesis), StartHeight(st, storeReceipts, config.genesis), files, to,
                                PolicyOf(st, storeReceipts, config));
  }
}
