/**
 Executed blocks, the state changes they carry, and the database those changes are written to.

 Hashes, addresses, storage slots and words are natural numbers; nothing depends on their width.
 */
module Blocks {
  import opened Prelude

  type Hash = nat
  type Address = nat
  type Slot = nat
  type Word = nat
  type Code = nat

  datatype Account = Account(nonce: nat, balance: nat, codeHash: Hash)

  /**
   One account in a block's state changes. `info` is `None` for a destroyed account.
   `storageKnown` is set when the account's whole storage is determined by this block
   (created or destroyed), so that slots which are not listed read as zero.
   */
  datatype BundleAccount = BundleAccount(info: Option<Account>, storage: map<Slot, Word>, storageKnown: bool)
  {
    function StorageSlot(slot: Slot): Option<Word> {
      if slot in storage then Some(storage[slot])
      else if storageKnown then Some(0)
      else None
    }
  }

  /** A block's execution output, as far as the state readers look at it. */
  datatype Output = Output(state: map<Address, BundleAccount>, contracts: map<Hash, Code>)
  {
    function Account(a: Address): Option<Option<Account>> {
      if a in state then Some(state[a].info) else None
    }

    function Storage(a: Address, slot: Slot): Option<Word> {
      if a in state then state[a].StorageSlot(slot) else None
    }

    function Bytecode(h: Hash): Option<Code> {
      if h in contracts then Some(contracts[h]) else None
    }
  }

  datatype ExecutedBlock = ExecutedBlock(number: nat, hash: Hash, parentHash: Hash, output: Output)

  /** The state tables, as what can be read from them. A slot that becomes zero is deleted. */
  datatype Database = Database(
    accounts: Address -> Option<Account>,
    storage: (Address, Slot) -> Option<Word>,
    contracts: Hash -> Option<Code>,
    hashes: nat -> Option<Hash>)
  {
    function BasicAccount(a: Address): Option<Account> { accounts(a) }

    function Storage(a: Address, slot: Slot): Option<Word> { storage(a, slot) }

    function BytecodeByHash(h: Hash): Option<Code> { contracts(h) }

    function BlockHash(n: nat): Option<Hash> { hashes(n) }

    /** The account a block leaves behind. */
    function AccountAfter(o: Output, a: Address): Option<Account> {
      if a in o.state then o.state[a].info else BasicAccount(a)
    }

    /** The value a block leaves in a slot. */
    function SlotAfter(o: Output, a: Address, slot: Slot): Word {
      match o.Storage(a, slot)
      case Some(v) => v
      case None => Storage(a, slot).GetOr(0)
    }

    /** Writes one block. */
    function Apply(b: ExecutedBlock): Database {
      var o := b.output;
      Database(
        (a: Address) => AccountAfter(o, a),
        (a: Address, slot: Slot) => if SlotAfter(o, a, slot) == 0 then None else Some(SlotAfter(o, a, slot)),
        (h: Hash) => if o.Bytecode(h).Some? then o.Bytecode(h) else BytecodeByHash(h),
        (n: nat) => if n == b.number then Some(b.hash) else BlockHash(n))
    }
  }

  /** What one written block changes for the readers: exactly the keys it touches. */
  lemma {:induction false} ApplyReads(db: Database, b: ExecutedBlock, a: Address, slot: Slot, h: Hash, n: nat)
    ensures db.Apply(b).BasicAccount(a) ==
              (match b.output.Account(a) case Some(x) => x case None => db.BasicAccount(a))
    ensures db.Apply(b).Storage(a, slot).GetOr(0) ==
              (match b.output.Storage(a, slot) case Some(v) => v case None => db.Storage(a, slot).GetOr(0))
    ensures db.Apply(b).BytecodeByHash(h) ==
              (match b.output.Bytecode(h) case Some(c) => Some(c) case None => db.BytecodeByHash(h))
    ensures db.Apply(b).BlockHash(n) == if b.number == n then Some(b.hash) else db.BlockHash(n)
  {
  }

  /** Writes blocks in order, oldest first. */
  function ApplyAll(db: Database, chain: seq<ExecutedBlock>): Database {
    if chain == [] then db
    else ApplyAll(db, chain[..|chain| - 1]).Apply(chain[|chain| - 1])
  }

  lemma {:induction false} ApplyAllConcat(db: Database, a: seq<ExecutedBlock>, b: seq<ExecutedBlock>)
    ensures ApplyAll(db, a + b) == ApplyAll(ApplyAll(db, a), b)
  {
    if b == [] {
      assert a + b == a;
    } else {
      var n := |b| - 1;
      assert (a + b)[..|a + b| - 1] == a + b[..n];
      ApplyAllConcat(db, a, b[..n]);
    }
  }

  function Reversed<T>(s: seq<T>): (r: seq<T>)
    ensures |r| == |s|
    ensures forall i :: 0 <= i < |s| ==> r[i] == s[|s| - 1 - i]
  {
    if s == [] then [] else [s[|s| - 1]] + Reversed(s[..|s| - 1])
  }
}
