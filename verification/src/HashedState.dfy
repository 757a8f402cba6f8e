/**
 The hashed state that the overlay reader hands to the trie code: the in-memory blocks' hashed
 states merged oldest to newest, and the post state of a bundle with the in-memory slots of
 destroyed accounts zeroed (crates/chain-state/src/memory_overlay.rs, on the maps of
 crates/trie/common/src/hashed_state.rs).
 */
module HashedState {
  import opened Prelude
  import opened Blocks
  import Overlay

  datatype HashedStorage = HashedStorage(wiped: bool, storage: map<Hash, Word>)
  {
    /** The entries of `other` take precedence, and a wipe forgets everything before it. */
    function Extend(other: HashedStorage): HashedStorage {
      if other.wiped then HashedStorage(true, other.storage)
      else HashedStorage(wiped, storage + other.storage)
    }

    /** What this storage says about a slot, if anything. */
    function Write(slot: Hash): Option<Word> {
      if slot in storage then Some(storage[slot]) else if wiped then Some(0) else None
    }
  }

  datatype HashedPostState = HashedPostState(accounts: map<Hash, Option<Account>>, storages: map<Hash, HashedStorage>)
  {
    function Extend(other: HashedPostState): HashedPostState {
      HashedPostState(
        accounts + other.accounts,
        map k | k in storages.Keys + other.storages.Keys ::
          if k in storages && k in other.storages then storages[k].Extend(other.storages[k])
          else if k in other.storages then other.storages[k] else storages[k])
    }

    function AccountWrite(k: Hash): Option<Option<Account>> {
      if k in accounts then Some(accounts[k]) else None
    }

    function SlotWrite(k: Hash, slot: Hash): Option<Word> {
      if k in storages then storages[k].Write(slot) else None
    }
  }

  const EMPTY := HashedPostState(map[], map[])

  lemma {:induction false} ExtendReads(s: HashedPostState, t: HashedPostState, k: Hash, slot: Hash)
    ensures s.Extend(t).AccountWrite(k) == if t.AccountWrite(k).Some? then t.AccountWrite(k) else s.AccountWrite(k)
    ensures s.Extend(t).SlotWrite(k, slot) ==
              if t.SlotWrite(k, slot).Some? then t.SlotWrite(k, slot) else s.SlotWrite(k, slot)
  {
  }

  /** The answer of the newest block that has one, newest block first. */
  function FirstAccountWrite(mem: seq<HashedPostState>, k: Hash): Option<Option<Account>> {
    if mem == [] then None
    else if mem[0].AccountWrite(k).Some? then mem[0].AccountWrite(k)
    else FirstAccountWrite(mem[1..], k)
  }

  function FirstSlotWrite(mem: seq<HashedPostState>, k: Hash, slot: Hash): Option<Word> {
    if mem == [] then None
    else if mem[0].SlotWrite(k, slot).Some? then mem[0].SlotWrite(k, slot)
    else FirstSlotWrite(mem[1..], k, slot)
  }

  /** The states of several blocks, oldest first, merged into one. */
  function Merged(states: seq<HashedPostState>): HashedPostState {
    if states == [] then EMPTY else Merged(states[..|states| - 1]).Extend(states[|states| - 1])
  }

  /**
   Merging oldest to newest answers every account and slot as searching newest to oldest does.
   `mem` is newest first.
   */
  lemma {:induction false} MergedIsFirst(mem: seq<HashedPostState>, k: Hash, slot: Hash)
    ensures Merged(Reversed(mem)).AccountWrite(k) == FirstAccountWrite(mem, k)
    ensures Merged(Reversed(mem)).SlotWrite(k, slot) == FirstSlotWrite(mem, k, slot)
  {
    if mem != [] {
      assert Reversed(mem) == Reversed(mem[1..]) + [mem[0]];
      MergedIsFirst(mem[1..], k, slot);
      ExtendReads(Merged(Reversed(mem[1..])), mem[0], k, slot);
      assert Reversed(mem)[..|mem| - 1] == Reversed(mem[1..]);
    }
  }

  /** Merges the in-memory blocks' states in reverse, as `mem` is newest first. */
  method TrieInput(mem: seq<HashedPostState>) returns (state: HashedPostState)
    ensures state == Merged(Reversed(mem))
    ensures forall k :: state.AccountWrite(k) == FirstAccountWrite(mem, k)
    ensures forall k, slot :: state.SlotWrite(k, slot) == FirstSlotWrite(mem, k, slot)
  {
    state := EMPTY;
    var i := |mem|;
    while i > 0
      invariant 0 <= i <= |mem| && state == Merged(Reversed(mem[i..]))
    {
      i := i - 1;
      assert Reversed(mem[i..])[..|mem| - i - 1] == Reversed(mem[i + 1..]);
      state := state.Extend(mem[i]);
    }
    assert mem[0..] == mem;
    forall k ensures state.AccountWrite(k) == FirstAccountWrite(mem, k) {
      MergedIsFirst(mem, k, 0);
    }
    forall k, slot ensures state.SlotWrite(k, slot) == FirstSlotWrite(mem, k, slot) {
      MergedIsFirst(mem, k, slot);
    }
  }

  // ---------------------------------------------------------------------------------------
  // Post state of a bundle
  // ---------------------------------------------------------------------------------------

  datatype BundleStatus = BundleStatus(wasDestroyed: bool, hadOriginal: bool)

  /** Hashed addresses of the accounts that existed before the bundle and were destroyed in it. */
  ghost function Destroyed(bundle: map<Address, BundleStatus>, keccak: Address -> Hash): set<Hash> {
    set a | a in bundle && bundle[a].wasDestroyed && bundle[a].hadOriginal :: keccak(a)
  }

  /** Adds a zero for every key that has no entry. */
  method ZeroFill(storage: map<Hash, Word>, keys: set<Hash>) returns (r: map<Hash, Word>)
    ensures r.Keys == storage.Keys + keys
    ensures forall k :: k in r ==> r[k] == if k in storage then storage[k] else 0
  {
    r := storage;
    var rest := keys;
    while rest != {}
      invariant rest <= keys && r.Keys == storage.Keys + (keys - rest)
      invariant forall k :: k in r ==> r[k] == if k in storage then storage[k] else 0
    {
      var k :| k in rest;
      rest := rest - {k};
      if k !in r { r := r[k := 0]; }
    }
  }

  /**
   The hashed post state says what the database's own post state `base` says, except that every
   slot an in-memory ancestor holds for a destroyed account is zero: laid over the ancestors, no
   value of theirs survives for such an account, and all other accounts are unaffected.
   */
  ghost predicate ZeroesAncestors(r: HashedPostState, base: HashedPostState, parent: HashedPostState, gone: set<Hash>) {
    && r.accounts == base.accounts
    && forall k, slot :: r.SlotWrite(k, slot) ==
         if base.SlotWrite(k, slot).Some? then base.SlotWrite(k, slot)
         else if k in gone && k in parent.storages && slot in parent.storages[k].storage then Some(0)
         else None
  }

  method FillAccount(r: HashedPostState, k: Hash, ghost base: HashedPostState, parent: HashedPostState, ghost gone: set<Hash>)
    returns (r': HashedPostState)
    requires ZeroesAncestors(r, base, parent, gone)
    ensures ZeroesAncestors(r', base, parent, gone + {k})
  {
    if k !in parent.storages {
      return r;
    }
    var entry := if k in r.storages then r.storages[k] else HashedStorage(false, map[]);
    var filled := ZeroFill(entry.storage, parent.storages[k].storage.Keys);
    r' := r.(storages := r.storages[k := HashedStorage(entry.wiped, filled)]);
    forall j, slot ensures r'.SlotWrite(j, slot) ==
        if base.SlotWrite(j, slot).Some? then base.SlotWrite(j, slot)
        else if j in gone + {k} && j in parent.storages && slot in parent.storages[j].storage then Some(0)
        else None
    {
      assert r.SlotWrite(j, slot) == if base.SlotWrite(j, slot).Some? then base.SlotWrite(j, slot)
                                     else if j in gone && j in parent.storages && slot in parent.storages[j].storage then Some(0)
                                     else None;
    }
  }

  method HashedPostStateOf(bundle: map<Address, BundleStatus>, base: HashedPostState, parent: HashedPostState, keccak: Address -> Hash)
    returns (r: HashedPostState)
    ensures ZeroesAncestors(r, base, parent, Destroyed(bundle, keccak))
  {
    r := base;
    ghost var gone: set<Hash> := {};
    var rest := bundle.Keys;
    while rest != {}
      invariant rest <= bundle.Keys
      invariant ZeroesAncestors(r, base, parent, gone)
      invariant gone == set a | a in bundle.Keys - rest && bundle[a].wasDestroyed && bundle[a].hadOriginal :: keccak(a)
    {
      var a :| a in rest;
      rest := rest - {a};
      if bundle[a].wasDestroyed && bundle[a].hadOriginal {
        r := FillAccount(r, keccak(a), base, parent, gone);
        gone := gone + {keccak(a)};
      }
    }
    assert gone == Destroyed(bundle, keccak);
  }

  /** Laid over the ancestors, nothing of theirs is left of a destroyed account's storage. */
  lemma {:induction false} NoStaleSlot(r: HashedPostState, base: HashedPostState, parent: HashedPostState,
                           gone: set<Hash>, k: Hash, slot: Hash)
    requires ZeroesAncestors(r, base, parent, gone)
    ensures parent.Extend(r).SlotWrite(k, slot) ==
              if base.SlotWrite(k, slot).Some? then base.SlotWrite(k, slot)
              else if k in gone && parent.SlotWrite(k, slot).Some? then Some(0)
              else parent.SlotWrite(k, slot)
  {
    ExtendReads(parent, r, k, slot);
  }

  // ---------------------------------------------------------------------------------------
  // The merged state against the plain readers
  // ---------------------------------------------------------------------------------------

  /** An executed block with the post state computed for it: `base` by the database, `state` over memory. */
  datatype HashedBlock = HashedBlock(
    block: ExecutedBlock, status: map<Address, BundleStatus>, base: HashedPostState, state: HashedPostState)

  function BlocksOf(blocks: seq<HashedBlock>): seq<ExecutedBlock> {
    seq(|blocks|, i requires 0 <= i < |blocks| => blocks[i].block)
  }

  function StatesOf(blocks: seq<HashedBlock>): seq<HashedPostState> {
    seq(|blocks|, i requires 0 <= i < |blocks| => blocks[i].state)
  }

  ghost predicate Injective(keccak: nat -> Hash) {
    forall x, y :: keccak(x) == keccak(y) ==> x == y
  }

  predicate Gone(status: map<Address, BundleStatus>, a: Address) {
    a in status && status[a].wasDestroyed && status[a].hadOriginal
  }

  /** What the database's own post state says: the bundle's slots, and zero for its own slots of destroyed accounts. */
  function BaseWrite(b: HashedBlock, db: Database, a: Address, slot: Slot): Option<Word> {
    var o := b.block.output;
    if a in o.state && slot in o.state[a].storage then Some(o.state[a].storage[slot])
    else if Gone(b.status, a) && db.Storage(a, slot).Some? then Some(0)
    else None
  }

  /** The state of block `i` was computed over the blocks before it. */
  ghost predicate HashedOver(blocks: seq<HashedBlock>, i: nat, db: Database, keccak: nat -> Hash)
    requires i < |blocks|
  {
    var b := blocks[i];
    && (forall a :: b.base.AccountWrite(keccak(a)) == b.block.output.Account(a))
    && (forall a, slot :: b.base.SlotWrite(keccak(a), keccak(slot)) == BaseWrite(b, db, a, slot))
    && ZeroesAncestors(b.state, b.base, Merged(StatesOf(blocks[..i])), Destroyed(b.status, keccak))
  }

  /**
   A destroyed account's whole storage is known. So is a new account's, and nothing was stored
   for it before.
   */
  ghost predicate StatusFits(blocks: seq<HashedBlock>, i: nat, db: Database)
    requires i < |blocks|
  {
    var o, status := blocks[i].block.output, blocks[i].status;
    && (forall a :: Gone(status, a) ==> a in o.state && o.state[a].storageKnown)
    && (forall a, slot :: a in o.state && o.state[a].storageKnown && !Gone(status, a) && slot !in o.state[a].storage ==>
          Overlay.Storage(Reversed(BlocksOf(blocks[..i])), db, a, slot).GetOr(0) == 0)
  }

  ghost predicate AllHashed(blocks: seq<HashedBlock>, db: Database, keccak: nat -> Hash) {
    forall i {:trigger HashedOver(blocks, i, db, keccak)} :: 0 <= i < |blocks| ==>
      HashedOver(blocks, i, db, keccak) && StatusFits(blocks, i, db)
  }

  lemma {:induction false} AllHashedInit(blocks: seq<HashedBlock>, db: Database, keccak: nat -> Hash)
    requires AllHashed(blocks, db, keccak) && blocks != []
    ensures AllHashed(blocks[..|blocks| - 1], db, keccak)
  {
    var init := blocks[..|blocks| - 1];
    forall i | 0 <= i < |init| ensures HashedOver(init, i, db, keccak) && StatusFits(init, i, db) {
      assert HashedOver(blocks, i, db, keccak) && StatusFits(blocks, i, db);
      assert init[..i] == blocks[..i];
    }
  }

  lemma {:induction false} DestroyedIsGone(status: map<Address, BundleStatus>, keccak: nat -> Hash, a: Address)
    requires Injective(keccak)
    ensures keccak(a) in Destroyed(status, keccak) <==> Gone(status, a)
  {
  }

  /** One more block: its own answer if it has one, and zero for what it destroys. */
  lemma {:induction false} LastSlotWrite(blocks: seq<HashedBlock>, db: Database, keccak: nat -> Hash, a: Address, slot: Slot)
    requires Injective(keccak) && blocks != [] && HashedOver(blocks, |blocks| - 1, db, keccak)
    ensures var b, parent := blocks[|blocks| - 1], Merged(StatesOf(blocks[..|blocks| - 1]));
            var before, after := parent.SlotWrite(keccak(a), keccak(slot)), Merged(StatesOf(blocks)).SlotWrite(keccak(a), keccak(slot));
            var plain := db.Storage(a, slot).GetOr(0);
            if BaseWrite(b, db, a, slot).Some? then after == BaseWrite(b, db, a, slot)
            else if Gone(b.status, a) then after.GetOr(plain) == 0 else after == before
  {
    var n := |blocks| - 1;
    var b, parent := blocks[n], Merged(StatesOf(blocks[..n]));
    assert StatesOf(blocks)[..n] == StatesOf(blocks[..n]);
    NoStaleSlot(b.state, b.base, parent, Destroyed(b.status, keccak), keccak(a), keccak(slot));
    DestroyedIsGone(b.status, keccak, a);
    assert b.base.SlotWrite(keccak(a), keccak(slot)) == BaseWrite(b, db, a, slot);
  }

  /** What the plain overlay says about one more block. */
  lemma {:induction false} LastOverlayWrite(blocks: seq<HashedBlock>, db: Database, a: Address, slot: Slot)
    requires blocks != []
    ensures var n := |blocks| - 1;
            Overlay.Storage(Reversed(BlocksOf(blocks)), db, a, slot) ==
              (match blocks[n].block.output.Storage(a, slot)
               case Some(v) => Some(v)
               case None => Overlay.Storage(Reversed(BlocksOf(blocks[..n])), db, a, slot))
  {
    var n := |blocks| - 1;
    assert Reversed(BlocksOf(blocks))[1..] == Reversed(BlocksOf(blocks[..n]));
  }

  /**
   The merged hashed state, laid over the database, answers every slot as the plain overlay does,
   destroyed and re-created accounts included.
   */
  lemma {:induction false} TrieInputReadsStorage(blocks: seq<HashedBlock>, db: Database, keccak: nat -> Hash, a: Address, slot: Slot)
    requires Injective(keccak) && AllHashed(blocks, db, keccak)
    ensures Merged(StatesOf(blocks)).SlotWrite(keccak(a), keccak(slot)).GetOr(db.Storage(a, slot).GetOr(0))
         == Overlay.Storage(Reversed(BlocksOf(blocks)), db, a, slot).GetOr(0)
  {
    if blocks != [] {
      var n := |blocks| - 1;
      assert HashedOver(blocks, n, db, keccak) && StatusFits(blocks, n, db);
      AllHashedInit(blocks, db, keccak);
      TrieInputReadsStorage(blocks[..n], db, keccak, a, slot);
      LastSlotWrite(blocks, db, keccak, a, slot);
      LastOverlayWrite(blocks, db, a, slot);
    }
  }

  /** The same for accounts. */
  lemma {:induction false} TrieInputReadsAccount(blocks: seq<HashedBlock>, db: Database, keccak: nat -> Hash, a: Address)
    requires AllHashed(blocks, db, keccak)
    ensures Merged(StatesOf(blocks)).AccountWrite(keccak(a)).GetOr(db.BasicAccount(a))
         == Overlay.BasicAccount(Reversed(BlocksOf(blocks)), db, a)
  {
    if blocks != [] {
      var n := |blocks| - 1;
      assert HashedOver(blocks, n, db, keccak);
      AllHashedInit(blocks, db, keccak);
      TrieInputReadsAccount(blocks[..n], db, keccak, a);
      assert StatesOf(blocks)[..n] == StatesOf(blocks[..n]);
      ExtendReads(Merged(StatesOf(blocks[..n])), blocks[n].state, keccak(a), 0);
      assert Reversed(BlocksOf(blocks))[1..] == Reversed(BlocksOf(blocks[..n]));
    }
  }
}
