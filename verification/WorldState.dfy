/**
 * The revertible world state: accounts, code and storage on top of a committed database, with
 * storage barriers for deleted accounts and staging of all changes into a new database version.
 */
module WorldState {
  import opened Wrappers
  import opened StackedMaps

  type Slot = nat
  type Bytes = seq<nat>
  type Hash = nat

  // ---------- The committed database ----------

  datatype Version = Version(major: nat, minor: nat)

  /** Name of a storage trie: the version that created it and a counter within that version. */
  datatype StorageId = StorageId(version: Version, index: nat)

  datatype Account = Account(
    balance: nat, energy: nat, blockTime: nat, master: Option<Address>, codeHash: Option<Hash>, storageRoot: Option<Hash>)

  predicate IsEmpty(a: Account) {
    a.balance == 0 && a.energy == 0 && a.master.None? && a.codeHash.None?
  }

  const EMPTY_ACCOUNT := Account(0, 0, 0, None, None, None)

  datatype Metadata = Metadata(storageId: Option<StorageId>, version: Version)

  const EMPTY_METADATA := Metadata(None, Version(0, 0))

  /** Contents of a storage trie; empty values are never stored. */
  type Storage = map<Slot, Bytes>

  datatype Record = Record(account: Account, metadata: Metadata)

  /** The accounts at one version, all storage tries by name and version, and all code by hash. */
  datatype Database = Database(
    accounts: map<Address, Record>,
    storages: map<(StorageId, Version), Storage>,
    codes: map<Hash, Bytes>)

  /** Hash functions, assumed free of collisions where it matters. */
  datatype Hashes = Hashes(code: Bytes -> Hash, storage: Storage -> Hash)

  function LoadRecord(db: Database, addr: Address): Record {
    if addr in db.accounts then db.accounts[addr] else Record(EMPTY_ACCOUNT, EMPTY_METADATA)
  }

  /** The storage trie that an account refers to; empty if the account has no storage root. */
  function OpenStorage(db: Database, account: Account, metadata: Metadata): Storage {
    if account.storageRoot.Some? && metadata.storageId.Some? && (metadata.storageId.value, metadata.version) in db.storages
    then db.storages[(metadata.storageId.value, metadata.version)] else map[]
  }

  function ReadSlot(s: Storage, slot: Slot): Bytes {
    if slot in s then s[slot] else []
  }

  function LoadSlot(db: Database, addr: Address, slot: Slot): Bytes {
    var r := LoadRecord(db, addr);
    ReadSlot(OpenStorage(db, r.account, r.metadata), slot)
  }

  function LoadCode(db: Database, addr: Address): Bytes {
    var h := LoadRecord(db, addr).account.codeHash;
    if h.Some? && h.value in db.codes then db.codes[h.value] else []
  }

  ghost predicate InjectiveCodeHash(hs: Hashes) {
    forall x, y :: hs.code(x) == hs.code(y) ==> x == y
  }

  ghost predicate RecordSound(db: Database, hs: Hashes, addr: Address)
    requires addr in db.accounts
  {
    var r := db.accounts[addr];
    && !IsEmpty(r.account)
    && (r.account.storageRoot.None? ==> r.metadata == EMPTY_METADATA)
    && (r.account.storageRoot.Some? ==> r.metadata.storageId.Some? && (r.metadata.storageId.value, r.metadata.version) in db.storages)
    && (r.account.codeHash.Some? ==>
          r.account.codeHash.value in db.codes && db.codes[r.account.codeHash.value] != []
          && hs.code(db.codes[r.account.codeHash.value]) == r.account.codeHash.value)
  }

  /** No two accounts share a storage trie. */
  ghost predicate OwnStorage(db: Database) {
    forall a, b :: a in db.accounts && b in db.accounts && a != b && db.accounts[a].metadata.storageId.Some? ==>
      db.accounts[a].metadata.storageId != db.accounts[b].metadata.storageId
  }

  ghost predicate Sound(db: Database, hs: Hashes) {
    && (forall addr {:trigger RecordSound(db, hs, addr)} :: addr in db.accounts ==> RecordSound(db, hs, addr))
    && OwnStorage(db)
    && InjectiveCodeHash(hs)
  }

  /** Nothing in the database was created at this version. */
  ghost predicate FreshVersion(db: Database, v: Version) {
    && (forall id, w :: (id, w) in db.storages ==> w != v)
    && (forall addr :: addr in db.accounts && db.accounts[addr].metadata.storageId.Some? ==>
          db.accounts[addr].metadata.storageId.value.version != v)
  }

  // ---------- Keys and values of the revertible map ----------

  datatype Key =
    | AccountKey(addr: Address)
    | CodeKey(addr: Address)
    | StorageKey(addr: Address, barrier: nat, slot: Slot)
    | BarrierKey(addr: Address)

  datatype Value = AccountValue(account: Account) | CodeValue(code: Bytes) | StorageValue(raw: Bytes) | BarrierValue(barrier: nat)

  type Change = Entry<Key, Value>

  predicate WellKinded(e: Change) {
    match e.key
    case AccountKey(_) => e.value.AccountValue?
    case CodeKey(_) => e.value.CodeValue?
    case StorageKey(_, _, _) => e.value.StorageValue?
    case BarrierKey(_) => e.value.BarrierValue?
  }

  /** What is read for a key that was not changed. */
  function Source(db: Database): Key -> Lookup<Value> {
    (key: Key) =>
      match key
      case AccountKey(addr) => Found(AccountValue(LoadRecord(db, addr).account))
      case CodeKey(addr) => Found(CodeValue(LoadCode(db, addr)))
      case StorageKey(addr, barrier, slot) => Found(StorageValue(if barrier != 0 then [] else LoadSlot(db, addr, slot)))
      case BarrierKey(_) => Found(BarrierValue(0))
  }

  // ---------- What a journal means ----------

  function AccountOf(db: Database, j: seq<Change>, addr: Address): Account {
    if j == [] then LoadRecord(db, addr).account
    else if j[|j| - 1].key == AccountKey(addr) && j[|j| - 1].value.AccountValue? then j[|j| - 1].value.account
    else AccountOf(db, j[..|j| - 1], addr)
  }

  function CodeOf(db: Database, j: seq<Change>, addr: Address): Bytes {
    if j == [] then LoadCode(db, addr)
    else if j[|j| - 1].key == CodeKey(addr) && j[|j| - 1].value.CodeValue? then j[|j| - 1].value.code
    else CodeOf(db, j[..|j| - 1], addr)
  }

  /** How often the account was deleted. */
  function Deletions(j: seq<Change>, addr: Address): nat {
    if j == [] then 0 else Deletions(j[..|j| - 1], addr) + if j[|j| - 1].key == BarrierKey(addr) then 1 else 0
  }

  /** The slots written since the account was last deleted. */
  function Written(j: seq<Change>, addr: Address): Storage {
    if j == [] then map[]
    else
      var e := j[|j| - 1];
      if e.key == BarrierKey(addr) then map[]
      else if e.key.StorageKey? && e.key.addr == addr && e.value.StorageValue? then Written(j[..|j| - 1], addr)[e.key.slot := e.value.raw]
      else Written(j[..|j| - 1], addr)
  }

  function SlotOf(db: Database, j: seq<Change>, addr: Address, slot: Slot): Bytes {
    if slot in Written(j, addr) then Written(j, addr)[slot]
    else if Deletions(j, addr) > 0 then []
    else LoadSlot(db, addr, slot)
  }

  /** Every change is of the right kind, and carries the number of earlier deletions of its account as barrier. */
  ghost predicate Ordered(j: seq<Change>)
  {
    j != [] ==>
      var e := j[|j| - 1];
      var before := j[..|j| - 1];
      && Ordered(before) && WellKinded(e)
      && (e.key.StorageKey? ==> e.key.barrier == Deletions(before, e.key.addr))
      && (e.key.BarrierKey? ==> e.value.barrier == Deletions(before, e.key.addr) + 1)
  }

  lemma {:induction false} ReadAccount(db: Database, j: seq<Change>, addr: Address)
    requires Ordered(j)
    ensures Read(Source(db), j, AccountKey(addr)) == Found(AccountValue(AccountOf(db, j, addr)))
  {
    if j != [] {
      ReadAccount(db, j[..|j| - 1], addr);
    }
  }

  lemma {:induction false} ReadCode(db: Database, j: seq<Change>, addr: Address)
    requires Ordered(j)
    ensures Read(Source(db), j, CodeKey(addr)) == Found(CodeValue(CodeOf(db, j, addr)))
  {
    if j != [] {
      ReadCode(db, j[..|j| - 1], addr);
    }
  }

  /** The barrier of an account is the number of its deletions. */
  lemma {:induction false} ReadBarrier(db: Database, j: seq<Change>, addr: Address)
    requires Ordered(j)
    ensures Read(Source(db), j, BarrierKey(addr)) == Found(BarrierValue(Deletions(j, addr)))
  {
    if j != [] {
      ReadBarrier(db, j[..|j| - 1], addr);
    }
  }

  /** Under a barrier that is yet to come nothing was written. */
  lemma {:induction false} ReadFuture(db: Database, j: seq<Change>, addr: Address, barrier: nat, slot: Slot)
    requires Ordered(j) && barrier > Deletions(j, addr)
    ensures Read(Source(db), j, StorageKey(addr, barrier, slot)) == Found(StorageValue([]))
  {
    if j != [] {
      ReadFuture(db, j[..|j| - 1], addr, barrier, slot);
    }
  }

  /** Reading storage under the current barrier sees exactly what was written since the last deletion. */
  lemma {:induction false} ReadStorage(db: Database, j: seq<Change>, addr: Address, slot: Slot)
    requires Ordered(j)
    ensures Read(Source(db), j, StorageKey(addr, Deletions(j, addr), slot)) == Found(StorageValue(SlotOf(db, j, addr, slot)))
  {
    if j != [] {
      var before := j[..|j| - 1];
      if j[|j| - 1].key == BarrierKey(addr) {
        ReadFuture(db, before, addr, Deletions(j, addr), slot);
      } else {
        ReadStorage(db, before, addr, slot);
      }
    }
  }
}
