/**
 * Staging: the journal of a world state is replayed into changed accounts, new code and storage
 * tries, and committed as a new version of the database. Reopening that version shows what was
 * readable before.
 */
module WorldStaging {
  import opened Wrappers
  import opened WorldState

  // ---------- Journals between two operations ----------

  function HashOfCode(hs: Hashes, code: Bytes): Option<Hash> {
    if code == [] then None else Some(hs.code(code))
  }

  /** The account names its code, and has lost its stored storage exactly if it was deleted. */
  ghost predicate Coherent(db: Database, hs: Hashes, j: seq<Change>, addr: Address) {
    && AccountOf(db, j, addr).codeHash == HashOfCode(hs, CodeOf(db, j, addr))
    && AccountOf(db, j, addr).storageRoot == if Deletions(j, addr) > 0 then None else LoadRecord(db, addr).account.storageRoot
  }

  ghost predicate JournalSound(db: Database, hs: Hashes, j: seq<Change>) {
    && Ordered(j)
    && (forall addr {:trigger Coherent(db, hs, j, addr)} :: Coherent(db, hs, j, addr))
  }

  // ---------- Replaying the journal ----------

  /** An account touched by the journal; `base` is its storage trie if that is already open. */
  datatype Changed = Changed(account: Account, metadata: Metadata, storage: Storage, base: Option<Storage>)

  datatype Staging = Staging(changes: map<Address, Changed>, codes: map<Hash, Bytes>, created: nat)

  /** What a staging starts from: the database, the new version and the storage tries open already. */
  datatype Setup = Setup(db: Database, hs: Hashes, version: Version, open: set<Address>)

  function GetChanged(u: Setup, s: Staging, addr: Address): Changed {
    if addr in s.changes then s.changes[addr]
    else
      var r := LoadRecord(u.db, addr);
      var base := if addr in u.open && r.account.storageRoot.Some? then Some(OpenStorage(u.db, r.account, r.metadata)) else None;
      Changed(r.account, r.metadata, map[], base)
  }

  function Step(u: Setup, s: Staging, e: Change): Staging
    requires WellKinded(e)
  {
    match e.key
    case AccountKey(addr) => s.(changes := s.changes[addr := GetChanged(u, s, addr).(account := e.value.account)])
    case CodeKey(_) => if e.value.code == [] then s else s.(codes := s.codes[u.hs.code(e.value.code) := e.value.code])
    case StorageKey(addr, _, slot) =>
      var c := GetChanged(u, s, addr);
      var c' := c.(storage := c.storage[slot := e.value.raw]);
      if c.metadata.storageId.None? then
        var id := StorageId(u.version, s.created);
        s.(changes := s.changes[addr := c'.(metadata := c.metadata.(storageId := Some(id)))], created := s.created + 1)
      else s.(changes := s.changes[addr := c'])
    case BarrierKey(addr) =>
      s.(changes := s.changes[addr := GetChanged(u, s, addr).(storage := map[], base := None, metadata := EMPTY_METADATA)])
  }

  function Replay(u: Setup, j: seq<Change>): Staging
    requires forall i :: 0 <= i < |j| ==> WellKinded(j[i])
  {
    if j == [] then Staging(map[], map[], 0) else Step(u, Replay(u, j[..|j| - 1]), j[|j| - 1])
  }

  lemma {:induction false} OrderedKinds(j: seq<Change>)
    requires Ordered(j)
    ensures forall i :: 0 <= i < |j| ==> WellKinded(j[i])
  {
    if j != [] {
      OrderedKinds(j[..|j| - 1]);
      forall i | 0 <= i < |j| ensures WellKinded(j[i]) {
        assert i < |j| - 1 ==> j[..|j| - 1][i] == j[i];
      }
    }
  }

  /** The storage of the account still is the one in the database, under its old name. */
  predicate KeepsName(db: Database, j: seq<Change>, addr: Address) {
    Deletions(j, addr) == 0 && LoadRecord(db, addr).metadata.storageId.Some?
  }

  ghost predicate NamedAs(u: Setup, s: Staging, metadata: Metadata) {
    && metadata.storageId.Some? && metadata.storageId.value.version == u.version && metadata.storageId.value.index < s.created
    && metadata.version == EMPTY_METADATA.version
  }

  /** The stored storage of the account, which is still in use. */
  ghost predicate IsBase(db: Database, j: seq<Change>, addr: Address, base: Storage) {
    var r := LoadRecord(db, addr);
    Deletions(j, addr) == 0 && r.account.storageRoot.Some? && base == OpenStorage(db, r.account, r.metadata)
  }

  /** What the replay knows of an account is what the journal means. */
  ghost predicate Mirrors(u: Setup, j: seq<Change>, s: Staging, addr: Address) {
    var c := GetChanged(u, s, addr);
    && c.account == AccountOf(u.db, j, addr)
    && c.storage == Written(j, addr)
    && (if KeepsName(u.db, j, addr) then c.metadata == LoadRecord(u.db, addr).metadata
        else if Written(j, addr) == map[] then c.metadata == EMPTY_METADATA
        else NamedAs(u, s, c.metadata))
    && (c.base.Some? ==> IsBase(u.db, j, addr, c.base.value))
    && (addr !in s.changes ==> Deletions(j, addr) == 0)
  }

  lemma {:induction false} UnnamedIsEmpty(u: Setup, addr: Address)
    requires Sound(u.db, u.hs) && LoadRecord(u.db, addr).metadata.storageId.None?
    ensures LoadRecord(u.db, addr).metadata == EMPTY_METADATA
  {
    if addr in u.db.accounts {
      assert RecordSound(u.db, u.hs, addr);
    }
  }

  /** A change of another account, or of code, leaves the account as it is. */
  lemma {:induction false} MirrorElsewhere(u: Setup, j: seq<Change>, s: Staging, e: Change, addr: Address)
    requires WellKinded(e) && Mirrors(u, j, s, addr) && (e.key.CodeKey? || e.key.addr != addr)
    ensures Mirrors(u, j + [e], Step(u, s, e), addr)
  {
    assert (j + [e])[..|j|] == j;
    assert GetChanged(u, Step(u, s, e), addr) == GetChanged(u, s, addr);
  }

  lemma {:induction false} MirrorStorage(u: Setup, j: seq<Change>, s: Staging, e: Change, addr: Address)
    requires Sound(u.db, u.hs) && WellKinded(e) && Mirrors(u, j, s, addr) && e.key.StorageKey? && e.key.addr == addr
    ensures Mirrors(u, j + [e], Step(u, s, e), addr)
  {
    assert (j + [e])[..|j|] == j;
    assert e.key.slot in Written(j + [e], addr);
    if LoadRecord(u.db, addr).metadata.storageId.None? {
      UnnamedIsEmpty(u, addr);
    }
  }

  lemma {:induction false} MirrorStep(u: Setup, j: seq<Change>, s: Staging, e: Change, addr: Address)
    requires Sound(u.db, u.hs) && WellKinded(e) && Mirrors(u, j, s, addr)
    ensures Mirrors(u, j + [e], Step(u, s, e), addr)
  {
    if e.key.CodeKey? || e.key.addr != addr {
      MirrorElsewhere(u, j, s, e, addr);
    } else if e.key.StorageKey? {
      MirrorStorage(u, j, s, e, addr);
    } else {
      assert (j + [e])[..|j|] == j;
    }
  }

  lemma {:induction false} ReplayMirrors(u: Setup, j: seq<Change>, addr: Address)
    requires Sound(u.db, u.hs) && (forall i :: 0 <= i < |j| ==> WellKinded(j[i]))
    ensures Mirrors(u, j, Replay(u, j), addr)
  {
    if j == [] {
      if LoadRecord(u.db, addr).metadata.storageId.None? {
        UnnamedIsEmpty(u, addr);
      }
    } else {
      var before := j[..|j| - 1];
      ReplayMirrors(u, before, addr);
      MirrorStep(u, before, Replay(u, before), j[|j| - 1], addr);
      assert before + [j[|j| - 1]] == j;
    }
  }

  // ---------- Names of new storage tries ----------

  ghost predicate IsNewName(u: Setup, s: Staging, addr: Address) {
    addr in s.changes && s.changes[addr].metadata.storageId.Some? && s.changes[addr].metadata.storageId.value.version == u.version
  }

  /** Names given out in this staging are told apart by the counter. */
  ghost predicate FreshNames(u: Setup, s: Staging) {
    && (forall a :: IsNewName(u, s, a) ==> s.changes[a].metadata.storageId.value.index < s.created)
    && (forall a, b :: IsNewName(u, s, a) && IsNewName(u, s, b) && a != b ==>
          s.changes[a].metadata.storageId != s.changes[b].metadata.storageId)
  }

  lemma {:induction false} NamesStep(u: Setup, s: Staging, e: Change)
    requires FreshVersion(u.db, u.version) && WellKinded(e) && FreshNames(u, s)
    ensures FreshNames(u, Step(u, s, e))
  {
    var s' := Step(u, s, e);
    forall a | IsNewName(u, s', a) && !IsNewName(u, s, a)
      ensures e.key.StorageKey? && a == e.key.addr && s'.created == s.created + 1
      ensures s'.changes[a].metadata.storageId == Some(StorageId(u.version, s.created))
    {
    }
  }

  lemma {:induction false} ReplayNames(u: Setup, j: seq<Change>)
    requires FreshVersion(u.db, u.version) && (forall i :: 0 <= i < |j| ==> WellKinded(j[i]))
    ensures FreshNames(u, Replay(u, j))
  {
    if j != [] {
      var before := j[..|j| - 1];
      ReplayNames(u, before);
      NamesStep(u, Replay(u, before), j[|j| - 1]);
    }
  }

  // ---------- New code ----------

  ghost predicate CodesHashed(u: Setup, s: Staging) {
    forall h :: h in s.codes ==> s.codes[h] != [] && u.hs.code(s.codes[h]) == h
  }

  ghost predicate CodeKnown(u: Setup, s: Staging, code: Bytes) {
    code != [] ==> u.hs.code(code) in s.codes && s.codes[u.hs.code(code)] == code
  }

  /** Code that is not in the database already is staged under its hash. */
  lemma {:induction false} ReplayCodes(u: Setup, j: seq<Change>, addr: Address)
    requires InjectiveCodeHash(u.hs) && (forall i :: 0 <= i < |j| ==> WellKinded(j[i]))
    ensures CodesHashed(u, Replay(u, j))
    ensures CodeOf(u.db, j, addr) == LoadCode(u.db, addr) || CodeKnown(u, Replay(u, j), CodeOf(u.db, j, addr))
  {
    if j != [] {
      ReplayCodes(u, j[..|j| - 1], addr);
    }
  }

  // ---------- Committing ----------

  /** The trie after saving the writes; saving an empty value deletes the slot. */
  function Merge(base: Storage, writes: Storage): Storage {
    map slot | slot in base.Keys + writes.Keys && (if slot in writes then writes[slot] else base[slot]) != [] ::
      if slot in writes then writes[slot] else base[slot]
  }

  predicate WritesStorage(c: Changed) {
    !IsEmpty(c.account) && c.storage != map[]
  }

  function NewStorage(u: Setup, c: Changed): Storage {
    Merge(if c.base.Some? then c.base.value else OpenStorage(u.db, c.account, c.metadata), c.storage)
  }

  /** The record that is saved for a changed account that is not empty. */
  function Saved(u: Setup, c: Changed): Record {
    if WritesStorage(c) then
      Record(c.account.(storageRoot := Some(u.hs.storage(NewStorage(u, c)))), c.metadata.(version := u.version))
    else
      Record(c.account, if c.account.storageRoot.None? then EMPTY_METADATA else c.metadata)
  }

  ghost predicate AccountCommitted(u: Setup, s: Staging, accounts: map<Address, Record>, addr: Address) {
    if addr in s.changes then
      if IsEmpty(s.changes[addr].account) then addr !in accounts
      else addr in accounts && accounts[addr] == Saved(u, s.changes[addr])
    else if addr in u.db.accounts then addr in accounts && accounts[addr] == u.db.accounts[addr]
    else addr !in accounts
  }

  ghost predicate StorageCommitted(u: Setup, s: Staging, storages: map<(StorageId, Version), Storage>, addr: Address) {
    addr in s.changes && WritesStorage(s.changes[addr]) && s.changes[addr].metadata.storageId.Some? ==>
      var key := (s.changes[addr].metadata.storageId.value, u.version);
      key in storages && storages[key] == NewStorage(u, s.changes[addr])
  }

  ghost predicate NoEmptyValue(s: Storage) {
    forall slot :: slot in s ==> s[slot] != []
  }

  /** All older storage tries are still there, and the others belong to the new version and hold no empty value. */
  ghost predicate StoragesGrow(u: Setup, storages: map<(StorageId, Version), Storage>) {
    && (forall key :: key in u.db.storages ==> key in storages && storages[key] == u.db.storages[key])
    && (forall key :: key in storages ==> key in u.db.storages || (key.1 == u.version && NoEmptyValue(storages[key])))
  }

  ghost predicate Committed(u: Setup, s: Staging, db: Database) {
    && (forall addr {:trigger AccountCommitted(u, s, db.accounts, addr)} :: AccountCommitted(u, s, db.accounts, addr))
    && (forall addr {:trigger StorageCommitted(u, s, db.storages, addr)} :: StorageCommitted(u, s, db.storages, addr))
    && StoragesGrow(u, db.storages)
    && db.codes == u.db.codes + s.codes
  }

  lemma {:induction false} MergeReads(base: Storage, writes: Storage, slot: Slot)
    ensures ReadSlot(Merge(base, writes), slot) == if slot in writes then writes[slot] else ReadSlot(base, slot)
  {
  }

  /** Staged storage: the writes since the last deletion, over the stored storage unless it was deleted. */
  lemma {:induction false} NewStorageReads(u: Setup, j: seq<Change>, s: Staging, addr: Address, slot: Slot)
    requires Sound(u.db, u.hs) && Coherent(u.db, u.hs, j, addr) && Mirrors(u, j, s, addr)
    ensures ReadSlot(NewStorage(u, GetChanged(u, s, addr)), slot) == SlotOf(u.db, j, addr, slot)
  {
    var c := GetChanged(u, s, addr);
    MergeReads(if c.base.Some? then c.base.value else OpenStorage(u.db, c.account, c.metadata), c.storage, slot);
    if addr in u.db.accounts {
      assert RecordSound(u.db, u.hs, addr);
    }
  }

  lemma {:induction false} ReopenedSlot(u: Setup, j: seq<Change>, s: Staging, db: Database, addr: Address, slot: Slot)
    requires Sound(u.db, u.hs) && Coherent(u.db, u.hs, j, addr) && Mirrors(u, j, s, addr)
    requires Committed(u, s, db) && !IsEmpty(AccountOf(u.db, j, addr))
    ensures LoadSlot(db, addr, slot) == SlotOf(u.db, j, addr, slot)
  {
    assert AccountCommitted(u, s, db.accounts, addr) && StorageCommitted(u, s, db.storages, addr);
    if addr in u.db.accounts {
      assert RecordSound(u.db, u.hs, addr);
    }
    if addr in s.changes && WritesStorage(s.changes[addr]) {
      NewStorageReads(u, j, s, addr, slot);
    }
  }

  lemma {:induction false} ReopenedCode(u: Setup, j: seq<Change>, s: Staging, db: Database, addr: Address)
    requires Sound(u.db, u.hs) && Coherent(u.db, u.hs, j, addr) && Mirrors(u, j, s, addr)
    requires Committed(u, s, db) && !IsEmpty(AccountOf(u.db, j, addr))
    requires CodesHashed(u, s) && (CodeOf(u.db, j, addr) == LoadCode(u.db, addr) || CodeKnown(u, s, CodeOf(u.db, j, addr)))
    ensures LoadCode(db, addr) == CodeOf(u.db, j, addr)
  {
    assert AccountCommitted(u, s, db.accounts, addr);
    if addr in u.db.accounts {
      assert RecordSound(u.db, u.hs, addr);
    }
  }

  /**
   * Reopening the committed version shows for every address the balance, energy, master, code hash and code that
   * were readable before staging. An account without any of them is absent, and its block time and storage are gone;
   * any other keeps these too.
   */
  lemma {:induction false} Reopened(u: Setup, j: seq<Change>, db: Database, addr: Address)
    requires Sound(u.db, u.hs) && JournalSound(u.db, u.hs, j)
    requires (forall i :: 0 <= i < |j| ==> WellKinded(j[i])) && Committed(u, Replay(u, j), db)
    ensures var a := AccountOf(u.db, j, addr);
            addr in db.accounts <==> a.balance > 0 || a.energy > 0 || a.master.Some? || a.codeHash.Some?
    ensures var a, b := AccountOf(u.db, j, addr), LoadRecord(db, addr).account;
            && b.balance == a.balance && b.energy == a.energy && b.master == a.master && b.codeHash == a.codeHash
            && b.blockTime == if addr in db.accounts then a.blockTime else 0
    ensures LoadCode(db, addr) == CodeOf(u.db, j, addr)
    ensures forall slot :: LoadSlot(db, addr, slot) == if addr in db.accounts then SlotOf(u.db, j, addr, slot) else []
  {
    var s := Replay(u, j);
    ReplayMirrors(u, j, addr);
    ReplayCodes(u, j, addr);
    assert Coherent(u.db, u.hs, j, addr) && AccountCommitted(u, s, db.accounts, addr);
    if addr in u.db.accounts {
      assert RecordSound(u.db, u.hs, addr);
    }
    if !IsEmpty(AccountOf(u.db, j, addr)) {
      ReopenedCode(u, j, s, db, addr);
      forall slot ensures LoadSlot(db, addr, slot) == SlotOf(u.db, j, addr, slot) {
        ReopenedSlot(u, j, s, db, addr, slot);
      }
    }
  }

  // ---------- The new version is as sound as the old one ----------

  function NameOf(u: Setup, s: Staging, addr: Address): Option<StorageId> {
    GetChanged(u, s, addr).metadata.storageId
  }

  /** No two accounts, changed or not, name the same storage trie. */
  lemma {:induction false} NamesDiffer(u: Setup, j: seq<Change>, s: Staging, a: Address, b: Address)
    requires Sound(u.db, u.hs) && FreshVersion(u.db, u.version) && FreshNames(u, s)
    requires Mirrors(u, j, s, a) && Mirrors(u, j, s, b) && a != b && NameOf(u, s, a).Some?
    ensures NameOf(u, s, a) != NameOf(u, s, b)
  {
    if IsNewName(u, s, a) && IsNewName(u, s, b) {
    } else if NameOf(u, s, b).Some? {
      OldName(u, j, s, a);
      OldName(u, j, s, b);
    }
  }

  lemma {:induction false} OldName(u: Setup, j: seq<Change>, s: Staging, a: Address)
    requires Sound(u.db, u.hs) && FreshVersion(u.db, u.version) && Mirrors(u, j, s, a) && NameOf(u, s, a).Some?
    ensures IsNewName(u, s, a) <==> NameOf(u, s, a).value.version == u.version
    ensures !IsNewName(u, s, a) ==> a in u.db.accounts && u.db.accounts[a].metadata.storageId == NameOf(u, s, a)
  {
  }

  lemma {:induction false} RecordStaysSound(u: Setup, j: seq<Change>, s: Staging, db: Database, addr: Address)
    requires Sound(u.db, u.hs) && Coherent(u.db, u.hs, j, addr) && Mirrors(u, j, s, addr) && Committed(u, s, db)
    requires CodesHashed(u, s) && (CodeOf(u.db, j, addr) == LoadCode(u.db, addr) || CodeKnown(u, s, CodeOf(u.db, j, addr)))
    requires addr in db.accounts
    ensures RecordSound(db, u.hs, addr)
    ensures db.accounts[addr].metadata.storageId.Some? ==> db.accounts[addr].metadata.storageId == NameOf(u, s, addr)
  {
    assert AccountCommitted(u, s, db.accounts, addr) && StorageCommitted(u, s, db.storages, addr);
    if addr in u.db.accounts {
      assert RecordSound(u.db, u.hs, addr);
    }
    ReopenedCode(u, j, s, db, addr);
  }

  /** A committed version is a sound database again, on which any version fresh before is still fresh. */
  lemma {:induction false} CommittedSound(u: Setup, j: seq<Change>, db: Database)
    requires Sound(u.db, u.hs) && FreshVersion(u.db, u.version) && JournalSound(u.db, u.hs, j)
    requires (forall i :: 0 <= i < |j| ==> WellKinded(j[i])) && Committed(u, Replay(u, j), db)
    ensures Sound(db, u.hs)
    ensures forall v :: v != u.version && FreshVersion(u.db, v) ==> FreshVersion(db, v)
  {
    var s := Replay(u, j);
    ReplayNames(u, j);
    forall addr | addr in db.accounts
      ensures RecordSound(db, u.hs, addr)
      ensures db.accounts[addr].metadata.storageId.Some? ==> db.accounts[addr].metadata.storageId == NameOf(u, s, addr)
      ensures Mirrors(u, j, s, addr)
    {
      ReplayMirrors(u, j, addr);
      ReplayCodes(u, j, addr);
      assert Coherent(u.db, u.hs, j, addr);
      RecordStaysSound(u, j, s, db, addr);
    }
    forall a, b | a in db.accounts && b in db.accounts && a != b && db.accounts[a].metadata.storageId.Some?
      ensures db.accounts[a].metadata.storageId != db.accounts[b].metadata.storageId
    {
      NamesDiffer(u, j, s, a, b);
    }
    forall v | v != u.version && FreshVersion(u.db, v) ensures FreshVersion(db, v) {
      forall addr | addr in db.accounts && db.accounts[addr].metadata.storageId.Some?
        ensures db.accounts[addr].metadata.storageId.value.version != v
      {
        OldName(u, j, s, addr);
      }
    }
  }
}
