/**
 * The world state object: getters, setters, deletion, checkpoints and staging over a revertible map.
 */
module WorldStates {
  import opened Wrappers
  import opened StackedMaps
  import opened WorldState
  import opened WorldStaging
  import opened EnergyGrowth

  /** Two journals mean the same for an account. */
  ghost predicate SameAt(db: Database, j: seq<Change>, k: seq<Change>, addr: Address) {
    && AccountOf(db, j, addr) == AccountOf(db, k, addr) && CodeOf(db, j, addr) == CodeOf(db, k, addr)
    && Deletions(j, addr) == Deletions(k, addr) && Written(j, addr) == Written(k, addr)
  }

  /** Two journals show the same storage of an account. */
  ghost predicate SameStorage(db: Database, j: seq<Change>, k: seq<Change>, addr: Address) {
    forall slot :: SlotOf(db, j, addr, slot) == SlotOf(db, k, addr, slot)
  }

  ghost predicate OthersSame(db: Database, j: seq<Change>, k: seq<Change>, addr: Address) {
    forall a {:trigger SameAt(db, j, k, a)} :: a != addr ==> SameAt(db, j, k, a)
  }

  lemma {:induction false} AppendMeaning(db: Database, j: seq<Change>, e: Change, addr: Address)
    requires WellKinded(e)
    ensures AccountOf(db, j + [e], addr) == if e.key == AccountKey(addr) then e.value.account else AccountOf(db, j, addr)
    ensures CodeOf(db, j + [e], addr) == if e.key == CodeKey(addr) then e.value.code else CodeOf(db, j, addr)
    ensures Deletions(j + [e], addr) == Deletions(j, addr) + if e.key == BarrierKey(addr) then 1 else 0
    ensures Written(j + [e], addr) ==
              if e.key == BarrierKey(addr) then map[]
              else if e.key.StorageKey? && e.key.addr == addr then Written(j, addr)[e.key.slot := e.value.raw]
              else Written(j, addr)
  {
    assert (j + [e])[..|j|] == j;
  }

  lemma {:induction false} AppendOthers(db: Database, i: seq<Change>, j: seq<Change>, e: Change)
    requires WellKinded(e) && OthersSame(db, i, j, e.key.addr)
    ensures OthersSame(db, i, j + [e], e.key.addr)
  {
    forall a | a != e.key.addr ensures SameAt(db, i, j + [e], a) {
      AppendMeaning(db, j, e, a);
      assert SameAt(db, i, j, a);
    }
  }

  lemma {:induction false} AppendOrdered(j: seq<Change>, e: Change)
    requires Ordered(j) && WellKinded(e)
    requires e.key.StorageKey? ==> e.key.barrier == Deletions(j, e.key.addr)
    requires e.key.BarrierKey? ==> e.value.barrier == Deletions(j, e.key.addr) + 1
    ensures Ordered(j + [e])
  {
    assert (j + [e])[..|j|] == j;
  }

  lemma {:induction false} SoundAfter(db: Database, hs: Hashes, j: seq<Change>, k: seq<Change>, addr: Address)
    requires JournalSound(db, hs, j) && Ordered(k) && OthersSame(db, j, k, addr) && Coherent(db, hs, k, addr)
    ensures JournalSound(db, hs, k)
  {
    forall a ensures Coherent(db, hs, k, a) {
      assert Coherent(db, hs, j, a);
      assert a != addr ==> SameAt(db, j, k, a);
    }
  }

  lemma {:induction false} EmptySound(db: Database, hs: Hashes)
    requires Sound(db, hs)
    ensures JournalSound(db, hs, [])
  {
    forall a ensures Coherent(db, hs, [], a) {
      if a in db.accounts {
        assert RecordSound(db, hs, a);
      }
    }
  }

  ghost predicate LevelSound(db: Database, hs: Hashes, js: Journals<Key, Value>, depth: nat)
    requires depth <= |js|
  {
    JournalSound(db, hs, Flatten(js[..depth]))
  }

  /** A put changes the top level only. */
  lemma {:induction false} LevelsAfterPut(db: Database, hs: Hashes, js: Journals<Key, Value>, key: Key, value: Value)
    requires js != [] && forall i {:trigger LevelSound(db, hs, js, i)} :: 1 <= i < |js| ==> LevelSound(db, hs, js, i)
    ensures var ks := Apply(js, Op.Put(key, value));
            |ks| == |js| && forall i {:trigger LevelSound(db, hs, ks, i)} :: 1 <= i < |ks| ==> LevelSound(db, hs, ks, i)
  {
    var ks := Apply(js, Op.Put(key, value));
    PutFlat(js, key, value);
    forall i | 1 <= i < |ks| ensures LevelSound(db, hs, ks, i) {
      assert ks[..i] == js[..i] && LevelSound(db, hs, js, i);
    }
  }

  lemma {:induction false} CodeChanged(db: Database, hs: Hashes, j: seq<Change>, addr: Address, code: Bytes)
    requires JournalSound(db, hs, j)
    ensures var k := j + [Entry(CodeKey(addr), CodeValue(code))];
            var a := AccountOf(db, k, addr).(codeHash := HashOfCode(hs, code));
            var l := k + [Entry(AccountKey(addr), AccountValue(a))];
            && a == AccountOf(db, j, addr).(codeHash := HashOfCode(hs, code))
            && JournalSound(db, hs, l) && OthersSame(db, j, l, addr)
            && AccountOf(db, l, addr) == a && CodeOf(db, l, addr) == code
            && SameStorage(db, j, l, addr)
  {
    assert Coherent(db, hs, j, addr);
    var e := Entry(CodeKey(addr), CodeValue(code));
    AppendMeaning(db, j, e, addr);
    AppendOthers(db, j, j, e);
    AppendOrdered(j, e);
    var k := j + [e];
    var f := Entry(AccountKey(addr), AccountValue(AccountOf(db, k, addr).(codeHash := HashOfCode(hs, code))));
    AppendMeaning(db, k, f, addr);
    AppendOthers(db, j, k, f);
    AppendOrdered(k, f);
    SoundAfter(db, hs, j, k + [f], addr);
  }

  predicate SameCodeAndRoot(a: Account, b: Account) {
    a.codeHash == b.codeHash && a.storageRoot == b.storageRoot
  }

  class State {
    const db: Database
    const hs: Hashes
    const sm: StackedMap<Key, Value>

    /** The changes still in effect, oldest first. */
    ghost function Journal(): seq<Change>
      reads sm
    {
      Flatten(sm.Journals())
    }

    /** Everything but the top level is sound; holds within an operation. */
    ghost predicate Open()
      reads sm
    {
      && sm.Valid() && sm.src == Source(db) && Sound(db, hs) && sm.Journals() != []
      && (forall i {:trigger LevelSound(db, hs, sm.Journals(), i)} :: 1 <= i < |sm.Journals()| ==> LevelSound(db, hs, sm.Journals(), i))
      && Ordered(Journal())
    }

    ghost predicate Valid()
      reads sm
    {
      Open() && JournalSound(db, hs, Journal())
    }

    constructor (db: Database, hs: Hashes)
      requires Sound(db, hs)
      ensures Valid() && fresh(sm) && this.db == db && this.hs == hs && Journal() == []
    {
      this.db, this.hs := db, hs;
      sm := new StackedMap(Source(db));
      new;
      EmptySound(db, hs);
      assert sm.Journals()[..0] == [] && Flatten(sm.Journals()[..0]) == [];
    }

    method Put(key: Key, value: Value)
      requires Open() && WellKinded(Entry(key, value))
      requires key.StorageKey? ==> key.barrier == Deletions(Journal(), key.addr)
      requires key.BarrierKey? ==> value.barrier == Deletions(Journal(), key.addr) + 1
      modifies sm
      ensures Open() && Journal() == old(Journal()) + [Entry(key, value)]
    {
      PutFlat(sm.Journals(), key, value);
      AppendOrdered(Journal(), Entry(key, value));
      LevelsAfterPut(db, hs, sm.Journals(), key, value);
      sm.Put(key, value);
    }

    method GetAccount(addr: Address) returns (a: Account)
      requires Open()
      ensures a == AccountOf(db, Journal(), addr)
    {
      ReadAccount(db, Journal(), addr);
      var v := sm.Get(AccountKey(addr));
      return v.value.account;
    }

    /** Energy at a time, with growth up to a stop time. */
    method GetEnergy(addr: Address, now: nat, stop: nat) returns (energy: nat)
      requires Valid()
      ensures energy == CalcEnergy(AccountOf(db, Journal(), addr), now, stop)
    {
      var a := GetAccount(addr);
      return CalcEnergy(a, now, stop);
    }

    method GetStorageBarrier(addr: Address) returns (b: nat)
      requires Open()
      ensures b == Deletions(Journal(), addr)
    {
      ReadBarrier(db, Journal(), addr);
      var v := sm.Get(BarrierKey(addr));
      return v.value.barrier;
    }

    method GetRawStorage(addr: Address, slot: Slot) returns (raw: Bytes)
      requires Valid()
      ensures raw == SlotOf(db, Journal(), addr, slot)
    {
      var b := GetStorageBarrier(addr);
      ReadStorage(db, Journal(), addr, slot);
      var v := sm.Get(StorageKey(addr, b, slot));
      return v.value.raw;
    }

    method GetCode(addr: Address) returns (code: Bytes)
      requires Valid()
      ensures code == CodeOf(db, Journal(), addr)
    {
      ReadCode(db, Journal(), addr);
      var v := sm.Get(CodeKey(addr));
      return v.value.code;
    }

    method Exists(addr: Address) returns (b: bool)
      requires Valid()
      ensures var a := AccountOf(db, Journal(), addr); b <==> a.balance > 0 || a.energy > 0 || a.master.Some? || a.codeHash.Some?
    {
      var a := GetAccount(addr);
      return !IsEmpty(a);
    }

    /** Replaces an account. The journal stays sound if code hash and storage root stay the same. */
    method UpdateAccount(addr: Address, a: Account)
      requires Valid()
      modifies sm
      ensures Open() && OthersSame(db, old(Journal()), Journal(), addr) && AccountOf(db, Journal(), addr) == a
      ensures SameCodeAndRoot(a, AccountOf(db, old(Journal()), addr)) ==>
                && Valid() && CodeOf(db, Journal(), addr) == old(CodeOf(db, Journal(), addr))
                && SameStorage(db, old(Journal()), Journal(), addr)
    {
      ghost var j := Journal();
      Put(AccountKey(addr), AccountValue(a));
      ghost var e := Entry(AccountKey(addr), AccountValue(a));
      AppendMeaning(db, j, e, addr);
      AppendOthers(db, j, j, e);
      if SameCodeAndRoot(a, AccountOf(db, j, addr)) {
        assert Coherent(db, hs, j, addr);
        SoundAfter(db, hs, j, Journal(), addr);
      }
    }

    method SetBalance(addr: Address, balance: nat)
      requires Valid()
      modifies sm
      ensures Valid() && OthersSame(db, old(Journal()), Journal(), addr)
      ensures AccountOf(db, Journal(), addr) == old(AccountOf(db, Journal(), addr)).(balance := balance)
      ensures CodeOf(db, Journal(), addr) == old(CodeOf(db, Journal(), addr))
      ensures SameStorage(db, old(Journal()), Journal(), addr)
    {
      var a := GetAccount(addr);
      UpdateAccount(addr, a.(balance := balance));
    }

    method SetEnergy(addr: Address, energy: nat, blockTime: nat)
      requires Valid()
      modifies sm
      ensures Valid() && OthersSame(db, old(Journal()), Journal(), addr)
      ensures AccountOf(db, Journal(), addr) == old(AccountOf(db, Journal(), addr)).(energy := energy, blockTime := blockTime)
      ensures CodeOf(db, Journal(), addr) == old(CodeOf(db, Journal(), addr))
      ensures SameStorage(db, old(Journal()), Journal(), addr)
    {
      var a := GetAccount(addr);
      UpdateAccount(addr, a.(energy := energy, blockTime := blockTime));
    }

    /** The zero address stands for no master. */
    method SetMaster(addr: Address, master: Address)
      requires Valid()
      modifies sm
      ensures Valid() && OthersSame(db, old(Journal()), Journal(), addr)
      ensures AccountOf(db, Journal(), addr) == old(AccountOf(db, Journal(), addr)).(master := if master == 0 then None else Some(master))
      ensures CodeOf(db, Journal(), addr) == old(CodeOf(db, Journal(), addr))
      ensures SameStorage(db, old(Journal()), Journal(), addr)
    {
      var a := GetAccount(addr);
      UpdateAccount(addr, a.(master := if master == 0 then None else Some(master)));
    }

    method SetRawStorage(addr: Address, slot: Slot, raw: Bytes)
      requires Valid()
      modifies sm
      ensures Valid() && OthersSame(db, old(Journal()), Journal(), addr)
      ensures AccountOf(db, Journal(), addr) == old(AccountOf(db, Journal(), addr)) && CodeOf(db, Journal(), addr) == old(CodeOf(db, Journal(), addr))
      ensures SlotOf(db, Journal(), addr, slot) == raw
      ensures forall k :: k != slot ==> SlotOf(db, Journal(), addr, k) == old(SlotOf(db, Journal(), addr, k))
    {
      ghost var j := Journal();
      var b := GetStorageBarrier(addr);
      Put(StorageKey(addr, b, slot), StorageValue(raw));
      ghost var e := Entry(StorageKey(addr, b, slot), StorageValue(raw));
      AppendMeaning(db, j, e, addr);
      AppendOthers(db, j, j, e);
      assert Coherent(db, hs, j, addr);
      SoundAfter(db, hs, j, Journal(), addr);
    }

    method SetCode(addr: Address, code: Bytes)
      requires Valid()
      modifies sm
      ensures Valid() && OthersSame(db, old(Journal()), Journal(), addr)
      ensures AccountOf(db, Journal(), addr) == old(AccountOf(db, Journal(), addr)).(codeHash := HashOfCode(hs, code))
      ensures CodeOf(db, Journal(), addr) == code
      ensures SameStorage(db, old(Journal()), Journal(), addr)
    {
      ghost var j := Journal();
      Put(CodeKey(addr), CodeValue(code));
      var a := GetAccount(addr);
      var a' := a.(codeHash := if |code| > 0 then Some(hs.code(code)) else None);
      CodeChanged(db, hs, j, addr, code);
      Put(AccountKey(addr), AccountValue(a'));
    }

    /** Deletes an account: its fields, its code and all of its storage are gone. */
    method Delete(addr: Address)
      requires Valid()
      modifies sm
      ensures Valid() && OthersSame(db, old(Journal()), Journal(), addr)
      ensures AccountOf(db, Journal(), addr) == EMPTY_ACCOUNT && CodeOf(db, Journal(), addr) == []
      ensures forall slot :: SlotOf(db, Journal(), addr, slot) == []
    {
      ghost var j := Journal();
      ClearAccount(addr);
      ghost var l := Journal();
      var b := GetStorageBarrier(addr);
      Put(BarrierKey(addr), BarrierValue(b + 1));
      AppendMeaning(db, l, Entry(BarrierKey(addr), BarrierValue(b + 1)), addr);
      AppendOthers(db, j, l, Entry(BarrierKey(addr), BarrierValue(b + 1)));
      SoundAfter(db, hs, j, Journal(), addr);
    }

    method ClearAccount(addr: Address)
      requires Open()
      modifies sm
      ensures Open() && OthersSame(db, old(Journal()), Journal(), addr)
      ensures AccountOf(db, Journal(), addr) == EMPTY_ACCOUNT && CodeOf(db, Journal(), addr) == []
    {
      ghost var j := Journal();
      Put(CodeKey(addr), CodeValue([]));
      AppendMeaning(db, j, Entry(CodeKey(addr), CodeValue([])), addr);
      AppendOthers(db, j, j, Entry(CodeKey(addr), CodeValue([])));
      ghost var k := Journal();
      Put(AccountKey(addr), AccountValue(EMPTY_ACCOUNT));
      AppendMeaning(db, k, Entry(AccountKey(addr), AccountValue(EMPTY_ACCOUNT)), addr);
      AppendOthers(db, j, k, Entry(AccountKey(addr), AccountValue(EMPTY_ACCOUNT)));
    }

    method NewCheckpoint() returns (revision: nat)
      requires Valid()
      modifies sm
      ensures Valid() && Journal() == old(Journal())
      ensures revision == |old(sm.Journals())| && sm.Journals() == Apply(old(sm.Journals()), Op.Push)
    {
      ghost var before := sm.Journals();
      revision := sm.Push();
      ghost var js := sm.Journals();
      assert js[..|before|] == before && Flatten(js) == Flatten(before) + [] == Flatten(before);
      forall i | 1 <= i < |js| ensures LevelSound(db, hs, js, i) {
        assert js[..i] == before[..i];
        assert i < |before| ==> LevelSound(db, hs, before, i);
        assert before[..|before|] == before;
      }
    }

    /** Undoes everything since the checkpoint with this revision; revision 0 takes the lowest level away too. */
    method RevertTo(revision: nat)
      requires Valid()
      modifies sm
      ensures sm.Valid() && sm.Journals() == Apply(old(sm.Journals()), Op.PopTo(revision))
      ensures Valid() <==> revision >= 1
    {
      ghost var before := sm.Journals();
      sm.PopTo(revision);
      ghost var js := sm.Journals();
      forall i | 1 <= i < |js| ensures LevelSound(db, hs, js, i) {
        assert js[..i] == before[..i];
        assert LevelSound(db, hs, before, i);
      }
      assert 1 <= revision < |before| ==> LevelSound(db, hs, before, revision);
    }

    /** Replays the journal into changed accounts and new code. */
    method Collect(u: Setup) returns (s: Staging)
      requires Open()
      ensures (forall i :: 0 <= i < |Journal()| ==> WellKinded(Journal()[i])) && s == Replay(u, Journal())
    {
      OrderedKinds(Journal());
      var entries := sm.Journal(_ => true);
      s := ReplayAll(u, entries);
    }

    /**
     * Stages and commits all changes as a new version. `open` are the accounts whose storage
     * trie has been read and is reused.
     */
    method Stage(version: Version, open: set<Address>) returns (db': Database)
      requires Valid() && FreshVersion(db, version)
      ensures Sound(db', hs) && forall v :: v != version && FreshVersion(db, v) ==> FreshVersion(db', v)
      ensures forall addr :: addr in db'.accounts <==>
                var a := AccountOf(db, Journal(), addr); a.balance > 0 || a.energy > 0 || a.master.Some? || a.codeHash.Some?
      ensures forall addr :: var a, b := AccountOf(db, Journal(), addr), LoadRecord(db', addr).account;
                && b.balance == a.balance && b.energy == a.energy && b.master == a.master && b.codeHash == a.codeHash
                && b.blockTime == if addr in db'.accounts then a.blockTime else 0
      ensures forall addr :: LoadCode(db', addr) == CodeOf(db, Journal(), addr)
      ensures forall key :: key in db'.storages ==> NoEmptyValue(db'.storages[key]) || (key in db.storages && db.storages[key] == db'.storages[key])
      ensures forall addr, slot :: LoadSlot(db', addr, slot) == if addr in db'.accounts then SlotOf(db, Journal(), addr, slot) else []
    {
      var u := Setup(db, hs, version, open);
      var s := Collect(u);
      assert OwnNames(s) by {
        ReplayNames(u, Journal());
        forall a, b | a in s.changes && b in s.changes && a != b && s.changes[a].metadata.storageId.Some?
          ensures s.changes[a].metadata.storageId != s.changes[b].metadata.storageId
        {
          ReplayMirrors(u, Journal(), a);
          ReplayMirrors(u, Journal(), b);
          NamesDiffer(u, Journal(), s, a, b);
        }
      }
      forall a | a in s.changes && WritesStorage(s.changes[a]) ensures s.changes[a].metadata.storageId.Some? {
        ReplayMirrors(u, Journal(), a);
      }
      var accounts, storages := SaveChanges(u, s);
      db' := Database(accounts, storages, db.codes + s.codes);
      CommittedSound(u, Journal(), db');
      forall addr
        ensures addr in db'.accounts <==>
                  var a := AccountOf(db, Journal(), addr); a.balance > 0 || a.energy > 0 || a.master.Some? || a.codeHash.Some?
        ensures var a, b := AccountOf(db, Journal(), addr), LoadRecord(db', addr).account;
                && b.balance == a.balance && b.energy == a.energy && b.master == a.master && b.codeHash == a.codeHash
                && b.blockTime == if addr in db'.accounts then a.blockTime else 0
        ensures LoadCode(db', addr) == CodeOf(db, Journal(), addr)
        ensures forall slot :: LoadSlot(db', addr, slot) == if addr in db'.accounts then SlotOf(db, Journal(), addr, slot) else []
      {
        Reopened(u, Journal(), db', addr);
      }
    }
  }

  method ReplayAll(u: Setup, entries: seq<Change>) returns (s: Staging)
    requires forall i :: 0 <= i < |entries| ==> WellKinded(entries[i])
    ensures s == Replay(u, entries)
  {
    s := Staging(map[], map[], 0);
    var i := 0;
    while i < |entries|
      invariant 0 <= i <= |entries| && s == Replay(u, entries[..i])
    {
      assert entries[..i + 1][..i] == entries[..i];
      s := Step(u, s, entries[i]);
      i := i + 1;
    }
    assert entries[..i] == entries;
  }

  ghost predicate OwnNames(s: Staging) {
    forall a, b :: a in s.changes && b in s.changes && a != b && s.changes[a].metadata.storageId.Some? ==>
      s.changes[a].metadata.storageId != s.changes[b].metadata.storageId
  }

  /** Saves one changed account; an empty one is deleted. */
  function SaveAccount(u: Setup, accounts: map<Address, Record>, addr: Address, c: Changed): map<Address, Record> {
    if IsEmpty(c.account) then accounts - {addr} else accounts[addr := Saved(u, c)]
  }

  lemma {:induction false} StorageSaved(u: Setup, storages: map<(StorageId, Version), Storage>, id: StorageId, c: Changed)
    requires StoragesGrow(u, storages) && FreshVersion(u.db, u.version)
    ensures StoragesGrow(u, storages[(id, u.version) := NewStorage(u, c)])
  {
  }

  /** Saves the changed accounts and their storage, in any order. */
  method SaveChanges(u: Setup, s: Staging) returns (accounts: map<Address, Record>, storages: map<(StorageId, Version), Storage>)
    requires OwnNames(s) && FreshVersion(u.db, u.version)
    requires forall a :: a in s.changes && WritesStorage(s.changes[a]) ==> s.changes[a].metadata.storageId.Some?
    ensures forall addr {:trigger AccountCommitted(u, s, accounts, addr)} :: AccountCommitted(u, s, accounts, addr)
    ensures forall addr {:trigger StorageCommitted(u, s, storages, addr)} :: StorageCommitted(u, s, storages, addr)
    ensures StoragesGrow(u, storages)
  {
    accounts, storages := u.db.accounts, u.db.storages;
    var rest := s.changes.Keys;
    while rest != {}
      invariant rest <= s.changes.Keys
      invariant forall addr {:trigger AccountCommitted(u, s, accounts, addr)} :: addr !in rest ==> AccountCommitted(u, s, accounts, addr)
      invariant forall addr {:trigger StorageCommitted(u, s, storages, addr)} :: addr !in rest ==> StorageCommitted(u, s, storages, addr)
      invariant StoragesGrow(u, storages)
      decreases |rest|
    {
      var addr :| addr in rest;
      var c := s.changes[addr];
      ghost var accounts0, storages0 := accounts, storages;
      if WritesStorage(c) {
        StorageSaved(u, storages, c.metadata.storageId.value, c);
        storages := storages[(c.metadata.storageId.value, u.version) := NewStorage(u, c)];
      }
      accounts := SaveAccount(u, accounts, addr, c);
      rest := rest - {addr};
      forall a | a !in rest ensures AccountCommitted(u, s, accounts, a) && StorageCommitted(u, s, storages, a) {
        if a != addr {
          assert AccountCommitted(u, s, accounts0, a) && StorageCommitted(u, s, storages0, a);
        }
      }
    }
  }
}
