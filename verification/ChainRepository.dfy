/**
 * The chain repository: saved blocks, a versioned index from block number to block for every chain,
 * and an index of transactions.
 */
module ChainRepository {
  import opened Wrappers
  import opened BlockTree

  /** A block body: the ids of its transactions. */
  datatype Body = Body(txs: seq<nat>)

  type Id = Block<Body>

  datatype Summary = Summary(txs: seq<nat>, conflicts: nat)

  /** Versions of the index trie: block number and a counter of the blocks with that number. */
  datatype Version = Version(number: nat, conflicts: nat)

  type Index = map<nat, Id>

  datatype TxKey = TxKey(id: nat, version: Version)
  datatype TxMeta = TxMeta(index: nat, reverted: bool)

  // ---------- What the stores mean ----------

  type Summaries = map<Id, Summary>

  function VersionOf(ss: Summaries, b: Id): Version
    requires b in ss
  {
    Version(Number(b), ss[b].conflicts)
  }

  ghost predicate Saved(ss: Summaries, genesis: Id, b: Id) {
    b in ss && ss[b].txs == b.header.txs && (if b.Child? then b.parent in ss else b == genesis)
  }

  function AtHeight(ss: Summaries, n: nat): set<Id> {
    set b | b in ss && Number(b) == n
  }

  /** The counter of a block is below the number of blocks at its height. */
  ghost predicate Counted(ss: Summaries, b: Id)
    requires b in ss
  {
    ss[b].conflicts < |AtHeight(ss, Number(b))|
  }

  ghost predicate DistinctVersions(ss: Summaries) {
    forall b, c :: b in ss && c in ss && VersionOf(ss, b) == VersionOf(ss, c) ==> b == c
  }

  /** The index maps each number up to the block's own to the ancestor with that number, and nothing else. */
  ghost predicate IsIndex(index: Index, b: Id) {
    && (forall n :: n in index <==> 0 <= n <= Number(b))
    && (forall n :: n in index ==> n <= Number(b) && index[n] == Ancestor(b, n))
  }

  ghost predicate HasIndex(ss: Summaries, tries: map<Version, Index>, b: Id)
    requires b in ss
  {
    VersionOf(ss, b) in tries && IsIndex(tries[VersionOf(ss, b)], b)
  }

  ghost predicate BlocksSound(ss: Summaries, tries: map<Version, Index>, genesis: Id) {
    && genesis.Genesis? && genesis in ss && DistinctVersions(ss)
    && (forall b {:trigger Saved(ss, genesis, b)} :: b in ss ==> Saved(ss, genesis, b))
    && (forall b {:trigger Counted(ss, b)} :: b in ss ==> Counted(ss, b))
    && (forall b {:trigger HasIndex(ss, tries, b)} :: b in ss ==> HasIndex(ss, tries, b))
  }

  /** All transactions of a block are indexed under its version. */
  ghost predicate TxsIndexed(ss: Summaries, metas: map<TxKey, TxMeta>, b: Id)
    requires b in ss
  {
    forall id :: id in b.header.txs ==> TxKey(id, VersionOf(ss, b)) in metas
  }

  /** An entry of the transaction index points to a place of the transaction in a saved block, and tells how it ended there. */
  ghost predicate MetaOf(ss: Summaries, ends: map<Id, seq<bool>>, key: TxKey, m: TxMeta, b: Id) {
    && b in ss && VersionOf(ss, b) == key.version && m.index < |b.header.txs| && b.header.txs[m.index] == key.id
    && b in ends && m.index < |ends[b]| && ends[b][m.index] == m.reverted
  }

  ghost predicate MetaSound(ss: Summaries, ends: map<Id, seq<bool>>, metas: map<TxKey, TxMeta>, key: TxKey)
    requires key in metas
  {
    exists b :: MetaOf(ss, ends, key, metas[key], b)
  }

  ghost predicate TxsSound(ss: Summaries, ends: map<Id, seq<bool>>, metas: map<TxKey, TxMeta>) {
    && (forall b {:trigger TxsIndexed(ss, metas, b)} :: b in ss ==> TxsIndexed(ss, metas, b))
    && (forall key {:trigger MetaSound(ss, ends, metas, key)} :: key in metas ==> MetaSound(ss, ends, metas, key))
  }

  // ---------- Chains ----------

  /** Some block on the chain that ends at `head` contains the transaction, at height `from` or above. */
  ghost predicate HoldsFrom(head: Id, id: nat, from: nat) {
    exists n: nat :: HoldsAt(head, id, n) && from <= n
  }

  ghost predicate HoldsAt(head: Id, id: nat, n: nat) {
    n <= Number(head) && id in Ancestor(head, n).header.txs
  }

  lemma {:induction false} AncestorSaved(ss: Summaries, tries: map<Version, Index>, genesis: Id, b: Id, n: nat)
    requires BlocksSound(ss, tries, genesis) && b in ss && n <= Number(b)
    ensures Ancestor(b, n) in ss
    decreases b
  {
    if Number(b) != n {
      assert Saved(ss, genesis, b);
      AncestorSaved(ss, tries, genesis, b.parent, n);
    }
  }

  // ---------- Adding a block ----------

  lemma {:induction false} HeightGrows(ss: Summaries, b: Id, s: Summary, n: nat)
    requires b !in ss
    ensures |AtHeight(ss[b := s], n)| == |AtHeight(ss, n)| + if n == Number(b) then 1 else 0
  {
    if n == Number(b) {
      assert AtHeight(ss[b := s], n) == AtHeight(ss, n) + {b};
    } else {
      assert AtHeight(ss[b := s], n) == AtHeight(ss, n);
    }
  }

  /** The index of the parent, extended by the block, is the index of the block. */
  lemma {:induction false} IndexExtends(index: Index, b: Id)
    requires b.Child? && IsIndex(index, b.parent)
    ensures IsIndex(index[Number(b) := b], b)
  {
  }

  lemma {:induction false} BlockAdded(ss: Summaries, tries: map<Version, Index>, genesis: Id, b: Id, index: Index)
    requires BlocksSound(ss, tries, genesis) && b.Child? && b !in ss && b.parent in ss && IsIndex(index, b)
    ensures var count := |AtHeight(ss, Number(b))|;
            BlocksSound(ss[b := Summary(b.header.txs, count)], tries[Version(Number(b), count) := index], genesis)
  {
    var count := |AtHeight(ss, Number(b))|;
    var ss', tries' := ss[b := Summary(b.header.txs, count)], tries[Version(Number(b), count) := index];
    forall c | c in ss' ensures Saved(ss', genesis, c) && Counted(ss', c) && HasIndex(ss', tries', c) {
      HeightGrows(ss, b, Summary(b.header.txs, count), Number(c));
      if c != b {
        assert Saved(ss, genesis, c) && Counted(ss, c) && HasIndex(ss, tries, c);
      }
    }
    forall c, d | c in ss' && d in ss' && VersionOf(ss', c) == VersionOf(ss', d) ensures c == d {
      assert c in ss ==> Counted(ss, c);
      assert d in ss ==> Counted(ss, d);
      assert c in ss && d in ss ==> VersionOf(ss, c) == VersionOf(ss, d);
    }
  }

  /** The entries after indexing transactions under a version: new ones for these transactions, the old ones for all others. */
  ghost predicate Reindexed(metas: map<TxKey, TxMeta>, metas': map<TxKey, TxMeta>, txs: seq<nat>, ends: seq<bool>, v: Version) {
    && (forall key :: key in metas' <==> key in metas || (key.version == v && key.id in txs))
    && (forall key :: key in metas && !(key.version == v && key.id in txs) ==> metas'[key] == metas[key])
    && (forall key :: key in metas' && key.version == v && key.id in txs ==>
          var m := metas'[key];
          m.index < |txs| && txs[m.index] == key.id && m.index < |ends| && ends[m.index] == m.reverted)
  }

  method IndexTxs(metas: map<TxKey, TxMeta>, filter: set<nat>, prefix: nat -> nat, txs: seq<nat>, receipts: seq<bool>, v: Version)
    returns (metas': map<TxKey, TxMeta>, filter': set<nat>)
    requires |receipts| >= |txs|
    ensures Reindexed(metas, metas', txs, receipts, v)
    ensures filter <= filter' && forall id :: id in txs ==> prefix(id) in filter'
  {
    metas', filter' := metas, filter;
    for i := 0 to |txs|
      invariant Reindexed(metas, metas', txs[..i], receipts, v)
      invariant filter <= filter' && forall id :: id in txs[..i] ==> prefix(id) in filter'
    {
      filter' := filter' + {prefix(txs[i])};
      metas' := metas'[TxKey(txs[i], v) := TxMeta(i, receipts[i])];
      assert txs[..i + 1] == txs[..i] + [txs[i]];
    }
    assert txs[..|txs|] == txs;
  }

  lemma {:induction false} TxsAdded(
    ss: Summaries, ends: map<Id, seq<bool>>, metas: map<TxKey, TxMeta>, metas': map<TxKey, TxMeta>, b: Id, receipts: seq<bool>, conflicts: nat)
    requires TxsSound(ss, ends, metas) && b !in ss
    requires forall c :: c in ss ==> VersionOf(ss, c) != Version(Number(b), conflicts)
    requires Reindexed(metas, metas', b.header.txs, receipts, Version(Number(b), conflicts))
    ensures TxsSound(ss[b := Summary(b.header.txs, conflicts)], ends[b := receipts], metas')
  {
    var ss', ends' := ss[b := Summary(b.header.txs, conflicts)], ends[b := receipts];
    var v := Version(Number(b), conflicts);
    forall c | c in ss' ensures TxsIndexed(ss', metas', c) {
      if c != b {
        assert TxsIndexed(ss, metas, c);
      }
    }
    forall key | key in metas' ensures MetaSound(ss', ends', metas', key) {
      if key.version == v && key.id in b.header.txs {
        assert MetaOf(ss', ends', key, metas'[key], b);
      } else {
        assert MetaSound(ss, ends, metas, key);
        var c :| MetaOf(ss, ends, key, metas[key], c);
        assert MetaOf(ss', ends', key, metas'[key], c);
      }
    }
  }

  lemma {:induction false} GenesisSound(genesis: Id)
    requires genesis.Genesis? && genesis.header.txs == []
    ensures BlocksSound(map[genesis := Summary([], 0)], map[Version(0, 0) := map[0 := genesis]], genesis)
  {
    var ss: Summaries := map[genesis := Summary([], 0)];
    var tries := map[Version(0, 0) := map[0 := genesis]];
    assert AtHeight(ss, 0) == {genesis};
    assert IsIndex(map[0 := genesis], genesis);
    assert Saved(ss, genesis, genesis) && Counted(ss, genesis) && HasIndex(ss, tries, genesis);
  }

  datatype AddError = ParentMissing

  class Repository {
    const genesis: Id
    /** The part of a transaction id that the filter keeps. */
    const prefix: nat -> nat
    var summaries: Summaries
    var tries: map<Version, Index>
    var metas: map<TxKey, TxMeta>
    var filter: set<nat>
    var best: Id
    /** How the transactions of each saved block ended. */
    ghost var ends: map<Id, seq<bool>>

    ghost predicate Valid()
      reads this
    {
      && BlocksSound(summaries, tries, genesis) && TxsSound(summaries, ends, metas) && best in summaries
      && (forall key :: key in metas ==> prefix(key.id) in filter)
    }

    constructor (genesis: Id, prefix: nat -> nat)
      requires genesis.Genesis? && genesis.header.txs == []
      ensures Valid() && this.genesis == genesis && summaries.Keys == {genesis} && best == genesis
    {
      this.genesis, this.prefix := genesis, prefix;
      summaries := map[genesis := Summary([], 0)];
      tries := map[Version(0, 0) := map[0 := genesis]];
      metas, filter, best := map[], {}, genesis;
      ends := map[genesis := []];
      GenesisSound(genesis);
    }

    /** The number of saved blocks with a number. */
    method ScanConflicts(n: nat) returns (count: nat)
      ensures count == |AtHeight(summaries, n)|
    {
      count := 0;
      var rest := set b | b in summaries && Number(b) == n;
      while rest != {}
        invariant count + |rest| == |AtHeight(summaries, n)|
        decreases |rest|
      {
        var b :| b in rest;
        rest := rest - {b};
        count := count + 1;
      }
    }

    /**
     * Saves a block under its number and a counter. The repository stays valid if the block is new and the counter is
     * the number of blocks that have its number already.
     */
    method AddBlock(b: Id, receipts: seq<bool>, conflicts: nat, asBest: bool) returns (r: Result<(), AddError>)
      requires Valid() && b.Child? && |receipts| >= |b.header.txs|
      modifies this
      ensures r.Ok? <==> b.parent in old(summaries)
      ensures r.Err? || (b !in old(summaries) && conflicts == |AtHeight(old(summaries), Number(b))|) ==> Valid()
      ensures r.Err? ==> summaries == old(summaries) && best == old(best) && ends == old(ends)
      ensures r.Ok? ==> summaries == old(summaries)[b := Summary(b.header.txs, conflicts)] && ends == old(ends)[b := receipts]
      ensures r.Ok? ==> best == if asBest then b else old(best)
    {
      if b.parent !in summaries {
        return Err(ParentMissing);
      }
      assert HasIndex(summaries, tries, b.parent);
      var index: Index := tries[Version(Number(b.parent), summaries[b.parent].conflicts)][Number(b) := b];
      var metas', filter' := IndexTxs(metas, filter, prefix, b.header.txs, receipts, Version(Number(b), conflicts));
      if b !in summaries && conflicts == |AtHeight(summaries, Number(b))| {
        IndexExtends(tries[VersionOf(summaries, b.parent)], b);
        BlockAdded(summaries, tries, genesis, b, index);
        forall c | c in summaries ensures VersionOf(summaries, c) != Version(Number(b), conflicts) {
          assert Counted(summaries, c);
        }
        TxsAdded(summaries, ends, metas, metas', b, receipts, conflicts);
      }
      tries := tries[Version(Number(b), conflicts) := index];
      metas, filter := metas', filter';
      summaries := summaries[b := Summary(b.header.txs, conflicts)];
      ends := ends[b := receipts];
      if asBest {
        best := b;
      }
      return Ok(());
    }

    /** The block with a number on the chain that ends at `head`. */
    method GetBlockID(head: Id, n: nat) returns (b: Option<Id>)
      requires Valid() && head in summaries
      ensures b == if n <= Number(head) then Some(Ancestor(head, n)) else None
      ensures b.Some? ==> b.value in summaries
    {
      assert HasIndex(summaries, tries, head);
      var index := tries[Version(Number(head), summaries[head].conflicts)];
      if n !in index {
        return None;
      }
      AncestorSaved(summaries, tries, genesis, head, n);
      return Some(index[n]);
    }

    /** Whether a block belongs to the chain that ends at `head`. */
    method HasBlock(head: Id, b: Id) returns (has: bool)
      requires Valid() && head in summaries
      ensures has <==> IsAncestor(b, head)
    {
      var found := GetBlockID(head, Number(b));
      return found == Some(b);
    }

    /** The entry of the transaction index for a transaction on the chain that ends at `head`; entries of other chains are skipped. */
    method GetTransactionMeta(head: Id, id: nat) returns (r: Option<(TxKey, TxMeta)>)
      requires Valid() && head in summaries
      ensures r.Some? <==> HoldsFrom(head, id, 0)
      ensures r.Some? ==> r.value.0.id == id && r.value.0.version.number <= Number(head)
      ensures r.Some? ==> MetaOf(summaries, ends, r.value.0, r.value.1, Ancestor(head, r.value.0.version.number))
    {
      var keys := set key | key in metas && key.id == id;
      while keys != {}
        invariant forall key :: key in keys ==> key in metas && key.id == id
        invariant forall key :: key in metas && key.id == id && key !in keys ==> !OnChain(summaries, head, key.version)
        decreases |keys|
      {
        var key :| key in keys;
        keys := keys - {key};
        if key.version.number <= Number(head) {
          var b := GetBlockID(head, key.version.number);
          if summaries[b.value].conflicts == key.version.conflicts {
            EntryOnChain(summaries, tries, genesis, ends, metas, head, key);
            return Some((key, metas[key]));
          }
        }
      }
      forall n: nat | HoldsAt(head, id, n) ensures false {
        HeldIsIndexed(summaries, tries, genesis, ends, metas, head, id, n);
      }
      return None;
    }

    /**
     * Whether a transaction with a block reference is on the chain that ends at `head`: not if the reference
     * is above the head; by walking back to the reference if that is near; else by the transaction index.
     */
    method HasTransaction(head: Id, id: nat, ref: nat) returns (has: bool)
      requires Valid() && head in summaries
      ensures has <==> HoldsFrom(head, id, if Number(head) < ref + 100 then ref else 0)
      ensures (has <==> HoldsFrom(head, id, 0)) <==>
                Number(head) >= ref + 100 || !HoldsFrom(head, id, 0) || HoldsFrom(head, id, ref)
    {
      assert HoldsFrom(head, id, ref) ==> HoldsFrom(head, id, 0);
      if ref > Number(head) {
        return false;
      }
      if Number(head) - ref < 100 {
        has := WalkBack(head, id, ref);
        return;
      }
      if prefix(id) !in filter {
        forall n: nat | HoldsAt(head, id, n) ensures false {
          HeldIsIndexed(summaries, tries, genesis, ends, metas, head, id, n);
        }
        return false;
      }
      var meta := GetTransactionMeta(head, id);
      return meta.Some?;
    }

    /** Looks through the blocks from the head back to a height; before genesis there is none. */
    method WalkBack(head: Id, id: nat, ref: nat) returns (has: bool)
      requires Valid() && head in summaries
      ensures has <==> HoldsFrom(head, id, ref)
    {
      var next := Some(head);
      while next.Some? && Number(next.value) >= ref
        invariant next.Some? ==> next.value in summaries && IsAncestor(next.value, head)
        invariant forall n: nat :: HoldsAt(head, id, n) ==> next.Some? && n <= Number(next.value)
        decreases if next.Some? then Number(next.value) + 1 else 0
      {
        var b := next.value;
        assert Saved(summaries, genesis, b);
        if id in summaries[b].txs {
          assert HoldsAt(head, id, Number(b));
          return true;
        }
        assert !HoldsAt(head, id, Number(b));
        if b.Child? {
          AncestorTwice(head, Number(b), Number(b.parent));
          next := Some(b.parent);
        } else {
          next := None;
        }
      }
      return false;
    }
  }

  /** The block at this height of the chain was saved under this version. */
  ghost predicate OnChain(ss: Summaries, head: Id, v: Version) {
    v.number <= Number(head) && Ancestor(head, v.number) in ss && VersionOf(ss, Ancestor(head, v.number)) == v
  }

  lemma {:induction false} EntryOnChain(
    ss: Summaries, tries: map<Version, Index>, genesis: Id, ends: map<Id, seq<bool>>, metas: map<TxKey, TxMeta>, head: Id, key: TxKey)
    requires BlocksSound(ss, tries, genesis) && TxsSound(ss, ends, metas) && key in metas && OnChain(ss, head, key.version)
    ensures MetaOf(ss, ends, key, metas[key], Ancestor(head, key.version.number))
    ensures HoldsAt(head, key.id, key.version.number) && HoldsFrom(head, key.id, 0)
  {
    assert MetaSound(ss, ends, metas, key);
    var b :| MetaOf(ss, ends, key, metas[key], b);
    assert b == Ancestor(head, key.version.number);
    assert HoldsAt(head, key.id, key.version.number);
  }

  lemma {:induction false} HeldIsIndexed(
    ss: Summaries, tries: map<Version, Index>, genesis: Id, ends: map<Id, seq<bool>>, metas: map<TxKey, TxMeta>, head: Id, id: nat, n: nat)
    requires BlocksSound(ss, tries, genesis) && TxsSound(ss, ends, metas) && head in ss && HoldsAt(head, id, n)
    ensures Ancestor(head, n) in ss && TxKey(id, VersionOf(ss, Ancestor(head, n))) in metas
    ensures OnChain(ss, head, VersionOf(ss, Ancestor(head, n)))
  {
    AncestorSaved(ss, tries, genesis, head, n);
    assert TxsIndexed(ss, metas, Ancestor(head, n));
  }

  /** A transaction below its block reference: it is on the chain, and the walk back to the reference misses it. */
  lemma {:induction false} HeldBelowReference(genesis: Id)
    requires genesis.Genesis?
    ensures var b1 := Child(genesis, 0, Body([7]));
            var head := Child(b1, 0, Body([]));
            Number(head) < 2 + 100 && HoldsFrom(head, 7, 0) && !HoldsFrom(head, 7, 2)
  {
    var b1 := Child(genesis, 0, Body([7]));
    var head := Child(b1, 0, Body([]));
    assert Number(b1) == 1 && Number(head) == 2;
    assert Ancestor(head, 2) == head && Ancestor(head, 1) == b1;
    assert HoldsAt(head, 7, 1);
  }
}
