/**
 * The stream of blocks that follows the best chain: blocks that became obsolete by a reorganization
 * are reported in reverse, then the blocks of the new branch one by one.
 */
module BlockReaders {
  import opened Wrappers
  import opened BlockTree
  import opened ChainRepository

  datatype ExtendedBlock = ExtendedBlock(block: Id, obsolete: bool)

  /** All blocks up to this one. */
  function ChainTo(b: Id): (c: seq<Id>)
    ensures c != [] && c[|c| - 1] == b
  {
    if b.Genesis? then [b] else ChainTo(b.parent) + [b]
  }

  /** What a listener keeps: an obsolete block is taken off the tip, another one put on. */
  function Follow(mirror: seq<Id>, batch: seq<ExtendedBlock>): seq<Id> {
    if batch == [] then mirror
    else
      var m := Follow(mirror, batch[..|batch| - 1]);
      if batch[|batch| - 1].obsolete then (if m == [] then m else m[..|m| - 1]) else m + [batch[|batch| - 1].block]
  }

  lemma {:induction false} FollowNext(mirror: seq<Id>, batch: seq<ExtendedBlock>, e: ExtendedBlock)
    ensures var m := Follow(mirror, batch);
            Follow(mirror, batch + [e]) == if e.obsolete then (if m == [] then m else m[..|m| - 1]) else m + [e.block]
  {
    assert (batch + [e])[..|batch|] == batch;
  }

  /** Listeners may take batches one after the other. */
  lemma {:induction false} FollowTwice(mirror: seq<Id>, a: seq<ExtendedBlock>, b: seq<ExtendedBlock>)
    ensures Follow(mirror, a + b) == Follow(Follow(mirror, a), b)
    decreases |b|
  {
    if b == [] {
      assert a + b == a;
    } else {
      assert (a + b)[..|a + b| - 1] == a + b[..|b| - 1];
      FollowTwice(mirror, a, b[..|b| - 1]);
    }
  }

  class BlockReader {
    const repo: Repository
    var position: Id

    ghost predicate Valid()
      reads this, repo
    {
      repo.Valid() && position in repo.summaries
    }

    constructor (repo: Repository, position: Id)
      requires repo.Valid() && position in repo.summaries
      ensures Valid() && this.repo == repo && this.position == position
    {
      this.repo, this.position := repo, position;
    }

    /**
     * The next batch on the way to the best block. Fails exactly if the best block lies behind the position
     * on the same chain; the position has then been moved there, without telling.
     */
    method Read() returns (r: Option<seq<ExtendedBlock>>)
      requires Valid()
      modifies this
      ensures Valid()
      ensures r.None? <==> StrictAncestor(repo.best, old(position))
      ensures r.None? ==> position == repo.best
      ensures r.Some? ==> Follow(ChainTo(old(position)), r.value) == ChainTo(position) && IsAncestor(position, repo.best)
      ensures r == Some([]) <==> old(position) == repo.best
      ensures r.Some? && IsAncestor(old(position), repo.best) && old(position) != repo.best ==> Number(position) == Number(old(position)) + 1
    {
      if repo.best == position {
        return Some([]);
      }
      ghost var start := position;
      var blocks := Retreat(repo.best);
      ghost var common := position;
      var next := repo.GetBlockID(repo.best, Number(position) + 1);
      if next.None? {
        return None;
      }
      AncestorTwice(repo.best, Number(next.value), Number(position));
      FollowNext(ChainTo(start), blocks, ExtendedBlock(next.value, false));
      position := next.value;
      return Some(blocks + [ExtendedBlock(next.value, false)]);
    }

    /** Repeated reads, with the best block fixed, end exactly at it, and a listener has followed all the way. */
    method ReadToEnd() returns (blocks: seq<ExtendedBlock>)
      requires Valid() && !StrictAncestor(repo.best, position)
      modifies this
      ensures Valid() && position == repo.best && Follow(ChainTo(old(position)), blocks) == ChainTo(repo.best)
    {
      blocks := [];
      ghost var start := position;
      while position != repo.best
        invariant Valid() && !StrictAncestor(repo.best, position) && Follow(ChainTo(start), blocks) == ChainTo(position)
        decreases !IsAncestor(position, repo.best), Number(repo.best) - Number(position)
      {
        var batch := Read();
        FollowTwice(ChainTo(start), blocks, batch.value);
        blocks := blocks + batch.value;
      }
    }

    /** Goes back to the best chain; reports what is left behind. */
    method Retreat(best: Id) returns (blocks: seq<ExtendedBlock>)
      requires Valid() && best in repo.summaries
      modifies this
      ensures Valid() && IsAncestor(position, best) && IsAncestor(position, old(position))
      ensures blocks == [] <==> IsAncestor(old(position), best)
      ensures IsAncestor(old(position), best) ==> position == old(position)
      ensures IsAncestor(best, old(position)) ==> position == best
      ensures Follow(ChainTo(old(position)), blocks) == ChainTo(position)
    {
      blocks := [];
      while true
        invariant Valid() && IsAncestor(position, old(position))
        invariant if blocks == [] then position == old(position) else !IsAncestor(old(position), best)
        invariant Follow(ChainTo(old(position)), blocks) == ChainTo(position)
        invariant IsAncestor(best, old(position)) ==> IsAncestor(best, position)
        decreases Number(position)
      {
        var has := false;
        if Number(position) <= Number(best) {
          has := repo.HasBlock(best, position);
        }
        if has {
          return;
        }
        StepsBack(repo.summaries, repo.tries, repo.genesis, best, position, old(position));
        FollowNext(ChainTo(old(position)), blocks, ExtendedBlock(position, true));
        blocks := blocks + [ExtendedBlock(position, true)];
        position := position.parent;
      }
    }
  }

  /** A block that is not on the best chain has a parent, and common ancestors are among the parent's. */
  lemma {:induction false} StepsBack(ss: Summaries, tries: map<Version, Index>, genesis: Id, best: Id, cur: Id, start: Id)
    requires BlocksSound(ss, tries, genesis) && best in ss && cur in ss && !IsAncestor(cur, best) && IsAncestor(cur, start)
    ensures cur.Child? && cur.parent in ss && IsAncestor(cur.parent, start)
    ensures IsAncestor(best, cur) ==> IsAncestor(best, cur.parent)
  {
    assert Saved(ss, genesis, cur);
    if cur.Genesis? {
      AncestorZero(best);
      RootSaved(ss, tries, genesis, best);
    } else {
      AncestorTwice(start, Number(cur), Number(cur.parent));
    }
  }

  lemma {:induction false} RootSaved(ss: Summaries, tries: map<Version, Index>, genesis: Id, b: Id)
    requires BlocksSound(ss, tries, genesis) && b in ss
    ensures Root(b) == genesis
    decreases b
  {
    assert Saved(ss, genesis, b);
    if b.Child? {
      RootSaved(ss, tries, genesis, b.parent);
    }
  }
}
