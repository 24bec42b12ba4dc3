/**
 * The tree of blocks that the chain repository, the BFT engine and the block reader walk over.
 *
 * A block's id is a collision-free hash of a header that contains the parent's id, so an id stands
 * for the block together with all its ancestors. Blocks are modelled that way, and the tree is implicit.
 */
module BlockTree {

  /** A block with its history. `digest` is the part of the id after the block number. */
  datatype Block<+H> =
    | Genesis(digest: nat, header: H)
    | Child(parent: Block<H>, digest: nat, header: H)

  function Number<H>(b: Block<H>): nat {
    if b.Genesis? then 0 else Number(b.parent) + 1
  }

  function Root<H>(b: Block<H>): Block<H> {
    if b.Genesis? then b else Root(b.parent)
  }

  /** The block at height `n` on the chain that ends at `b`. */
  function Ancestor<H>(b: Block<H>, n: nat): (a: Block<H>)
    requires n <= Number(b)
    ensures Number(a) == n
  {
    if Number(b) == n then b else Ancestor(b.parent, n)
  }

  /** `a` is `b` or lies on the chain that ends at `b`. */
  predicate IsAncestor<H(==)>(a: Block<H>, b: Block<H>) {
    Number(a) <= Number(b) && Ancestor(b, Number(a)) == a
  }

  predicate StrictAncestor<H(==)>(a: Block<H>, b: Block<H>) {
    IsAncestor(a, b) && a != b
  }

  lemma {:induction false} AncestorTwice<H>(b: Block<H>, m: nat, n: nat)
    requires n <= m <= Number(b)
    ensures Ancestor(Ancestor(b, m), n) == Ancestor(b, n)
  {
    if Number(b) != m {
      AncestorTwice(b.parent, m, n);
    }
  }

  /** Ancestry is transitive. */
  lemma {:induction false} AncestorTrans<H>(a: Block<H>, b: Block<H>, c: Block<H>)
    requires IsAncestor(a, b) && IsAncestor(b, c)
    ensures IsAncestor(a, c)
  {
    AncestorTwice(c, Number(b), Number(a));
  }

  /** Two ancestors of one block lie on one chain. */
  lemma {:induction false} AncestorsNested<H>(a: Block<H>, b: Block<H>, c: Block<H>)
    requires IsAncestor(a, c) && IsAncestor(b, c) && Number(a) <= Number(b)
    ensures IsAncestor(a, b)
  {
    AncestorTwice(c, Number(b), Number(a));
  }

  lemma {:induction false} RootIsAncestor<H>(b: Block<H>)
    ensures Number(Root(b)) == 0 && IsAncestor(Root(b), b)
  {
    if b.Child? {
      RootIsAncestor(b.parent);
    }
  }

  lemma {:induction false} AncestorZero<H>(b: Block<H>)
    ensures Ancestor(b, 0) == Root(b)
  {
    if b.Child? {
      AncestorZero(b.parent);
    }
  }
}
