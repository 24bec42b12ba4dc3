/** Which checkpoint the engine looks for: that of the first round on a chain that reaches a quality. */
module BftSearch {
  import opened Wrappers
  import opened Arithmetic
  import opened BlockTree
  import opened BftRounds
  import opened BftAnswers

  /** Genesis, or a checkpoint not below the round of the FINALITY fork. */
  ghost predicate Finalizable(c: Config, b: Id)
    requires ValidConfig(c)
  {
    b.Genesis? || (Multiple(c, Number(b)) && Checkpoint(c, c.finality) <= Number(b))
  }

  /** Where the search starts, given the finalized checkpoint. */
  ghost function SearchStart(c: Config, finalized: Id): nat
    requires ValidConfig(c)
  {
    if Number(finalized) == 0 then Checkpoint(c, c.finality) else Number(finalized)
  }

  // ---------- Rounds on a chain ----------

  /** A round starts at `n`, not below that of the FINALITY fork, and a round ends at `head`. */
  ghost predicate SearchRange(c: Config, n: nat, head: nat)
    requires ValidConfig(c)
  {
    Multiple(c, n) && Checkpoint(c, c.finality) <= n && Multiple(c, head + 1)
  }

  /** A round of the range lies on the chain completely, and ends above the FINALITY fork. */
  lemma {:induction false} RoundFits(c: Config, n: nat, head: nat)
    requires ValidConfig(c) && SearchRange(c, n, head) && n <= head
    ensures n + c.epoch - 1 <= head && SearchRange(c, n + c.epoch, head) && c.finality < n + c.epoch
  {
    MultiplesApart(c, n, head + 1);
    MultipleStep(c, n);
  }

  lemma {:induction false} RoundEnd(c: Config, m: nat)
    requires ValidConfig(c) && Multiple(c, m)
    ensures Checkpoint(c, m + c.epoch - 1) == m && Multiple(c, m + c.epoch)
  {
    CheckpointUnique(c, m + c.epoch - 1, m);
    MultipleStep(c, m);
  }

  /** The quality saved at the end of the round that starts at `n`, on the chain of `head`. */
  ghost function QualityAt(c: Config, saved: Saved, n: nat, head: Id): nat
    requires ValidConfig(c) && n + c.epoch - 1 <= Number(head)
  {
    SavedQuality(saved, Ancestor(head, n + c.epoch - 1))
  }

  /** The qualities of all rounds that ended on the chain of `head` were saved, each from an answer of the engine. */
  ghost predicate Known(c: Config, saved: Saved, head: Id)
    requires ValidConfig(c)
  {
    SavedSound(c, saved) && Concluded(c, saved, head)
  }

  lemma {:induction false} QualityOverRound(c: Config, saved: Saved, m: nat, head: Id)
    requires ValidConfig(c) && Known(c, saved, head)
    requires Multiple(c, m) && c.finality < m && m + c.epoch - 1 <= Number(head)
    ensures var q := SavedQuality(saved, Ancestor(head, m - 1));
            q <= QualityAt(c, saved, m, head) <= q + 1
  {
    var b := Ancestor(head, m + c.epoch - 1);
    RoundEnd(c, m);
    assert b in saved;
    SavedStep(c, saved, b);
    AncestorTwice(head, m + c.epoch - 1, m - 1);
  }

  /** Along any chain, saved qualities rise by 0 or 1 per round. */
  lemma {:induction false} QualityRises(c: Config, saved: Saved, n: nat, head: Id)
    requires ValidConfig(c) && Known(c, saved, head) && SearchRange(c, n, Number(head)) && n + c.epoch <= Number(head)
    ensures n + 2 * c.epoch - 1 <= Number(head)
    ensures var q := QualityAt(c, saved, n, head);
            q <= QualityAt(c, saved, n + c.epoch, head) <= q + 1
  {
    RoundFits(c, n, Number(head));
    RoundFits(c, n + c.epoch, Number(head));
    QualityOverRound(c, saved, n + c.epoch, head);
  }

  /** The quality of the round of the FINALITY fork is at most one. */
  lemma {:induction false} FirstQuality(c: Config, saved: Saved, head: Id)
    requires ValidConfig(c) && Known(c, saved, head) && c.finality <= Number(head) && Multiple(c, Number(head) + 1)
    ensures Checkpoint(c, c.finality) + c.epoch - 1 <= Number(head)
    ensures QualityAt(c, saved, Checkpoint(c, c.finality), head) <= 1
  {
    var n := Checkpoint(c, c.finality);
    RoundFits(c, n, Number(head));
    RoundEnd(c, n);
    var b := Ancestor(head, n + c.epoch - 1);
    if b in saved {
      assert SavedAt(c, saved, b);
      SavedStep(c, saved, b);
    }
  }

  /** No later round has a lower quality. */
  lemma {:induction false} QualityMonotone(c: Config, saved: Saved, m: nat, n: nat, head: Id)
    requires ValidConfig(c) && Known(c, saved, head)
    requires SearchRange(c, m, Number(head)) && Multiple(c, n) && m <= n <= Number(head)
    ensures m + c.epoch - 1 <= Number(head) && n + c.epoch - 1 <= Number(head)
    ensures QualityAt(c, saved, m, head) <= QualityAt(c, saved, n, head)
    decreases n - m
  {
    RoundFits(c, m, Number(head));
    RoundFits(c, n, Number(head));
    if m < n {
      MultiplesApart(c, m, n);
      QualityRises(c, saved, m, head);
      QualityMonotone(c, saved, m + c.epoch, n, head);
    }
  }

  /** No round of the range has a higher quality than the head. */
  lemma {:induction false} LastQuality(c: Config, saved: Saved, n: nat, head: Id)
    requires ValidConfig(c) && Known(c, saved, head) && SearchRange(c, n, Number(head)) && n <= Number(head)
    ensures n + c.epoch - 1 <= Number(head)
    ensures QualityAt(c, saved, n, head) <= SavedQuality(saved, head)
  {
    var last := Checkpoint(c, Number(head));
    EndsRound(c, Number(head));
    MultiplesApart(c, n, last + c.epoch);
    MultiplesApart(c, last, n);
    QualityMonotone(c, saved, n, last, head);
  }

  // ---------- The checkpoint that is looked for ----------

  /** The checkpoint of the first round from `n` on that reaches `target`; an error unless it does so exactly. */
  ghost function CheckpointFor(c: Config, saved: Saved, target: nat, n: nat, head: Id): Result<Id, Error>
    requires ValidConfig(c)
    decreases Number(head) - n
  {
    if Number(head) < n + c.epoch - 1 then Err(QualityNotFound)
    else
      var q := QualityAt(c, saved, n, head);
      if q == target then Ok(Ancestor(head, n))
      else if q > target then Err(QualityNotFound)
      else CheckpointFor(c, saved, target, n + c.epoch, head)
  }

  /**
   * What is found is a checkpoint on the chain of `head` whose round reaches the target exactly,
   * and no earlier round from the start on reaches it.
   */
  lemma {:induction false} CheckpointForIsFirst(c: Config, saved: Saved, target: nat, n: nat, head: Id)
    requires ValidConfig(c) && Multiple(c, n) && CheckpointFor(c, saved, target, n, head).Ok?
    ensures var id := CheckpointFor(c, saved, target, n, head).value;
            && n <= Number(id) && Number(id) + c.epoch - 1 <= Number(head) && Multiple(c, Number(id))
            && id == Ancestor(head, Number(id))
            && QualityAt(c, saved, Number(id), head) == target
            && forall m :: n <= m < Number(id) && Multiple(c, m) ==> QualityAt(c, saved, m, head) < target
    decreases Number(head) - n
  {
    if QualityAt(c, saved, n, head) < target {
      RoundEnd(c, n);
      CheckpointForIsFirst(c, saved, target, n + c.epoch, head);
      forall m | n <= m < n + c.epoch && Multiple(c, m) ensures m == n {
        MultiplesApart(c, n, m);
      }
    }
  }

  /**
   * The search succeeds, if and only if the target lies between the quality of the first round
   * searched and that of the round that `head` ends.
   */
  lemma {:induction false} CheckpointFoundIff(c: Config, saved: Saved, target: nat, n: nat, head: Id)
    requires ValidConfig(c) && Known(c, saved, head) && SearchRange(c, n, Number(head)) && n <= Number(head)
    ensures n + c.epoch - 1 <= Number(head)
    ensures CheckpointFor(c, saved, target, n, head).Ok? <==> QualityAt(c, saved, n, head) <= target <= SavedQuality(saved, head)
    decreases Number(head) - n
  {
    RoundFits(c, n, Number(head));
    LastQuality(c, saved, n, head);
    if n + c.epoch <= Number(head) {
      QualityRises(c, saved, n, head);
      CheckpointFoundIff(c, saved, target, n + c.epoch, head);
    }
  }

  // ---------- Binary search over round indices ----------

  /** The 32-bit sums for a search that starts above the head do not wrap around. */
  ghost predicate NoWrap(c: Config, start: nat, head: nat) {
    start + head + 3 * c.epoch <= U32
  }

  /** The low 32 bits. */
  function Word(n: nat): (r: nat)
    ensures r < 0x1_0000_0000 && r <= n && (n - r) % 0x1_0000_0000 == 0
  {
    n % U32
  }

  /** Subtraction of 32-bit numbers. */
  function Sub32(a: nat, b: nat): (r: nat)
    requires b < U32
    ensures r < 0x1_0000_0000 && (r + b) % 0x1_0000_0000 == a % 0x1_0000_0000
  {
    (a + U32 - b) % U32
  }

  /** Start of the round with index `i` from `start`. */
  ghost function At(c: Config, start: nat, i: nat): nat {
    if i == 0 then start else At(c, start, i - 1) + c.epoch
  }

  lemma {:induction false} AtIsProduct(c: Config, start: nat, i: nat)
    ensures At(c, start, i) == start + i * c.epoch
  {
    if i > 0 {
      AtIsProduct(c, start, i - 1);
      assert i * c.epoch == (i - 1) * c.epoch + c.epoch;
    }
  }

  lemma {:induction false} AtMultiple(c: Config, start: nat, i: nat)
    requires ValidConfig(c) && Multiple(c, start)
    ensures Multiple(c, At(c, start, i))
  {
    if i > 0 {
      AtMultiple(c, start, i - 1);
      MultipleStep(c, At(c, start, i - 1));
    }
  }

  lemma {:induction false} AtMonotone(c: Config, start: nat, i: nat, j: nat)
    requires i <= j
    ensures start <= At(c, start, i) <= At(c, start, j)
    ensures i < j ==> At(c, start, i) + c.epoch <= At(c, start, j)
    decreases j
  {
    if i < j {
      AtMonotone(c, start, i, j - 1);
    } else if i > 0 {
      AtMonotone(c, start, i - 1, j - 1);
    }
  }

  /** The last height of the round of `p`, as the engine computes it in 32 bits. */
  function Store32(c: Config, p: nat): nat
    requires c.epoch > 0
  {
    (p % U32 / c.epoch * c.epoch + c.epoch - 1) % U32
  }

  /** In 32 bits before and after. */
  lemma {:induction false} Store32Is(c: Config, p: nat)
    requires ValidConfig(c)
    ensures Store32(c, p) == (Checkpoint(c, p % 0x1_0000_0000) + c.epoch - 1) % 0x1_0000_0000
  {
    QuotientIsCheckpoint(c, p % U32);
  }

  lemma {:induction false} Store32Exact(c: Config, p: nat)
    requires ValidConfig(c) && p + c.epoch <= U32
    ensures Store32(c, p) == Checkpoint(c, p) + c.epoch - 1
  {
    Store32Is(c, p);
    assert p % U32 == p;
    var q := Checkpoint(c, p);
    assert (q + c.epoch - 1) % U32 == q + c.epoch - 1;
  }

  /** Number of rounds the engine searches. */
  function RoundCount(c: Config, start: nat, head: nat): nat
    requires c.epoch > 0 && start < U32
  {
    Sub32(head, start) / c.epoch + 1
  }

  /** The rounds searched end exactly at `head`. */
  lemma {:induction false} RoundsEnd(c: Config, start: nat, head: nat)
    requires ValidConfig(c) && SearchRange(c, start, head) && start <= head < U32
    ensures At(c, start, RoundCount(c, start, head)) == head + 1
  {
    var k := LastIndex(c, start, head);
    AtMultiple(c, start, k + 1);
    MultiplesApart(c, head + 1, At(c, start, k + 1));
  }

  lemma {:induction false} LastIndex(c: Config, start: nat, head: nat) returns (k: nat)
    requires ValidConfig(c) && start <= head < U32
    ensures RoundCount(c, start, head) == k + 1 && At(c, start, k) <= head < At(c, start, k) + c.epoch
  {
    k := (head - start) / c.epoch;
    assert Sub32(head, start) == head - start;
    AtIsProduct(c, start, k);
    var r := (head - start) % c.epoch;
    assert head - start == k * c.epoch + r && r < c.epoch;
  }

  ghost predicate IsRound(c: Config, start: nat, i: nat, head: nat)
    requires ValidConfig(c)
  {
    Multiple(c, At(c, start, i)) && start <= At(c, start, i) && At(c, start, i) + c.epoch - 1 <= head
  }

  lemma {:induction false} RoundInRange(c: Config, start: nat, head: nat, i: nat, n: nat)
    requires ValidConfig(c) && SearchRange(c, start, head) && start <= head < U32
    requires i < n && At(c, start, n) == head + 1
    ensures IsRound(c, start, i, head)
    ensures Store32(c, start + i * c.epoch) == At(c, start, i) + c.epoch - 1
  {
    IsRoundBelow(c, start, i, n, head);
    AtIsProduct(c, start, i);
    Store32OfStart(c, At(c, start, i));
  }

  lemma {:induction false} Store32OfStart(c: Config, p: nat)
    requires ValidConfig(c) && Multiple(c, p) && p + c.epoch <= U32
    ensures Store32(c, p) == p + c.epoch - 1
  {
    Store32Exact(c, p);
    CheckpointUnique(c, p, p);
  }

  lemma {:induction false} HalfTheRounds(e: nat, d: nat, i: nat)
    requires 1 <= e && i == (d / e + 1) / 2
    ensures 2 * (i * e) <= d + e
  {
    assert d / e * e <= d;
    assert (2 * i) * e <= (d / e + 1) * e by {
      MulGap(2 * i, d / e + 1, e);
    }
    assert (d / e + 1) * e == d / e * e + e;
    assert (2 * i) * e == 2 * (i * e);
  }

  /** If the head is below the start, the subtraction wraps and the first probe is off the chain. */
  lemma {:induction false} WrappedProbe(c: Config, start: nat, head: nat)
    requires ValidConfig(c) && head < start < U32 && NoWrap(c, start, head)
    ensures Store32(c, start + RoundCount(c, start, head) / 2 * c.epoch) > head
  {
    var i := RoundCount(c, start, head) / 2;
    HalfTheRounds(c.epoch, Sub32(head, start), i);
    Store32Exact(c, start + i * c.epoch);
  }

  /** `qs` are the qualities of the rounds from `start` up to `head`; arbitrary if the count wrapped around. */
  ghost predicate Searched(c: Config, saved: Saved, start: nat, head: Id, qs: seq<nat>)
    requires ValidConfig(c)
  {
    if start <= Number(head) then
      && At(c, start, |qs|) == Number(head) + 1
      && forall i: nat {:trigger IsRound(c, start, i, Number(head))} :: i < |qs| ==>
           IsRound(c, start, i, Number(head)) && qs[i] == QualityAt(c, saved, At(c, start, i), head)
    else
      start < U32 && |qs| == RoundCount(c, start, Number(head))
  }

  lemma {:induction false} SearchedExists(c: Config, saved: Saved, start: nat, head: Id) returns (qs: seq<nat>)
    requires ValidConfig(c) && SearchRange(c, start, Number(head)) && start < U32 && Number(head) < U32
    ensures |qs| == RoundCount(c, start, Number(head)) && Searched(c, saved, start, head, qs)
  {
    if start <= Number(head) {
      RoundsEnd(c, start, Number(head));
      qs := QualitiesOf(c, saved, start, RoundCount(c, start, Number(head)), head);
    } else {
      qs := seq(RoundCount(c, start, Number(head)), i => 0);
    }
  }

  lemma {:induction false} QualitiesOf(c: Config, saved: Saved, start: nat, n: nat, head: Id) returns (qs: seq<nat>)
    requires ValidConfig(c) && Multiple(c, start) && start <= Number(head) && At(c, start, n) == Number(head) + 1
    ensures |qs| == n && Searched(c, saved, start, head, qs)
  {
    qs := seq(n, (i: nat) => QualityOrZero(c, saved, start, i, head));
    forall i: nat {:trigger IsRound(c, start, i, Number(head))} | i < n
      ensures IsRound(c, start, i, Number(head)) && qs[i] == QualityAt(c, saved, At(c, start, i), head)
    {
      IsRoundBelow(c, start, i, n, Number(head));
      assert qs[i] == QualityOrZero(c, saved, start, i, head);
    }
  }

  ghost function QualityOrZero(c: Config, saved: Saved, start: nat, i: nat, head: Id): nat
    requires ValidConfig(c)
  {
    if IsRound(c, start, i, Number(head)) then QualityAt(c, saved, At(c, start, i), head) else 0
  }

  lemma {:induction false} IsRoundBelow(c: Config, start: nat, i: nat, n: nat, head: nat)
    requires ValidConfig(c) && Multiple(c, start) && At(c, start, n) == head + 1 && i < n
    ensures IsRound(c, start, i, head)
  {
    AtMonotone(c, start, i, n);
    AtMultiple(c, start, i);
  }

  /** Rounds before one that is below the target may be skipped. */
  lemma {:induction false} Skip(c: Config, saved: Saved, target: nat, n: nat, m: nat, head: Id)
    requires ValidConfig(c) && Known(c, saved, head) && SearchRange(c, n, Number(head))
    requires Multiple(c, m) && n <= m && m + c.epoch - 1 <= Number(head) && QualityAt(c, saved, m, head) < target
    ensures CheckpointFor(c, saved, target, n, head) == CheckpointFor(c, saved, target, m + c.epoch, head)
    decreases m - n
  {
    QualityMonotone(c, saved, n, m, head);
    if n < m {
      MultiplesApart(c, n, m);
      RoundFits(c, n, Number(head));
      Skip(c, saved, target, n + c.epoch, m, head);
    }
  }

  /** What the index found by the binary search says about the checkpoint looked for. */
  lemma {:induction false} SearchResult(c: Config, saved: Saved, target: nat, start: nat, qs: seq<nat>, i: nat, head: Id)
    requires ValidConfig(c) && Known(c, saved, head) && SearchRange(c, start, Number(head))
    requires start <= Number(head) && Searched(c, saved, start, head, qs) && i <= |qs|
    requires i > 0 ==> qs[i - 1] < target
    requires i < |qs| ==> qs[i] >= target && IsRound(c, start, i, Number(head))
    ensures CheckpointFor(c, saved, target, start, head) ==
              if i < |qs| && qs[i] == target then Ok(Ancestor(head, At(c, start, i))) else Err(QualityNotFound)
  {
    if i > 0 {
      assert IsRound(c, start, i - 1, Number(head)) && QualityAt(c, saved, At(c, start, i - 1), head) < target;
      SkipTo(c, saved, target, start, i, head);
    }
    if i < |qs| {
      assert IsRound(c, start, i, Number(head)) && QualityAt(c, saved, At(c, start, i), head) == qs[i];
    }
  }

  lemma {:induction false} SkipTo(c: Config, saved: Saved, target: nat, start: nat, i: nat, head: Id)
    requires ValidConfig(c) && Known(c, saved, head) && SearchRange(c, start, Number(head)) && 0 < i
    requires IsRound(c, start, i - 1, Number(head)) && QualityAt(c, saved, At(c, start, i - 1), head) < target
    ensures CheckpointFor(c, saved, target, start, head) == CheckpointFor(c, saved, target, At(c, start, i), head)
  {
    var m := At(c, start, i - 1);
    assert At(c, start, i) == m + c.epoch;
    Skip(c, saved, target, start, m, head);
  }
}
