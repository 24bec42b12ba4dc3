/** The votes of one BFT round: how blocks are tallied and when a round is justified or committed. */
module BftVotes {
  import opened Wrappers
  import opened WeightedSets

  /** What one block contributes to its round. */
  datatype Ballot = Ballot(signer: Address, com: bool, weight: nat)

  datatype Vote = Vote(isCom: bool, weight: nat)

  datatype BftState = BftState(quality: nat, justified: bool, committed: bool)

  /** The parameters a round starts with. */
  datatype Round = Round(parentQuality: nat, checkpoint: nat, thresholdVotes: nat, thresholdWeight: nat)

  /** Two thirds, rounded down. */
  function TwoThirds(total: nat): nat {
    total * 2 / 3
  }

  // ---------- What a round's votes mean ----------

  ghost function Signers(bs: seq<Ballot>): set<Address> {
    set b | b in bs :: b.signer
  }

  ghost predicate AllCom(bs: seq<Ballot>, s: Address) {
    forall b :: b in bs && b.signer == s ==> b.com
  }

  /** The weight on the first ballot of `s`. */
  ghost function FirstWeight(bs: seq<Ballot>, s: Address): nat
    requires s in Signers(bs)
  {
    if bs[0].signer == s then bs[0].weight else FirstWeight(bs[1..], s)
  }

  /** One vote per signer: COM iff every ballot of the signer is COM. */
  ghost function VotesOf(bs: seq<Ballot>): map<Address, Vote> {
    map s | s in Signers(bs) :: Vote(AllCom(bs, s), FirstWeight(bs, s))
  }

  /** Every signer carries one weight throughout the round. */
  ghost predicate Stable(bs: seq<Ballot>) {
    forall b, c :: b in bs && c in bs && b.signer == c.signer ==> b.weight == c.weight
  }

  ghost function ComSigners(votes: map<Address, Vote>): set<Address> {
    set s | s in votes && votes[s].isCom
  }

  ghost function Weights(votes: map<Address, Vote>): map<Address, nat> {
    map s | s in votes :: votes[s].weight
  }

  /** The outcome of a round with the given votes. */
  ghost function Summary(r: Round, votes: map<Address, Vote>): BftState {
    var justified := if r.thresholdWeight == 0 then |votes.Keys| > r.thresholdVotes
                     else Sum(votes.Keys, Weights(votes)) > r.thresholdWeight;
    var committed := if r.thresholdWeight == 0 then |ComSigners(votes)| > r.thresholdVotes
                     else Sum(ComSigners(votes), Weights(votes)) > r.thresholdWeight;
    BftState(if justified then r.parentQuality + 1 else r.parentQuality, justified, committed)
  }

  // ---------- Tallying one block at a time ----------

  /** The effect of one block on the votes. */
  function AddVote(votes: map<Address, Vote>, b: Ballot): map<Address, Vote> {
    if b.signer !in votes then votes[b.signer := Vote(b.com, b.weight)]
    else if votes[b.signer].isCom != b.com then votes[b.signer := Vote(false, votes[b.signer].weight)]
    else votes
  }

  /** The votes after adding blocks one by one. */
  ghost function Fold(bs: seq<Ballot>): map<Address, Vote> {
    if bs == [] then map[] else AddVote(Fold(bs[..|bs| - 1]), bs[|bs| - 1])
  }

  lemma {:induction false} FirstWeightAppend(bs: seq<Ballot>, b: Ballot, s: Address)
    requires s in Signers(bs)
    ensures s in Signers(bs + [b]) && FirstWeight(bs + [b], s) == FirstWeight(bs, s)
  {
    assert forall x :: x in bs ==> x in bs + [b];
    if bs[0].signer != s {
      assert (bs + [b])[1..] == bs[1..] + [b];
      FirstWeightAppend(bs[1..], b, s);
    }
  }

  lemma {:induction false} FirstWeightNew(bs: seq<Ballot>, b: Ballot)
    requires b.signer !in Signers(bs)
    ensures b.signer in Signers(bs + [b]) && FirstWeight(bs + [b], b.signer) == b.weight
  {
    assert (bs + [b])[|bs|] == b;
    if bs != [] {
      assert (bs + [b])[1..] == bs[1..] + [b];
      assert forall x :: x in bs[1..] ==> x in bs;
      FirstWeightNew(bs[1..], b);
      assert bs[0] in bs;
    }
  }

  lemma {:induction false} FirstWeightIsCast(bs: seq<Ballot>, s: Address)
    requires s in Signers(bs)
    ensures exists b :: b in bs && b.signer == s && b.weight == FirstWeight(bs, s)
  {
    if bs[0].signer != s {
      FirstWeightIsCast(bs[1..], s);
    }
  }

  /** Adding a block after the others extends the votes to the longer round. */
  lemma {:induction false} VotesAppend(bs: seq<Ballot>, b: Ballot)
    ensures AddVote(VotesOf(bs), b) == VotesOf(bs + [b])
  {
    var cs := bs + [b];
    assert forall x :: x in cs <==> x in bs || x == b;
    assert Signers(cs) == Signers(bs) + {b.signer};
    forall s | s in Signers(bs) ensures FirstWeight(cs, s) == FirstWeight(bs, s) {
      FirstWeightAppend(bs, b, s);
    }
    if b.signer !in Signers(bs) {
      FirstWeightNew(bs, b);
    }
  }

  /** Folding block by block computes the votes of the whole round, in whatever order it goes. */
  lemma {:induction false} FoldIsVotes(bs: seq<Ballot>)
    ensures Fold(bs) == VotesOf(bs)
  {
    if bs != [] {
      FoldIsVotes(bs[..|bs| - 1]);
      VotesAppend(bs[..|bs| - 1], bs[|bs| - 1]);
      assert bs[..|bs| - 1] + [bs[|bs| - 1]] == bs;
    }
  }

  /** With stable weights the votes do not depend on the order of the blocks. */
  lemma {:induction false} VotesPermute(bs: seq<Ballot>, cs: seq<Ballot>)
    requires Stable(bs)
    requires forall b :: b in bs <==> b in cs
    ensures VotesOf(bs) == VotesOf(cs)
  {
    assert Signers(bs) == Signers(cs);
    forall s | s in Signers(bs) ensures FirstWeight(bs, s) == FirstWeight(cs, s) {
      FirstWeightIsCast(bs, s);
      FirstWeightIsCast(cs, s);
    }
  }

  /** Adding a block before the others gives the same votes as adding it after them. */
  lemma {:induction false} VotesPrepend(b: Ballot, bs: seq<Ballot>)
    requires Stable([b] + bs)
    ensures AddVote(VotesOf(bs), b) == VotesOf([b] + bs)
  {
    VotesAppend(bs, b);
    VotesPermute([b] + bs, bs + [b]);
  }

  // ---------- Exactly when every history of the tally agrees ----------

  ghost function Reverse(bs: seq<Ballot>): seq<Ballot> {
    if bs == [] then [] else [bs[|bs| - 1]] + Reverse(bs[..|bs| - 1])
  }

  lemma {:induction false} ReverseMembers(bs: seq<Ballot>)
    ensures forall b :: b in Reverse(bs) <==> b in bs
  {
    if bs != [] {
      ReverseMembers(bs[..|bs| - 1]);
      assert bs == bs[..|bs| - 1] + [bs[|bs| - 1]];
    }
  }

  /** Votes of a tally that was rebuilt backwards after `k` blocks and extended forwards from there. */
  ghost function History(bs: seq<Ballot>, k: nat): map<Address, Vote>
    requires k <= |bs|
  {
    Fold(Reverse(bs[..k]) + bs[k..])
  }

  lemma {:induction false} ReversePrepend(b: Ballot, bs: seq<Ballot>)
    ensures Reverse([b] + bs) == Reverse(bs) + [b]
  {
    if bs == [] {
      assert [b] + bs == [b] && [b][..0] == [];
    } else {
      var n := |bs| - 1;
      assert ([b] + bs)[..n + 1] == [b] + bs[..n];
      ReversePrepend(b, bs[..n]);
    }
  }

  lemma {:induction false} ReverseTwice(bs: seq<Ballot>)
    ensures Reverse(Reverse(bs)) == bs && |Reverse(bs)| == |bs|
  {
    if bs != [] {
      var n := |bs| - 1;
      ReverseTwice(bs[..n]);
      ReversePrepend(bs[n], Reverse(bs[..n]));
    }
  }

  lemma {:induction false} ReverseAt(bs: seq<Ballot>, i: nat)
    requires i < |bs|
    ensures |Reverse(bs)| == |bs| && Reverse(bs)[i] == bs[|bs| - 1 - i]
  {
    if |bs| > 1 {
      ReverseAt(bs[..|bs| - 1], if i > 0 then i - 1 else 0);
    }
  }

  lemma {:induction false} HistoryAppend(bs: seq<Ballot>, b: Ballot, k: nat)
    requires k <= |bs|
    ensures History(bs + [b], k) == AddVote(History(bs, k), b)
  {
    var cs := Reverse(bs[..k]) + bs[k..];
    assert (bs + [b])[..k] == bs[..k] && Reverse(bs[..k]) + (bs + [b])[k..] == cs + [b];
    assert (cs + [b])[..|cs|] == cs;
  }

  /** Every history has a vote for each signer, COM iff all ballots of the signer are, with the weight of one of them. */
  lemma {:induction false} HistoryVotes(bs: seq<Ballot>, k: nat)
    requires k <= |bs|
    ensures History(bs, k).Keys == Signers(bs) && ComSigners(History(bs, k)) == set s | s in Signers(bs) && AllCom(bs, s)
    ensures forall s :: s in History(bs, k) ==> Casts(bs, s, History(bs, k)[s].weight)
  {
    var cs := Reverse(bs[..k]) + bs[k..];
    FoldIsVotes(cs);
    ReverseMembers(bs[..k]);
    assert bs == bs[..k] + bs[k..];
    assert forall v :: v in cs <==> v in bs;
    assert Signers(cs) == Signers(bs);
    forall s | s in History(bs, k) ensures Casts(bs, s, History(bs, k)[s].weight) {
      FirstWeightIsCast(cs, s);
    }
  }

  /** A ballot of `s` has this weight. */
  ghost predicate Casts(bs: seq<Ballot>, s: Address, weight: nat) {
    exists b :: b in bs && b.signer == s && b.weight == weight
  }

  lemma {:induction false} HistoryWeight(bs: seq<Ballot>, i: nat)
    requires i < |bs|
    ensures bs[i].signer in History(bs, i + 1) && History(bs, i + 1)[bs[i].signer].weight == bs[i].weight
  {
    var cs := Reverse(bs[..i + 1]) + bs[i + 1..];
    assert cs[0] == bs[i] && cs[0] in cs;
    FoldIsVotes(cs);
  }

  /**
   * Whatever mixture of backward rebuilding and forward extension produced a tally, its votes are
   * the same, if and only if no signer changes weight inside the round.
   */
  lemma {:induction false} HistoriesAgreeIffStable(bs: seq<Ballot>)
    ensures (forall k | 0 <= k <= |bs| :: History(bs, k) == Fold(bs)) <==> Stable(bs)
  {
    if Stable(bs) {
      forall k | 0 <= k <= |bs| ensures History(bs, k) == Fold(bs) {
        var cs := Reverse(bs[..k]) + bs[k..];
        ReverseMembers(bs[..k]);
        assert bs == bs[..k] + bs[k..];
        VotesPermute(bs, cs);
        FoldIsVotes(bs);
        FoldIsVotes(cs);
      }
    }
    if forall k | 0 <= k <= |bs| :: History(bs, k) == Fold(bs) {
      forall b, c | b in bs && c in bs && b.signer == c.signer ensures b.weight == c.weight {
        var i :| 0 <= i < |bs| && bs[i] == b;
        var j :| 0 <= j < |bs| && bs[j] == c;
        HistoryWeight(bs, i);
        HistoryWeight(bs, j);
      }
    }
  }

  // ---------- Properties of every tally ----------

  /** A summary by weight, as fractions of the total. */
  lemma {:induction false} SummaryByWeight(r: Round, votes: map<Address, Vote>, total: nat)
    requires total > 0 && r.thresholdVotes == 0 && r.thresholdWeight == TwoThirds(total)
    ensures total > 1 ==> (Summary(r, votes).justified <==> 3 * Sum(votes.Keys, Weights(votes)) > 2 * total)
    ensures total > 1 ==> (Summary(r, votes).committed <==> 3 * Sum(ComSigners(votes), Weights(votes)) > 2 * total)
    ensures total == 1 ==> (Summary(r, votes).justified <==> votes.Keys != {})
    ensures total == 1 ==> (Summary(r, votes).committed <==> ComSigners(votes) != {})
  {
  }

  /** A committed round is justified. */
  lemma {:induction false} CommittedIsJustified(r: Round, votes: map<Address, Vote>)
    ensures Summary(r, votes).committed ==> Summary(r, votes).justified
  {
    CardSubset(ComSigners(votes), votes.Keys);
    SumMonotone(ComSigners(votes), votes.Keys, Weights(votes));
  }

  lemma {:induction false} CardSubset<T>(a: set<T>, b: set<T>)
    requires a <= b
    ensures |a| <= |b|
  {
    if a != {} {
      var x :| x in a;
      CardSubset(a - {x}, b - {x});
    }
  }

  /** A block added to a round never takes its justification away. */
  lemma {:induction false} AddingKeepsJustified(r: Round, votes: map<Address, Vote>, b: Ballot)
    requires Summary(r, votes).justified
    ensures Summary(r, AddVote(votes, b)).justified
  {
    var votes' := AddVote(votes, b);
    assert votes.Keys <= votes'.Keys;
    CardSubset(votes.Keys, votes'.Keys);
    SumMonotone(votes.Keys, votes'.Keys, Weights(votes'));
    SumAgree(votes.Keys, Weights(votes), Weights(votes'));
  }

  lemma {:induction false} OverlapArithmetic(total: nat, a: nat, b: nat, union: nat, common: nat)
    requires union + common == a + b && union <= total
    requires a > TwoThirds(total) && b > TwoThirds(total)
    ensures 3 * common > total
  {
    assert 3 * TwoThirds(total) >= 2 * total - 2;
  }

  /** Two sets of more than two thirds of the weight share more than a third. */
  lemma {:induction false} WeightsOverlap(validators: map<Address, nat>, a: set<Address>, b: set<Address>)
    requires a <= validators.Keys && b <= validators.Keys
    requires Sum(a, validators) > TwoThirds(Sum(validators.Keys, validators)) && Sum(b, validators) > TwoThirds(Sum(validators.Keys, validators))
    ensures 3 * Sum(a * b, validators) > Sum(validators.Keys, validators)
  {
    SumUnion(a, b, validators);
    SumMonotone(a + b, validators.Keys, validators);
    OverlapArithmetic(Sum(validators.Keys, validators), Sum(a, validators), Sum(b, validators), Sum(a + b, validators), Sum(a * b, validators));
  }

  lemma {:induction false} HeadsOverlap(proposers: set<Address>, a: set<Address>, b: set<Address>)
    requires a <= proposers && b <= proposers && |a| > TwoThirds(|proposers|) && |b| > TwoThirds(|proposers|)
    ensures 3 * |a * b| > |proposers|
  {
    CardSubset(a + b, proposers);
    OverlapArithmetic(|proposers|, |a|, |b|, |a + b|, |a * b|);
  }

  lemma {:induction false} JustifiedByWeight(validators: map<Address, nat>, r: Round, v: map<Address, Vote>)
    requires 2 <= Sum(validators.Keys, validators)
    requires r.thresholdWeight == TwoThirds(Sum(validators.Keys, validators))
    requires forall s :: s in v ==> s in validators && v[s].weight == validators[s]
    ensures v.Keys <= validators.Keys && ComSigners(v) <= v.Keys
    ensures Summary(r, v).justified <==> Sum(v.Keys, validators) > r.thresholdWeight
    ensures Summary(r, v).committed <==> Sum(ComSigners(v), validators) > r.thresholdWeight
  {
    SumAgree(v.Keys, Weights(v), validators);
    SumAgree(ComSigners(v), Weights(v), validators);
  }

  /** Two rounds justified by weight share signers that carry more than a third of the total. */
  lemma {:induction false} QuorumOverlapByWeight(validators: map<Address, nat>, r1: Round, v1: map<Address, Vote>, r2: Round, v2: map<Address, Vote>)
    requires 2 <= Sum(validators.Keys, validators)
    requires r1.thresholdWeight == r2.thresholdWeight == TwoThirds(Sum(validators.Keys, validators))
    requires forall s :: s in v1 ==> s in validators && v1[s].weight == validators[s]
    requires forall s :: s in v2 ==> s in validators && v2[s].weight == validators[s]
    requires Summary(r1, v1).justified && Summary(r2, v2).justified
    ensures 3 * Sum(v1.Keys * v2.Keys, validators) > Sum(validators.Keys, validators)
  {
    JustifiedByWeight(validators, r1, v1);
    JustifiedByWeight(validators, r2, v2);
    WeightsOverlap(validators, v1.Keys, v2.Keys);
  }

  /** Two rounds justified by head count share more than a third of the proposers. */
  lemma {:induction false} QuorumOverlapByCount(proposers: set<Address>, r1: Round, v1: map<Address, Vote>, r2: Round, v2: map<Address, Vote>)
    requires r1.thresholdWeight == r2.thresholdWeight == 0
    requires r1.thresholdVotes == r2.thresholdVotes == TwoThirds(|proposers|)
    requires v1.Keys <= proposers && v2.Keys <= proposers
    requires Summary(r1, v1).justified && Summary(r2, v2).justified
    ensures 3 * |v1.Keys * v2.Keys| > |proposers|
  {
    HeadsOverlap(proposers, v1.Keys, v2.Keys);
  }

  // ---------- The mutable tally ----------

  /** The votes of a round with running counters, updated in place. */
  class Justifier {
    const round: Round
    var votes: map<Address, Vote>
    var comVotes: nat
    var comWeight: nat
    var justifiedWeight: nat

    ghost predicate Valid()
      reads this
    {
      && comVotes == |ComSigners(votes)|
      && comWeight == Sum(ComSigners(votes), Weights(votes))
      && justifiedWeight == Sum(votes.Keys, Weights(votes))
    }

    constructor (round: Round)
      ensures Valid() && this.round == round && votes == map[]
    {
      this.round := round;
      votes := map[];
      comVotes, comWeight, justifiedWeight := 0, 0, 0;
      new;
      assert ComSigners(votes) == {} && votes.Keys == {};
    }

    method AddBlock(signer: Address, isCom: bool, weight: nat)
      requires Valid()
      modifies this
      ensures Valid()
      ensures votes == AddVote(old(votes), Ballot(signer, isCom, weight))
    {
      ghost var before := votes;
      if signer !in votes {
        votes := votes[signer := Vote(isCom, weight)];
        if weight != 0 {
          justifiedWeight := justifiedWeight + weight;
        }
        if isCom {
          comVotes := comVotes + 1;
          if weight != 0 {
            comWeight := comWeight + weight;
          }
        }
        CountersAfterNew(before, signer, Vote(isCom, weight));
      } else if votes[signer].isCom != isCom {
        var prev := votes[signer];
        votes := votes[signer := Vote(false, prev.weight)];
        CountersAfterMixed(before, signer);
        if prev.isCom {
          comVotes := comVotes - 1;
          if prev.weight != 0 {
            comWeight := comWeight - prev.weight;
          }
        }
      }
    }

    method Summarize() returns (st: BftState)
      requires Valid()
      ensures st == Summary(round, votes)
    {
      var justified, committed;
      if round.thresholdWeight == 0 {
        justified := |votes| > round.thresholdVotes;
        committed := comVotes > round.thresholdVotes;
      } else {
        justified := justifiedWeight > round.thresholdWeight;
        committed := comWeight > round.thresholdWeight;
      }
      assert |votes| == |votes.Keys|;
      var quality;
      if justified {
        quality := round.parentQuality + 1;
      } else {
        quality := round.parentQuality;
      }
      st := BftState(quality, justified, committed);
    }
  }

  lemma {:induction false} CountersAfterNew(votes: map<Address, Vote>, s: Address, v: Vote)
    requires s !in votes
    ensures var votes' := votes[s := v];
            && Sum(votes'.Keys, Weights(votes')) == Sum(votes.Keys, Weights(votes)) + v.weight
            && (v.isCom ==>
                  && |ComSigners(votes')| == |ComSigners(votes)| + 1
                  && Sum(ComSigners(votes'), Weights(votes')) == Sum(ComSigners(votes), Weights(votes)) + v.weight)
            && (!v.isCom ==>
                  && |ComSigners(votes')| == |ComSigners(votes)|
                  && Sum(ComSigners(votes'), Weights(votes')) == Sum(ComSigners(votes), Weights(votes)))
  {
    var votes' := votes[s := v];
    assert votes'.Keys == votes.Keys + {s};
    SumAdd(votes.Keys, s, Weights(votes'));
    SumAgree(votes.Keys, Weights(votes), Weights(votes'));
    SumAgree(ComSigners(votes), Weights(votes), Weights(votes'));
    if v.isCom {
      assert ComSigners(votes') == ComSigners(votes) + {s};
      SumAdd(ComSigners(votes), s, Weights(votes'));
    } else {
      assert ComSigners(votes') == ComSigners(votes);
    }
  }

  lemma {:induction false} CountersAfterMixed(votes: map<Address, Vote>, s: Address)
    requires s in votes
    ensures var votes' := votes[s := Vote(false, votes[s].weight)];
            && Sum(votes'.Keys, Weights(votes')) == Sum(votes.Keys, Weights(votes))
            && (votes[s].isCom ==>
                  && |ComSigners(votes')| == |ComSigners(votes)| - 1
                  && Sum(ComSigners(votes'), Weights(votes')) == Sum(ComSigners(votes), Weights(votes)) - votes[s].weight)
            && (!votes[s].isCom ==>
                  && ComSigners(votes') == ComSigners(votes)
                  && Sum(ComSigners(votes'), Weights(votes')) == Sum(ComSigners(votes), Weights(votes)))
  {
    var votes' := votes[s := Vote(false, votes[s].weight)];
    assert votes'.Keys == votes.Keys && Weights(votes') == Weights(votes);
    if votes[s].isCom {
      assert ComSigners(votes') == ComSigners(votes) - {s};
      SumTake(ComSigners(votes), s, Weights(votes));
    } else {
      assert ComSigners(votes') == ComSigners(votes);
    }
  }
}
