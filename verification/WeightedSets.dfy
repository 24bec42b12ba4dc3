/** Sums of weights over finite sets. */
module WeightedSets {

  /** The total weight of `s`; keys without a weight count 0. */
  ghost function Sum<K(!new)>(s: set<K>, w: map<K, nat>): nat {
    if s == {} then 0
    else
      var x :| x in s;
      (if x in w then w[x] else 0) + Sum(s - {x}, w)
  }

  ghost function Weight<K>(x: K, w: map<K, nat>): nat {
    if x in w then w[x] else 0
  }

  /** Any element may be taken out first. */
  lemma {:induction false} SumTake<K(!new)>(s: set<K>, x: K, w: map<K, nat>)
    requires x in s
    ensures Sum(s, w) == Weight(x, w) + Sum(s - {x}, w)
    decreases s
  {
    var y :| y in s && Sum(s, w) == Weight(y, w) + Sum(s - {y}, w);
    if y != x {
      SumTake(s - {y}, x, w);
      SumTake(s - {x}, y, w);
      assert s - {y} - {x} == s - {x} - {y};
    }
  }

  lemma {:induction false} SumAdd<K(!new)>(s: set<K>, x: K, w: map<K, nat>)
    requires x !in s
    ensures Sum(s + {x}, w) == Weight(x, w) + Sum(s, w)
  {
    SumTake(s + {x}, x, w);
    assert s + {x} - {x} == s;
  }

  /** Sums depend only on the weights of their members. */
  lemma {:induction false} SumAgree<K(!new)>(s: set<K>, v: map<K, nat>, w: map<K, nat>)
    requires forall x :: x in s ==> Weight(x, v) == Weight(x, w)
    ensures Sum(s, v) == Sum(s, w)
    decreases s
  {
    if s != {} {
      var x :| x in s;
      SumTake(s, x, v);
      SumTake(s, x, w);
      SumAgree(s - {x}, v, w);
    }
  }

  lemma {:induction false} SumMonotone<K(!new)>(s: set<K>, t: set<K>, w: map<K, nat>)
    requires s <= t
    ensures Sum(s, w) <= Sum(t, w)
    decreases s
  {
    if s != {} {
      var x :| x in s;
      SumTake(s, x, w);
      SumTake(t, x, w);
      SumMonotone(s - {x}, t - {x}, w);
    }
  }

  /** Inclusion and exclusion. */
  lemma {:induction false} SumUnion<K(!new)>(s: set<K>, t: set<K>, w: map<K, nat>)
    ensures Sum(s + t, w) + Sum(s * t, w) == Sum(s, w) + Sum(t, w)
    decreases s
  {
    if s == {} {
      assert s + t == t && s * t == {};
    } else {
      var x :| x in s;
      SumTake(s, x, w);
      SumUnion(s - {x}, t, w);
      if x in t {
        assert (s - {x}) + t == s + t;
        SumTake(s * t, x, w);
        assert (s - {x}) * t == s * t - {x};
      } else {
        SumTake(s + t, x, w);
        assert (s - {x}) + t == s + t - {x};
        assert (s - {x}) * t == s * t;
      }
    }
  }
}
