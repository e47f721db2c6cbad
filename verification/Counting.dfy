/** Weighted counts over a list of threads, and the order-preserving "is part of"
    relation between sequences.  The protocol models use them to say how many
    tokens, slots or wakeups a set of threads holds. */
module Counting {

  /** The total weight of the elements of ts. */
  function Sum<T>(weight: T -> nat, ts: seq<T>): (n: nat)
  {
    if |ts| == 0 then 0 else Sum(weight, ts[..|ts| - 1]) + weight(ts[|ts| - 1])
  }

  lemma SumAppend<T>(weight: T -> nat, ts: seq<T>, t: T)
    ensures Sum(weight, ts + [t]) == Sum(weight, ts) + weight(t)
  {
    assert (ts + [t])[..|ts|] == ts;
  }

  lemma {:induction false} SumUpdate<T>(weight: T -> nat, ts: seq<T>, i: nat, t: T)
    requires i < |ts|
    ensures Sum(weight, ts[i := t]) + weight(ts[i]) == Sum(weight, ts) + weight(t)
  {
    var n := |ts| - 1;
    if i == n {
      assert ts[i := t][..n] == ts[..n];
    } else {
      SumUpdate(weight, ts[..n], i, t);
      assert ts[i := t][..n] == ts[..n][i := t];
    }
  }

  lemma {:induction false} SumAtLeast<T>(weight: T -> nat, ts: seq<T>, i: nat)
    requires i < |ts|
    ensures weight(ts[i]) <= Sum(weight, ts)
  {
    if i < |ts| - 1 {
      SumAtLeast(weight, ts[..|ts| - 1], i);
    }
  }

  lemma {:induction false} SumAtLeastTwo<T>(weight: T -> nat, ts: seq<T>, i: nat, j: nat)
    requires i < j < |ts|
    ensures weight(ts[i]) + weight(ts[j]) <= Sum(weight, ts)
  {
    if j < |ts| - 1 {
      SumAtLeastTwo(weight, ts[..|ts| - 1], i, j);
    } else {
      SumAtLeast(weight, ts[..j], i);
    }
  }

  /** A positive total has a contributing element. */
  lemma {:induction false} SumWitness<T>(weight: T -> nat, ts: seq<T>) returns (i: nat)
    requires Sum(weight, ts) > 0
    ensures i < |ts| && weight(ts[i]) > 0
  {
    var n := |ts| - 1;
    if weight(ts[n]) > 0 {
      i := n;
    } else {
      i := SumWitness(weight, ts[..n]);
    }
  }

  lemma {:induction false} SumZero<T>(weight: T -> nat, ts: seq<T>)
    requires forall t :: t in ts ==> weight(t) == 0
    ensures Sum(weight, ts) == 0
  {
    if |ts| > 0 {
      SumZero(weight, ts[..|ts| - 1]);
    }
  }

  lemma {:induction false} SumMonotone<T>(low: T -> nat, high: T -> nat, ts: seq<T>)
    requires forall t :: t in ts ==> low(t) <= high(t)
    ensures Sum(low, ts) <= Sum(high, ts)
  {
    if |ts| > 0 {
      SumMonotone(low, high, ts[..|ts| - 1]);
    }
  }

  /** part is obtained from whole by leaving elements out, keeping the order. */
  predicate Within<T(==)>(part: seq<T>, whole: seq<T>)
  {
    if part == [] then true
    else if whole == [] then false
    else
      var p, w := |part| - 1, |whole| - 1;
      (part[p] == whole[w] && Within(part[..p], whole[..w])) || Within(part, whole[..w])
  }

  lemma WithinAppend<T>(part: seq<T>, whole: seq<T>, x: T)
    requires Within(part, whole)
    ensures Within(part + [x], whole + [x])
  {
    assert (part + [x])[..|part|] == part;
    assert (whole + [x])[..|whole|] == whole;
  }

  /** Leaving out one more stretch keeps the relation. */
  lemma {:induction false} WithinDrop<T>(a: seq<T>, b: seq<T>, c: seq<T>, whole: seq<T>)
    requires Within(a + b + c, whole)
    ensures Within(a + c, whole)
    decreases |whole|
  {
    var part := a + b + c;
    if a + c == [] {
    } else if whole == [] {
    } else {
      var w := |whole| - 1;
      var p := |part| - 1;
      if part[p] == whole[w] && Within(part[..p], whole[..w]) {
        if |c| > 0 {
          assert part[..p] == a + b + c[..|c| - 1];
          WithinDrop(a, b, c[..|c| - 1], whole[..w]);
          assert (a + c)[..|a + c| - 1] == a + c[..|c| - 1];
        } else if |b| > 0 {
          assert part[..p] == a + b[..|b| - 1] + c;
          WithinDrop(a, b[..|b| - 1], c, whole[..w]);
        } else {
          assert part == a + c;
        }
      } else {
        WithinDrop(a, b, c, whole[..w]);
      }
    }
  }
}
