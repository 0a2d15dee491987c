/** Counting over finite sequences: how a sum changes when the sequence does. */
module Counting {

  function Sum<T>(s: seq<T>, f: T -> nat): nat {
    if |s| == 0 then 0 else Sum(s[..|s| - 1], f) + f(s[|s| - 1])
  }

  lemma {:induction false} SumPush<T>(s: seq<T>, x: T, f: T -> nat)
    ensures Sum(s + [x], f) == Sum(s, f) + f(x)
  {
    assert (s + [x])[..|s|] == s;
  }

  /** Replacing entries lo..hi, each worth d more than before, moves the sum by (hi - lo) * d. */
  lemma {:induction false} SumRange<T>(s: seq<T>, s': seq<T>, f: T -> nat, lo: nat, hi: nat, d: int)
    requires |s| == |s'| && lo <= hi <= |s|
    requires forall k | 0 <= k < |s| && !(lo <= k < hi) :: f(s'[k]) == f(s[k])
    requires forall k | lo <= k < hi :: f(s'[k]) == f(s[k]) + d
    ensures Sum(s', f) == Sum(s, f) + (hi - lo) * d
  {
    if |s| == 0 {
    } else if hi == |s| && lo < hi {
      SumRange(s[..|s| - 1], s'[..|s| - 1], f, lo, hi - 1, d);
    } else {
      var top := if hi == |s| then hi - 1 else hi;
      SumRange(s[..|s| - 1], s'[..|s| - 1], f, if lo <= top then lo else top, top, d);
    }
  }

  lemma {:induction false} SumUpdate<T>(s: seq<T>, i: nat, x: T, f: T -> nat)
    requires i < |s|
    ensures Sum(s[i := x], f) == Sum(s, f) - f(s[i]) + f(x)
  {
    SumRange(s, s[i := x], f, i, i + 1, f(x) - f(s[i]));
  }

  /** A run of n entries worth d each, appended, adds n * d. */
  lemma {:induction false} SumAppend<T>(s: seq<T>, e: seq<T>, f: T -> nat, d: nat)
    requires forall k | 0 <= k < |e| :: f(e[k]) == d
    ensures Sum(s + e, f) == Sum(s, f) + |e| * d
  {
    if |e| == 0 {
      assert s + e == s;
    } else {
      SumAppend(s, e[..|e| - 1], f, d);
      SumPush(s + e[..|e| - 1], e[|e| - 1], f);
      assert s + e == s + e[..|e| - 1] + [e[|e| - 1]];
    }
  }

  lemma {:induction false} SumMono<T>(s: seq<T>, s': seq<T>, f: T -> nat)
    requires |s| == |s'|
    requires forall k | 0 <= k < |s| :: f(s[k]) <= f(s'[k])
    ensures Sum(s, f) <= Sum(s', f)
  {
    if |s| > 0 {
      SumMono(s[..|s| - 1], s'[..|s| - 1], f);
    }
  }

  /** A prefix never sums to more than the whole. */
  lemma {:induction false} SumPrefix<T>(s: seq<T>, k: nat, f: T -> nat)
    requires k <= |s|
    ensures Sum(s[..k], f) <= Sum(s, f)
  {
    if k < |s| {
      SumPrefix(s[..|s| - 1], k, f);
      assert s[..|s| - 1][..k] == s[..k];
    } else {
      assert s[..k] == s;
    }
  }

  /** One entry never counts for more than the sum. */
  lemma {:induction false} SumAtLeast<T>(s: seq<T>, i: nat, f: T -> nat)
    requires i < |s|
    ensures f(s[i]) <= Sum(s, f)
  {
    SumPrefix(s, i + 1, f);
    assert s[..i + 1][..i] == s[..i];
  }

  lemma {:induction false} SumZero<T>(s: seq<T>, f: T -> nat)
    requires forall k | 0 <= k < |s| :: f(s[k]) == 0
    ensures Sum(s, f) == 0
  {
    if |s| > 0 {
      SumZero(s[..|s| - 1], f);
    }
  }

  /** If the sum is positive some entry is. */
  lemma {:induction false} SumWitness<T>(s: seq<T>, f: T -> nat) returns (i: nat)
    requires Sum(s, f) > 0
    ensures i < |s| && f(s[i]) > 0
  {
    i := |s| - 1;
    if f(s[i]) == 0 {
      i := SumWitness(s[..|s| - 1], f);
    }
  }

  /** Sums of two tallies taken together. */
  lemma {:induction false} SumSplit<T>(s: seq<T>, f: T -> nat, g: T -> nat, h: T -> nat)
    requires forall k | 0 <= k < |s| :: h(s[k]) == f(s[k]) + g(s[k])
    ensures Sum(s, h) == Sum(s, f) + Sum(s, g)
  {
    if |s| > 0 {
      SumSplit(s[..|s| - 1], f, g, h);
    }
  }
}
