/** Small shared vocabulary: optional values, a 0/1 reading of booleans, and sums over sequences. */
module Basics {

  datatype Option<+T> = None | Some(value: T)

  /** The largest size_t. */
  const SIZE_MAX: nat := 0xFFFF_FFFF_FFFF_FFFF

  function B(b: bool): nat {
    if b then 1 else 0
  }

  /** The sum of `f` over the elements of `s`. */
  function Sum<T>(s: seq<T>, f: T -> nat): nat {
    if |s| == 0 then 0 else Sum(s[..|s| - 1], f) + f(s[|s| - 1])
  }

  lemma {:induction false} SumAppend<T>(s: seq<T>, x: T, f: T -> nat)
    ensures Sum(s + [x], f) == Sum(s, f) + f(x)
  {
    assert (s + [x])[..|s|] == s;
  }

  /** Replacing one element changes the sum by the difference of the two weights. */
  lemma {:induction false} SumUpdate<T>(s: seq<T>, i: nat, x: T, f: T -> nat)
    requires i < |s|
    ensures Sum(s[i := x], f) + f(s[i]) == Sum(s, f) + f(x)
  {
    var n := |s| - 1;
    if i == n {
      assert s[i := x][..n] == s[..n];
    } else {
      assert s[i := x][..n] == s[..n][i := x];
      SumUpdate(s[..n], i, x, f);
    }
  }

  lemma {:induction false} SumZero<T>(s: seq<T>, f: T -> nat)
    requires forall i | 0 <= i < |s| :: f(s[i]) == 0
    ensures Sum(s, f) == 0
  {
    if |s| > 0 {
      SumZero(s[..|s| - 1], f);
    }
  }

  /** A sum with a single contributing index is that index's weight. */
  lemma {:induction false} SumSingle<T>(s: seq<T>, k: nat, f: T -> nat)
    requires k < |s|
    requires forall i | 0 <= i < |s| && i != k :: f(s[i]) == 0
    ensures Sum(s, f) == f(s[k])
  {
    var n := |s| - 1;
    if k == n {
      SumZero(s[..n], f);
    } else {
      SumSingle(s[..n], k, f);
    }
  }

  lemma {:induction false} SumAtLeast<T>(s: seq<T>, k: nat, f: T -> nat)
    requires k < |s|
    ensures f(s[k]) <= Sum(s, f)
  {
    var n := |s| - 1;
    if k < n {
      SumAtLeast(s[..n], k, f);
    }
  }

  lemma {:induction false} SumHead<T>(s: seq<T>, f: T -> nat)
    requires |s| > 0
    ensures Sum(s, f) == f(s[0]) + Sum(s[1..], f)
  {
    var n := |s| - 1;
    if n > 0 {
      SumHead(s[..n], f);
      assert s[..n][1..] == s[1..][..n - 1];
    }
  }
}
