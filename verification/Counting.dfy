/** How many entries of a sequence equal a given value. */
module Counting {

  function Count<T(==)>(ts: seq<T>, t: T): nat {
    if ts == [] then 0 else Count(ts[..|ts| - 1], t) + (if ts[|ts| - 1] == t then 1 else 0)
  }

  lemma {:induction false} CountUpdate<T>(ts: seq<T>, i: nat, x: T, t: T)
    requires i < |ts|
    ensures Count(ts[i := x], t) == Count(ts, t) - (if ts[i] == t then 1 else 0) + (if x == t then 1 else 0)
  {
    var n := |ts| - 1;
    if i == n {
      assert ts[i := x][..n] == ts[..n];
    } else {
      CountUpdate(ts[..n], i, x, t);
      assert ts[i := x][..n] == ts[..n][i := x];
    }
  }

  lemma {:induction false} CountMember<T>(ts: seq<T>, i: nat)
    requires i < |ts|
    ensures Count(ts, ts[i]) > 0
  {
    if i < |ts| - 1 {
      CountMember(ts[..|ts| - 1], i);
    }
  }

  lemma {:induction false} SomeoneCounted<T>(ts: seq<T>, t: T) returns (i: nat)
    requires Count(ts, t) > 0
    ensures i < |ts| && ts[i] == t
  {
    var n := |ts| - 1;
    if ts[n] == t {
      i := n;
    } else {
      i := SomeoneCounted(ts[..n], t);
    }
  }

  lemma {:induction false} CountConstant<T>(n: nat, x: T, t: T)
    ensures Count(seq(n, _ => x), t) == if t == x then n else 0
  {
    if n > 0 {
      CountConstant(n - 1, x, t);
      assert seq(n, _ => x)[..n - 1] == seq(n - 1, _ => x);
    }
  }
}
