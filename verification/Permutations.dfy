/** Lists with the same elements equally often. */
module Permutations {

  function Omit<T>(s: seq<T>, i: nat): seq<T>
    requires i < |s|
  {
    s[..i] + s[i + 1..]
  }

  lemma OmitMultiset<T>(s: seq<T>, i: nat)
    requires i < |s|
    ensures multiset(Omit(s, i)) == multiset(s) - multiset{s[i]}
  {
    assert s == s[..i] + [s[i]] + s[i + 1..];
    assert multiset(s) == multiset(s[..i]) + multiset{s[i]} + multiset(s[i + 1..]);
  }

  /** In a permutation the last element of the one list can be taken out of the other. */
  lemma TakeOut<T>(rs: seq<T>, ts: seq<T>) returns (i: nat)
    requires rs != [] && multiset(rs) == multiset(ts)
    ensures i < |ts| && ts[i] == rs[|rs| - 1]
    ensures multiset(Omit(ts, i)) == multiset(rs[..|rs| - 1])
  {
    var last := rs[|rs| - 1];
    assert last in multiset(ts);
    i :| 0 <= i < |ts| && ts[i] == last;
    OmitMultiset(ts, i);
    OmitMultiset(rs, |rs| - 1);
    assert Omit(rs, |rs| - 1) == rs[..|rs| - 1];
  }

  function Sum<T>(s: seq<T>, f: T -> int): int {
    if s == [] then 0 else Sum(s[..|s| - 1], f) + f(s[|s| - 1])
  }

  lemma SumAppend<T>(s: seq<T>, x: T, f: T -> int)
    ensures Sum(s + [x], f) == Sum(s, f) + f(x)
  {
    assert (s + [x])[..|s|] == s;
  }

  lemma {:induction false} SumConcat<T>(s: seq<T>, t: seq<T>, f: T -> int)
    ensures Sum(s + t, f) == Sum(s, f) + Sum(t, f)
  {
    if t == [] {
      assert s + t == s;
    } else {
      assert s + t == (s + t[..|t| - 1]) + [t[|t| - 1]];
      SumConcat(s, t[..|t| - 1], f);
      SumAppend(s + t[..|t| - 1], t[|t| - 1], f);
    }
  }

  lemma {:induction false} SumOmit<T>(s: seq<T>, i: nat, f: T -> int)
    requires i < |s|
    ensures Sum(Omit(s, i), f) == Sum(s, f) - f(s[i])
  {
    var front, last := s[..|s| - 1], s[|s| - 1];
    if i == |s| - 1 {
      assert Omit(s, i) == front;
    } else {
      SumOmit(front, i, f);
      assert Omit(s, i) == Omit(front, i) + [last];
      SumAppend(Omit(front, i), last, f);
    }
  }

  /** A sum does not depend on the order of its terms. */
  lemma {:induction false} SumPermuted<T>(s: seq<T>, t: seq<T>, f: T -> int)
    requires multiset(s) == multiset(t)
    ensures Sum(s, f) == Sum(t, f)
    decreases |s|
  {
    if s == [] {
      assert |multiset(t)| == 0;
    } else {
      var i := TakeOut(s, t);
      SumPermuted(s[..|s| - 1], Omit(t, i), f);
      SumOmit(t, i, f);
    }
  }
}
