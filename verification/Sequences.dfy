/** Vocabulary for sequences shared by several modules. */
module Sequences {

  /** The first n elements, or all there are. */
  function Taken<T>(n: nat, s: seq<T>): seq<T> {
    if n <= |s| then s[..n] else s
  }

  ghost predicate Distinct<T>(s: seq<T>) {
    forall i, j | 0 <= i < j < |s| :: s[i] != s[j]
  }

  /** t is what of s meets the test: `at` lists the places in s where it does, in order, and t is what stands
      there. */
  ghost predicate Sifted<T>(meets: T -> bool, s: seq<T>, t: seq<T>, at: seq<nat>) {
    && |t| == |at|
    && (forall i | 0 <= i < |at| :: at[i] < |s| && t[i] == s[at[i]])
    && (forall i, j | 0 <= i < j < |at| :: at[i] < at[j])
    && (forall k | 0 <= k < |s| :: meets(s[k]) <==> k in at)
  }

  /** One element more. */
  lemma SiftedMore<T>(meets: T -> bool, s: seq<T>, t: seq<T>, at: seq<nat>, x: T)
    requires Sifted(meets, s, t, at)
    ensures if meets(x) then Sifted(meets, s + [x], t + [x], at + [|s|]) else Sifted(meets, s + [x], t, at)
  {
    assert forall k | 0 <= k < |s| :: (s + [x])[k] == s[k];
    assert forall k :: k in at + [|s|] <==> k in at || k == |s|;
    assert forall k <- at :: k < |s|;
  }

  lemma CountLast<T>(s: seq<T>, x: T)
    requires s != []
    ensures multiset(s)[x] == multiset(s[..|s| - 1])[x] + if s[|s| - 1] == x then 1 else 0
  {
    assert s == s[..|s| - 1] + [s[|s| - 1]];
  }

  /** What meets the test is there as often as before, and nothing else is. */
  lemma {:induction false} SiftedCounts<T>(meets: T -> bool, s: seq<T>, t: seq<T>, at: seq<nat>, x: T)
    requires Sifted(meets, s, t, at)
    ensures multiset(t)[x] == if meets(x) then multiset(s)[x] else 0
    decreases |s|
  {
    if s == [] {
      assert |at| == 0;
    } else {
      var n := |s| - 1;
      CountLast(s, x);
      if meets(s[n]) {
        LastSifted(meets, s, t, at);
        CountLast(t, x);
        SiftedCounts(meets, s[..n], t[..|t| - 1], at[..|at| - 1], x);
      } else {
        LastLeftOut(meets, s, t, at);
        SiftedCounts(meets, s[..n], t, at, x);
      }
    }
  }

  lemma LastLeftOut<T>(meets: T -> bool, s: seq<T>, t: seq<T>, at: seq<nat>)
    requires Sifted(meets, s, t, at) && s != [] && !meets(s[|s| - 1])
    ensures Sifted(meets, s[..|s| - 1], t, at)
  {
    assert forall i | 0 <= i < |at| :: at[i] in at && at[i] != |s| - 1;
  }

  lemma LastSifted<T>(meets: T -> bool, s: seq<T>, t: seq<T>, at: seq<nat>)
    requires Sifted(meets, s, t, at) && s != [] && meets(s[|s| - 1])
    ensures t != [] && at[|at| - 1] == |s| - 1 && t[|t| - 1] == s[|s| - 1]
    ensures Sifted(meets, s[..|s| - 1], t[..|t| - 1], at[..|at| - 1])
  {
    var n, m := |s| - 1, |at| - 1;
    assert n in at;
    var i :| 0 <= i < |at| && at[i] == n;
    if i < m {
      assert at[i] < at[m];
    }
    assert at == at[..m] + [n];
    assert forall k | 0 <= k < n :: k in at <==> k in at[..m];
  }

  lemma Regrouped<T>(a: seq<T>, b: seq<T>, c: seq<T>)
    ensures a + (b + c) == (a + b) + c
  {
  }
}
