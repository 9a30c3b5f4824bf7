/** The in-place shuffle as a function of its draws: exactly one vector of draws
    leads to each arrangement, so unbiased draws give an unbiased shuffle. */
module FisherYates {

  function Swap<T>(s: seq<T>, i: nat, j: nat): (r: seq<T>)
    requires i < |s| && j < |s|
    ensures |r| == |s|
  {
    s[i := s[j]][j := s[i]]
  }

  /** js[i] is the draw made at position i; the loop never draws at 0. */
  predicate ValidDraws(js: seq<nat>, n: nat) {
    |js| == n && forall i :: 0 <= i < n ==> js[i] <= i
  }

  /** The loop from position i down to 1. */
  function Shuffle<T>(s: seq<T>, js: seq<nat>, i: nat): (r: seq<T>)
    requires i < |s| && ValidDraws(js, |s|)
    ensures |r| == |s|
    decreases i
  {
    if i == 0 then s else Shuffle(Swap(s, i, js[i]), js, i - 1)
  }

  ghost predicate Distinct<T>(s: seq<T>) {
    forall i, j :: 0 <= i < j < |s| ==> s[i] != s[j]
  }

  lemma SwapKeeps<T>(s: seq<T>, i: nat, j: nat)
    requires i < |s| && j < |s|
    ensures multiset(Swap(s, i, j)) == multiset(s)
    ensures Distinct(s) ==> Distinct(Swap(s, i, j))
  {
  }

  lemma {:induction false} ShuffleKeeps<T>(s: seq<T>, js: seq<nat>, i: nat)
    requires i < |s| && ValidDraws(js, |s|)
    ensures multiset(Shuffle(s, js, i)) == multiset(s)
    decreases i
  {
    if i > 0 {
      SwapKeeps(s, i, js[i]);
      ShuffleKeeps(Swap(s, i, js[i]), js, i - 1);
    }
  }

  lemma {:induction false} TailStays<T>(s: seq<T>, js: seq<nat>, i: nat, k: nat)
    requires i < k < |s| && ValidDraws(js, |s|)
    ensures Shuffle(s, js, i)[k] == s[k]
    decreases i
  {
    if i > 0 {
      TailStays(Swap(s, i, js[i]), js, i - 1, k);
    }
  }

  /** Only the draws at positions up to i matter. */
  lemma {:induction false} ShuffleFrame<T>(s: seq<T>, js: seq<nat>, ks: seq<nat>, i: nat)
    requires i < |s| && ValidDraws(js, |s|) && ValidDraws(ks, |s|) && js[..i + 1] == ks[..i + 1]
    ensures Shuffle(s, js, i) == Shuffle(s, ks, i)
    decreases i
  {
    if i > 0 {
      assert js[i] == js[..i + 1][i] == ks[i];
      assert js[..i] == js[..i + 1][..i] == ks[..i];
      ShuffleFrame(Swap(s, i, js[i]), js, ks, i - 1);
    }
  }

  /** Different draws give different arrangements of distinct elements. */
  lemma {:induction false} Injective<T>(s: seq<T>, js: seq<nat>, ks: seq<nat>, i: nat)
    requires i < |s| && Distinct(s) && ValidDraws(js, |s|) && ValidDraws(ks, |s|)
    requires Shuffle(s, js, i) == Shuffle(s, ks, i)
    ensures js[..i + 1] == ks[..i + 1]
    decreases i
  {
    if i > 0 {
      LandsAt(s, js, i);
      LandsAt(s, ks, i);
      assert js[i] == ks[i];
      SwapKeeps(s, i, js[i]);
      Injective(Swap(s, i, js[i]), js, ks, i - 1);
      assert js[..i + 1] == js[..i] + [js[i]];
      assert ks[..i + 1] == ks[..i] + [ks[i]];
    }
  }

  /** Position i receives the element drawn at step i and is not touched again. */
  lemma LandsAt<T>(s: seq<T>, js: seq<nat>, i: nat)
    requires 0 < i < |s| && ValidDraws(js, |s|)
    ensures Shuffle(s, js, i)[i] == s[js[i]]
  {
    var t := Swap(s, i, js[i]);
    assert Shuffle(s, js, i) == Shuffle(t, js, i - 1) && t[i] == s[js[i]];
    hide Shuffle, Swap;
    TailStays(t, js, i - 1, i);
  }

  /** Every arrangement is reached. */
  lemma {:induction false} Surjective<T>(s: seq<T>, p: seq<T>, i: nat) returns (js: seq<nat>)
    requires i < |s| == |p| && multiset(s) == multiset(p) && s[i + 1..] == p[i + 1..]
    ensures ValidDraws(js, |s|) && Shuffle(s, js, i) == p
    decreases i
  {
    hide Swap;
    if i == 0 {
      PrefixesAgree(s, p, 1);
      js := seq(|s|, _ => 0);
      SingletonsAgree(s[..1], p[..1]);
      assert s == s[..1] + s[1..] && p == p[..1] + p[1..];
    } else {
      var j := FindDraw(s, p, i);
      SwapKeeps(s, i, j);
      SwapTail(s, p, i, j);
      var ks := Surjective(Swap(s, i, j), p, i - 1);
      js := ks[i := j];
      assert js[..i] == ks[..i];
      ShuffleFrame(Swap(s, i, j), ks, js, i - 1);
    }
  }

  lemma FindDraw<T>(s: seq<T>, p: seq<T>, i: nat) returns (j: nat)
    requires i < |s| == |p| && multiset(s) == multiset(p) && s[i + 1..] == p[i + 1..]
    ensures j <= i && s[j] == p[i]
  {
    PrefixesAgree(s, p, i + 1);
    assert p[i] == p[..i + 1][i];
    assert p[i] in multiset(s[..i + 1]);
    j :| 0 <= j < i + 1 && s[..i + 1][j] == p[i];
  }

  lemma SingletonsAgree<T>(s: seq<T>, p: seq<T>)
    requires |s| == |p| == 1 && multiset(s) == multiset(p)
    ensures s == p
  {
    assert p[0] in multiset(p);
  }

  lemma SwapTail<T>(s: seq<T>, p: seq<T>, i: nat, j: nat)
    requires j <= i < |s| == |p| && s[j] == p[i] && s[i + 1..] == p[i + 1..]
    ensures Swap(s, i, j)[i..] == p[i..]
  {
    var t := Swap(s, i, j);
    forall k | i <= k < |s| ensures t[k] == p[k] {
      if k > i {
        assert s[k] == s[i + 1..][k - i - 1];
        assert p[k] == p[i + 1..][k - i - 1];
      }
    }
  }

  lemma PrefixesAgree<T>(s: seq<T>, p: seq<T>, i: nat)
    requires i <= |s| == |p| && multiset(s) == multiset(p) && s[i..] == p[i..]
    ensures multiset(s[..i]) == multiset(p[..i])
  {
    assert s == s[..i] + s[i..] && p == p[..i] + p[i..];
    assert multiset(s) == multiset(s[..i]) + multiset(s[i..]);
    assert multiset(p) == multiset(p[..i]) + multiset(p[i..]);
    assert multiset(s[..i]) == multiset(s) - multiset(s[i..]);
    assert multiset(p[..i]) == multiset(p) - multiset(p[i..]);
  }

  /** For n distinct elements, each of their arrangements comes from exactly one
      vector of draws, and every vector gives an arrangement. */
  lemma ExactlyUniform<T>(s: seq<T>, p: seq<T>)
    requires s != [] && Distinct(s)
    ensures multiset(p) == multiset(s) <==>
            exists js: seq<nat> :: ValidDraws(js, |s|) && Shuffle(s, js, |s| - 1) == p
    ensures forall js: seq<nat>, ks: seq<nat> ::
              (ValidDraws(js, |s|) && ValidDraws(ks, |s|)
               && Shuffle(s, js, |s| - 1) == p && Shuffle(s, ks, |s| - 1) == p) ==> js == ks
  {
    hide Shuffle, Distinct;
    var n := |s|;
    if multiset(p) == multiset(s) {
      assert |p| == |multiset(p)| == n;
      assert s[n..] == p[n..];
      var js := Surjective(s, p, n - 1);
    }
    forall js: seq<nat> | ValidDraws(js, n)
      ensures multiset(Shuffle(s, js, n - 1)) == multiset(s)
    {
      ShuffleKeeps(s, js, n - 1);
    }
    forall js: seq<nat>, ks: seq<nat> |
      ValidDraws(js, n) && ValidDraws(ks, n) && Shuffle(s, js, n - 1) == p && Shuffle(s, ks, n - 1) == p
      ensures js == ks
    {
      Injective(s, js, ks, n - 1);
      WholePrefix(js, ks);
    }
  }

  lemma WholePrefix<T>(a: seq<T>, b: seq<T>)
    requires |a| == |b| && a[..|a|] == b[..|b|]
    ensures a == b
  {
    assert a == a[..|a|] && b == b[..|b|];
  }
}
