/** Accumulation of per-particle contributions into one output cell. Each
    output cell starts at zero and receives `cell += contribution` once per
    particle, in the order the particles are visited; Total is that running
    sum and is the specification both entry points are proved against. */
module Accumulation {

  /** The value a cell holds after adding f(s[0]), f(s[1]), ... to zero. */
  function Total<T>(s: seq<T>, f: T -> real): real
    decreases |s|
  {
    if |s| == 0 then 0.0 else Total(s[..|s| - 1], f) + f(s[|s| - 1])
  }

  /** The elements of s at the given positions, in that order. */
  function Pick<T>(s: seq<T>, labels: seq<nat>): (r: seq<T>)
    requires forall t :: 0 <= t < |labels| ==> labels[t] < |s|
    ensures |r| == |labels|
    ensures forall t :: 0 <= t < |labels| ==> r[t] == s[labels[t]]
  {
    seq(|labels|, t requires 0 <= t < |labels| => s[labels[t]])
  }

  /** The positions of the elements of s that satisfy keep, in increasing
      order (the row labels a boolean mask selects). */
  function Where<T>(s: seq<T>, keep: T -> bool): (r: seq<nat>)
    ensures forall t :: 0 <= t < |r| ==> r[t] < |s| && keep(s[r[t]])
    ensures forall t, u :: 0 <= t < u < |r| ==> r[t] < r[u]
    ensures forall n :: 0 <= n < |s| && keep(s[n]) ==> n in r
    decreases |s|
  {
    if |s| == 0 then []
    else
      var r' := Where(s[..|s| - 1], keep);
      if keep(s[|s| - 1]) then r' + [|s| - 1] else r'
  }

  /** Visiting one more element adds its contribution. */
  lemma TotalSnoc<T>(s: seq<T>, x: T, f: T -> real)
    ensures Total(s + [x], f) == Total(s, f) + f(x)
  {
    assert (s + [x])[..|s|] == s;
  }

  /** Sums over consecutive parts add up. */
  lemma {:induction false} TotalConcat<T>(a: seq<T>, b: seq<T>, f: T -> real)
    ensures Total(a + b, f) == Total(a, f) + Total(b, f)
    decreases |b|
  {
    if |b| > 0 {
      var b' := b[..|b| - 1];
      var x := b[|b| - 1];
      assert b == b' + [x];
      assert a + b == (a + b') + [x];
      TotalConcat(a, b', f);
      TotalSnoc(a + b', x, f);
      TotalSnoc(b', x, f);
    } else {
      assert a + b == a;
    }
  }

  /** Taking one element out of the sequence takes its contribution out of the total. */
  lemma {:induction false} TotalRemove<T>(t: seq<T>, k: nat, f: T -> real)
    requires k < |t|
    ensures Total(t, f) == Total(t[..k] + t[k + 1..], f) + f(t[k])
  {
    assert t == (t[..k] + [t[k]]) + t[k + 1..];
    TotalConcat(t[..k], [t[k]], f);
    TotalConcat(t[..k] + [t[k]], t[k + 1..], f);
    TotalConcat(t[..k], t[k + 1..], f);
    assert [t[k]][..0] == [];
  }

  /** The running sum does not depend on the order of visiting: any two
      orderings of the same elements give the same total. */
  lemma {:induction false} TotalPermutation<T>(s: seq<T>, t: seq<T>, f: T -> real)
    requires multiset(s) == multiset(t)
    ensures Total(s, f) == Total(t, f)
    decreases |s|
  {
    if |s| > 0 {
      var s' := s[..|s| - 1];
      var x := s[|s| - 1];
      assert s == s' + [x];
      assert x in multiset(t);
      var k :| 0 <= k < |t| && t[k] == x;
      var t' := t[..k] + t[k + 1..];
      assert t == t[..k] + [x] + t[k + 1..];
      assert multiset(t') == multiset(t) - multiset{x};
      assert multiset(s') == multiset(s) - multiset{x};
      TotalRemove(t, k, f);
      TotalPermutation(s', t', f);
    } else {
      assert t == [];
    }
  }

  /** Totals of two contribution functions that agree on every element agree. */
  lemma {:induction false} TotalPointwise<T>(s: seq<T>, f: T -> real, f': T -> real)
    requires forall n :: 0 <= n < |s| ==> f(s[n]) == f'(s[n])
    ensures Total(s, f) == Total(s, f')
    decreases |s|
  {
    if |s| > 0 {
      TotalPointwise(s[..|s| - 1], f, f');
    }
  }

  /** A sum of contributions that are all zero is zero. */
  lemma {:induction false} TotalOfZeros<T>(s: seq<T>, f: T -> real)
    requires forall n :: 0 <= n < |s| ==> f(s[n]) == 0.0
    ensures Total(s, f) == 0.0
    decreases |s|
  {
    if |s| > 0 {
      TotalOfZeros(s[..|s| - 1], f);
    }
  }

  /** Picking one more label picks one more element. */
  lemma PickSnoc<T>(s: seq<T>, labels: seq<nat>, t: nat)
    requires t < |labels| && forall u :: 0 <= u < |labels| ==> labels[u] < |s|
    ensures Pick(s, labels[..t + 1]) == Pick(s, labels[..t]) + [s[labels[t]]]
  {
    assert labels[..t + 1] == labels[..t] + [labels[t]];
  }

  /** Positions that stop short of the last element pick the same elements
      from s and from s without its last element. */
  lemma PickPrefix<T>(s: seq<T>, labels: seq<nat>)
    requires |s| > 0
    requires forall t :: 0 <= t < |labels| ==> labels[t] < |s| - 1
    ensures Pick(s, labels) == Pick(s[..|s| - 1], labels)
  {
  }

  /** Summing only over the elements a mask keeps loses nothing when every
      element the mask drops contributes zero. */
  lemma {:induction false} TotalWhere<T>(s: seq<T>, keep: T -> bool, f: T -> real)
    requires forall n :: 0 <= n < |s| && !keep(s[n]) ==> f(s[n]) == 0.0
    ensures Total(Pick(s, Where(s, keep)), f) == Total(s, f)
    decreases |s|
  {
    if |s| > 0 {
      var s' := s[..|s| - 1];
      var x := s[|s| - 1];
      var r' := Where(s', keep);
      TotalWhere(s', keep, f);
      var p' := Pick(s', r');
      PickPrefix(s, r');
      if keep(x) {
        assert Where(s, keep) == r' + [|s| - 1];
        assert Pick(s, r' + [|s| - 1]) == p' + [x];
        TotalSnoc(p', x, f);
      } else {
        assert Where(s, keep) == r';
      }
    }
  }

  /** Positions in increasing order are never smaller than their own index. */
  lemma {:induction false} IncreasingAtLeastIndex(r: seq<nat>)
    requires forall t, u :: 0 <= t < u < |r| ==> r[t] < r[u]
    ensures forall t :: 0 <= t < |r| ==> r[t] >= t
    decreases |r|
  {
    if |r| > 0 {
      var r' := r[..|r| - 1];
      IncreasingAtLeastIndex(r');
      assert forall t :: 0 <= t < |r'| ==> r[t] == r'[t];
      if |r| > 1 {
        assert r[|r| - 1] > r'[|r| - 2] >= |r| - 2;
      }
    }
  }

  /** Two increasing sequences of equal length, the first pointwise below the
      second and every element of the first occurring in the second, are the
      same sequence. */
  lemma IncreasingContainedEqual(p: seq<nat>, l: seq<nat>)
    requires |p| == |l|
    requires forall t, u :: 0 <= t < u < |p| ==> p[t] < p[u]
    requires forall t, u :: 0 <= t < u < |l| ==> l[t] < l[u]
    requires forall t :: 0 <= t < |p| ==> p[t] <= l[t] && p[t] in l
    ensures p == l
  {
    if |p| > 0 {
      IncreasingContainedEqualUpTo(p, l, |p| - 1);
    }
  }

  lemma {:induction false} IncreasingContainedEqualUpTo(p: seq<nat>, l: seq<nat>, t: nat)
    requires |p| == |l| && t < |p|
    requires forall t, u :: 0 <= t < u < |p| ==> p[t] < p[u]
    requires forall t, u :: 0 <= t < u < |l| ==> l[t] < l[u]
    requires forall t :: 0 <= t < |p| ==> p[t] <= l[t] && p[t] in l
    ensures forall u :: 0 <= u <= t ==> p[u] == l[u]
    decreases t
  {
    if t > 0 {
      IncreasingContainedEqualUpTo(p, l, t - 1);
    }
    // p[t] sits in l somewhere; earlier slots of l hold the (smaller) earlier
    // elements of p, and later slots exceed l[t] >= p[t]
    var u :| 0 <= u < |l| && l[u] == p[t];
  }

  /** Positions below |s1| pick the same elements from s1 and from s1 + s2. */
  lemma PickExtend<T>(s1: seq<T>, s2: seq<T>, labels: seq<nat>)
    requires forall t :: 0 <= t < |labels| ==> labels[t] < |s1|
    ensures Pick(s1 + s2, labels) == Pick(s1, labels)
  {
  }

  /** Filtering by a and then, among the survivors, by b selects the rows
      that satisfy both: the labels of the survivors of the second mask are
      the labels of the single mask a && b. */
  lemma {:induction false} WhereTwice<T>(s: seq<T>, a: T -> bool, b: T -> bool, ab: T -> bool)
    requires forall x :: ab(x) == (a(x) && b(x))
    ensures Pick(Where(s, a), Where(Pick(s, Where(s, a)), b)) == Where(s, ab)
    decreases |s|
  {
    if |s| > 0 {
      var s' := s[..|s| - 1];
      var x := s[|s| - 1];
      assert s == s' + [x];
      WhereTwice(s', a, b, ab);
      var w' := Where(s', a);
      var ps' := Pick(s', w');
      var p' := Where(ps', b);
      PickPrefix(s, w');
      if a(x) {
        assert Where(s, a) == w' + [|s'|];
        assert Pick(s, w' + [|s'|]) == ps' + [x];
        WhereTwiceKept(w', ps', x, b, |s'|);
      } else {
        assert Where(s, a) == w';
      }
    }
  }

  /** The step of WhereTwice where the newest row, labelled n, survives the
      first mask. */
  lemma WhereTwiceKept<T>(w': seq<nat>, ps': seq<T>, x: T, b: T -> bool, n: nat)
    requires |w'| == |ps'|
    ensures forall t :: 0 <= t < |Where(ps', b)| ==> Where(ps', b)[t] < |w'|
    ensures Pick(w' + [n], Where(ps' + [x], b)) ==
            Pick(w', Where(ps', b)) + (if b(x) then [n] else [])
  {
    var p' := Where(ps', b);
    assert (ps' + [x])[..|ps'|] == ps';
    PickExtend(w', [n], p');
    if b(x) {
      assert Where(ps' + [x], b) == p' + [|ps'|];
      assert Pick(w' + [n], p' + [|ps'|]) == Pick(w' + [n], p') + [n];
    } else {
      assert Where(ps' + [x], b) == p';
    }
  }

  /** A mask that keeps every element selects every position. */
  lemma {:induction false} WhereAll<T>(s: seq<T>, keep: T -> bool)
    requires forall n :: 0 <= n < |s| ==> keep(s[n])
    ensures |Where(s, keep)| == |s|
    ensures forall t :: 0 <= t < |s| ==> Where(s, keep)[t] == t
    decreases |s|
  {
    if |s| > 0 {
      WhereAll(s[..|s| - 1], keep);
    }
  }

  /** Positions pos into an increasing sequence of labels w, read back as
      labels: every position is one of the labels it selects precisely when
      positions and selected labels coincide. */
  lemma PositionsAsLabels(w: seq<nat>, pos: seq<nat>)
    requires forall t, u :: 0 <= t < u < |w| ==> w[t] < w[u]
    requires forall t, u :: 0 <= t < u < |pos| ==> pos[t] < pos[u]
    requires forall t :: 0 <= t < |pos| ==> pos[t] < |w|
    ensures (forall t :: 0 <= t < |pos| ==> pos[t] in Pick(w, pos)) <==> pos == Pick(w, pos)
  {
    var labels := Pick(w, pos);
    IncreasingAtLeastIndex(w);
    if forall t :: 0 <= t < |pos| ==> pos[t] in labels {
      assert forall t :: 0 <= t < |pos| ==> pos[t] <= labels[t];
      assert forall t, u :: 0 <= t < u < |labels| ==> labels[t] < labels[u];
      IncreasingContainedEqual(pos, labels);
    } else {
      var t :| 0 <= t < |pos| && pos[t] !in labels;
      assert pos[t] != labels[t];
    }
  }
}
