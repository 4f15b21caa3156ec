/**
 * Ranking one frame's predictions: `prediction.sort((a, b) => b.probability - a.probability)`.
 * The comparator puts higher probabilities first and reports ties as equal;
 * `Array.prototype.sort` is stable (required since ECMAScript 2019), so tied
 * entries keep their original order. Probabilities are kept abstract as reals:
 * only their order matters here.
 */
module Ranking {

  /** One entry of the classifier's output for a frame. */
  datatype Prediction = Prediction(className: string, probability: real)

  /** Entries in non-increasing order of probability. */
  predicate NonIncreasing(s: seq<Prediction>)
  {
    forall i, j :: 0 <= i < j < |s| ==> s[i].probability >= s[j].probability
  }

  /** The entries of `s` whose probability is `p`, in their order in `s`. */
  function WithProbability(s: seq<Prediction>, p: real): seq<Prediction>
  {
    if s == [] then []
    else WithProbability(s[..|s| - 1], p) + (if s[|s| - 1].probability == p then [s[|s| - 1]] else [])
  }

  /**
   * Inserts `x` into `t` after every entry whose probability is at least
   * `x.probability`: the step of a stable insertion sort, scanning from the right.
   */
  function InsertDesc(t: seq<Prediction>, x: Prediction): (r: seq<Prediction>)
    ensures |r| == |t| + 1
    decreases |t|
  {
    if t == [] || t[|t| - 1].probability >= x.probability then t + [x]
    else InsertDesc(t[..|t| - 1], x) + [t[|t| - 1]]
  }

  /**
   * The order `predict` leaves the array in: a stable sort by non-increasing
   * probability, as the sort of all but the last entry followed by the
   * insertion of the last entry.
   */
  function SortDesc(s: seq<Prediction>): (r: seq<Prediction>)
    ensures |r| == |s|
  {
    if s == [] then [] else InsertDesc(SortDesc(s[..|s| - 1]), s[|s| - 1])
  }

  lemma {:induction false} InsertDescPermutation(t: seq<Prediction>, x: Prediction)
    ensures multiset(InsertDesc(t, x)) == multiset(t) + multiset{x}
    decreases |t|
  {
    if !(t == [] || t[|t| - 1].probability >= x.probability) {
      var init, last := t[..|t| - 1], t[|t| - 1];
      assert t == init + [last];
      InsertDescPermutation(init, x);
    }
  }

  lemma {:induction false} InsertDescOrdered(t: seq<Prediction>, x: Prediction)
    requires NonIncreasing(t)
    ensures NonIncreasing(InsertDesc(t, x))
    decreases |t|
  {
    if !(t == [] || t[|t| - 1].probability >= x.probability) {
      var init, last := t[..|t| - 1], t[|t| - 1];
      var r' := InsertDesc(init, x);
      InsertDescOrdered(init, x);
      InsertDescPermutation(init, x);
      forall e | e in r'
        ensures e.probability >= last.probability
      {
        assert e in multiset(r');
        if e != x {
          assert e in multiset(init);
          var k :| 0 <= k < |init| && init[k] == e;
          assert t[k] == e;
        }
      }
      assert InsertDesc(t, x) == r' + [last];
    }
  }

  /** The sort permutes its input: every entry is kept, as often as it occurs. */
  lemma {:induction false} SortDescPermutation(s: seq<Prediction>)
    ensures multiset(SortDesc(s)) == multiset(s)
  {
    if s != [] {
      var init, last := s[..|s| - 1], s[|s| - 1];
      SortDescPermutation(init);
      InsertDescPermutation(SortDesc(init), last);
      assert s == init + [last];
    }
  }

  /** The sort leaves the entries in non-increasing order of probability. */
  lemma {:induction false} SortDescOrdered(s: seq<Prediction>)
    ensures NonIncreasing(SortDesc(s))
  {
    if s != [] {
      SortDescOrdered(s[..|s| - 1]);
      InsertDescOrdered(SortDesc(s[..|s| - 1]), s[|s| - 1]);
    }
  }

  lemma {:induction false} WithProbabilityAppend(a: seq<Prediction>, b: seq<Prediction>, p: real)
    ensures WithProbability(a + b, p) == WithProbability(a, p) + WithProbability(b, p)
    decreases |b|
  {
    if b == [] {
      assert a + b == a;
    } else {
      var init := b[..|b| - 1];
      assert (a + b)[..|a + b| - 1] == a + init;
      assert (a + b)[|a + b| - 1] == b[|b| - 1];
      WithProbabilityAppend(a, init, p);
    }
  }

  /** No entry has probability `p`: nothing is selected. */
  lemma {:induction false} WithProbabilityNone(s: seq<Prediction>, p: real)
    requires forall i :: 0 <= i < |s| ==> s[i].probability != p
    ensures WithProbability(s, p) == []
  {
    if s != [] {
      WithProbabilityNone(s[..|s| - 1], p);
    }
  }

  /** A single entry is selected exactly when it has probability `p`. */
  lemma WithProbabilitySingle(e: Prediction, p: real)
    ensures WithProbability([e], p) == if e.probability == p then [e] else []
  {
  }

  /** Inserting `x` appends it to the entries of its own probability and leaves the others alone. */
  lemma {:induction false} InsertDescStable(t: seq<Prediction>, x: Prediction, p: real)
    ensures WithProbability(InsertDesc(t, x), p) == WithProbability(t, p) + WithProbability([x], p)
    decreases |t|
  {
    if t == [] || t[|t| - 1].probability >= x.probability {
      WithProbabilityAppend(t, [x], p);
    } else {
      var init, last := t[..|t| - 1], t[|t| - 1];
      var inserted := InsertDesc(init, x);
      var before, mine, theirs := WithProbability(init, p), WithProbability([x], p), WithProbability([last], p);
      assert WithProbability(InsertDesc(t, x), p) == WithProbability(inserted, p) + theirs by {
        assert InsertDesc(t, x) == inserted + [last];
        WithProbabilityAppend(inserted, [last], p);
      }
      assert WithProbability(t, p) == before + theirs by {
        assert t == init + [last];
        WithProbabilityAppend(init, [last], p);
      }
      assert WithProbability(inserted, p) == before + mine by {
        InsertDescStable(init, x, p);
      }
      assert mine == [] || theirs == [] by {
        WithProbabilitySingle(x, p);
        WithProbabilitySingle(last, p);
      }
      if mine == [] {
        assert before + mine == before;
        assert before + theirs + mine == before + theirs;
      } else {
        assert before + theirs == before;
      }
    }
  }

  /**
   * The sort is stable: for every probability, the entries that carry it come
   * out in the order they went in. With the permutation this is the whole
   * meaning of a stable sort.
   */
  lemma {:induction false} SortDescStable(s: seq<Prediction>, p: real)
    ensures WithProbability(SortDesc(s), p) == WithProbability(s, p)
  {
    if s != [] {
      var init, last := s[..|s| - 1], s[|s| - 1];
      SortDescStable(init, p);
      InsertDescStable(SortDesc(init), last, p);
      assert s == init + [last];
      WithProbabilityAppend(init, [last], p);
    }
  }

  /**
   * An independent definition of the top entry: the earliest entry of maximal
   * probability, found by a left-to-right scan that only moves on a strictly
   * greater probability.
   */
  function EarliestMax(s: seq<Prediction>): (k: nat)
    requires |s| > 0
    ensures k < |s|
    ensures forall j :: 0 <= j < |s| ==> s[j].probability <= s[k].probability
    ensures forall j :: 0 <= j < k ==> s[j].probability < s[k].probability
  {
    if |s| == 1 then 0
    else
      var k := EarliestMax(s[..|s| - 1]);
      assert forall j :: 0 <= j < |s| - 1 ==> s[..|s| - 1][j] == s[j];
      if s[|s| - 1].probability > s[k].probability then |s| - 1 else k
  }

  /** The entry of `p` that comes first in `s` is the first one `WithProbability` selects. */
  lemma FirstWithProbability(s: seq<Prediction>, k: nat, p: real)
    requires k < |s| && s[k].probability == p
    requires forall j :: 0 <= j < k ==> s[j].probability != p
    ensures |WithProbability(s, p)| > 0 && WithProbability(s, p)[0] == s[k]
  {
    WithProbabilityNone(s[..k], p);
    assert s == s[..k] + [s[k]] + s[k + 1..];
    WithProbabilityAppend(s[..k] + [s[k]], s[k + 1..], p);
    WithProbabilityAppend(s[..k], [s[k]], p);
    assert [s[k]][..0] == [];
  }

  /** The first entry after the sort has the greatest probability of the input. */
  lemma TopHasMaxProbability(s: seq<Prediction>)
    requires |s| > 0
    ensures SortDesc(s)[0].probability == s[EarliestMax(s)].probability
  {
    var r, k := SortDesc(s), EarliestMax(s);
    SortDescPermutation(s);
    SortDescOrdered(s);
    assert s[k] in multiset(r);
    assert r[0] in multiset(s);
  }

  /** After the sort, `prediction[0]` is the earliest entry of maximal probability. */
  lemma TopIsEarliestMax(s: seq<Prediction>)
    requires |s| > 0
    ensures SortDesc(s)[0] == s[EarliestMax(s)]
  {
    var r, k := SortDesc(s), EarliestMax(s);
    var m := s[k].probability;
    TopHasMaxProbability(s);
    SortDescStable(s, m);
    FirstWithProbability(r, 0, m);
    FirstWithProbability(s, k, m);
  }

  /** `InsertDesc` places `x` at the first position from the right where the entry before it is not smaller. */
  lemma {:induction false} InsertDescAt(t: seq<Prediction>, x: Prediction, j: nat)
    requires j <= |t|
    requires forall k :: j <= k < |t| ==> t[k].probability < x.probability
    requires j == 0 || t[j - 1].probability >= x.probability
    ensures InsertDesc(t, x) == t[..j] + [x] + t[j..]
    decreases |t|
  {
    if j < |t| {
      var init := t[..|t| - 1];
      assert init[..j] == t[..j];
      InsertDescAt(init, x, j);
      assert t[j..] == init[j..] + [t[|t| - 1]];
    } else {
      assert t[..j] == t;
    }
  }

  /**
   * Shifts the entries at the end of `a[..i]` whose probability is smaller
   * than `x`'s one place right, and returns the gap left where `x` belongs:
   * the entry before the gap, if any, is not smaller than `x`.
   */
  method MakeRoom(a: array<Prediction>, i: int, x: Prediction) returns (j: int)
    requires 0 <= i < a.Length
    modifies a
    ensures 0 <= j <= i
    ensures forall k :: 0 <= k < j ==> a[k] == old(a[k])
    ensures forall k :: j < k <= i ==> a[k] == old(a[k - 1])
    ensures forall k :: i < k < a.Length ==> a[k] == old(a[k])
    ensures forall k :: j <= k < i ==> old(a[k]).probability < x.probability
    ensures j == 0 || old(a[j - 1]).probability >= x.probability
  {
    j := i;
    while 0 < j && a[j - 1].probability < x.probability
      invariant 0 <= j <= i
      invariant forall k :: 0 <= k < j ==> a[k] == old(a[k])
      invariant forall k :: j < k <= i ==> a[k] == old(a[k - 1])
      invariant forall k :: i < k < a.Length ==> a[k] == old(a[k])
      invariant forall k :: j <= k < i ==> old(a[k]).probability < x.probability
    {
      a[j] := a[j - 1];
      j := j - 1;
    }
  }

  /**
   * One step of the in-place sort: `a[i]` moves left past the entries of
   * `a[..i]` with a smaller probability, and no further; entries of equal
   * probability are never passed.
   */
  method InsertLast(a: array<Prediction>, i: int)
    requires 0 <= i < a.Length
    modifies a
    ensures a[..i + 1] == InsertDesc(old(a[..i]), old(a[i]))
    ensures a[i + 1..] == old(a[i + 1..])
  {
    ghost var before := a[..];
    ghost var t, rest := before[..i], before[i + 1..];
    var x := a[i];
    var j := MakeRoom(a, i, x);
    ghost var shifted := a[..];
    a[j] := x;
    assert a[..] == shifted[j := x];
    InsertDescAt(t, x, j);
    ghost var inserted := t[..j] + [x] + t[j..];
    assert |inserted| == i + 1;
    forall k | 0 <= k <= i
      ensures a[k] == inserted[k]
    {
      if k < j {
        assert inserted[k] == t[k];
      } else if j < k {
        assert inserted[k] == t[k - 1];
      }
    }
    assert a[..i + 1] == inserted;
    forall k | 0 <= k < |rest|
      ensures a[i + 1..][k] == rest[k]
    {
      assert shifted[i + 1 + k] == before[i + 1 + k];
    }
    assert a[i + 1..] == rest;
  }

  /** The sort of a prefix one entry longer inserts that entry into the sorted prefix. */
  lemma SortDescPrefix(s: seq<Prediction>, i: nat)
    requires i < |s|
    ensures SortDesc(s[..i + 1]) == InsertDesc(SortDesc(s[..i]), s[i])
  {
    assert s[..i + 1][..i] == s[..i];
  }

  /**
   * The in-place sort of `predict`: an insertion sort, which is stable because
   * each step stops at the first entry that is not smaller.
   */
  method SortByProbability(a: array<Prediction>)
    modifies a
    ensures a[..] == SortDesc(old(a[..]))
  {
    ghost var s := a[..];
    var i := 0;
    while i < a.Length
      invariant 0 <= i <= a.Length
      invariant a[..i] == SortDesc(s[..i])
      invariant a[i..] == s[i..]
    {
      InsertLast(a, i);
      SortDescPrefix(s, i);
      assert a[i + 1..] == s[i + 1..];
      i := i + 1;
    }
    assert s[..a.Length] == s;
    assert a[..] == a[..a.Length];
  }
}
