/**
 * The row order of an `ORDER BY score` query over a table keyed by integer ids.
 * SQL leaves the order of equal scores open; this model breaks ties by ascending id,
 * so the order is a total one and the listing is a function of the table.
 */
module Ordering {

  /** `a` is listed no later than `b`: smaller score first, then smaller id. */
  predicate Precedes(scores: map<int, int>, a: int, b: int)
    requires a in scores && b in scores
  {
    scores[a] < scores[b] || (scores[a] == scores[b] && a <= b)
  }

  /** `k` is the row the query lists first. */
  predicate IsFirst(scores: map<int, int>, k: int) {
    k in scores && forall j :: j in scores ==> Precedes(scores, k, j)
  }

  /** The query order is transitive. */
  lemma PrecedesTransitive(scores: map<int, int>, a: int, b: int, c: int)
    requires a in scores && b in scores && c in scores
    requires Precedes(scores, a, b) && Precedes(scores, b, c)
    ensures Precedes(scores, a, c)
  {
  }

  /** A non-empty set of ids of the table has an element that precedes all the others. */
  lemma {:induction false} FirstOf(scores: map<int, int>, ks: set<int>) returns (k: int)
    requires |ks| > 0 && ks <= scores.Keys
    ensures k in ks && forall j :: j in ks ==> Precedes(scores, k, j)
    decreases |ks|
  {
    if forall y :: y !in ks { assert false; }
    var x :| x in ks;
    var rest := ks - {x};
    if |rest| == 0 {
      assert ks == {x};
      k := x;
    } else {
      var y := FirstOf(scores, rest);
      k := if Precedes(scores, x, y) then x else y;
      forall j | j in ks
        ensures Precedes(scores, k, j)
      {
        if j != x {
          assert j in rest;
          if k == x {
            PrecedesTransitive(scores, x, y, j);
          }
        }
      }
    }
  }

  lemma FirstExists(scores: map<int, int>)
    requires |scores| > 0
    ensures exists k :: IsFirst(scores, k)
  {
    assert |scores.Keys| > 0;
    var k := FirstOf(scores, scores.Keys);
    assert IsFirst(scores, k);
  }

  /**
   * The first `n` ids of the table in query order (`ORDER BY score LIMIT n`). What the listing
   * holds is `SortedKeysSorted`; that no id left out precedes one listed is `SortedKeysTop`.
   */
  function SortedKeys(scores: map<int, int>, n: nat): seq<int>
    decreases n
  {
    if n == 0 || |scores| == 0 then []
    else
      FirstExists(scores);
      var k :| IsFirst(scores, k);
      [k] + SortedKeys(scores - {k}, n - 1)
  }

  /** The first element of a non-empty listing is the first row; the rest is the listing of the other rows. */
  lemma SortedKeysUnfold(scores: map<int, int>, n: nat)
    requires n > 0 && |scores| > 0
    ensures var r := SortedKeys(scores, n);
            && |r| > 0 && IsFirst(scores, r[0])
            && r == [r[0]] + SortedKeys(scores - {r[0]}, n - 1)
            && (scores - {r[0]}).Keys == scores.Keys - {r[0]}
            && |scores - {r[0]}| == |scores| - 1
  {
  }

  /** The listing holds `min(n, |scores|)` ids. */
  lemma {:induction false} SortedKeysLength(scores: map<int, int>, n: nat)
    ensures |SortedKeys(scores, n)| == if n < |scores| then n else |scores|
    decreases n
  {
    if n > 0 && |scores| > 0 {
      SortedKeysUnfold(scores, n);
      var r := SortedKeys(scores, n);
      SortedKeysLength(scores - {r[0]}, n - 1);
    }
  }

  /** Every listed id is an id of the table. */
  lemma {:induction false} SortedKeysFromTable(scores: map<int, int>, n: nat)
    ensures forall i :: 0 <= i < |SortedKeys(scores, n)| ==> SortedKeys(scores, n)[i] in scores
    decreases n
  {
    if n > 0 && |scores| > 0 {
      SortedKeysUnfold(scores, n);
      var r := SortedKeys(scores, n);
      SortedKeysFromTable(scores - {r[0]}, n - 1);
    }
  }

  /** The listing holds distinct ids, each preceding those listed after it. */
  lemma {:induction false} SortedKeysSorted(scores: map<int, int>, n: nat)
    ensures var r := SortedKeys(scores, n);
            forall i, j :: 0 <= i < j < |r| ==> r[i] in scores && r[j] in scores && r[i] != r[j] && Precedes(scores, r[i], r[j])
    decreases n
  {
    if n > 0 && |scores| > 0 {
      SortedKeysUnfold(scores, n);
      var r := SortedKeys(scores, n);
      var rest := scores - {r[0]};
      var tail := SortedKeys(rest, n - 1);
      SortedKeysFromTable(rest, n - 1);
      SortedKeysSorted(rest, n - 1);
      forall i, j | 0 <= i < j < |r|
        ensures r[i] in scores && r[j] in scores && r[i] != r[j] && Precedes(scores, r[i], r[j])
      {
        assert r[j] == tail[j - 1] && r[j] in rest;
        if i > 0 {
          assert r[i] == tail[i - 1];
          assert Precedes(rest, tail[i - 1], tail[j - 1]);
        }
      }
    }
  }

  /** An id the query leaves out is preceded by every id it lists. */
  lemma {:induction false} SortedKeysTop(scores: map<int, int>, n: nat, i: nat, k: int)
    requires i < |SortedKeys(scores, n)| && k in scores && k !in SortedKeys(scores, n)
    ensures SortedKeys(scores, n)[i] in scores && Precedes(scores, SortedKeys(scores, n)[i], k)
    decreases n
  {
    SortedKeysUnfold(scores, n);
    var r := SortedKeys(scores, n);
    var first := r[0];
    var rest := scores - {first};
    if i > 0 {
      assert r[i] == SortedKeys(rest, n - 1)[i - 1];
      assert k in rest && k !in SortedKeys(rest, n - 1);
      SortedKeysTop(rest, n - 1, i - 1, k);
    }
  }

  /** With `n` at least the size of the table, the query lists every id. */
  lemma {:induction false} SortedKeysComplete(scores: map<int, int>, n: nat)
    requires n >= |scores|
    ensures forall k :: k in scores ==> k in SortedKeys(scores, n)
    decreases n
  {
    if |scores| > 0 {
      SortedKeysUnfold(scores, n);
      var r := SortedKeys(scores, n);
      var first := r[0];
      var rest := scores - {first};
      SortedKeysComplete(rest, n - 1);
    }
  }
}
