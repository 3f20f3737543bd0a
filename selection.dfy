/** Top-K selection of groups (`sorted(groups, key=lambda g: -len(g))[:3]`): Python's
    `sorted` is stable, so the groups are ordered by descending size and groups of
    equal size keep their input order; the first three are kept. */
module Selection {

  /** The number of groups the bot keeps per category. */
  const K: nat := 3

  /** Sizes never increase from left to right. */
  predicate NonIncreasing<T>(gs: seq<seq<T>>) {
    forall i, j :: 0 <= i < j < |gs| ==> |gs[i]| >= |gs[j]|
  }

  /** The groups of size `n`, in order. */
  function OfSize<T>(gs: seq<seq<T>>, n: nat): seq<seq<T>> {
    if gs == [] then [] else (if |gs[0]| == n then [gs[0]] else []) + OfSize(gs[1..], n)
  }

  /** Insert `g` into a list sorted by descending size, after the strictly larger groups
      and before the others. */
  function Insert<T>(g: seq<T>, r: seq<seq<T>>): (s: seq<seq<T>>)
    ensures |s| == |r| + 1
  {
    if r == [] || |r[0]| <= |g| then [g] + r else [r[0]] + Insert(g, r[1..])
  }

  /** The stable sort by descending size, as insertion sort from the back. */
  function SortBySize<T>(gs: seq<seq<T>>): (r: seq<seq<T>>)
    ensures |r| == |gs|
  {
    if gs == [] then [] else Insert(gs[0], SortBySize(gs[1..]))
  }

  lemma {:induction false} InsertPermutes<T>(g: seq<T>, r: seq<seq<T>>)
    ensures multiset(Insert(g, r)) == multiset(r) + multiset{g}
    decreases |r|
  {
    if r != [] && |r[0]| > |g| {
      InsertPermutes(g, r[1..]);
      assert r == [r[0]] + r[1..];
    }
  }

  lemma TailNonIncreasing<T>(r: seq<seq<T>>)
    requires r != [] && NonIncreasing(r)
    ensures NonIncreasing(r[1..])
  {
    forall i, j | 0 <= i < j < |r[1..]| ensures |r[1..][i]| >= |r[1..][j]| {
      assert r[1..][i] == r[i + 1] && r[1..][j] == r[j + 1];
    }
  }

  lemma {:induction false} InsertSorted<T>(g: seq<T>, r: seq<seq<T>>)
    requires NonIncreasing(r)
    ensures NonIncreasing(Insert(g, r))
    decreases |r|
  {
    if r != [] && |r[0]| > |g| {
      TailNonIncreasing(r);
      InsertSorted(g, r[1..]);
      InsertPermutes(g, r[1..]);
      var t := Insert(g, r[1..]);
      forall j | 0 <= j < |t| ensures |r[0]| >= |t[j]| {
        assert t[j] in multiset(t);
        if t[j] != g {
          assert t[j] in multiset(r[1..]);
          var m :| 0 <= m < |r[1..]| && r[1..][m] == t[j];
          assert r[m + 1] == t[j];
        }
      }
      var s := Insert(g, r);
      assert s == [r[0]] + t;
      forall i, j | 0 <= i < j < |s| ensures |s[i]| >= |s[j]| {
        if i > 0 { assert s[i] == t[i - 1]; }
        assert s[j] == t[j - 1];
      }
    }
  }

  lemma {:induction false} InsertOfSize<T>(g: seq<T>, r: seq<seq<T>>, n: nat)
    requires NonIncreasing(r)
    ensures OfSize(Insert(g, r), n) == (if |g| == n then [g] else []) + OfSize(r, n)
    decreases |r|
  {
    var s := Insert(g, r);
    if r == [] || |r[0]| <= |g| {
      assert s[0] == g && s[1..] == r;
    } else {
      TailNonIncreasing(r);
      InsertOfSize(g, r[1..], n);
      var t := Insert(g, r[1..]);
      assert s[0] == r[0] && s[1..] == t;
      assert OfSize(s, n) == (if |r[0]| == n then [r[0]] else []) + OfSize(t, n);
      assert OfSize(r, n) == (if |r[0]| == n then [r[0]] else []) + OfSize(r[1..], n);
    }
  }

  lemma {:induction false} SortBySizeFacts<T>(gs: seq<seq<T>>)
    ensures NonIncreasing(SortBySize(gs))
    ensures multiset(SortBySize(gs)) == multiset(gs)
    ensures forall n :: OfSize(SortBySize(gs), n) == OfSize(gs, n)
    decreases |gs|
  {
    if gs != [] {
      SortBySizeFacts(gs[1..]);
      InsertPermutes(gs[0], SortBySize(gs[1..]));
      InsertSorted(gs[0], SortBySize(gs[1..]));
      forall n ensures OfSize(SortBySize(gs), n) == OfSize(gs, n) {
        InsertOfSize(gs[0], SortBySize(gs[1..]), n);
      }
      assert gs == [gs[0]] + gs[1..];
    }
  }

  /** A prefix of a list keeps, for every size, a prefix of that size's groups. */
  lemma {:induction false} OfSizePrefix<T>(gs: seq<seq<T>>, m: nat, n: nat)
    requires m <= |gs|
    ensures OfSize(gs[..m], n) <= OfSize(gs, n)
    decreases m
  {
    if m > 0 {
      assert gs[..m][0] == gs[0] && gs[..m][1..] == gs[1..][..m - 1];
      OfSizePrefix(gs[1..], m - 1, n);
    }
  }

  /** `sorted(groups, key=lambda g: -len(g))[:3]`: three groups, or all of them if there
      are fewer, taken from the front of the sort. */
  function TopK<T>(gs: seq<seq<T>>): (r: seq<seq<T>>)
    ensures |r| == if |gs| < K then |gs| else K
    ensures r <= SortBySize(gs)
  {
    var sorted := SortBySize(gs);
    if |sorted| < K then sorted else sorted[..K]
  }

  /** The selection is the first groups of the stable sort: at most three (all of them
      if there are fewer), by non-increasing size, drawn from the input, with every group
      left out no larger than any group kept, and groups of equal size in their input
      order. */
  lemma TopKFacts<T>(gs: seq<seq<T>>)
    ensures TopK(gs) <= SortBySize(gs)
    ensures NonIncreasing(TopK(gs))
    ensures multiset(TopK(gs)) <= multiset(gs)
    ensures forall g, h :: g in multiset(gs) - multiset(TopK(gs)) && h in TopK(gs) ==> |g| <= |h|
    ensures forall n :: OfSize(TopK(gs), n) <= OfSize(gs, n)
  {
    SortBySizeFacts(gs);
    var sorted := SortBySize(gs);
    assert |sorted| == |multiset(sorted)| == |multiset(gs)| == |gs|;
    var m := if |gs| < K then |gs| else K;
    assert TopK(gs) == sorted[..m];
    CutFacts(sorted, m);
    forall n ensures OfSize(sorted[..m], n) <= OfSize(gs, n) {
      OfSizePrefix(sorted, m, n);
    }
  }

  /** Every selected group is one of the input groups. */
  lemma TopKFromInput<T>(gs: seq<seq<T>>)
    ensures forall g :: g in TopK(gs) ==> g in gs
  {
    TopKFacts(gs);
    forall g | g in TopK(gs) ensures g in gs {
      assert g in multiset(TopK(gs));
    }
  }

  /** Cutting a list sorted by descending size: the kept part is sorted, is part of the
      list, and nothing cut off is larger than anything kept. */
  lemma CutFacts<T>(sorted: seq<seq<T>>, m: nat)
    requires NonIncreasing(sorted) && m <= |sorted|
    ensures NonIncreasing(sorted[..m])
    ensures multiset(sorted[..m]) <= multiset(sorted)
    ensures multiset(sorted) - multiset(sorted[..m]) == multiset(sorted[m..])
    ensures forall g, h :: g in multiset(sorted[m..]) && h in sorted[..m] ==> |g| <= |h|
  {
    var r, rest := sorted[..m], sorted[m..];
    assert sorted == r + rest;
    forall g, h | g in multiset(rest) && h in r ensures |g| <= |h| {
      var i :| 0 <= i < |r| && r[i] == h;
      var j :| 0 <= j < |rest| && rest[j] == g;
      assert sorted[i] == h && sorted[m + j] == g;
    }
  }

  /** With groups of sizes 5, 5, 2 and 1, in that order, the two groups of size 5 are
      kept in their order, then the group of size 2; the single is dropped. */
  lemma TopKExample()
    ensures TopK([[1, 1, 1, 1, 1], [2, 2, 2, 2, 2], [3, 3], [4]]) == [[1, 1, 1, 1, 1], [2, 2, 2, 2, 2], [3, 3]]
  {
  }
}
