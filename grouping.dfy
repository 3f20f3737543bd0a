/** Grouping a category's headlines by the cluster label the clustering assigned to
    each (`grupos = defaultdict(list)` filled in label order). The groups come out in
    the dictionary's insertion order, that is, in order of each label's first use. */
module LabelGroups {

  /** The labels in order of first occurrence, each once. */
  function Distinct(labels: seq<int>): (d: seq<int>)
    ensures forall i, j :: 0 <= i < j < |d| ==> d[i] != d[j]
    ensures forall l :: l in d <==> l in labels
  {
    if labels == [] then []
    else
      var init := labels[..|labels| - 1];
      assert labels == init + [labels[|labels| - 1]];
      var p := Distinct(init);
      if labels[|labels| - 1] in p then p else p + [labels[|labels| - 1]]
  }

  /** The items whose label is `l`, in input order. */
  function Members<T>(items: seq<T>, labels: seq<int>, l: int): seq<T>
    requires |items| == |labels|
  {
    if items == [] then []
    else
      Members(items[..|items| - 1], labels[..|labels| - 1], l)
      + (if labels[|labels| - 1] == l then [items[|items| - 1]] else [])
  }

  /** The groups, one per distinct label, in order of the label's first occurrence. */
  function Grouping<T>(items: seq<T>, labels: seq<int>): seq<seq<T>>
    requires |items| == |labels|
  {
    var d := Distinct(labels);
    seq(|d|, i requires 0 <= i < |d| => Members(items, labels, d[i]))
  }

  /** The loop over `enumerate(labels)` that appends each item to its label's list.
      `order` is the key order of the dictionary and `buckets` its contents; the
      result is `grupos.values()`. */
  method GroupByLabel<T>(items: seq<T>, labels: seq<int>) returns (groups: seq<seq<T>>)
    requires |items| == |labels|
    ensures groups == Grouping(items, labels)
  {
    var order: seq<int> := [];
    var buckets: map<int, seq<T>> := map[];
    var idx := 0;
    while idx < |labels|
      invariant 0 <= idx <= |labels|
      invariant order == Distinct(labels[..idx])
      invariant forall l :: l in buckets <==> l in order
      invariant forall l :: l in buckets ==> buckets[l] == Members(items[..idx], labels[..idx], l)
    {
      var etiqueta := labels[idx];
      DistinctSnoc(labels, idx);
      forall l { MembersSnoc(items, labels, idx, l); }
      if etiqueta !in buckets {
        MembersAbsent(items[..idx], labels[..idx], etiqueta);
        order := order + [etiqueta];
        buckets := buckets[etiqueta := []];
      }
      buckets := buckets[etiqueta := buckets[etiqueta] + [items[idx]]];
      idx := idx + 1;
    }
    forall i | 0 <= i < |order| ensures order[i] in buckets {
      assert order[i] in order;
    }
    assert items[..idx] == items && labels[..idx] == labels;
    groups := seq(|order|, i requires 0 <= i < |order| => buckets[order[i]]);
  }

  lemma DistinctSnoc(labels: seq<int>, idx: nat)
    requires idx < |labels|
    ensures Distinct(labels[..idx + 1]) ==
      if labels[idx] in Distinct(labels[..idx]) then Distinct(labels[..idx]) else Distinct(labels[..idx]) + [labels[idx]]
  {
    assert labels[..idx + 1][..idx] == labels[..idx];
  }

  lemma MembersSnoc<T>(items: seq<T>, labels: seq<int>, idx: nat, l: int)
    requires |items| == |labels| && idx < |labels|
    ensures Members(items[..idx + 1], labels[..idx + 1], l)
      == Members(items[..idx], labels[..idx], l) + (if labels[idx] == l then [items[idx]] else [])
  {
    assert items[..idx + 1][..idx] == items[..idx];
    assert labels[..idx + 1][..idx] == labels[..idx];
  }

  /** A label that does not occur has no members. */
  lemma {:induction false} MembersAbsent<T>(items: seq<T>, labels: seq<int>, l: int)
    requires |items| == |labels| && l !in labels
    ensures Members(items, labels, l) == []
    decreases |items|
  {
    if items != [] {
      assert labels == labels[..|labels| - 1] + [labels[|labels| - 1]];
      MembersAbsent(items[..|items| - 1], labels[..|labels| - 1], l);
    }
  }

  /** The item at a position belongs to the members of its label. */
  lemma {:induction false} MembersHas<T>(items: seq<T>, labels: seq<int>, i: nat)
    requires |items| == |labels| && i < |items|
    ensures items[i] in Members(items, labels, labels[i])
    decreases |items|
  {
    var n := |items| - 1;
    if i < n {
      MembersHas(items[..n], labels[..n], i);
    }
  }

  /** Every member of a label is an item carrying that label. */
  lemma {:induction false} MembersFrom<T>(items: seq<T>, labels: seq<int>, l: int, x: T)
    requires |items| == |labels| && x in Members(items, labels, l)
    ensures exists i :: 0 <= i < |items| && items[i] == x && labels[i] == l
    decreases |items|
  {
    var n := |items| - 1;
    var init := Members(items[..n], labels[..n], l);
    if x in init {
      MembersFrom(items[..n], labels[..n], l, x);
      var i :| 0 <= i < n && items[..n][i] == x && labels[..n][i] == l;
      assert items[i] == x && labels[i] == l;
    } else {
      assert items[n] == x && labels[n] == l;
    }
  }

  /** The positions that carry label `l`, in increasing order. */
  function Positions(labels: seq<int>, l: int): seq<nat> {
    if labels == [] then []
    else Positions(labels[..|labels| - 1], l) + (if labels[|labels| - 1] == l then [|labels| - 1] else [])
  }

  /** The positions of `l` are increasing, carry `l`, and include every position that
      carries `l`. */
  lemma {:induction false} PositionsOfLabel(labels: seq<int>, l: int)
    ensures forall k :: 0 <= k < |Positions(labels, l)| ==>
      Positions(labels, l)[k] < |labels| && labels[Positions(labels, l)[k]] == l
    ensures forall j, k :: 0 <= j < k < |Positions(labels, l)| ==> Positions(labels, l)[j] < Positions(labels, l)[k]
    ensures forall i :: 0 <= i < |labels| && labels[i] == l ==> i in Positions(labels, l)
    decreases |labels|
  {
    if labels != [] {
      var n := |labels| - 1;
      var init := labels[..n];
      PositionsOfLabel(init, l);
      var p0, p := Positions(init, l), Positions(labels, l);
      assert p[..|p0|] == p0;
      forall k | 0 <= k < |p0| ensures labels[p0[k]] == l {
        assert init[p0[k]] == l;
      }
      forall i | 0 <= i < n && labels[i] == l ensures i in p0 {
        assert init[i] == l;
      }
    }
  }

  /** A group keeps its items in input order: its `k`-th member is the item at the
      `k`-th position carrying the label. */
  lemma {:induction false} MembersInInputOrder<T>(items: seq<T>, labels: seq<int>, l: int)
    requires |items| == |labels|
    ensures |Members(items, labels, l)| == |Positions(labels, l)|
    ensures forall k :: 0 <= k < |Positions(labels, l)| ==>
      Positions(labels, l)[k] < |items| && Members(items, labels, l)[k] == items[Positions(labels, l)[k]]
    decreases |items|
  {
    if items != [] {
      var n := |items| - 1;
      MembersInInputOrder(items[..n], labels[..n], l);
      PositionsOfLabel(labels[..n], l);
      var p0 := Positions(labels[..n], l);
      var m0 := Members(items[..n], labels[..n], l);
      var p, m := Positions(labels, l), Members(items, labels, l);
      assert p[..|p0|] == p0 && m[..|m0|] == m0;
      forall k | 0 <= k < |p0| ensures m[k] == items[p[k]] {
        assert items[..n][p0[k]] == items[p0[k]];
      }
    }
  }

  /** Every group is non-empty. */
  lemma GroupsNonEmpty<T>(items: seq<T>, labels: seq<int>)
    requires |items| == |labels|
    ensures forall g :: g in Grouping(items, labels) ==> g != []
  {
    var d := Distinct(labels);
    forall k | 0 <= k < |d| ensures Members(items, labels, d[k]) != [] {
      assert d[k] in labels;
      var i :| 0 <= i < |labels| && labels[i] == d[k];
      MembersHas(items, labels, i);
    }
  }

  /** Every item lands in exactly one group: the one of its label, which holds it. */
  lemma ExactlyOneGroup<T>(items: seq<T>, labels: seq<int>, i: nat)
    requires |items| == |labels| && i < |items|
    ensures exists k :: (0 <= k < |Distinct(labels)| && Distinct(labels)[k] == labels[i]
      && items[i] in Grouping(items, labels)[k])
    ensures forall k, k' :: 0 <= k < k' < |Distinct(labels)| ==> !(Distinct(labels)[k] == labels[i] == Distinct(labels)[k'])
  {
    var d := Distinct(labels);
    assert labels[i] in labels;
    var k :| 0 <= k < |d| && d[k] == labels[i];
    MembersHas(items, labels, i);
  }

  /** Every member of a group is one of the items. */
  lemma GroupsFromItems<T>(items: seq<T>, labels: seq<int>)
    requires |items| == |labels|
    ensures forall g, x :: g in Grouping(items, labels) && x in g ==> x in items
  {
    var d := Distinct(labels);
    forall g, x | g in Grouping(items, labels) && x in g ensures x in items {
      var k :| 0 <= k < |d| && g == Members(items, labels, d[k]);
      MembersFrom(items, labels, d[k], x);
    }
  }

  /** The concatenation of a list of groups. */
  function Flatten<T>(gs: seq<seq<T>>): seq<T> {
    if gs == [] then [] else Flatten(gs[..|gs| - 1]) + gs[|gs| - 1]
  }

  /** The sum of the sizes of a list of groups. */
  function SumSizes<T>(gs: seq<seq<T>>): nat {
    if gs == [] then 0 else SumSizes(gs[..|gs| - 1]) + |gs[|gs| - 1]|
  }

  lemma {:induction false} FlattenSize<T>(gs: seq<seq<T>>)
    ensures |Flatten(gs)| == SumSizes(gs)
    decreases |gs|
  {
    if gs != [] {
      FlattenSize(gs[..|gs| - 1]);
    }
  }

  lemma {:induction false} FlattenUpdate<T>(gs: seq<seq<T>>, k: nat, x: T)
    requires k < |gs|
    ensures multiset(Flatten(gs[k := gs[k] + [x]])) == multiset(Flatten(gs)) + multiset{x}
    decreases |gs|
  {
    var n := |gs| - 1;
    var gs' := gs[k := gs[k] + [x]];
    if k < n {
      assert gs'[..n] == gs[..n][k := gs[k] + [x]];
      FlattenUpdate(gs[..n], k, x);
    } else {
      assert gs'[..n] == gs[..n];
    }
  }

  /** How the grouping of a longer input arises from the grouping of its prefix: the
      new item joins its label's group, if the label was seen before, ... */
  lemma GroupingSnocSeen<T>(items: seq<T>, labels: seq<int>, n: nat, k: nat)
    requires |items| == |labels| && n < |items|
    requires k < |Distinct(labels[..n])| && Distinct(labels[..n])[k] == labels[n]
    ensures Grouping(items[..n + 1], labels[..n + 1])
      == Grouping(items[..n], labels[..n])[k := Grouping(items[..n], labels[..n])[k] + [items[n]]]
  {
    DistinctSnoc(labels, n);
    var g, g' := Grouping(items[..n], labels[..n]), Grouping(items[..n + 1], labels[..n + 1]);
    var d := Distinct(labels[..n]);
    assert |g'| == |g|;
    forall j | 0 <= j < |g| ensures g'[j] == g[k := g[k] + [items[n]]][j] {
      MembersSnoc(items, labels, n, d[j]);
      assert d[j] == labels[n] ==> j == k;
    }
  }

  /** ... or opens a new group at the end. */
  lemma GroupingSnocNew<T>(items: seq<T>, labels: seq<int>, n: nat)
    requires |items| == |labels| && n < |items|
    requires labels[n] !in Distinct(labels[..n])
    ensures Grouping(items[..n + 1], labels[..n + 1]) == Grouping(items[..n], labels[..n]) + [[items[n]]]
  {
    DistinctSnoc(labels, n);
    var g, g' := Grouping(items[..n], labels[..n]), Grouping(items[..n + 1], labels[..n + 1]);
    var d := Distinct(labels[..n]);
    MembersAbsent(items[..n], labels[..n], labels[n]);
    assert |g'| == |g| + 1;
    forall j | 0 <= j < |g'| ensures g'[j] == (g + [[items[n]]])[j] {
      if j < |g| {
        MembersSnoc(items, labels, n, d[j]);
      } else {
        MembersSnoc(items, labels, n, labels[n]);
      }
    }
  }

  lemma {:induction false} GroupingPrefixPermutes<T>(items: seq<T>, labels: seq<int>, n: nat)
    requires |items| == |labels| && n <= |items|
    ensures multiset(Flatten(Grouping(items[..n], labels[..n]))) == multiset(items[..n])
    decreases n
  {
    if n == 0 {
      assert Distinct(labels[..0]) == [];
      assert Grouping(items[..0], labels[..0]) == [];
    } else {
      var m := n - 1;
      GroupingPrefixPermutes(items, labels, m);
      GroupingStepAddsItem(items, labels, m);
      PrefixSnoc(items, m);
      assert m + 1 == n;
    }
  }

  lemma PrefixSnoc<T>(s: seq<T>, n: nat)
    requires n < |s|
    ensures multiset(s[..n + 1]) == multiset(s[..n]) + multiset{s[n]}
  {
    assert s[..n + 1] == s[..n] + [s[n]];
  }

  /** One more item adds exactly that item to the groups' contents. */
  lemma GroupingStepAddsItem<T>(items: seq<T>, labels: seq<int>, n: nat)
    requires |items| == |labels| && n < |items|
    ensures multiset(Flatten(Grouping(items[..n + 1], labels[..n + 1])))
      == multiset(Flatten(Grouping(items[..n], labels[..n]))) + multiset{items[n]}
  {
    var g := Grouping(items[..n], labels[..n]);
    var d := Distinct(labels[..n]);
    if labels[n] in d {
      var k :| 0 <= k < |d| && d[k] == labels[n];
      GroupingSnocSeen(items, labels, n, k);
      FlattenUpdate(g, k, items[n]);
    } else {
      GroupingSnocNew(items, labels, n);
      assert (g + [[items[n]]])[..|g|] == g;
    }
  }

  /** The groups partition the input: together they hold every item exactly as often
      as the input does, and their sizes add up to the input length. */
  lemma GroupingPartitions<T>(items: seq<T>, labels: seq<int>)
    requires |items| == |labels|
    ensures multiset(Flatten(Grouping(items, labels))) == multiset(items)
    ensures SumSizes(Grouping(items, labels)) == |items|
  {
    GroupingPrefixPermutes(items, labels, |items|);
    assert items[..|items|] == items && labels[..|labels|] == labels;
    FlattenSize(Grouping(items, labels));
    assert |multiset(Flatten(Grouping(items, labels)))| == |multiset(items)|;
  }

  /** The position of the first occurrence of `l`. */
  function FirstIndex(labels: seq<int>, l: int): (i: nat)
    requires l in labels
    ensures i < |labels| && labels[i] == l && l !in labels[..i]
  {
    if labels[0] == l then 0
    else
      assert labels[1..][FirstIndex(labels[1..], l)] == l;
      assert labels[..1 + FirstIndex(labels[1..], l)] == [labels[0]] + labels[1..][..FirstIndex(labels[1..], l)];
      1 + FirstIndex(labels[1..], l)
  }

  /** Groups come in order of the first occurrence of their labels, as in a Python
      dictionary's insertion order. */
  lemma {:induction false} DistinctInFirstOccurrenceOrder(labels: seq<int>)
    ensures forall j, k :: 0 <= j < k < |Distinct(labels)| ==>
      FirstIndex(labels, Distinct(labels)[j]) < FirstIndex(labels, Distinct(labels)[k])
    decreases |labels|
  {
    if labels != [] {
      var n := |labels| - 1;
      var init := labels[..n];
      DistinctInFirstOccurrenceOrder(init);
      var d, d0 := Distinct(labels), Distinct(init);
      forall l | l in init ensures FirstIndex(labels, l) == FirstIndex(init, l) {
        FirstIndexPrefix(init, labels, l);
      }
      assert forall f :: 0 <= f < n ==> labels[f] == init[f];
      if labels[n] !in init {
        assert labels[n] !in labels[..n];
        assert FirstIndex(labels, labels[n]) == n;
      }
      forall j, k | 0 <= j < k < |d|
        ensures FirstIndex(labels, d[j]) < FirstIndex(labels, d[k])
      {
        assert d[j] in d0 && d[j] in init;
        if k < |d0| {
          assert d[k] in init;
        }
      }
    }
  }

  lemma FirstIndexPrefix(p: seq<int>, s: seq<int>, l: int)
    requires p <= s && l in p
    ensures l in s && FirstIndex(s, l) == FirstIndex(p, l)
  {
    var f, g := FirstIndex(p, l), FirstIndex(s, l);
    assert forall i :: 0 <= i < |p| ==> p[i] == s[i];
    assert s[..f] == p[..f];
  }

  /** A non-empty input has at least one group. */
  lemma GroupingNonEmpty<T>(items: seq<T>, labels: seq<int>)
    requires |items| == |labels| && items != []
    ensures Grouping(items, labels) != []
  {
    assert labels[0] in labels;
  }
}
