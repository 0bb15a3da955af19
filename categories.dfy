/**
 * The order of the category panes (`_renderPlugins`): the known categories
 * in a fixed order, unknown ones after them, and the header switcher chosen
 * by how many categories there are.
 */
module Categories {
  const AppName := "Fedy"

  const CategoryOrder: seq<string> := ["Apps", "Games", "Development Tools", "Tweaks", "Utilities"]

  /** `categoryOrder.length`: the rank of every category not in the list. */
  const UnknownRank: nat := 5

  /** `categoryOrder.indexOf(c)`, with `categoryOrder.length` for a category not in the list. */
  function Rank(c: string): (r: nat)
    ensures r <= UnknownRank
  {
    if c == "Apps" then 0
    else if c == "Games" then 1
    else if c == "Development Tools" then 2
    else if c == "Tweaks" then 3
    else if c == "Utilities" then 4
    else UnknownRank
  }

  /** The rank is the position in the fixed order, and only unknown categories get `categoryOrder.length`. */
  lemma RankIsPosition(c: string)
    ensures UnknownRank == |CategoryOrder|
    ensures Rank(c) < UnknownRank <==> c in CategoryOrder
    ensures Rank(c) < UnknownRank ==> CategoryOrder[Rank(c)] == c
  {
  }

  /** The comparator passed to `sort`: negative, zero or positive as `a` ranks before, with or after `b`. */
  function Compare(a: string, b: string): int {
    Rank(a) - Rank(b)
  }

  /** The keys of rank `r`, in their original order. */
  function WithRank(keys: seq<string>, rank: string -> nat, r: nat): (s: seq<string>)
    ensures forall i :: 0 <= i < |s| ==> rank(s[i]) == r
  {
    if keys == [] then []
    else WithRank(keys[..|keys| - 1], rank, r) + (if rank(keys[|keys| - 1]) == r then [keys[|keys| - 1]] else [])
  }

  /** The keys of rank `r`, then those of rank `r + 1`, and so on up to the unknown rank. */
  function ByRankFrom(keys: seq<string>, rank: string -> nat, r: nat): seq<string>
    decreases UnknownRank + 1 - r
  {
    if r > UnknownRank then [] else WithRank(keys, rank, r) + ByRankFrom(keys, rank, r + 1)
  }

  /**
   * `Object.keys(plugins).sort(compare)`. The sort is stable, so the result
   * is the categories of rank 0 in their original order, then those of rank
   * 1, and so on up to the unknown ones.
   */
  function SortCategories(keys: seq<string>): seq<string> {
    ByRankFrom(keys, Rank, 0)
  }

  lemma {:induction false} ByRankFromRanks(keys: seq<string>, rank: string -> nat, r: nat)
    ensures forall i :: 0 <= i < |ByRankFrom(keys, rank, r)| ==> r <= rank(ByRankFrom(keys, rank, r)[i])
    ensures forall i, j :: 0 <= i < j < |ByRankFrom(keys, rank, r)| ==>
      rank(ByRankFrom(keys, rank, r)[i]) <= rank(ByRankFrom(keys, rank, r)[j])
    decreases UnknownRank + 1 - r
  {
    if r <= UnknownRank {
      ByRankFromRanks(keys, rank, r + 1);
      var w, rest := WithRank(keys, rank, r), ByRankFrom(keys, rank, r + 1);
      assert ByRankFrom(keys, rank, r) == w + rest;
      assert forall i :: 0 <= i < |w| ==> rank(w[i]) == r;
      assert forall i :: 0 <= i < |rest| ==> r + 1 <= rank(rest[i]);
      forall i | 0 <= i < |w + rest| ensures r <= rank((w + rest)[i]) {
        if i >= |w| { assert (w + rest)[i] == rest[i - |w|]; } else { assert (w + rest)[i] == w[i]; }
      }
      forall i, j | 0 <= i < j < |w + rest| ensures rank((w + rest)[i]) <= rank((w + rest)[j]) {
        if j >= |w| { assert (w + rest)[j] == rest[j - |w|]; } else { assert (w + rest)[j] == w[j]; }
        if i >= |w| { assert (w + rest)[i] == rest[i - |w|]; } else { assert (w + rest)[i] == w[i]; }
      }
    }
  }

  /** The sorted categories never have a pair the comparator puts the other way round. */
  lemma Sorted(keys: seq<string>)
    ensures forall i, j :: 0 <= i < j < |SortCategories(keys)| ==>
      Compare(SortCategories(keys)[i], SortCategories(keys)[j]) <= 0
  {
    ByRankFromRanks(keys, Rank, 0);
  }

  /** How many times `c` occurs in `s`. */
  function Count(s: seq<string>, c: string): nat {
    if s == [] then 0 else Count(s[..|s| - 1], c) + (if s[|s| - 1] == c then 1 else 0)
  }

  lemma {:induction false} CountConcat(a: seq<string>, b: seq<string>, c: string)
    ensures Count(a + b, c) == Count(a, c) + Count(b, c)
    decreases |b|
  {
    if b == [] {
      assert a + b == a;
    } else {
      assert (a + b)[..|a + b| - 1] == a + b[..|b| - 1];
      CountConcat(a, b[..|b| - 1], c);
    }
  }

  lemma {:induction false} CountIsMultiplicity(s: seq<string>, c: string)
    ensures Count(s, c) == multiset(s)[c]
  {
    if s != [] {
      CountIsMultiplicity(s[..|s| - 1], c);
      assert s == s[..|s| - 1] + [s[|s| - 1]];
    }
  }

  lemma {:induction false} WithRankCount(keys: seq<string>, rank: string -> nat, r: nat, c: string)
    ensures Count(WithRank(keys, rank, r), c) == if rank(c) == r then Count(keys, c) else 0
  {
    if keys != [] {
      var init, last := keys[..|keys| - 1], keys[|keys| - 1];
      WithRankCount(init, rank, r, c);
      CountConcat(WithRank(init, rank, r), if rank(last) == r then [last] else [], c);
    }
  }

  lemma CountStep(keys: seq<string>, rank: string -> nat, r: nat, c: string)
    requires r <= UnknownRank
    requires Count(ByRankFrom(keys, rank, r + 1), c) == if r + 1 <= rank(c) then Count(keys, c) else 0
    ensures Count(ByRankFrom(keys, rank, r), c) == if r <= rank(c) then Count(keys, c) else 0
  {
    var w, rest := WithRank(keys, rank, r), ByRankFrom(keys, rank, r + 1);
    assert ByRankFrom(keys, rank, r) == w + rest;
    CountConcat(w, rest, c);
    WithRankCount(keys, rank, r, c);
  }

  lemma {:induction false} ByRankFromCount(keys: seq<string>, rank: string -> nat, r: nat, c: string)
    requires rank(c) <= UnknownRank
    ensures Count(ByRankFrom(keys, rank, r), c) == if r <= rank(c) then Count(keys, c) else 0
    decreases UnknownRank + 1 - r
  {
    if r <= UnknownRank {
      ByRankFromCount(keys, rank, r + 1, c);
      CountStep(keys, rank, r, c);
    }
  }

  /** Sorting neither loses nor duplicates a category. */
  lemma Permutation(keys: seq<string>)
    ensures multiset(SortCategories(keys)) == multiset(keys)
  {
    forall c ensures multiset(SortCategories(keys))[c] == multiset(keys)[c] {
      ByRankFromCount(keys, Rank, 0, c);
      CountIsMultiplicity(SortCategories(keys), c);
      CountIsMultiplicity(keys, c);
    }
  }

  lemma {:induction false} WithRankOfConcat(a: seq<string>, b: seq<string>, rank: string -> nat, r: nat)
    ensures WithRank(a + b, rank, r) == WithRank(a, rank, r) + WithRank(b, rank, r)
    decreases |b|
  {
    if b == [] {
      assert a + b == a;
    } else {
      assert (a + b)[..|a + b| - 1] == a + b[..|b| - 1];
      WithRankOfConcat(a, b[..|b| - 1], rank, r);
    }
  }

  lemma {:induction false} WithRankOfRanked(keys: seq<string>, rank: string -> nat, r: nat, q: nat)
    requires forall i :: 0 <= i < |keys| ==> rank(keys[i]) == q
    ensures WithRank(keys, rank, r) == if r == q then keys else []
  {
    if keys != [] {
      WithRankOfRanked(keys[..|keys| - 1], rank, r, q);
    }
  }

  lemma {:induction false} NoneAboveUnknown(keys: seq<string>, q: nat)
    requires q > UnknownRank
    ensures WithRank(keys, Rank, q) == []
  {
    if keys != [] {
      NoneAboveUnknown(keys[..|keys| - 1], q);
      assert Rank(keys[|keys| - 1]) != q;
    }
  }

  /** One rank's keys put in front of the later ranks leave the keys of rank `q` as they were. */
  lemma StableStep(keys: seq<string>, rank: string -> nat, r: nat, q: nat)
    requires r <= UnknownRank
    requires WithRank(ByRankFrom(keys, rank, r + 1), rank, q) == if r + 1 <= q then WithRank(keys, rank, q) else []
    ensures WithRank(ByRankFrom(keys, rank, r), rank, q) == if r <= q then WithRank(keys, rank, q) else []
  {
    var w, rest := WithRank(keys, rank, r), ByRankFrom(keys, rank, r + 1);
    assert ByRankFrom(keys, rank, r) == w + rest;
    WithRankOfConcat(w, rest, rank, q);
    WithRankOfRanked(w, rank, q, r);
    if q == r {
      assert WithRank(w + rest, rank, q) == w + [];
    } else if r < q {
      assert WithRank(w + rest, rank, q) == [] + WithRank(keys, rank, q);
    } else {
      assert WithRank(w + rest, rank, q) == [] + [];
    }
  }

  lemma {:induction false} ByRankFromStable(keys: seq<string>, rank: string -> nat, r: nat, q: nat)
    requires q <= UnknownRank
    ensures WithRank(ByRankFrom(keys, rank, r), rank, q) == if r <= q then WithRank(keys, rank, q) else []
    decreases UnknownRank + 1 - r
  {
    if r <= UnknownRank {
      ByRankFromStable(keys, rank, r + 1, q);
      StableStep(keys, rank, r, q);
    }
  }

  /** Categories that compare equal keep their original relative order. */
  lemma Stable(keys: seq<string>, r: nat)
    ensures WithRank(SortCategories(keys), Rank, r) == WithRank(keys, Rank, r)
  {
    if r <= UnknownRank {
      ByRankFromStable(keys, Rank, 0, r);
    } else {
      NoneAboveUnknown(SortCategories(keys), r);
      NoneAboveUnknown(keys, r);
    }
  }

  /** The header: the application's name, the single category's name, or a switcher between the panes. */
  datatype Switcher = Title(text: string) | StackSwitcher

  function ChooseSwitcher(categories: seq<string>): (s: Switcher)
    ensures s.StackSwitcher? <==> |categories| > 1
    ensures |categories| == 0 ==> s == Title(AppName)
    ensures |categories| == 1 ==> s == Title(categories[0])
  {
    if |categories| == 0 then Title(AppName)
    else if |categories| == 1 then Title(categories[0])
    else StackSwitcher
  }

  /** Two orderings of the same categories get the same kind of header. */
  lemma SwitcherOfPermutation(ordered: seq<string>, keys: seq<string>)
    requires multiset(ordered) == multiset(keys)
    ensures ChooseSwitcher(ordered).StackSwitcher? <==> |keys| > 1
    ensures |keys| == 0 ==> ChooseSwitcher(ordered) == Title(AppName)
    ensures |keys| == 1 ==> ChooseSwitcher(ordered) == Title(keys[0])
  {
    assert |ordered| == |multiset(ordered)| == |multiset(keys)| == |keys|;
    if |keys| == 1 {
      assert multiset(keys) == multiset{keys[0]};
      assert ordered[0] in multiset(ordered);
    }
  }

  /**
   * The header over the sorted categories: the application's name when there
   * are none, the one category's name when there is one, a switcher otherwise.
   */
  lemma SwitcherOfSorted(keys: seq<string>)
    ensures ChooseSwitcher(SortCategories(keys)).StackSwitcher? <==> |keys| > 1
    ensures |keys| == 0 ==> ChooseSwitcher(SortCategories(keys)) == Title(AppName)
    ensures |keys| == 1 ==> ChooseSwitcher(SortCategories(keys)) == Title(keys[0])
  {
    Permutation(keys);
    SwitcherOfPermutation(SortCategories(keys), keys);
  }
}
