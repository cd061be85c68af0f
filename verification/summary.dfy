/** The ordering of the scoreboard summary: games by non-increasing total
    score, games with the same total kept in the order they were started. */
module ScoreSummary {
  import opened Games

  function Total(g: GameView): int {
    g.homeScore + g.awayScore
  }

  ghost predicate SortedByTotal(s: seq<GameView>) {
    forall i, j :: 0 <= i < j < |s| ==> Total(s[i]) >= Total(s[j])
  }

  /** No game of s has a total above t. */
  ghost predicate TotalsAtMost(s: seq<GameView>, t: int) {
    forall i :: 0 <= i < |s| ==> Total(s[i]) <= t
  }

  /** The games of s whose total is t, in the order of s. */
  function WithTotal(s: seq<GameView>, t: int): seq<GameView>
    decreases |s|
  {
    if s == [] then []
    else (if Total(s[0]) == t then [s[0]] else []) + WithTotal(s[1..], t)
  }

  /** Puts g after every leading game of s whose total is at least g's. */
  function Insert(s: seq<GameView>, g: GameView): seq<GameView>
    decreases |s|
  {
    if s == [] then [g]
    else if Total(s[0]) >= Total(g) then [s[0]] + Insert(s[1..], g)
    else [g] + s
  }

  /** Stable sort by non-increasing total: each game in turn is inserted
      behind the games already placed whose total is at least its own. */
  function SortByTotal(s: seq<GameView>): seq<GameView>
    decreases |s|
  {
    if s == [] then [] else Insert(SortByTotal(s[..|s| - 1]), s[|s| - 1])
  }

  lemma {:induction false} InsertTotalsAtMost(s: seq<GameView>, g: GameView, t: int)
    requires TotalsAtMost(s, t) && Total(g) <= t
    ensures TotalsAtMost(Insert(s, g), t)
    decreases |s|
  {
    if s != [] && Total(s[0]) >= Total(g) {
      InsertTotalsAtMost(s[1..], g, t);
    }
  }

  /** Insertion keeps a sequence sorted. */
  lemma {:induction false} InsertSorted(s: seq<GameView>, g: GameView)
    requires SortedByTotal(s)
    ensures SortedByTotal(Insert(s, g))
    decreases |s|
  {
    if s != [] && Total(s[0]) >= Total(g) {
      InsertSorted(s[1..], g);
      InsertTotalsAtMost(s[1..], g, Total(s[0]));
    }
  }

  /** Insertion adds exactly g. */
  lemma {:induction false} InsertPermutes(s: seq<GameView>, g: GameView)
    ensures multiset(Insert(s, g)) == multiset(s) + multiset{g}
    decreases |s|
  {
    if s != [] {
      assert s == [s[0]] + s[1..];
      if Total(s[0]) >= Total(g) {
        InsertPermutes(s[1..], g);
      }
    }
  }

  /** The summary order has non-increasing totals. */
  lemma {:induction false} SortByTotalSorted(s: seq<GameView>)
    ensures SortedByTotal(SortByTotal(s))
    decreases |s|
  {
    if s != [] {
      SortByTotalSorted(s[..|s| - 1]);
      InsertSorted(SortByTotal(s[..|s| - 1]), s[|s| - 1]);
    }
  }

  /** The summary holds exactly the games of the input, each as often. */
  lemma {:induction false} SortByTotalPermutes(s: seq<GameView>)
    ensures multiset(SortByTotal(s)) == multiset(s)
    decreases |s|
  {
    if s != [] {
      var s', g := s[..|s| - 1], s[|s| - 1];
      SortByTotalPermutes(s');
      InsertPermutes(SortByTotal(s'), g);
      assert s == s' + [g];
    }
  }

  lemma {:induction false} WithTotalAppend(a: seq<GameView>, b: seq<GameView>, t: int)
    ensures WithTotal(a + b, t) == WithTotal(a, t) + WithTotal(b, t)
    decreases |a|
  {
    if a == [] {
      assert a + b == b;
    } else {
      var head := if Total(a[0]) == t then [a[0]] else [];
      WithTotalAppend(a[1..], b, t);
      assert (a + b)[0] == a[0];
      assert (a + b)[1..] == a[1..] + b;
      calc {
        WithTotal(a + b, t);
        head + WithTotal(a[1..] + b, t);
        head + (WithTotal(a[1..], t) + WithTotal(b, t));
        (head + WithTotal(a[1..], t)) + WithTotal(b, t);
      }
    }
  }

  /** No game has a total above the bound, so none has a total of t. */
  lemma {:induction false} WithTotalAboveBound(s: seq<GameView>, u: int, t: int)
    requires TotalsAtMost(s, u) && u < t
    ensures WithTotal(s, t) == []
    decreases |s|
  {
    if s != [] {
      WithTotalAboveBound(s[1..], u, t);
    }
  }

  /** Inserting g into a sorted sequence keeps every group of equal totals in
      the order of s followed by g. */
  lemma {:induction false} InsertStable(s: seq<GameView>, g: GameView, t: int)
    requires SortedByTotal(s)
    ensures WithTotal(Insert(s, g), t) == WithTotal(s + [g], t)
    decreases |s|
  {
    if s == [] {
      assert s + [g] == [g];
    } else if Total(s[0]) >= Total(g) {
      InsertStable(s[1..], g, t);
      assert s + [g] == [s[0]] + (s[1..] + [g]);
      assert (s + [g])[1..] == s[1..] + [g];
    } else {
      WithTotalAppend(s, [g], t);
      if Total(g) == t {
        WithTotalAboveBound(s, Total(s[0]), t);
      }
    }
  }

  /** The sort is stable: for every total, the games with that total appear
      in the same relative order as in the input. */
  lemma {:induction false} SortByTotalStable(s: seq<GameView>, t: int)
    ensures WithTotal(SortByTotal(s), t) == WithTotal(s, t)
    decreases |s|
  {
    if s != [] {
      var s', g := s[..|s| - 1], s[|s| - 1];
      var r := SortByTotal(s');
      calc {
        WithTotal(SortByTotal(s), t);
        WithTotal(Insert(r, g), t);
        { SortByTotalSorted(s'); InsertStable(r, g, t); }
        WithTotal(r + [g], t);
        { WithTotalAppend(r, [g], t); }
        WithTotal(r, t) + WithTotal([g], t);
        { SortByTotalStable(s', t); }
        WithTotal(s', t) + WithTotal([g], t);
        { WithTotalAppend(s', [g], t); assert s' + [g] == s; }
        WithTotal(s, t);
      }
    }
  }

  /** Two sorted sequences with the same equal-total groups have the same first total. */
  lemma SameLeadingTotal(a: seq<GameView>, b: seq<GameView>)
    requires a != [] && b != []
    requires SortedByTotal(a) && SortedByTotal(b)
    requires forall t :: WithTotal(a, t) == WithTotal(b, t)
    ensures Total(a[0]) <= Total(b[0])
  {
    if Total(a[0]) > Total(b[0]) {
      WithTotalAboveBound(b, Total(b[0]), Total(a[0]));
      assert false;
    }
  }

  /** The first game of a sequence belongs to the group of its own total. */
  lemma LeadingGroupNonEmpty(s: seq<GameView>)
    requires s != []
    ensures WithTotal(s, Total(s[0])) != []
  {
  }

  lemma SameHeadSameTailGroups(a: seq<GameView>, b: seq<GameView>, t: int)
    requires a != [] && b != [] && a[0] == b[0]
    requires WithTotal(a, t) == WithTotal(b, t)
    ensures WithTotal(a[1..], t) == WithTotal(b[1..], t)
  {
    var head := if Total(a[0]) == t then [a[0]] else [];
    assert WithTotal(a, t) == head + WithTotal(a[1..], t);
    assert WithTotal(b, t) == head + WithTotal(b[1..], t);
    assert (head + WithTotal(a[1..], t))[|head|..] == WithTotal(a[1..], t);
    assert (head + WithTotal(b[1..], t))[|head|..] == WithTotal(b[1..], t);
  }

  /** Sortedness and stability determine the order completely: two sorted
      sequences with the same equal-total groups are equal. */
  lemma {:induction false} SortedStableUnique(a: seq<GameView>, b: seq<GameView>)
    requires SortedByTotal(a) && SortedByTotal(b)
    requires forall t :: WithTotal(a, t) == WithTotal(b, t)
    ensures a == b
    decreases |a|
  {
    if a == [] {
      if b != [] {
        LeadingGroupNonEmpty(b);
        assert false;
      }
    } else if b == [] {
      LeadingGroupNonEmpty(a);
      assert false;
    } else {
      SameLeadingTotal(a, b);
      SameLeadingTotal(b, a);
      var t0 := Total(a[0]);
      assert WithTotal(a, t0) == [a[0]] + WithTotal(a[1..], t0);
      assert WithTotal(b, t0) == [b[0]] + WithTotal(b[1..], t0);
      assert a[0] == WithTotal(a, t0)[0] == WithTotal(b, t0)[0] == b[0];
      forall t ensures WithTotal(a[1..], t) == WithTotal(b[1..], t) {
        SameHeadSameTailGroups(a, b, t);
      }
      SortedStableUnique(a[1..], b[1..]);
      assert a == [a[0]] + a[1..] && b == [b[0]] + b[1..];
    }
  }

  /** SortByTotal(s) is the only order that is sorted by total and stable. */
  lemma SortByTotalCharacterised(s: seq<GameView>, r: seq<GameView>)
    requires SortedByTotal(r)
    requires forall t :: WithTotal(r, t) == WithTotal(s, t)
    ensures r == SortByTotal(s)
  {
    SortByTotalSorted(s);
    forall t ensures WithTotal(SortByTotal(s), t) == WithTotal(r, t) {
      SortByTotalStable(s, t);
    }
    SortedStableUnique(SortByTotal(s), r);
  }

  /** Games started with totals 3, 3, 5, 6 are summarised as 6, 5, then the
      two 3s in the order they were started. */
  lemma TiesKeepStartOrderPrefix(g1: GameView, g2: GameView, g3: GameView, g4: GameView)
    requires Total(g1) == 3 && Total(g2) == 3 && Total(g3) == 5 && Total(g4) == 6
    ensures SortByTotal([g1, g2, g3, g4]) == [g4, g3, g1, g2]
  {
    assert SortByTotal([g1]) == [g1] by {
      assert [g1][..0] == [];
    }
    assert SortByTotal([g1, g2]) == [g1, g2] by {
      assert [g1, g2][..1] == [g1];
      assert Insert([g1], g2) == [g1] + Insert([], g2);
    }
    assert SortByTotal([g1, g2, g3]) == [g3, g1, g2] by {
      assert [g1, g2, g3][..2] == [g1, g2];
    }
    assert [g1, g2, g3, g4][..3] == [g1, g2, g3];
  }

  /** Games started with totals 3, 3, 5, 6, 2 are summarised as 6, 5, then the
      two 3s in the order they were started, then 2. */
  lemma TiesKeepStartOrder(g1: GameView, g2: GameView, g3: GameView, g4: GameView, g5: GameView)
    requires Total(g1) == 3 && Total(g2) == 3 && Total(g3) == 5 && Total(g4) == 6 && Total(g5) == 2
    ensures SortByTotal([g1, g2, g3, g4, g5]) == [g4, g3, g1, g2, g5]
  {
    TiesKeepStartOrderPrefix(g1, g2, g3, g4);
    assert [g1, g2, g3, g4, g5][..4] == [g1, g2, g3, g4];
    var r := [g4, g3, g1, g2];
    assert Insert(r, g5) == [g4] + Insert([g3, g1, g2], g5) by { assert r[1..] == [g3, g1, g2]; }
    assert Insert([g3, g1, g2], g5) == [g3] + Insert([g1, g2], g5) by { assert [g3, g1, g2][1..] == [g1, g2]; }
    assert Insert([g1, g2], g5) == [g1] + Insert([g2], g5) by { assert [g1, g2][1..] == [g2]; }
    assert Insert([g2], g5) == [g2, g5] by { assert [g2][1..] == []; }
  }
}
