/** The ranking `show_duplicate_report` prints for each duplicate group:
    the movies by descending quality score, the first one marked to keep
    and the others marked as candidates for deletion. */
module Report {
  import Duplicates

  type Entry = Duplicates.Entry

  function Score(e: Entry): nat {
    e.quality.score
  }

  predicate Descending(s: seq<Entry>) {
    forall i, j :: 0 <= i < j < |s| ==> Score(s[i]) >= Score(s[j])
  }

  /** The entries of `s` scoring `v`, in their order in `s`. A sort is
      stable exactly when it keeps every one of these sequences. */
  function WithScore(s: seq<Entry>, v: nat): seq<Entry> {
    if s == [] then []
    else (if Score(s[0]) == v then [s[0]] else []) + WithScore(s[1..], v)
  }

  lemma {:induction false} WithScoreAppend(a: seq<Entry>, b: seq<Entry>, v: nat)
    ensures WithScore(a + b, v) == WithScore(a, v) + WithScore(b, v)
  {
    if a == [] {
      assert a + b == b;
    } else {
      var head := if Score(a[0]) == v then [a[0]] else [];
      assert (a + b)[0] == a[0];
      assert (a + b)[1..] == a[1..] + b;
      assert WithScore(a + b, v) == head + WithScore(a[1..] + b, v);
      WithScoreAppend(a[1..], b, v);
      assert head + (WithScore(a[1..], v) + WithScore(b, v)) == (head + WithScore(a[1..], v)) + WithScore(b, v);
    }
  }

  /** Each entry occurs in `s` as often as in the entries of its own score. */
  lemma {:induction false} WithScoreCounts(s: seq<Entry>, x: Entry)
    ensures multiset(s)[x] == multiset(WithScore(s, Score(x)))[x]
  {
    if s != [] {
      assert s == [s[0]] + s[1..];
      WithScoreCounts(s[1..], x);
    }
  }

  /** The first entry of `s` scoring `v` is the first of `WithScore(s, v)`,
      and no entry before it scores `v`. */
  lemma {:induction false} FirstWithScore(s: seq<Entry>, v: nat)
    requires WithScore(s, v) != []
    ensures exists i :: 0 <= i < |s| && s[i] == WithScore(s, v)[0] && Score(s[i]) == v
                        && forall j :: 0 <= j < i ==> Score(s[j]) != v
  {
    if Score(s[0]) != v {
      FirstWithScore(s[1..], v);
      var i :| 0 <= i < |s[1..]| && s[1..][i] == WithScore(s[1..], v)[0] && Score(s[1..][i]) == v
                && forall j :: 0 <= j < i ==> Score(s[1..][j]) != v;
      assert s[i + 1] == s[1..][i];
      forall j | 0 <= j < i + 1
        ensures Score(s[j]) != v
      {
        if j > 0 {
          assert s[j] == s[1..][j - 1];
        }
      }
    }
  }

  /** Place `e`, which follows every entry of `s` in the group, after all
      entries scoring at least as much as it does. */
  function Insert(s: seq<Entry>, e: Entry): (r: seq<Entry>)
    ensures multiset(r) == multiset(s) + multiset{e}
    decreases |s|
  {
    if s == [] || Score(s[|s| - 1]) >= Score(e) then s + [e]
    else
      var init := s[..|s| - 1];
      assert s == init + [s[|s| - 1]];
      Insert(init, e) + [s[|s| - 1]]
  }

  /** `sorted(group, key=lambda x: x['quality']['score'], reverse=True)`:
      an insertion sort that keeps equal scores in group order. */
  function SortByScore(g: seq<Entry>): (r: seq<Entry>)
    ensures multiset(r) == multiset(g)
    decreases |g|
  {
    if g == [] then []
    else
      assert g == g[..|g| - 1] + [g[|g| - 1]];
      Insert(SortByScore(g[..|g| - 1]), g[|g| - 1])
  }

  /** When `e` outscores the last entry of `s`, every entry of `Insert`
      over the rest of `s` scores at least as much as that last one, so
      putting the last one back at the end keeps the order descending. */
  lemma InsertAboveLast(s: seq<Entry>, e: Entry)
    requires Descending(s) && s != [] && Score(s[|s| - 1]) < Score(e)
    requires Descending(Insert(s[..|s| - 1], e))
    ensures Descending(Insert(s, e))
  {
    var init := s[..|s| - 1];
    var r0 := Insert(init, e);
    assert Insert(s, e) == r0 + [s[|s| - 1]];
    forall x | x in r0
      ensures Score(x) >= Score(s[|s| - 1])
    {
      assert x in multiset(r0);
      if x != e {
        assert x in multiset(init);
        var k :| 0 <= k < |init| && init[k] == x;
        assert s[k] == init[k];
      }
    }
  }

  /** Moving `e` in front of a lower-scoring `l` leaves the entries of
      every score in the same order. */
  lemma PassLast(init: seq<Entry>, l: Entry, e: Entry, r0: seq<Entry>, v: nat)
    requires Score(l) < Score(e)
    requires WithScore(r0, v) == WithScore(init, v) + WithScore([e], v)
    ensures WithScore(r0 + [l], v) == WithScore(init + [l], v) + WithScore([e], v)
  {
    WithScoreAppend(r0, [l], v);
    WithScoreAppend(init, [l], v);
    if Score(e) == v {
      assert WithScore([l], v) == [];
    } else {
      assert WithScore([e], v) == [];
    }
  }

  lemma {:induction false} InsertKeepsOrder(s: seq<Entry>, e: Entry)
    requires Descending(s)
    ensures Descending(Insert(s, e))
    ensures forall v :: WithScore(Insert(s, e), v) == WithScore(s, v) + WithScore([e], v)
    decreases |s|
  {
    if s == [] || Score(s[|s| - 1]) >= Score(e) {
      forall v
        ensures WithScore(s + [e], v) == WithScore(s, v) + WithScore([e], v)
      {
        WithScoreAppend(s, [e], v);
      }
    } else {
      var init := s[..|s| - 1];
      var l := s[|s| - 1];
      assert s == init + [l];
      InsertKeepsOrder(init, e);
      InsertAboveLast(s, e);
      assert Insert(s, e) == Insert(init, e) + [l];
      forall v
        ensures WithScore(Insert(s, e), v) == WithScore(s, v) + WithScore([e], v)
      {
        PassLast(init, l, e, Insert(init, e), v);
      }
    }
  }

  /** The sort orders by descending score and is stable: the entries of
      each score keep their order in the group. */
  lemma {:induction false} SortIsStable(g: seq<Entry>)
    ensures Descending(SortByScore(g))
    ensures forall v :: WithScore(SortByScore(g), v) == WithScore(g, v)
    decreases |g|
  {
    if g != [] {
      var init := g[..|g| - 1];
      var x := g[|g| - 1];
      SortIsStable(init);
      InsertKeepsOrder(SortByScore(init), x);
      forall v
        ensures WithScore(g, v) == WithScore(init, v) + WithScore([x], v)
      {
        assert g == init + [x];
        WithScoreAppend(init, [x], v);
      }
    }
  }

  /** Two such orders of the same entries start with the same entry, and
      what follows it again keeps the entries of each score in order. */
  lemma HeadsAgree(r1: seq<Entry>, r2: seq<Entry>)
    requires r1 != [] && r2 != [] && Descending(r1) && Descending(r2)
    requires forall v :: WithScore(r1, v) == WithScore(r2, v)
    requires multiset(r1) == multiset(r2)
    ensures r1[0] == r2[0]
    ensures forall v :: WithScore(r1[1..], v) == WithScore(r2[1..], v)
  {
    assert r2[0] in multiset(r1) && r1[0] in multiset(r2);
    var m :| 0 <= m < |r1| && r1[m] == r2[0];
    var n :| 0 <= n < |r2| && r2[n] == r1[0];
    assert Score(r1[0]) >= Score(r1[m]) && Score(r2[0]) >= Score(r2[n]);
    var top := Score(r1[0]);
    assert Score(r2[0]) == top;
    var w1 := WithScore(r1[1..], top);
    var w2 := WithScore(r2[1..], top);
    assert WithScore(r1, top) == [r1[0]] + w1;
    assert WithScore(r2, top) == [r2[0]] + w2;
    assert w1 == ([r1[0]] + w1)[1..] == ([r2[0]] + w2)[1..] == w2;
    forall v
      ensures WithScore(r1[1..], v) == WithScore(r2[1..], v)
    {
      if v != top {
        assert WithScore(r1, v) == WithScore(r1[1..], v);
        assert WithScore(r2, v) == WithScore(r2[1..], v);
      }
    }
  }

  /** A descending order that keeps the order within each score is unique:
      any two such orders of the same entries are equal. */
  lemma {:induction false} StableOrderUnique(r1: seq<Entry>, r2: seq<Entry>)
    requires Descending(r1) && Descending(r2)
    requires forall v :: WithScore(r1, v) == WithScore(r2, v)
    ensures r1 == r2
    decreases |r1|
  {
    forall x
      ensures multiset(r1)[x] == multiset(r2)[x]
    {
      WithScoreCounts(r1, x);
      WithScoreCounts(r2, x);
    }
    assert multiset(r1) == multiset(r2);
    assert |r1| == |multiset(r1)| == |multiset(r2)| == |r2|;
    if r1 != [] {
      HeadsAgree(r1, r2);
      StableOrderUnique(r1[1..], r2[1..]);
      assert r1 == [r1[0]] + r1[1..] && r2 == [r2[0]] + r2[1..];
    }
  }

  /** So `SortByScore` is the order Python's stable `sorted(..., reverse=True)`
      is defined by: any descending reordering that keeps equal scores in
      group order is this one. */
  lemma SortIsUnique(g: seq<Entry>, r: seq<Entry>)
    requires Descending(r)
    requires forall v :: WithScore(r, v) == WithScore(g, v)
    ensures r == SortByScore(g)
  {
    SortIsStable(g);
    StableOrderUnique(r, SortByScore(g));
  }

  /** `[KEEP]` for the first movie of the sorted group, `[DEL?]` for the rest. */
  datatype Mark = Keep | MaybeDelete

  datatype Line = Line(mark: Mark, movie: Entry)

  /** The lines printed for one group, in order: the group sorted by
      descending score, the first line marked to keep and the others to
      delete. */
  function Ranking(group: seq<Entry>): (r: seq<Line>)
    ensures |r| == |group|
    ensures forall i :: 0 <= i < |r| ==> (r[i].mark == Keep <==> i == 0)
    ensures forall i :: 0 <= i < |r| ==> r[i].movie == SortByScore(group)[i]
  {
    var sorted := SortByScore(group);
    assert |sorted| == |multiset(sorted)| == |multiset(group)| == |group|;
    seq(|sorted|, i requires 0 <= i < |sorted| => Line(if i == 0 then Keep else MaybeDelete, sorted[i]))
  }

  /** Of a non-empty group exactly one movie is kept, it comes first, it has
      the best score, and among the best-scoring movies it is the earliest
      in the group; every movie of the group is listed once. */
  lemma KeepsTheBest(group: seq<Entry>)
    requires group != []
    ensures var r := Ranking(group);
      && |r| == |group|
      && r[0].mark == Keep
      && (forall i :: 0 < i < |r| ==> r[i].mark == MaybeDelete)
      && multiset(seq(|r|, i requires 0 <= i < |r| => r[i].movie)) == multiset(group)
      && (forall e :: e in group ==> Score(e) <= Score(r[0].movie))
      && exists i :: 0 <= i < |group| && group[i] == r[0].movie
                     && forall j :: 0 <= j < i ==> Score(group[j]) < Score(group[i])
  {
    var s := SortByScore(group);
    var r := Ranking(group);
    assert seq(|r|, i requires 0 <= i < |r| => r[i].movie) == s;
    SortedTop(group);
    TopIsEarliest(group);
  }

  /** The first movie of the sorted group is one of the group with the
      best score. */
  lemma SortedTop(group: seq<Entry>)
    requires group != []
    ensures var s := SortByScore(group);
      && |s| == |group|
      && s[0] in group
      && forall e :: e in group ==> Score(e) <= Score(s[0])
  {
    var s := SortByScore(group);
    SortIsStable(group);
    assert |s| == |multiset(s)| == |multiset(group)| == |group|;
    assert s[0] in multiset(group);
    forall e | e in group
      ensures Score(e) <= Score(s[0])
    {
      assert e in multiset(s);
      var k :| 0 <= k < |s| && s[k] == e;
    }
  }

  /** Among the movies with the best score, the sort puts first the one
      that comes first in the group. */
  lemma TopIsEarliest(group: seq<Entry>)
    requires group != []
    ensures SortByScore(group) != []
    ensures exists i :: 0 <= i < |group| && group[i] == SortByScore(group)[0]
                        && forall j :: 0 <= j < i ==> Score(group[j]) < Score(group[i])
  {
    var s := SortByScore(group);
    SortedTop(group);
    var top := Score(s[0]);
    SortKeepsScore(group, top);
    assert WithScore(s, top) == [s[0]] + WithScore(s[1..], top);
    FirstWithScore(group, top);
    var i :| 0 <= i < |group| && group[i] == WithScore(group, top)[0] && Score(group[i]) == top
             && forall j :: 0 <= j < i ==> Score(group[j]) != top;
    BeforeFirstBest(group, top, i);
  }

  lemma SortKeepsScore(g: seq<Entry>, v: nat)
    ensures WithScore(SortByScore(g), v) == WithScore(g, v)
  {
    SortIsStable(g);
  }

  lemma BeforeFirstBest(group: seq<Entry>, top: nat, i: nat)
    requires i < |group| && Score(group[i]) == top
    requires forall e :: e in group ==> Score(e) <= top
    requires forall j :: 0 <= j < i ==> Score(group[j]) != top
    ensures forall j :: 0 <= j < i ==> Score(group[j]) < Score(group[i])
  {
    forall j | 0 <= j < i
      ensures Score(group[j]) < Score(group[i])
    {
      assert group[j] in group;
    }
  }
}
