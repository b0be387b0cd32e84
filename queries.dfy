/** `WHERE`, `ORDER BY` and `OFFSET … LIMIT` over in-memory rows. */
module Queries {

  /** `WHERE keep(row)`: the rows that satisfy `keep`, in their original order. */
  function Select<T>(s: seq<T>, keep: T -> bool): (r: seq<T>)
    ensures |r| <= |s|
    ensures forall i :: 0 <= i < |r| ==> r[i] in s && keep(r[i])
    ensures forall i :: 0 <= i < |s| && keep(s[i]) ==> s[i] in r
    ensures multiset(r) <= multiset(s)
    decreases |s|
  {
    if s == [] then []
    else
      assert s == [s[0]] + s[1..];
      (if keep(s[0]) then [s[0]] else []) + Select(s[1..], keep)
  }

  /** A selected row is a row of the table that passes the filter. */
  lemma SelectedMember<T>(s: seq<T>, keep: T -> bool, x: T)
    requires x in multiset(Select(s, keep))
    ensures x in s && keep(x)
  {
    var r := Select(s, keep);
    assert x in r;
    var k :| 0 <= k < |r| && r[k] == x;
  }

  /** The positions of the rows that pass `keep`: what `Select` is measured against. */
  ghost function Matching<T>(s: seq<T>, keep: T -> bool): set<nat> {
    set i: nat | i < |s| && keep(s[i])
  }

  /** The positions, in increasing order, of the rows that pass `keep`. */
  ghost function Positions<T>(s: seq<T>, keep: T -> bool): seq<nat>
    decreases |s|
  {
    if s == [] then []
    else Positions(s[..|s| - 1], keep) + (if keep(s[|s| - 1]) then [|s| - 1] else [])
  }

  /** Every passing row is kept exactly as often as the table holds it; no other row is kept. */
  lemma {:induction false} SelectMultiplicity<T>(s: seq<T>, keep: T -> bool)
    ensures forall x :: multiset(Select(s, keep))[x] == if keep(x) then multiset(s)[x] else 0
    decreases |s|
  {
    if s != [] {
      SelectMultiplicity(s[1..], keep);
      assert s == [s[0]] + s[1..];
      assert multiset(s) == multiset{s[0]} + multiset(s[1..]);
    }
  }

  /** Selecting from a table with one more row at its end. */
  lemma SelectSnoc<T>(init: seq<T>, last: T, keep: T -> bool)
    ensures Select(init + [last], keep) == Select(init, keep) + (if keep(last) then [last] else [])
  {
    SelectAppend(init, [last], keep);
    assert [last][0] == last && [last][1..] == [];
    assert Select([last], keep) == (if keep(last) then [last] else []) + Select([], keep);
  }

  /** The passing positions of a table with one more row at its end. */
  lemma MatchingSnoc<T>(init: seq<T>, last: T, keep: T -> bool)
    ensures Matching(init + [last], keep) == Matching(init, keep) + (if keep(last) then {|init|} else {})
  {
    var s := init + [last];
    forall i: nat | i < |init| ensures s[i] == init[i] { }
  }

  /** The selected rows are the passing rows of the table, at strictly increasing positions. */
  lemma {:induction false} SelectInOrder<T>(s: seq<T>, keep: T -> bool)
    ensures var pos, r := Positions(s, keep), Select(s, keep);
      && |pos| == |r|
      && (forall k :: 0 <= k < |pos| ==> pos[k] < |s| && keep(s[pos[k]]) && r[k] == s[pos[k]])
      && (forall k, l :: 0 <= k < l < |pos| ==> pos[k] < pos[l])
      && (forall i :: 0 <= i < |s| && keep(s[i]) ==> i in pos)
    decreases |s|
  {
    if s != [] {
      var init, last := s[..|s| - 1], s[|s| - 1];
      assert s == init + [last];
      SelectSnoc(init, last, keep);
      SelectInOrder(init, keep);
      InOrderStep(init, last, keep, Positions(init, keep), Select(init, keep));
    }
  }

  /** One step of `SelectInOrder`: appending a row extends the positions and the selection alike. */
  lemma InOrderStep<T>(init: seq<T>, last: T, keep: T -> bool, pos0: seq<nat>, r0: seq<T>)
    requires |pos0| == |r0|
    requires forall k :: 0 <= k < |pos0| ==> pos0[k] < |init| && keep(init[pos0[k]]) && r0[k] == init[pos0[k]]
    requires forall k, l :: 0 <= k < l < |pos0| ==> pos0[k] < pos0[l]
    requires forall i :: 0 <= i < |init| && keep(init[i]) ==> i in pos0
    ensures var s, pos, r := init + [last], pos0 + (if keep(last) then [|init|] else []),
                            r0 + (if keep(last) then [last] else []);
      && |pos| == |r|
      && (forall k :: 0 <= k < |pos| ==> pos[k] < |s| && keep(s[pos[k]]) && r[k] == s[pos[k]])
      && (forall k, l :: 0 <= k < l < |pos| ==> pos[k] < pos[l])
      && (forall i :: 0 <= i < |s| && keep(s[i]) ==> i in pos)
  {
    var s := init + [last];
    var pos := pos0 + (if keep(last) then [|init|] else []);
    var r := r0 + (if keep(last) then [last] else []);
    forall k | 0 <= k < |pos| ensures pos[k] < |s| && keep(s[pos[k]]) && r[k] == s[pos[k]] {
      if k < |pos0| {
        assert pos[k] == pos0[k] && r[k] == r0[k] && s[pos0[k]] == init[pos0[k]];
      }
    }
    forall k, l | 0 <= k < l < |pos| ensures pos[k] < pos[l] {
      assert pos[k] == pos0[k];
    }
    forall i | 0 <= i < |s| && keep(s[i]) ensures i in pos {
      if i < |init| {
        assert init[i] == s[i];
        var k :| 0 <= k < |pos0| && pos0[k] == i;
        assert pos[k] == i;
      } else {
        assert pos[|pos| - 1] == i;
      }
    }
  }

  /** As many rows are selected as there are positions whose row passes the filter. */
  lemma {:induction false} SelectCount<T>(s: seq<T>, keep: T -> bool)
    ensures |Select(s, keep)| == |Matching(s, keep)|
    decreases |s|
  {
    if s == [] {
      assert Matching(s, keep) == {};
    } else {
      var init, last := s[..|s| - 1], s[|s| - 1];
      assert s == init + [last];
      SelectSnoc(init, last, keep);
      MatchingSnoc(init, last, keep);
      SelectCount(init, keep);
      assert |init| !in Matching(init, keep);
    }
  }

  /** Selecting from two tables one after the other is selecting from both. */
  lemma {:induction false} SelectAppend<T>(a: seq<T>, b: seq<T>, keep: T -> bool)
    ensures Select(a + b, keep) == Select(a, keep) + Select(b, keep)
    decreases |a|
  {
    if a == [] {
      assert a + b == b;
    } else {
      assert (a + b)[1..] == a[1..] + b;
      SelectAppend(a[1..], b, keep);
    }
  }

  /** A filter every row passes keeps the whole table. */
  lemma {:induction false} SelectEverything<T>(s: seq<T>, keep: T -> bool)
    requires forall i :: 0 <= i < |s| ==> keep(s[i])
    ensures Select(s, keep) == s
    decreases |s|
  {
    if s != [] {
      SelectEverything(s[1..], keep);
    }
  }

  /** Filters that agree on every row select the same rows. */
  lemma {:induction false} SelectAgree<T>(s: seq<T>, p: T -> bool, q: T -> bool)
    requires forall i :: 0 <= i < |s| ==> p(s[i]) == q(s[i])
    ensures Select(s, p) == Select(s, q)
    decreases |s|
  {
    if s != [] {
      SelectAgree(s[1..], p, q);
    }
  }

  ghost predicate Ascending<T>(s: seq<T>, key: T -> int) {
    forall i, j :: 0 <= i < j < |s| ==> key(s[i]) <= key(s[j])
  }

  ghost predicate Descending<T>(s: seq<T>, key: T -> int) {
    forall i, j :: 0 <= i < j < |s| ==> key(s[i]) >= key(s[j])
  }

  function Insert<T>(x: T, s: seq<T>, key: T -> int): (r: seq<T>)
    requires Ascending(s, key)
    ensures Ascending(r, key)
    ensures multiset(r) == multiset(s) + multiset{x}
  {
    if s == [] then [x]
    else if key(x) < key(s[0]) then [x] + s
    else
      var rest := Insert(x, s[1..], key);
      assert s == [s[0]] + s[1..];
      forall i | 0 <= i < |rest| ensures key(s[0]) <= key(rest[i]) {
        assert rest[i] in multiset(rest);
        if rest[i] != x {
          assert rest[i] in multiset(s[1..]);
          var k :| 0 <= k < |s[1..]| && s[1..][k] == rest[i];
          assert s[k + 1] == rest[i];
        }
      }
      [s[0]] + rest
  }

  /** `ORDER BY key ASC`: the same rows, in ascending key order. */
  function SortAscending<T>(s: seq<T>, key: T -> int): (r: seq<T>)
    ensures Ascending(r, key)
    ensures multiset(r) == multiset(s)
    ensures |r| == |s|
    decreases |s|
  {
    if s == [] then []
    else
      var init, last := s[..|s| - 1], s[|s| - 1];
      assert s == init + [last];
      assert multiset(s) == multiset(init) + multiset{last};
      var sorted := SortAscending(init, key);
      Insert(last, sorted, key)
  }

  /** `ORDER BY key DESC`: the same rows, in descending key order. */
  function SortDescending<T>(s: seq<T>, key: T -> int): (r: seq<T>)
    ensures Descending(r, key)
    ensures multiset(r) == multiset(s)
    ensures |r| == |s|
  {
    var r := SortAscending(s, x => -key(x));
    assert forall i, j :: 0 <= i < j < |r| ==> -key(r[i]) <= -key(r[j]);
    r
  }

  /** How many of `n` rows `OFFSET skip LIMIT limit` leaves: `min(limit, max(0, n - skip))`. */
  function PageLength(n: nat, skip: nat, limit: nat): nat {
    if skip >= n then 0 else if n - skip < limit then n - skip else limit
  }

  /** A page never holds more than the rows there are, and a page from 0 with room for all holds all. */
  lemma PageLengthBound(n: nat, skip: nat, limit: nat)
    ensures PageLength(n, skip, limit) <= n
    ensures skip == 0 && limit >= n ==> PageLength(n, skip, limit) == n
  { }

  /** `OFFSET skip LIMIT limit` */
  function Page<T>(s: seq<T>, skip: nat, limit: nat): (r: seq<T>)
    ensures |r| == PageLength(|s|, skip, limit)
    ensures forall i :: 0 <= i < |r| ==> r[i] == s[skip + i]
  {
    if skip >= |s| then []
    else if |s| - skip < limit then s[skip..]
    else s[skip..skip + limit]
  }

  /** Two consecutive pages are one page of their combined size. */
  lemma PagesCompose<T>(s: seq<T>, skip: nat, a: nat, b: nat)
    ensures Page(s, skip, a) + Page(s, skip + a, b) == Page(s, skip, a + b)
  {
    var l, r, whole := Page(s, skip, a), Page(s, skip + a, b), Page(s, skip, a + b);
    assert |l| + |r| == |whole|;
    forall i | 0 <= i < |whole| ensures (l + r)[i] == whole[i] {
      if i >= |l| {
        assert (l + r)[i] == r[i - |l|];
      }
    }
  }

  /** A page that starts at 0 and is large enough holds every row. */
  lemma FullPage<T>(s: seq<T>, limit: nat)
    requires limit >= |s|
    ensures Page(s, 0, limit) == s
  {
  }

  /** `r` is the page `skip`, `limit` of some arrangement of `rows` in descending key order. */
  ghost predicate PageOfRanking<T(!new)>(r: seq<T>, rows: seq<T>, key: T -> int, skip: nat, limit: nat) {
    exists sorted :: multiset(sorted) == multiset(rows) && Descending(sorted, key) && r == Page(sorted, skip, limit)
  }

  /** `WHERE keep ORDER BY key DESC OFFSET skip LIMIT limit` */
  function QueryPage<T>(s: seq<T>, keep: T -> bool, key: T -> int, skip: nat, limit: nat): seq<T> {
    Page(SortDescending(Select(s, keep), key), skip, limit)
  }

  /**
   * A filtered, sorted and paged query: the page of the passing rows ranked by descending key,
   * `min(limit, max(0, n - skip))` rows for `n` passing rows, each a passing row of `s`. From
   * offset 0 the first row has the highest key of all passing rows, and a large enough page
   * holds every passing row.
   */
  lemma DescendingQuery<T(!new)>(s: seq<T>, keep: T -> bool, key: T -> int, skip: nat, limit: nat)
    ensures var r := QueryPage(s, keep, key, skip, limit);
      && |r| == PageLength(|Matching(s, keep)|, skip, limit)
      && PageOfRanking(r, Select(s, keep), key, skip, limit)
      && (forall i :: 0 <= i < |r| ==> r[i] in s && keep(r[i]))
      && Descending(r, key)
      && (skip == 0 && limit >= |Matching(s, keep)| ==> forall i :: 0 <= i < |s| && keep(s[i]) ==> s[i] in r)
      && (skip == 0 && |r| > 0 ==> forall i :: 0 <= i < |s| && keep(s[i]) ==> key(s[i]) <= key(r[0]))
  {
    QueryLength(s, keep, key, skip, limit);
    QueryRanked(s, keep, key, skip, limit);
    QueryRows(s, keep, key, skip, limit);
    QueryComplete(s, keep, key, skip, limit);
    QueryTop(s, keep, key, skip, limit);
  }

  lemma QueryLength<T>(s: seq<T>, keep: T -> bool, key: T -> int, skip: nat, limit: nat)
    ensures |QueryPage(s, keep, key, skip, limit)| == PageLength(|Matching(s, keep)|, skip, limit)
  {
    SelectCount(s, keep);
  }

  lemma QueryRanked<T(!new)>(s: seq<T>, keep: T -> bool, key: T -> int, skip: nat, limit: nat)
    ensures PageOfRanking(QueryPage(s, keep, key, skip, limit), Select(s, keep), key, skip, limit)
  {
    var sorted := SortDescending(Select(s, keep), key);
    assert QueryPage(s, keep, key, skip, limit) == Page(sorted, skip, limit);
  }

  lemma QueryRows<T>(s: seq<T>, keep: T -> bool, key: T -> int, skip: nat, limit: nat)
    ensures var r := QueryPage(s, keep, key, skip, limit);
      && (forall i :: 0 <= i < |r| ==> r[i] in s && keep(r[i]))
      && Descending(r, key)
  {
    PageOfSorted(SortDescending(Select(s, keep), key), key, skip, limit);
    PageOfSelected(s, keep, key, skip, limit);
  }

  /** Every passing row is among the rows sorted. */
  lemma SortedHoldsPassing<T>(s: seq<T>, keep: T -> bool, key: T -> int)
    ensures forall i :: 0 <= i < |s| && keep(s[i]) ==> s[i] in SortDescending(Select(s, keep), key)
  {
    var selected := Select(s, keep);
    forall i | 0 <= i < |s| && keep(s[i]) ensures s[i] in SortDescending(selected, key) {
      assert s[i] in multiset(selected);
    }
  }

  lemma QueryComplete<T>(s: seq<T>, keep: T -> bool, key: T -> int, skip: nat, limit: nat)
    ensures skip == 0 && limit >= |Matching(s, keep)| ==>
      forall i :: 0 <= i < |s| && keep(s[i]) ==> s[i] in QueryPage(s, keep, key, skip, limit)
  {
    if skip == 0 && limit >= |Matching(s, keep)| {
      var sorted := SortDescending(Select(s, keep), key);
      SelectCount(s, keep);
      FullPage(sorted, limit);
      SortedHoldsPassing(s, keep, key);
    }
  }

  lemma QueryTop<T>(s: seq<T>, keep: T -> bool, key: T -> int, skip: nat, limit: nat)
    ensures var r := QueryPage(s, keep, key, skip, limit);
      skip == 0 && |r| > 0 ==> forall i :: 0 <= i < |s| && keep(s[i]) ==> key(s[i]) <= key(r[0])
  {
    var sorted := SortDescending(Select(s, keep), key);
    var r := QueryPage(s, keep, key, skip, limit);
    if skip == 0 && |r| > 0 {
      SortedHoldsPassing(s, keep, key);
      assert r[0] == sorted[0];
      forall i | 0 <= i < |s| && keep(s[i]) ensures key(s[i]) <= key(r[0]) {
        var j :| 0 <= j < |sorted| && sorted[j] == s[i];
      }
    }
  }

  /** A page of rows in descending order is in descending order. */
  lemma PageOfSorted<T>(sorted: seq<T>, key: T -> int, skip: nat, limit: nat)
    requires Descending(sorted, key)
    ensures Descending(Page(sorted, skip, limit), key)
  {
    var r := Page(sorted, skip, limit);
    forall i, j | 0 <= i < j < |r| ensures key(r[i]) >= key(r[j]) {
      assert r[i] == sorted[skip + i] && r[j] == sorted[skip + j];
    }
  }

  /** Every row on a page of the sorted selection is a selected row of the table. */
  lemma PageOfSelected<T>(s: seq<T>, keep: T -> bool, key: T -> int, skip: nat, limit: nat)
    ensures forall i :: 0 <= i < |Page(SortDescending(Select(s, keep), key), skip, limit)| ==>
      var x := Page(SortDescending(Select(s, keep), key), skip, limit)[i];
      x in s && keep(x)
  {
    var selected := Select(s, keep);
    var sorted := SortDescending(selected, key);
    var r := Page(sorted, skip, limit);
    forall i | 0 <= i < |r| ensures r[i] in s && keep(r[i]) {
      assert r[i] == sorted[skip + i];
      SortedMember(selected, key, skip + i);
    }
  }

  /** Every row of the sorted rows is one of the rows sorted. */
  lemma SortedMember<T>(s: seq<T>, key: T -> int, i: nat)
    requires i < |SortDescending(s, key)|
    ensures SortDescending(s, key)[i] in s
  {
    var sorted := SortDescending(s, key);
    assert sorted[i] in multiset(sorted);
  }
}
