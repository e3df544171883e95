/** Result sets as sequences of rows: WHERE, SELECT, ORDER BY, LEFT JOIN and GROUP BY. */
module Rows {
  import opened Options

  function Filter<T>(s: seq<T>, keep: T -> bool): (r: seq<T>)
    ensures |r| <= |s|
  {
    if s == [] then [] else if keep(s[0]) then [s[0]] + Filter(s[1..], keep) else Filter(s[1..], keep)
  }

  /** Exactly the rows that satisfy the condition. */
  lemma {:induction false} FilterMembers<T>(s: seq<T>, keep: T -> bool)
    ensures forall i :: 0 <= i < |Filter(s, keep)| ==> Filter(s, keep)[i] in s && keep(Filter(s, keep)[i])
    ensures forall i :: 0 <= i < |s| && keep(s[i]) ==> s[i] in Filter(s, keep)
  {
    if s != [] {
      FilterMembers(s[1..], keep);
      var rest := Filter(s[1..], keep);
      assert s == [s[0]] + s[1..];
      if keep(s[0]) {
        assert Filter(s, keep) == [s[0]] + rest;
      } else {
        assert Filter(s, keep) == rest;
      }
    }
  }

  function Map<T, U>(s: seq<T>, f: T -> U): (r: seq<U>)
    ensures |r| == |s|
    ensures forall i :: 0 <= i < |s| ==> r[i] == f(s[i])
  {
    if s == [] then [] else [f(s[0])] + Map(s[1..], f)
  }

  lemma {:induction false} FilterHas<T>(s: seq<T>, keep: T -> bool, x: T)
    ensures x in Filter(s, keep) <==> x in s && keep(x)
  {
    if s != [] {
      FilterHas(s[1..], keep, x);
      assert s == [s[0]] + s[1..];
    }
  }

  lemma {:induction false} FilterAppend<T>(s: seq<T>, t: seq<T>, keep: T -> bool)
    ensures Filter(s + t, keep) == Filter(s, keep) + Filter(t, keep)
  {
    if s == [] {
      assert s + t == t;
    } else {
      var head := if keep(s[0]) then [s[0]] else [];
      assert (s + t)[1..] == s[1..] + t;
      FilterAppend(s[1..], t, keep);
      assert Filter(s + t, keep) == head + (Filter(s[1..], keep) + Filter(t, keep));
    }
  }

  lemma {:induction false} FilterSnoc<T>(s: seq<T>, i: nat, keep: T -> bool)
    requires i < |s|
    ensures Filter(s[..i + 1], keep) == Filter(s[..i], keep) + (if keep(s[i]) then [s[i]] else [])
  {
    assert s[..i + 1] == s[..i] + [s[i]];
    FilterAppend(s[..i], [s[i]], keep);
  }

  lemma {:induction false} FilterAllOrNone<T>(s: seq<T>, keep: T -> bool, all: bool)
    requires forall i :: 0 <= i < |s| ==> keep(s[i]) == all
    ensures Filter(s, keep) == if all then s else []
  {
    if s != [] {
      FilterAllOrNone(s[1..], keep, all);
    }
  }

  lemma {:induction false} FilterTwice<T>(s: seq<T>, p: T -> bool, q: T -> bool, both: T -> bool)
    requires forall i :: 0 <= i < |s| ==> both(s[i]) == (p(s[i]) && q(s[i]))
    ensures Filter(Filter(s, p), q) == Filter(s, both)
  {
    if s != [] {
      FilterTwice(s[1..], p, q, both);
      FilterAppend(if p(s[0]) then [s[0]] else [], Filter(s[1..], p), q);
    }
  }

  lemma {:induction false} MapSame<T, U>(s: seq<T>, f: T -> U, g: T -> U)
    requires forall i :: 0 <= i < |s| ==> f(s[i]) == g(s[i])
    ensures Map(s, f) == Map(s, g)
  {
    if s != [] {
      MapSame(s[1..], f, g);
    }
  }

  lemma MapAppend<T, U>(s: seq<T>, t: seq<T>, f: T -> U)
    ensures Map(s + t, f) == Map(s, f) + Map(t, f)
  {
  }

  lemma {:induction false} MapMap<T, U, V>(s: seq<T>, f: T -> U, g: U -> V, h: T -> V)
    requires forall i :: 0 <= i < |s| ==> h(s[i]) == g(f(s[i]))
    ensures Map(Map(s, f), g) == Map(s, h)
  {
    if s != [] {
      MapMap(s[1..], f, g, h);
    }
  }

  /** The rows kept are as many as the positions that satisfy the condition. */
  lemma {:induction false} FilterCount<T>(s: seq<T>, keep: T -> bool, n: nat)
    requires n <= |s|
    ensures |Filter(s[..n], keep)| == |set i | 0 <= i < n && keep(s[i])|
  {
    if n > 0 {
      FilterCount(s, keep, n - 1);
      FilterSnoc(s, n - 1, keep);
      var kept := set i | 0 <= i < n && keep(s[i]);
      assert kept == (set i | 0 <= i < n - 1 && keep(s[i])) + (if keep(s[n - 1]) then {n - 1} else {});
    }
  }

  lemma AllCount<T>(s: seq<T>, keep: T -> bool, where: set<int>)
    requires forall i :: i in where <==> 0 <= i < |s| && keep(s[i])
    ensures |Filter(s, keep)| == |where|
  {
    FilterCount(s, keep, |s|);
    assert s[..|s|] == s;
    assert where == set i | 0 <= i < |s| && keep(s[i]);
  }

  // ----- ORDER BY

  /** Stable insertion: after the leading rows that may come before the new one. */
  function Insert<T>(x: T, s: seq<T>, before: (T, T) -> bool): (r: seq<T>)
    ensures |r| == |s| + 1
  {
    if s == [] || !before(s[0], x) then [x] + s else [s[0]] + Insert(x, s[1..], before)
  }

  /** The rows in order, rows that tie in their original order. */
  function SortBy<T>(s: seq<T>, before: (T, T) -> bool): (r: seq<T>)
    ensures |r| == |s|
  {
    if s == [] then [] else Insert(s[|s| - 1], SortBy(s[..|s| - 1], before), before)
  }

  lemma {:induction false} InsertContents<T>(x: T, s: seq<T>, before: (T, T) -> bool)
    ensures multiset(Insert(x, s, before)) == multiset(s) + multiset{x}
  {
    if s == [] || !before(s[0], x) {
    } else {
      InsertContents(x, s[1..], before);
      assert s == [s[0]] + s[1..];
    }
  }

  /** Sorting loses and duplicates nothing. */
  lemma {:induction false} SortContents<T>(s: seq<T>, before: (T, T) -> bool)
    ensures multiset(SortBy(s, before)) == multiset(s)
  {
    if s != [] {
      SortContents(s[..|s| - 1], before);
      InsertContents(s[|s| - 1], SortBy(s[..|s| - 1], before), before);
      assert s == s[..|s| - 1] + [s[|s| - 1]];
    }
  }

  lemma SortMembers<T>(s: seq<T>, before: (T, T) -> bool)
    ensures forall i :: 0 <= i < |s| ==> SortBy(s, before)[i] in s && s[i] in SortBy(s, before)
  {
    SortContents(s, before);
    forall i | 0 <= i < |s|
      ensures SortBy(s, before)[i] in s && s[i] in SortBy(s, before)
    {
      assert SortBy(s, before)[i] in multiset(SortBy(s, before)) && s[i] in multiset(s);
    }
  }

  lemma SortHas<T>(s: seq<T>, before: (T, T) -> bool, x: T)
    ensures x in SortBy(s, before) <==> x in s
  {
    SortContents(s, before);
    assert x in multiset(SortBy(s, before)) <==> x in multiset(s);
  }

  /** The order is total and transitive. */
  ghost predicate Orders<T(!new)>(before: (T, T) -> bool) {
    && (forall a, b :: before(a, b) || before(b, a))
    && (forall a, b, c :: before(a, b) && before(b, c) ==> before(a, c))
  }

  ghost predicate Ordered<T>(s: seq<T>, before: (T, T) -> bool) {
    forall i, j :: 0 <= i < j < |s| ==> before(s[i], s[j])
  }

  lemma {:induction false} InsertKeepsOrder<T(!new)>(x: T, s: seq<T>, before: (T, T) -> bool)
    requires Orders(before) && Ordered(s, before)
    ensures Ordered(Insert(x, s, before), before)
  {
    if s == [] {
    } else if !before(s[0], x) {
      assert before(x, s[0]);
    } else {
      InsertKeepsOrder(x, s[1..], before);
      InsertContents(x, s[1..], before);
      var rest := Insert(x, s[1..], before);
      forall j | 0 <= j < |rest|
        ensures before(s[0], rest[j])
      {
        assert rest[j] in multiset(s[1..]) + multiset{x};
      }
    }
  }

  lemma {:induction false} SortOrders<T(!new)>(s: seq<T>, before: (T, T) -> bool)
    requires Orders(before)
    ensures Ordered(SortBy(s, before), before)
  {
    if s != [] {
      SortOrders(s[..|s| - 1], before);
      InsertKeepsOrder(s[|s| - 1], SortBy(s[..|s| - 1], before), before);
    }
  }

  /** Two orders that agree through f. */
  ghost predicate Agree<T(!new), U>(f: T -> U, before: (T, T) -> bool, after: (U, U) -> bool) {
    forall a, b :: before(a, b) == after(f(a), f(b))
  }

  lemma {:induction false} MapInsert<T(!new), U>(
    x: T, s: seq<T>, f: T -> U, before: (T, T) -> bool, after: (U, U) -> bool)
    requires Agree(f, before, after)
    ensures Map(Insert(x, s, before), f) == Insert(f(x), Map(s, f), after)
  {
    if s == [] || !before(s[0], x) {
    } else {
      MapInsert(x, s[1..], f, before, after);
    }
  }

  /** Sorting rows and then shaping them is shaping them and then sorting. */
  lemma {:induction false} MapSort<T(!new), U>(s: seq<T>, f: T -> U, before: (T, T) -> bool, after: (U, U) -> bool)
    requires Agree(f, before, after)
    ensures Map(SortBy(s, before), f) == SortBy(Map(s, f), after)
  {
    if s != [] {
      MapSort(s[..|s| - 1], f, before, after);
      MapInsert(s[|s| - 1], SortBy(s[..|s| - 1], before), f, before, after);
      assert Map(s, f)[..|s| - 1] == Map(s[..|s| - 1], f);
    }
  }

  lemma {:induction false} FilterInsert<T>(x: T, s: seq<T>, before: (T, T) -> bool, keep: T -> bool)
    ensures |Filter(Insert(x, s, before), keep)| == |Filter(s, keep)| + (if keep(x) then 1 else 0)
  {
    if s == [] || !before(s[0], x) {
      FilterAppend([x], s, keep);
    } else {
      FilterInsert(x, s[1..], before, keep);
    }
  }

  /** A filter counts the same in any order. */
  lemma {:induction false} FilterSort<T>(s: seq<T>, before: (T, T) -> bool, keep: T -> bool)
    ensures |Filter(SortBy(s, before), keep)| == |Filter(s, keep)|
  {
    if s != [] {
      FilterSort(s[..|s| - 1], before, keep);
      FilterInsert(s[|s| - 1], SortBy(s[..|s| - 1], before), before, keep);
      FilterSnoc(s, |s| - 1, keep);
      assert s[..|s|] == s;
    }
  }

  lemma {:induction false} FilterKeepsOrder<T>(s: seq<T>, before: (T, T) -> bool, keep: T -> bool)
    requires Ordered(s, before)
    ensures Ordered(Filter(s, keep), before)
  {
    if s != [] {
      FilterKeepsOrder(s[1..], before, keep);
      FilterMembers(s[1..], keep);
    }
  }

  lemma {:induction false} FilterOfInsert<T(!new)>(x: T, s: seq<T>, before: (T, T) -> bool, keep: T -> bool)
    requires Orders(before) && Ordered(s, before)
    ensures Filter(Insert(x, s, before), keep)
            == if keep(x) then Insert(x, Filter(s, keep), before) else Filter(s, keep)
  {
    if s == [] {
    } else if before(s[0], x) {
      FilterOfInsert(x, s[1..], before, keep);
    } else {
      var kept := Filter(s, keep);
      FilterAppend([x], s, keep);
      FilterMembers(s, keep);
      assert kept != [] ==> !before(kept[0], x);
    }
  }

  lemma SortSnoc<T>(s: seq<T>, x: T, before: (T, T) -> bool)
    ensures SortBy(s + [x], before) == Insert(x, SortBy(s, before), before)
    ensures SortBy(s + [], before) == SortBy(s, before)
  {
    assert (s + [x])[..|s|] == s && s + [] == s;
  }

  /** A filter and a sort commute. */
  lemma {:induction false} FilterOfSort<T(!new)>(s: seq<T>, before: (T, T) -> bool, keep: T -> bool)
    requires Orders(before)
    ensures Filter(SortBy(s, before), keep) == SortBy(Filter(s, keep), before)
  {
    if s != [] {
      var front := s[..|s| - 1];
      FilterOfSort(front, before, keep);
      SortOrders(front, before);
      FilterOfInsert(s[|s| - 1], SortBy(front, before), before, keep);
      FilterSnoc(s, |s| - 1, keep);
      assert s[..|s|] == s;
      SortSnoc(Filter(front, keep), s[|s| - 1], before);
    }
  }

  // ----- LEFT JOIN

  function Matching<L, R>(l: L, on: (L, R) -> bool): R -> bool {
    r => on(l, r)
  }

  /** What joins one row on the left: its matches, or one row without a partner. */
  function Partners<L, R>(l: L, right: seq<R>, on: (L, R) -> bool): seq<(L, Option<R>)> {
    var matching := Filter(right, Matching(l, on));
    if matching == [] then [(l, None)] else Map(matching, r => (l, Some(r)))
  }

  function LeftJoin<L, R>(left: seq<L>, right: seq<R>, on: (L, R) -> bool): seq<(L, Option<R>)> {
    if left == [] then [] else Partners(left[0], right, on) + LeftJoin(left[1..], right, on)
  }

  /** The first row on the right that matches. */
  function Partner<L, R>(l: L, right: seq<R>, on: (L, R) -> bool): Option<R> {
    if right == [] then None else if on(l, right[0]) then Some(right[0]) else Partner(l, right[1..], on)
  }

  lemma {:induction false} PartnerMatches<L, R>(l: L, right: seq<R>, on: (L, R) -> bool)
    ensures Partner(l, right, on).Some? ==> Partner(l, right, on).value in right && on(l, Partner(l, right, on).value)
    ensures Partner(l, right, on).None? ==> forall r :: r in right ==> !on(l, r)
  {
    if right != [] {
      PartnerMatches(l, right[1..], on);
      assert right == [right[0]] + right[1..];
    }
  }

  ghost predicate AtMostOnePartner<L, R>(l: L, right: seq<R>, on: (L, R) -> bool) {
    forall i, j :: 0 <= i < j < |right| && on(l, right[i]) ==> !on(l, right[j])
  }

  lemma {:induction false} OnePartner<L, R>(l: L, right: seq<R>, on: (L, R) -> bool)
    requires AtMostOnePartner(l, right, on)
    ensures Partners(l, right, on) == [(l, Partner(l, right, on))]
  {
    if right != [] {
      OnePartner(l, right[1..], on);
      if on(l, right[0]) {
        FilterMembers(right[1..], Matching(l, on));
      }
    }
  }

  function Paired<L, R>(right: seq<R>, on: (L, R) -> bool): L -> (L, Option<R>) {
    l => (l, Partner(l, right, on))
  }

  /** A join on a key of the right table neither loses nor duplicates a row of the left. */
  lemma {:induction false} JoinOnKey<L, R>(left: seq<L>, right: seq<R>, on: (L, R) -> bool)
    requires forall l :: l in left ==> AtMostOnePartner(l, right, on)
    ensures LeftJoin(left, right, on) == Map(left, Paired(right, on))
  {
    if left != [] {
      OnePartner(left[0], right, on);
      JoinOnKey(left[1..], right, on);
    }
  }

  // ----- GROUP BY ... COUNT(*)

  datatype Group = Group(key: nat, count: nat)

  function Tally(key: nat, groups: seq<Group>): seq<Group> {
    if groups == [] then [Group(key, 1)]
    else if groups[0].key == key then [Group(key, groups[0].count + 1)] + groups[1..]
    else [groups[0]] + Tally(key, groups[1..])
  }

  function With<T>(key: T -> nat, k: nat): T -> bool {
    x => key(x) == k
  }

  function Grouped<T>(s: seq<T>, key: T -> nat): seq<Group> {
    if s == [] then [] else Tally(key(s[|s| - 1]), Grouped(s[..|s| - 1], key))
  }

  function CountAt(groups: seq<Group>, key: nat): nat {
    if groups == [] then 0 else if groups[0].key == key then groups[0].count else CountAt(groups[1..], key)
  }

  ghost predicate KeysOnce(groups: seq<Group>) {
    forall i, j :: 0 <= i < j < |groups| ==> groups[i].key != groups[j].key
  }

  lemma {:induction false} TallyAdds(key: nat, groups: seq<Group>, k: nat)
    requires KeysOnce(groups)
    ensures KeysOnce(Tally(key, groups))
    ensures forall g :: g in Tally(key, groups) ==> g.key == key || exists h :: h in groups && h.key == g.key
    ensures CountAt(Tally(key, groups), k) == CountAt(groups, k) + (if k == key then 1 else 0)
  {
    if groups == [] || groups[0].key == key {
    } else {
      TallyAdds(key, groups[1..], k);
      var rest := Tally(key, groups[1..]);
      forall j | 0 <= j < |rest|
        ensures rest[j].key != groups[0].key
      {
        assert rest[j] in rest;
      }
    }
  }

  /** Each key has one group, and its count is the number of rows with the key. */
  lemma {:induction false} GroupCounts<T>(s: seq<T>, key: T -> nat, k: nat)
    ensures KeysOnce(Grouped(s, key))
    ensures CountAt(Grouped(s, key), k) == |Filter(s, With(key, k))|
  {
    if s != [] {
      GroupCounts(s[..|s| - 1], key, k);
      TallyAdds(key(s[|s| - 1]), Grouped(s[..|s| - 1], key), k);
      FilterSnoc(s, |s| - 1, With(key, k));
      assert s[..|s|] == s;
    }
  }
}
