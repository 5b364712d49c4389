/**
 * The ranking queries of the pandas tool (a2/route_manager.py), over rows
 * that are already joined: keep the rows a query looks at, give each its
 * group key, count the rows per key (`groupby(...).size()`), sort by the
 * count and then by the key (`sort_values`) and keep the first N (`head`).
 */
module Ranking {
  import opened Wrappers
  import opened Text

  /** One joined route: the airline that flies it and its destination airport. */
  datatype Row = Row(
    airlineName: string,
    airlineCode: string,     // airline_icao_unique_code
    airportName: string,
    airportCity: string,
    airportCountry: string,  // already left-stripped when the airports file is read
    airportCode: string)     // airport_icao_unique_code

  /** The values of the grouped columns, in `groupby` column order. */
  type Key = seq<string>

  /** One row of `groupby(...).size()`. */
  datatype Group = Group(key: Key, size: nat)

  datatype Direction = Ascending | Descending

  /** One row of the answer file: `subject,statistic`. */
  datatype Stat = Stat(subject: string, statistic: nat)

  datatype Question = Q1 | Q2 | Q3 | Q4

  // ---------------------------------------------------------------------
  // Order on keys and on groups
  // ---------------------------------------------------------------------

  /** pandas' order on group keys: column by column, each column by string order. */
  predicate KeyLess(a: Key, b: Key)
    decreases |a|
  {
    if a == [] then b != []
    else if b == [] then false
    else if a[0] != b[0] then LexLess(a[0], b[0])
    else KeyLess(a[1..], b[1..])
  }

  lemma {:induction false} KeyLessIrreflexive(a: Key)
    ensures !KeyLess(a, a)
    decreases |a|
  {
    if a != [] {
      KeyLessIrreflexive(a[1..]);
    }
  }

  lemma {:induction false} KeyLessTransitive(a: Key, b: Key, c: Key)
    requires KeyLess(a, b) && KeyLess(b, c)
    ensures KeyLess(a, c)
    decreases |a|
  {
    if a != [] && b != [] && c != [] {
      if a[0] != b[0] && b[0] != c[0] {
        LexLessTransitive(a[0], b[0], c[0]);
        LexLessTrichotomy(a[0], c[0]);
      } else if a[0] == b[0] && b[0] == c[0] {
        KeyLessTransitive(a[1..], b[1..], c[1..]);
      }
    }
  }

  lemma {:induction false} KeyLessTrichotomy(a: Key, b: Key)
    ensures a == b || KeyLess(a, b) || KeyLess(b, a)
    ensures !(KeyLess(a, b) && KeyLess(b, a))
    decreases |a|
  {
    if a != [] && b != [] {
      if a[0] == b[0] {
        KeyLessTrichotomy(a[1..], b[1..]);
        assert a == [a[0]] + a[1..] && b == [b[0]] + b[1..];
      } else {
        LexLessTrichotomy(a[0], b[0]);
      }
    }
  }

  /**
   * `sort_values(by=['size', key], ascending=[dir, True])`: `x` comes before
   * `y` when its count is larger (descending) or smaller (ascending), and on
   * equal counts when its key is smaller.
   */
  predicate Before(x: Group, y: Group, dir: Direction)
  {
    if x.size != y.size then
      (if dir == Descending then x.size > y.size else x.size < y.size)
    else KeyLess(x.key, y.key)
  }

  lemma BeforeTransitive(x: Group, y: Group, z: Group, dir: Direction)
    requires Before(x, y, dir) && Before(y, z, dir)
    ensures Before(x, z, dir)
  {
    if x.size == y.size == z.size {
      KeyLessTransitive(x.key, y.key, z.key);
    }
  }

  /** Groups with different keys are always ordered one way, and never both. */
  lemma BeforeTotal(x: Group, y: Group, dir: Direction)
    ensures x.key != y.key ==> Before(x, y, dir) || Before(y, x, dir)
    ensures !(Before(x, y, dir) && Before(y, x, dir))
  {
    KeyLessTrichotomy(x.key, y.key);
  }

  // ---------------------------------------------------------------------
  // groupby(...).size()
  // ---------------------------------------------------------------------

  /** Counts one more row with key `k`: its group grows, or a new group of one is added. */
  function Bump(gs: seq<Group>, k: Key): (r: seq<Group>)
    ensures |r| == |gs| || |r| == |gs| + 1
  {
    if gs == [] then [Group(k, 1)]
    else if gs[0].key == k then [Group(k, gs[0].size + 1)] + gs[1..]
    else [gs[0]] + Bump(gs[1..], k)
  }

  /** The groups of `keys` with their sizes. */
  function CountKeys(keys: seq<Key>): seq<Group>
  {
    if keys == [] then [] else Bump(CountKeys(keys[..|keys| - 1]), keys[|keys| - 1])
  }

  /** The number of rows counted for key `k` (0 when `k` has no group). */
  function SizeOf(gs: seq<Group>, k: Key): nat
  {
    if gs == [] then 0 else (if gs[0].key == k then gs[0].size else 0) + SizeOf(gs[1..], k)
  }

  function Total(gs: seq<Group>): nat
  {
    if gs == [] then 0 else gs[0].size + Total(gs[1..])
  }

  function GroupKeys(gs: seq<Group>): set<Key>
  {
    set i | 0 <= i < |gs| :: gs[i].key
  }

  predicate DistinctKeys(gs: seq<Group>)
  {
    forall i, j :: 0 <= i < j < |gs| ==> gs[i].key != gs[j].key
  }

  predicate NonEmptyGroups(gs: seq<Group>)
  {
    forall i :: 0 <= i < |gs| ==> gs[i].size >= 1
  }

  /** Bumping key `k` counts one more row for `k` and none for any other key. */
  lemma {:induction false} BumpSize(gs: seq<Group>, k: Key, k': Key)
    ensures SizeOf(Bump(gs, k), k') == SizeOf(gs, k') + (if k' == k then 1 else 0)
  {
    if gs != [] && gs[0].key != k {
      BumpSize(gs[1..], k, k');
      assert Bump(gs, k)[1..] == Bump(gs[1..], k);
    }
  }

  lemma {:induction false} BumpTotal(gs: seq<Group>, k: Key)
    ensures Total(Bump(gs, k)) == Total(gs) + 1
  {
    if gs != [] && gs[0].key != k {
      BumpTotal(gs[1..], k);
      assert Bump(gs, k)[1..] == Bump(gs[1..], k);
    }
  }

  lemma {:induction false} BumpKeys(gs: seq<Group>, k: Key)
    ensures GroupKeys(Bump(gs, k)) == GroupKeys(gs) + {k}
  {
    var r := Bump(gs, k);
    if gs == [] {
      assert GroupKeys(r) == {k} by { assert r[0].key == k; }
    } else {
      GroupKeysCons(gs);
      GroupKeysCons(r);
      if gs[0].key == k {
        assert r[1..] == gs[1..];
      } else {
        BumpKeys(gs[1..], k);
        assert r[1..] == Bump(gs[1..], k);
      }
    }
  }

  lemma {:induction false} BumpNonEmpty(gs: seq<Group>, k: Key)
    requires NonEmptyGroups(gs)
    ensures NonEmptyGroups(Bump(gs, k))
  {
    if gs != [] && gs[0].key != k {
      BumpNonEmpty(gs[1..], k);
      assert Bump(gs, k)[1..] == Bump(gs[1..], k);
    }
  }

  lemma {:induction false} BumpDistinct(gs: seq<Group>, k: Key)
    requires DistinctKeys(gs)
    ensures DistinctKeys(Bump(gs, k))
  {
    var r := Bump(gs, k);
    if gs != [] {
      DistinctKeysTail(gs);
      if gs[0].key == k {
        assert r[1..] == gs[1..];
        DistinctKeysCons(r);
      } else {
        BumpDistinct(gs[1..], k);
        BumpKeys(gs[1..], k);
        assert r[1..] == Bump(gs[1..], k);
        DistinctKeysCons(r);
      }
    }
  }

  /** Counting one more row: sizes, total, keys, and the group invariants. */
  lemma BumpSpec(gs: seq<Group>, k: Key)
    ensures forall k' :: SizeOf(Bump(gs, k), k') == SizeOf(gs, k') + (if k' == k then 1 else 0)
    ensures Total(Bump(gs, k)) == Total(gs) + 1
    ensures GroupKeys(Bump(gs, k)) == GroupKeys(gs) + {k}
    ensures NonEmptyGroups(gs) ==> NonEmptyGroups(Bump(gs, k))
    ensures DistinctKeys(gs) ==> DistinctKeys(Bump(gs, k))
  {
    forall k' {
      BumpSize(gs, k, k');
    }
    BumpTotal(gs, k);
    BumpKeys(gs, k);
    if NonEmptyGroups(gs) {
      BumpNonEmpty(gs, k);
    }
    if DistinctKeys(gs) {
      BumpDistinct(gs, k);
    }
  }

  lemma GroupKeysCons(gs: seq<Group>)
    requires gs != []
    ensures GroupKeys(gs) == {gs[0].key} + GroupKeys(gs[1..])
  {
    forall x | x in GroupKeys(gs)
      ensures x in {gs[0].key} + GroupKeys(gs[1..])
    {
      var i :| 0 <= i < |gs| && gs[i].key == x;
      if i > 0 {
        assert gs[1..][i - 1].key == x;
      }
    }
    forall x | x in GroupKeys(gs[1..])
      ensures x in GroupKeys(gs)
    {
      var i :| 0 <= i < |gs[1..]| && gs[1..][i].key == x;
      assert gs[i + 1].key == x;
    }
  }

  lemma DistinctKeysTail(gs: seq<Group>)
    requires gs != [] && DistinctKeys(gs)
    ensures DistinctKeys(gs[1..]) && gs[0].key !in GroupKeys(gs[1..])
  {
    forall i | 0 <= i < |gs[1..]|
      ensures gs[1..][i].key != gs[0].key
    {
      assert gs[1..][i] == gs[i + 1];
    }
  }

  lemma DistinctKeysCons(gs: seq<Group>)
    requires gs != [] && DistinctKeys(gs[1..]) && gs[0].key !in GroupKeys(gs[1..])
    ensures DistinctKeys(gs)
  {
    forall i, j | 0 <= i < j < |gs|
      ensures gs[i].key != gs[j].key
    {
      if i == 0 {
        assert gs[1..][j - 1].key == gs[j].key;
      } else {
        assert gs[1..][i - 1] == gs[i] && gs[1..][j - 1] == gs[j];
      }
    }
  }

  /** With distinct keys, a group's size is what `SizeOf` finds for its key. */
  lemma {:induction false} SizeOfDistinct(gs: seq<Group>, i: nat)
    requires DistinctKeys(gs) && i < |gs|
    ensures SizeOf(gs, gs[i].key) == gs[i].size
  {
    DistinctKeysTail(gs);
    if i == 0 {
      SizeOfAbsent(gs[1..], gs[0].key);
    } else {
      SizeOfDistinct(gs[1..], i - 1);
    }
  }

  lemma {:induction false} SizeOfAbsent(gs: seq<Group>, k: Key)
    requires k !in GroupKeys(gs)
    ensures SizeOf(gs, k) == 0
  {
    if gs != [] {
      GroupKeysCons(gs);
      SizeOfAbsent(gs[1..], k);
    }
  }

  /**
   * `groupby(...).size()`: one group per distinct key, none empty, each
   * counting exactly the occurrences of its key, and the sizes add up to
   * the number of rows grouped.
   */
  lemma {:induction false} CountKeysSpec(keys: seq<Key>)
    ensures DistinctKeys(CountKeys(keys)) && NonEmptyGroups(CountKeys(keys))
    ensures GroupKeys(CountKeys(keys)) == set k | k in keys
    ensures forall k :: SizeOf(CountKeys(keys), k) == multiset(keys)[k]
    ensures Total(CountKeys(keys)) == |keys|
  {
    if keys != [] {
      var front, last := keys[..|keys| - 1], keys[|keys| - 1];
      CountKeysSpec(front);
      BumpSpec(CountKeys(front), last);
      assert CountKeys(keys) == Bump(CountKeys(front), last);
      assert keys == front + [last];
      assert multiset(keys) == multiset(front) + multiset{last};
      assert (set k | k in keys) == (set k | k in front) + {last};
    }
  }

  /** Every group's size is the number of rows carrying its key, and at least one. */
  lemma GroupSizes(keys: seq<Key>)
    ensures var gs := CountKeys(keys);
      forall i :: 0 <= i < |gs| ==> gs[i].size == multiset(keys)[gs[i].key] >= 1
  {
    var gs := CountKeys(keys);
    CountKeysSpec(keys);
    forall i | 0 <= i < |gs|
      ensures gs[i].size == multiset(keys)[gs[i].key]
    {
      SizeOfDistinct(gs, i);
      assert SizeOf(gs, gs[i].key) == multiset(keys)[gs[i].key];
    }
  }

  // ---------------------------------------------------------------------
  // sort_values
  // ---------------------------------------------------------------------

  /** No later group ranks strictly before an earlier one. */
  predicate Ordered(s: seq<Group>, dir: Direction)
  {
    forall i, j :: 0 <= i < j < |s| ==> !Before(s[j], s[i], dir)
  }

  function Insert(g: Group, s: seq<Group>, dir: Direction): (r: seq<Group>)
    ensures |r| == |s| + 1
  {
    if s == [] then [g]
    else if Before(g, s[0], dir) then [g] + s
    else [s[0]] + Insert(g, s[1..], dir)
  }

  /** The groups in ranking order (an insertion sort; the order is fixed by `Before`). */
  function SortGroups(gs: seq<Group>, dir: Direction): (r: seq<Group>)
    ensures |r| == |gs|
  {
    if gs == [] then [] else Insert(gs[0], SortGroups(gs[1..], dir), dir)
  }

  lemma {:induction false} InsertPermutes(g: Group, s: seq<Group>, dir: Direction)
    ensures multiset(Insert(g, s, dir)) == multiset(s) + multiset{g}
  {
    if s == [] {
    } else if Before(g, s[0], dir) {
      assert Insert(g, s, dir) == [g] + s;
    } else {
      var t := Insert(g, s[1..], dir);
      InsertPermutes(g, s[1..], dir);
      assert s == [s[0]] + s[1..];
      calc {
        multiset(Insert(g, s, dir));
        multiset([s[0]] + t);
        multiset([s[0]]) + multiset(t);
        multiset([s[0]]) + multiset(s[1..]) + multiset{g};
        multiset(s) + multiset{g};
      }
    }
  }

  /** A group placed before the head of an ordered sequence keeps it ordered. */
  lemma InsertFrontOrdered(g: Group, s: seq<Group>, dir: Direction)
    requires Ordered(s, dir) && s != [] && Before(g, s[0], dir)
    ensures Ordered([g] + s, dir)
  {
    var r := [g] + s;
    forall j | 1 <= j < |r|
      ensures !Before(r[j], g, dir)
    {
      assert r[j] == s[j - 1];
      if Before(r[j], g, dir) {
        BeforeTransitive(r[j], g, s[0], dir);
        BeforeTotal(s[0], s[0], dir);
      }
    }
  }

  /** The head of an ordered sequence stays ahead of a later one with `g` inserted. */
  lemma InsertBehindOrdered(g: Group, s: seq<Group>, dir: Direction)
    requires Ordered(s, dir) && s != [] && !Before(g, s[0], dir)
    requires Ordered(Insert(g, s[1..], dir), dir)
    ensures Ordered([s[0]] + Insert(g, s[1..], dir), dir)
  {
    var t := Insert(g, s[1..], dir);
    InsertMembers(g, s[1..], dir);
    forall x | x in s[1..]
      ensures !Before(x, s[0], dir)
    {
      var m :| 0 <= m < |s[1..]| && s[1..][m] == x;
      assert s[m + 1] == x;
    }
    forall j | 0 <= j < |t|
      ensures !Before(t[j], s[0], dir)
    {
      assert t[j] in t;
    }
    OrderedCons(s[0], t, dir);
  }

  /** A group that no later group ranks before can head an ordered sequence. */
  lemma OrderedCons(x: Group, t: seq<Group>, dir: Direction)
    requires Ordered(t, dir)
    requires forall j :: 0 <= j < |t| ==> !Before(t[j], x, dir)
    ensures Ordered([x] + t, dir)
  {
    var r := [x] + t;
    assert forall j :: 1 <= j < |r| ==> r[j] == t[j - 1];
  }

  /** Inserting adds `g` and nothing else. */
  lemma InsertMembers(g: Group, s: seq<Group>, dir: Direction)
    ensures forall x :: x in Insert(g, s, dir) ==> x == g || x in s
  {
    InsertPermutes(g, s, dir);
    forall x | x in Insert(g, s, dir)
      ensures x == g || x in s
    {
      assert x in multiset(Insert(g, s, dir));
    }
  }

  lemma {:induction false} InsertOrdered(g: Group, s: seq<Group>, dir: Direction)
    requires Ordered(s, dir)
    ensures Ordered(Insert(g, s, dir), dir)
  {
    if s == [] {
    } else if Before(g, s[0], dir) {
      InsertFrontOrdered(g, s, dir);
    } else {
      assert Ordered(s[1..], dir);
      InsertOrdered(g, s[1..], dir);
      InsertBehindOrdered(g, s, dir);
    }
  }

  lemma InsertSpec(g: Group, s: seq<Group>, dir: Direction)
    requires Ordered(s, dir)
    ensures multiset(Insert(g, s, dir)) == multiset(s) + multiset{g}
    ensures GroupKeys(Insert(g, s, dir)) == GroupKeys(s) + {g.key}
    ensures Ordered(Insert(g, s, dir), dir)
  {
    InsertPermutes(g, s, dir);
    InsertKeys(g, s, dir);
    InsertOrdered(g, s, dir);
  }

  lemma {:induction false} SortGroupsPermutes(gs: seq<Group>, dir: Direction)
    ensures multiset(SortGroups(gs, dir)) == multiset(gs)
  {
    if gs != [] {
      SortGroupsPermutes(gs[1..], dir);
      InsertPermutes(gs[0], SortGroups(gs[1..], dir), dir);
      assert gs == [gs[0]] + gs[1..];
    }
  }

  lemma {:induction false} SortGroupsKeys(gs: seq<Group>, dir: Direction)
    ensures GroupKeys(SortGroups(gs, dir)) == GroupKeys(gs)
  {
    if gs != [] {
      SortGroupsKeys(gs[1..], dir);
      InsertKeys(gs[0], SortGroups(gs[1..], dir), dir);
      GroupKeysCons(gs);
    }
  }

  lemma {:induction false} SortGroupsOrdered(gs: seq<Group>, dir: Direction)
    ensures Ordered(SortGroups(gs, dir), dir)
  {
    if gs != [] {
      SortGroupsOrdered(gs[1..], dir);
      InsertOrdered(gs[0], SortGroups(gs[1..], dir), dir);
    }
  }

  lemma {:induction false} SortGroupsDistinct(gs: seq<Group>, dir: Direction)
    requires DistinctKeys(gs)
    ensures DistinctKeys(SortGroups(gs, dir))
  {
    if gs != [] {
      DistinctKeysTail(gs);
      SortGroupsDistinct(gs[1..], dir);
      SortGroupsKeys(gs[1..], dir);
      InsertDistinct(gs[0], SortGroups(gs[1..], dir), dir);
    }
  }

  /** Sorting permutes the groups, keeps their keys, and leaves them in ranking order. */
  lemma SortGroupsSpec(gs: seq<Group>, dir: Direction)
    ensures var r := SortGroups(gs, dir);
      && multiset(r) == multiset(gs)
      && GroupKeys(r) == GroupKeys(gs)
      && Ordered(r, dir)
      && (DistinctKeys(gs) ==> DistinctKeys(r))
  {
    SortGroupsPermutes(gs, dir);
    SortGroupsKeys(gs, dir);
    SortGroupsOrdered(gs, dir);
    if DistinctKeys(gs) {
      SortGroupsDistinct(gs, dir);
    }
  }

  lemma {:induction false} InsertDistinct(g: Group, s: seq<Group>, dir: Direction)
    requires DistinctKeys(s) && g.key !in GroupKeys(s)
    ensures DistinctKeys(Insert(g, s, dir))
  {
    var r := Insert(g, s, dir);
    if s == [] {
    } else if Before(g, s[0], dir) {
      assert r[1..] == s;
      DistinctKeysCons(r);
    } else {
      GroupKeysCons(s);
      DistinctKeysTail(s);
      InsertDistinct(g, s[1..], dir);
      assert r[1..] == Insert(g, s[1..], dir);
      InsertKeys(g, s[1..], dir);
      DistinctKeysCons(r);
    }
  }

  lemma {:induction false} InsertKeys(g: Group, s: seq<Group>, dir: Direction)
    ensures GroupKeys(Insert(g, s, dir)) == GroupKeys(s) + {g.key}
  {
    var r := Insert(g, s, dir);
    if s == [] {
      assert r[0].key == g.key;
    } else if Before(g, s[0], dir) {
      GroupKeysCons(r);
      assert r[1..] == s;
    } else {
      InsertKeys(g, s[1..], dir);
      GroupKeysCons(r);
      GroupKeysCons(s);
      assert r[1..] == Insert(g, s[1..], dir);
    }
  }

  /** With distinct keys the ranking is strict: every group ranks before every later one. */
  lemma OrderedStrict(s: seq<Group>, dir: Direction)
    requires Ordered(s, dir) && DistinctKeys(s)
    ensures forall i, j :: 0 <= i < j < |s| ==> Before(s[i], s[j], dir)
  {
    forall i, j | 0 <= i < j < |s|
      ensures Before(s[i], s[j], dir)
    {
      BeforeTotal(s[i], s[j], dir);
    }
  }

  /**
   * The tie-break makes the ranking unique: two orderings of the same groups
   * with distinct keys that both follow `Before` are the same sequence.
   */
  lemma OrderedTail(s: seq<Group>, dir: Direction)
    requires s != [] && Ordered(s, dir)
    ensures Ordered(s[1..], dir)
    ensures DistinctKeys(s) ==> DistinctKeys(s[1..])
  {
    forall a, b | 0 <= a < b < |s| - 1
      ensures !Before(s[1..][b], s[1..][a], dir)
    {
      assert s[1..][a] == s[a + 1] && s[1..][b] == s[b + 1];
    }
    if DistinctKeys(s) {
      DistinctKeysTail(s);
    }
  }

  /** Both orderings start with the same group: the one that ranks before all others. */
  lemma HeadsAgree(s: seq<Group>, t: seq<Group>, dir: Direction)
    requires Ordered(s, dir) && Ordered(t, dir) && DistinctKeys(s)
    requires multiset(s) == multiset(t) && s != [] && t != []
    ensures s[0] == t[0]
  {
    assert s[0] in multiset(t) && t[0] in multiset(s);
    var j :| 0 <= j < |t| && t[j] == s[0];
    var i :| 0 <= i < |s| && s[i] == t[0];
    BeforeTotal(s[0], t[0], dir);
  }

  lemma {:induction false} RankingUnique(s: seq<Group>, t: seq<Group>, dir: Direction)
    requires Ordered(s, dir) && Ordered(t, dir) && DistinctKeys(s)
    requires multiset(s) == multiset(t)
    ensures s == t
  {
    if s != [] {
      assert |t| == |s| by {
        assert |multiset(t)| == |multiset(s)|;
      }
      HeadsAgree(s, t, dir);
      assert s == [s[0]] + s[1..] && t == [t[0]] + t[1..];
      assert multiset(s[1..]) == multiset(s) - multiset{s[0]};
      assert multiset(t[1..]) == multiset(t) - multiset{t[0]};
      OrderedTail(s, dir);
      OrderedTail(t, dir);
      RankingUnique(s[1..], t[1..], dir);
    }
  }

  // ---------------------------------------------------------------------
  // head(n) and the ranked answer
  // ---------------------------------------------------------------------

  /** `head(n)`: the first `n` groups, or all of them when there are fewer. */
  function Take(s: seq<Group>, n: nat): (r: seq<Group>)
    ensures |r| == Min(n, |s|)
    ensures forall i :: 0 <= i < |r| ==> r[i] == s[i]
  {
    s[..Min(n, |s|)]
  }

  /** Group, count, sort and keep the first `n`. */
  function Rank(keys: seq<Key>, dir: Direction, n: nat): seq<Group>
  {
    Take(SortGroups(CountKeys(keys), dir), n)
  }

  /**
   * The sorted grouping: one group per distinct key, each counting the rows
   * of its key, strictly in ranking order.
   */
  lemma SortedGroupsSpec(keys: seq<Key>, dir: Direction)
    ensures var gs := CountKeys(keys); var s := SortGroups(gs, dir);
      && |s| == |gs| == |set k | k in keys|
      && DistinctKeys(s)
      && (forall g :: g in s <==> g in gs)
      && (forall i :: 0 <= i < |s| ==> s[i].size == multiset(keys)[s[i].key] >= 1)
      && (forall i, j :: 0 <= i < j < |s| ==> Before(s[i], s[j], dir))
  {
    var gs := CountKeys(keys);
    var s := SortGroups(gs, dir);
    CountKeysSpec(keys);
    GroupSizes(keys);
    SortGroupsSpec(gs, dir);
    OrderedStrict(s, dir);
    DistinctKeysCard(gs);
    forall g
      ensures g in s <==> g in gs
    {
      assert g in s <==> g in multiset(s);
      assert g in gs <==> g in multiset(gs);
    }
    forall i | 0 <= i < |s|
      ensures s[i].size == multiset(keys)[s[i].key] >= 1
    {
      assert s[i] in gs;
      var m :| 0 <= m < |gs| && gs[m] == s[i];
    }
  }

  /** Cutting a strictly ordered sequence keeps the order, and everything cut ranks after everything kept. */
  lemma TopN(s: seq<Group>, n: nat, dir: Direction)
    requires DistinctKeys(s)
    requires forall i, j :: 0 <= i < j < |s| ==> Before(s[i], s[j], dir)
    ensures var r := Take(s, n);
      && DistinctKeys(r)
      && (forall i, j :: 0 <= i < j < |r| ==> Before(r[i], r[j], dir))
      && (forall g :: g in s && g !in r ==> forall i :: 0 <= i < |r| ==> Before(r[i], g, dir))
  {
    var r := Take(s, n);
    forall g | g in s && g !in r
      ensures forall i :: 0 <= i < |r| ==> Before(r[i], g, dir)
    {
      forall i | 0 <= i < |r|
        ensures Before(r[i], g, dir)
      {
        var m :| 0 <= m < |s| && s[m] == g;
        assert r[i] == s[i];
        assert forall k :: 0 <= k < |r| ==> r[k] == s[k];
      }
    }
  }

  /**
   * The top-`n` ranking: `min(n, number of distinct keys)` groups with
   * distinct keys, each counting the rows of its key, strictly in ranking
   * order, and every group left out ranks after every group reported.
   */
  lemma RankSpec(keys: seq<Key>, dir: Direction, n: nat)
    ensures var r, gs := Rank(keys, dir, n), CountKeys(keys);
      && |r| == Min(n, |set k | k in keys|)
      && DistinctKeys(r)
      && (forall i :: 0 <= i < |r| ==> r[i] in gs && r[i].size == multiset(keys)[r[i].key] >= 1)
      && (forall i, j :: 0 <= i < j < |r| ==> Before(r[i], r[j], dir))
      && (forall g :: g in gs && g !in r ==> forall i :: 0 <= i < |r| ==> Before(r[i], g, dir))
  {
    var s := SortGroups(CountKeys(keys), dir);
    SortedGroupsSpec(keys, dir);
    TopN(s, n, dir);
  }

  /**
   * The ranking depends only on which keys occur and how often, not on the
   * order of the rows: two row orders give the same sorted groups.
   */
  lemma RankIgnoresOrder(a: seq<Key>, b: seq<Key>, dir: Direction)
    requires multiset(a) == multiset(b)
    ensures SortGroups(CountKeys(a), dir) == SortGroups(CountKeys(b), dir)
  {
    var ga, gb := CountKeys(a), CountKeys(b);
    CountKeysSpec(a);
    CountKeysSpec(b);
    GroupsMultiset(ga, gb);
    SortGroupsSpec(ga, dir);
    SortGroupsSpec(gb, dir);
    RankingUnique(SortGroups(ga, dir), SortGroups(gb, dir), dir);
  }

  /** Two groupings with distinct keys and the same count for every key hold the same groups. */
  lemma {:induction false} GroupsMultiset(s: seq<Group>, t: seq<Group>)
    requires DistinctKeys(s) && DistinctKeys(t) && NonEmptyGroups(s) && NonEmptyGroups(t)
    requires forall k :: SizeOf(s, k) == SizeOf(t, k)
    ensures multiset(s) == multiset(t)
    decreases |s|
  {
    HeadSize(t);
    if s != [] {
      var g := s[0];
      HeadSize(s);
      AbsentSize(t, g.key);
      var j :| 0 <= j < |t| && t[j].key == g.key;
      SizeOfDistinct(t, j);
      assert t[j] == g;
      var rest := t[..j] + t[j + 1..];
      RemoveSizes(s, t, j);
      DistinctKeysTail(s);
      RemoveKeepsGroups(t, j);
      GroupsMultiset(s[1..], rest);
      RemoveMultiset(s, t, j);
    }
  }

  /** Removing the matching group from both sides keeps every key's count equal. */
  lemma RemoveSizes(s: seq<Group>, t: seq<Group>, j: nat)
    requires s != [] && j < |t| && t[j] == s[0]
    requires forall k :: SizeOf(s, k) == SizeOf(t, k)
    ensures forall k :: SizeOf(s[1..], k) == SizeOf(t[..j] + t[j + 1..], k)
  {
    assert t == t[..j] + [t[j]] + t[j + 1..];
    forall k
      ensures SizeOf(s[1..], k) == SizeOf(t[..j] + t[j + 1..], k)
    {
      SizeOfAppend(t[..j], [t[j]], k);
      SizeOfAppend(t[..j] + [t[j]], t[j + 1..], k);
      SizeOfAppend(t[..j], t[j + 1..], k);
    }
  }

  lemma RemoveMultiset(s: seq<Group>, t: seq<Group>, j: nat)
    requires s != [] && j < |t| && t[j] == s[0]
    requires multiset(s[1..]) == multiset(t[..j] + t[j + 1..])
    ensures multiset(s) == multiset(t)
  {
    assert s == [s[0]] + s[1..];
    assert t == t[..j] + [t[j]] + t[j + 1..];
  }

  lemma HeadSize(gs: seq<Group>)
    ensures gs != [] && DistinctKeys(gs) ==> SizeOf(gs, gs[0].key) == gs[0].size
    ensures gs == [] ==> forall k :: SizeOf(gs, k) == 0
  {
    if gs != [] && DistinctKeys(gs) {
      SizeOfDistinct(gs, 0);
    }
  }

  lemma AbsentSize(gs: seq<Group>, k: Key)
    ensures k !in GroupKeys(gs) ==> SizeOf(gs, k) == 0
  {
    if k !in GroupKeys(gs) {
      SizeOfAbsent(gs, k);
    }
  }

  lemma {:induction false} SizeOfAppend(a: seq<Group>, b: seq<Group>, k: Key)
    ensures SizeOf(a + b, k) == SizeOf(a, k) + SizeOf(b, k)
  {
    if a != [] {
      assert (a + b)[1..] == a[1..] + b;
      SizeOfAppend(a[1..], b, k);
    } else {
      assert a + b == b;
    }
  }

  /** Dropping one group keeps the keys distinct and the groups non-empty. */
  lemma RemoveKeepsGroups(t: seq<Group>, j: nat)
    requires j < |t| && DistinctKeys(t) && NonEmptyGroups(t)
    ensures DistinctKeys(t[..j] + t[j + 1..]) && NonEmptyGroups(t[..j] + t[j + 1..])
  {
    var r := t[..j] + t[j + 1..];
    assert forall i :: 0 <= i < |r| ==> r[i] == if i < j then t[i] else t[i + 1];
  }

  /** With distinct keys there are exactly as many groups as keys. */
  lemma {:induction false} DistinctKeysCard(gs: seq<Group>)
    requires DistinctKeys(gs)
    ensures |GroupKeys(gs)| == |gs|
  {
    if gs != [] {
      GroupKeysCons(gs);
      DistinctKeysTail(gs);
      DistinctKeysCard(gs[1..]);
    }
  }

  // ---------------------------------------------------------------------
  // The four questions
  // ---------------------------------------------------------------------

  /** `name + ' (' + code + ')'`. */
  function Labelled(name: string, code: string): string
  {
    name + " (" + code + ")"
  }

  /**
   * The group key a question gives a row, or None when the question does
   * not count the row (q1 counts only routes into Canada).
   */
  function KeyOf(q: Question, r: Row): Option<Key>
  {
    match q
    case Q1 =>
      if r.airportCountry == "Canada" then Some([Labelled(r.airlineName, r.airlineCode)]) else None
    case Q2 => Some([r.airportCountry])
    case Q3 => Some([Labelled(r.airportName, r.airportCode) + ", " + r.airportCity + ", " + r.airportCountry])
    case Q4 => Some([r.airportCity, r.airportCountry])
  }

  function Order(q: Question): Direction
  {
    if q == Q2 then Ascending else Descending
  }

  /** The `head` sizes: 20, 30, 10 and 15. */
  function Limit(q: Question): nat
  {
    match q
    case Q1 => 20
    case Q2 => 30
    case Q3 => 10
    case Q4 => 15
  }

  /** The keys of the counted rows, in row order. */
  function KeysOf(q: Question, rows: seq<Row>): (keys: seq<Key>)
    ensures |keys| <= |rows|
  {
    if rows == [] then []
    else
      var k := KeyOf(q, rows[|rows| - 1]);
      KeysOf(q, rows[..|rows| - 1]) + (if k.Some? then [k.value] else [])
  }

  /** The number of rows to which the question gives key `k`. */
  function RowsWithKey(q: Question, rows: seq<Row>, k: Key): nat
  {
    if rows == [] then 0
    else RowsWithKey(q, rows[..|rows| - 1], k) + (if KeyOf(q, rows[|rows| - 1]) == Some(k) then 1 else 0)
  }

  /** The answer rows: each group's key joined with ", " as subject, its size as statistic. */
  function Subjects(gs: seq<Group>): (a: seq<Stat>)
    ensures |a| == |gs|
  {
    seq(|gs|, i requires 0 <= i < |gs| => Stat(Join(gs[i].key, ", "), gs[i].size))
  }

  /** What `qN` writes to `qN.csv` below the header, for N = 1..4. */
  function Answer(q: Question, rows: seq<Row>): seq<Stat>
  {
    Subjects(Rank(KeysOf(q, rows), Order(q), Limit(q)))
  }

  /** Every counted row contributes its key once; only counted rows contribute. */
  lemma {:induction false} KeysOfCount(q: Question, rows: seq<Row>)
    ensures forall k :: multiset(KeysOf(q, rows))[k] == RowsWithKey(q, rows, k)
    ensures q != Q1 ==> |KeysOf(q, rows)| == |rows|
  {
    if rows != [] {
      var front := rows[..|rows| - 1];
      var k := KeyOf(q, rows[|rows| - 1]);
      var extra := if k.Some? then [k.value] else [];
      KeysOfCount(q, front);
      assert KeysOf(q, rows) == KeysOf(q, front) + extra;
      assert multiset(KeysOf(q, rows)) == multiset(KeysOf(q, front)) + multiset(extra);
    }
  }

  /** q4's subject is `city + ', ' + country`, built from the group key after ranking. */
  lemma CitySubject(city: string, country: string)
    ensures Join([city, country], ", ") == city + ", " + country
  {
    assert [city, country][1..] == [country];
  }

  /**
   * The answer of each question: `min(N, number of distinct keys)` rows,
   * ranked strictly by count (descending, or ascending for q2) then key;
   * every statistic is the number of rows with that key, at least one;
   * every group cut off by `head` ranks after every group reported; the
   * subject is the key, with q4's pair joined as `city, country`.
   */
  lemma AnswerSpec(q: Question, rows: seq<Row>)
    ensures var keys, r, a := KeysOf(q, rows), Rank(KeysOf(q, rows), Order(q), Limit(q)), Answer(q, rows);
      && |a| == Min(Limit(q), |set k | k in keys|)
      && (forall i :: 0 <= i < |a| ==> a[i].statistic == RowsWithKey(q, rows, r[i].key) >= 1)
      && (forall i :: 0 <= i < |a| ==>
            (|r[i].key| == (if q == Q4 then 2 else 1) &&
             a[i].subject == (if q == Q4 then r[i].key[0] + ", " + r[i].key[1] else r[i].key[0])))
      && (forall i, j :: 0 <= i < j < |r| ==> Before(r[i], r[j], Order(q)))
      && (forall g :: g in CountKeys(keys) && g !in r ==> forall i :: 0 <= i < |r| ==> Before(r[i], g, Order(q)))
  {
    var keys := KeysOf(q, rows);
    var r := Rank(keys, Order(q), Limit(q));
    RankSpec(keys, Order(q), Limit(q));
    KeysOfCount(q, rows);
    SubjectsOfKeys(q, rows, r);
  }

  /** The subject written for each group of counted keys. */
  lemma SubjectsOfKeys(q: Question, rows: seq<Row>, gs: seq<Group>)
    requires forall i :: 0 <= i < |gs| ==> gs[i].key in multiset(KeysOf(q, rows))
    ensures forall i :: 0 <= i < |gs| ==>
      (|gs[i].key| == (if q == Q4 then 2 else 1) &&
       Subjects(gs)[i].subject == (if q == Q4 then gs[i].key[0] + ", " + gs[i].key[1] else gs[i].key[0]))
  {
    forall i | 0 <= i < |gs|
      ensures |gs[i].key| == (if q == Q4 then 2 else 1) &&
        Subjects(gs)[i].subject == (if q == Q4 then gs[i].key[0] + ", " + gs[i].key[1] else gs[i].key[0])
    {
      var k := gs[i].key;
      KeyShape(q, rows, k);
      if q == Q4 {
        CitySubject(k[0], k[1]);
        assert k == [k[0], k[1]];
      }
    }
  }

  /** q4's keys are (city, country) pairs; the other questions' keys have one column. */
  lemma KeyShape(q: Question, rows: seq<Row>, k: Key)
    requires k in multiset(KeysOf(q, rows))
    ensures |k| == (if q == Q4 then 2 else 1)
  {
    KeyOfKeys(q, rows, k);
  }

  lemma {:induction false} KeyOfKeys(q: Question, rows: seq<Row>, k: Key)
    requires k in KeysOf(q, rows)
    ensures exists i :: 0 <= i < |rows| && KeyOf(q, rows[i]) == Some(k)
  {
    var front := rows[..|rows| - 1];
    var last := KeyOf(q, rows[|rows| - 1]);
    if last == Some(k) {
      assert KeyOf(q, rows[|rows| - 1]) == Some(k);
    } else {
      assert k in KeysOf(q, front);
      KeyOfKeys(q, front, k);
      var i :| 0 <= i < |front| && KeyOf(q, front[i]) == Some(k);
      assert rows[i] == front[i];
    }
  }

  function ScenarioRows(): seq<Row>
  {
    [Row("Air Canada", "AC", "Toronto Pearson", "Toronto", "Canada", "CYYZ"),
     Row("WestJet", "WS", "Calgary International", "Calgary", "Canada", "CYYC"),
     Row("Air Canada", "AC", "Vancouver International", "Vancouver", "Canada", "CYVR")]
  }

  lemma ScenarioLabels()
    ensures Labelled("Air Canada", "AC") == "Air Canada (AC)"
    ensures Labelled("WestJet", "WS") == "WestJet (WS)"
  {
  }

  lemma ScenarioKeys()
    ensures KeysOf(Q1, ScenarioRows()) == [["Air Canada (AC)"], ["WestJet (WS)"], ["Air Canada (AC)"]]
  {
    var rows := ScenarioRows();
    ScenarioLabels();
    assert rows[..1][..0] == [] && rows[..2][..1] == rows[..1] && rows[..3][..2] == rows[..2];
    assert KeysOf(Q1, rows[..1]) == [["Air Canada (AC)"]];
    assert KeysOf(Q1, rows[..2]) == [["Air Canada (AC)"], ["WestJet (WS)"]];
    assert rows[..3] == rows;
  }

  lemma ScenarioCounts(ac: Key, ws: Key)
    requires ac != ws
    ensures CountKeys([ac, ws, ac]) == [Group(ac, 2), Group(ws, 1)]
  {
    assert [ac, ws, ac][..2] == [ac, ws] && [ac, ws][..1] == [ac];
    assert CountKeys([ac]) == [Group(ac, 1)];
    assert [Group(ac, 1)][1..] == [];
    assert Bump([Group(ac, 1)], ws) == [Group(ac, 1)] + Bump([], ws);
    assert CountKeys([ac, ws]) == [Group(ac, 1), Group(ws, 1)];
    assert [Group(ac, 1), Group(ws, 1)][1..] == [Group(ws, 1)];
  }

  /** Two routes into Canada by Air Canada and one by WestJet rank Air Canada first. */
  lemma CanadaScenario()
    ensures Answer(Q1, ScenarioRows()) == [Stat("Air Canada (AC)", 2), Stat("WestJet (WS)", 1)]
  {
    var ac: Key, ws: Key := ["Air Canada (AC)"], ["WestJet (WS)"];
    assert ac != ws by { assert ac[0][0] != ws[0][0]; }
    ScenarioKeys();
    ScenarioCounts(ac, ws);
    assert Before(Group(ac, 2), Group(ws, 1), Descending);
  }
}
