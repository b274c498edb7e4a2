/** GROUP BY on the sorted list of rows: which rows one group steps, and what it leaves of the list. */
module Grouping {
  import opened JsonValues
  import opened JsonOrder
  import opened ResultLists
  import opened Flattening
  import opened DataSources
  import opened Aggregates

  /** The row behind the sort keys of an item. */
  function RowOf(keys: Keys, item: Item): Row
    requires HasKeys(keys, item)
  {
    item[keys.Count()..]
  }

  function RowsIn(keys: Keys, items: seq<Item>): (r: seq<Row>)
    requires Keyed(keys, items)
    ensures |r| == |items|
  {
    seq(|items|, i requires 0 <= i < |items| => RowOf(keys, items[i]))
  }

  /** The number of items at the front whose neighbours compare equal. */
  function RunLength(keys: Keys, items: seq<Item>): (n: nat)
    requires Keyed(keys, items) && items != []
    ensures 1 <= n <= |items|
    ensures forall i :: 0 <= i < n - 1 ==> CompareItems(keys, items[i], items[i + 1]) == 0
    ensures n < |items| ==> CompareItems(keys, items[n - 1], items[n]) != 0
  {
    if |items| == 1 || CompareItems(keys, items[0], items[1]) != 0 then 1 else 1 + RunLength(keys, items[1..])
  }

  /** A list cut into its runs of equal neighbours. */
  function Runs(keys: Keys, items: seq<Item>): (r: seq<seq<Item>>)
    requires Keyed(keys, items)
    ensures forall i :: 0 <= i < |r| ==> r[i] != [] && Keyed(keys, r[i])
    decreases |items|
  {
    if items == [] then []
    else
      var n := RunLength(keys, items);
      [items[..n]] + Runs(keys, items[n..])
  }

  function Concat<T>(parts: seq<seq<T>>): seq<T> {
    if parts == [] then [] else parts[0] + Concat(parts[1..])
  }

  lemma {:induction false} RunsCover(keys: Keys, items: seq<Item>)
    requires Keyed(keys, items)
    ensures Concat(Runs(keys, items)) == items
    decreases |items|
  {
    hide CompareItems;
    if items != [] {
      var n := RunLength(keys, items);
      RunsCover(keys, items[n..]);
      assert items == items[..n] + items[n..];
    }
  }

  lemma {:induction false} RunIsEqual(keys: Keys, s: seq<Item>, n: nat, i: nat)
    requires Keyed(keys, s) && i < n <= |s|
    requires forall j :: 0 <= j < n - 1 ==> CompareItems(keys, s[j], s[j + 1]) == 0
    ensures CompareItems(keys, s[0], s[i]) == 0
  {
    hide CompareItems;
    if i == 0 {
      ItemsZeroIffEqualKeys(keys, s[0], s[0]);
    } else {
      RunIsEqual(keys, s, n, i - 1);
      assert CompareItems(keys, s[i - 1], s[i - 1 + 1]) == 0;
      ItemsZeroIffEqualKeys(keys, s[0], s[i - 1]);
      ItemsZeroIffEqualKeys(keys, s[i - 1], s[i]);
      ItemsZeroIffEqualKeys(keys, s[0], s[i]);
    }
  }

  lemma AfterRun(keys: Keys, s: seq<Item>, n: nat, i: nat)
    requires Keyed(keys, s) && Sorted(keys, s) && s != [] && n == RunLength(keys, s) <= i < |s|
    ensures CompareItems(keys, s[0], s[i]) < 0
  {
    hide CompareItems;
    RunIsEqual(keys, s, n, n - 1);
    ItemsZeroIffEqualKeys(keys, s[0], s[n - 1]);
    ItemsZeroIffEqualKeys(keys, s[0], s[n]);
    ItemsZeroIffEqualKeys(keys, s[n - 1], s[n]);
    assert CompareItems(keys, s[0], s[n]) < 0;
    if i > n && CompareItems(keys, s[0], s[i]) == 0 {
      ItemsNegate(keys, s[0], s[i]);
      ItemsTransitive(keys, s[n], s[i], s[0]);
      ItemsNegate(keys, s[0], s[n]);
    }
  }

  lemma {:induction false} WholeClass(keys: Keys, s: seq<Item>, x: Item, n: nat)
    requires Keyed(keys, s) && HasKeys(keys, x) && n <= |s|
    requires forall i :: 0 <= i < n ==> CompareItems(keys, x, s[i]) == 0
    requires forall i :: n <= i < |s| ==> CompareItems(keys, x, s[i]) != 0
    ensures Class(keys, s, x) == s[..n]
  {
    hide CompareItems;
    if n > 0 {
      WholeClass(keys, s[1..], x, n - 1);
      assert s[..n] == [s[0]] + s[1..][..n - 1];
    } else {
      NoClass(keys, s, x);
    }
  }

  lemma FirstRun(keys: Keys, s: seq<Item>)
    requires Keyed(keys, s) && Sorted(keys, s) && s != []
    ensures s[..RunLength(keys, s)] == Class(keys, s, s[0])
  {
    hide CompareItems;
    var n := RunLength(keys, s);
    forall i | 0 <= i < |s|
      ensures i < n <==> CompareItems(keys, s[0], s[i]) == 0
    {
      if i < n {
        RunIsEqual(keys, s, n, i);
      } else {
        AfterRun(keys, s, n, i);
      }
    }
    WholeClass(keys, s, s[0], n);
  }

  lemma {:induction false} ClassAfter(keys: Keys, s: seq<Item>, x: Item, n: nat)
    requires Keyed(keys, s) && HasKeys(keys, x) && n <= |s|
    requires forall i :: 0 <= i < n ==> CompareItems(keys, x, s[i]) != 0
    ensures Class(keys, s, x) == Class(keys, s[n..], x)
  {
    hide CompareItems;
    if n > 0 {
      ClassAfter(keys, s[1..], x, n - 1);
      assert s[1..][n - 1..] == s[n..];
    } else {
      assert s[0..] == s;
    }
  }

  lemma ClassInRest(keys: Keys, s: seq<Item>, x: Item)
    requires Keyed(keys, s) && Sorted(keys, s) && s != []
    requires x in s[RunLength(keys, s)..]
    ensures HasKeys(keys, x)
    ensures Class(keys, s, x) == Class(keys, s[RunLength(keys, s)..], x)
    ensures CompareItems(keys, s[0], x) < 0
  {
    hide CompareItems, Class, RunLength;
    var n := RunLength(keys, s);
    var k :| 0 <= k < |s| - n && s[n..][k] == x;
    assert s[n + k] == x;
    AfterRun(keys, s, n, n + k);
    forall j | 0 <= j < n
      ensures CompareItems(keys, x, s[j]) != 0
    {
      RunIsEqual(keys, s, n, j);
      NotEqualToo(keys, s[0], s[j], x);
    }
    ClassAfter(keys, s, x, n);
  }

  lemma NotEqualToo(keys: Keys, a: Item, b: Item, x: Item)
    requires HasKeys(keys, a) && HasKeys(keys, b) && HasKeys(keys, x)
    requires CompareItems(keys, a, b) == 0 && CompareItems(keys, a, x) < 0
    ensures CompareItems(keys, x, b) != 0
  {
    hide CompareItems;
    ItemsZeroIffEqualKeys(keys, x, b);
    ItemsZeroIffEqualKeys(keys, a, b);
    ItemsZeroIffEqualKeys(keys, a, x);
  }

  lemma NextRun(keys: Keys, s: seq<Item>)
    requires Keyed(keys, s) && Sorted(keys, s) && s != []
    ensures var rest := s[RunLength(keys, s)..];
      && Keyed(keys, rest) && Sorted(keys, rest)
      && Runs(keys, s) == [s[..RunLength(keys, s)]] + Runs(keys, rest)
      && (rest != [] ==> Runs(keys, rest) != [] && Runs(keys, rest)[0][0] == rest[0])
  {
    hide CompareItems, HasKeys;
  }

  /** In a sorted list the runs are the classes of equal rows, one for each, in ascending order. */
  lemma {:induction false} RunsAreClasses(keys: Keys, s: seq<Item>, i: nat)
    requires Keyed(keys, s) && Sorted(keys, s) && i < |Runs(keys, s)|
    ensures var run := Runs(keys, s)[i];
      && run[0] in s
      && run == Class(keys, s, run[0])
      && (i + 1 < |Runs(keys, s)| ==> CompareItems(keys, run[0], Runs(keys, s)[i + 1][0]) < 0)
    decreases |s|
  {
    hide CompareItems, HasKeys, Runs, Sorted, Class, RunLength, Keyed;
    if s == [] {
      NoRuns(keys, s);
    } else {
      NextRun(keys, s);
      var rest := s[RunLength(keys, s)..];
      if i == 0 {
        FirstRun(keys, s);
        if rest != [] {
          ClassInRest(keys, s, rest[0]);
        }
        if rest == [] {
          NoRuns(keys, rest);
        }
      } else {
        RunsAreClasses(keys, rest, i - 1);
        ClassInRest(keys, s, Runs(keys, rest)[i - 1][0]);
      }
    }
  }

  lemma NoRuns(keys: Keys, s: seq<Item>)
    requires s == []
    ensures Runs(keys, s) == []
  {
  }

  // ---------------------------------------------------------------- what one group does to the list

  /** The rows stepped for one group, and the item whose documents the group's result row shows. */
  datatype Group = Group(items: seq<Item>, shown: Item)

  /** The position of the last row that some call asked to save, or -1. */
  function LastSaved(calls: seq<Agg>, rows: seq<Row>): (k: int)
    ensures -1 <= k < |rows|
  {
    var n := |rows|;
    if n == 0 then -1
    else if AnySaves(calls, rows[..n - 1], rows[n - 1]) then n - 1
    else LastSaved(calls, rows[..n - 1])
  }

  /** The last row of a group improves some min or max. */
  predicate LateSave(calls: seq<Agg>, rows: seq<Row>) {
    rows != [] && LastSaved(calls, rows) == |rows| - 1
  }

  /** The group at the front of the list shows the row saved last, or its last row if none was saved. */
  function FirstGroup(calls: seq<Agg>, keys: Keys, items: seq<Item>): Group
    requires Keyed(keys, items) && items != []
  {
    var run := items[..RunLength(keys, items)];
    var k := LastSaved(calls, RowsIn(keys, run));
    Group(run, if k >= 0 then run[k] else run[|run| - 1])
  }

  /**
   * What is left of the list behind the group's result row. A group whose last row was saved puts it
   * back by dropping the list's head, which is by then the first row of the next group.
   */
  function AfterGroup(calls: seq<Agg>, keys: Keys, items: seq<Item>): (rest: seq<Item>)
    requires Keyed(keys, items) && items != []
    ensures Keyed(keys, rest) && |rest| < |items|
  {
    var n := RunLength(keys, items);
    if n < |items| && LateSave(calls, RowsIn(keys, items[..n])) then items[n + 1..] else items[n..]
  }

  /** All groups of a list, as the executor goes through it. */
  function Groups(calls: seq<Agg>, keys: Keys, items: seq<Item>): seq<Group>
    requires Keyed(keys, items)
    decreases |items|
  {
    if items == [] then []
    else [FirstGroup(calls, keys, items)] + Groups(calls, keys, AfterGroup(calls, keys, items))
  }

  function ItemsOf(groups: seq<Group>): (r: seq<seq<Item>>)
    ensures |r| == |groups|
  {
    if groups == [] then [] else [groups[0].items] + ItemsOf(groups[1..])
  }

  /** No group but the last has its last row saved. */
  ghost predicate NoLateSave(calls: seq<Agg>, keys: Keys, runs: seq<seq<Item>>)
    requires forall i :: 0 <= i < |runs| ==> Keyed(keys, runs[i])
  {
    forall i :: 0 <= i < |runs| - 1 ==> !LateSave(calls, RowsIn(keys, runs[i]))
  }

  lemma NoGroups(calls: seq<Agg>, keys: Keys, items: seq<Item>)
    requires items == []
    ensures Groups(calls, keys, items) == [] && ItemsOf([]) == [] && Concat<Item>([]) == [] && Runs(keys, items) == []
    ensures NoLateSave(calls, keys, [])
  {
  }

  lemma GroupsStep(calls: seq<Agg>, keys: Keys, items: seq<Item>)
    requires Keyed(keys, items) && items != []
    ensures var n := RunLength(keys, items); var run, rest := items[..n], items[n..];
      var after := AfterGroup(calls, keys, items);
      && Keyed(keys, run) && Keyed(keys, rest) && items == run + rest && run != []
      && Runs(keys, items) == [run] + Runs(keys, rest)
      && (rest == [] <==> Runs(keys, rest) == [])
      && after == (if rest != [] && LateSave(calls, RowsIn(keys, run)) then rest[1..] else rest)
      && ItemsOf(Groups(calls, keys, items)) == [run] + ItemsOf(Groups(calls, keys, after))
      && Concat(ItemsOf(Groups(calls, keys, items))) == run + Concat(ItemsOf(Groups(calls, keys, after)))
  {
    hide CompareItems, HasKeys, LastSaved, LateSave;
  }

  lemma NoLateCons(calls: seq<Agg>, keys: Keys, run: seq<Item>, runs: seq<seq<Item>>)
    requires Keyed(keys, run) && forall i :: 0 <= i < |runs| ==> Keyed(keys, runs[i])
    ensures NoLateSave(calls, keys, [run] + runs)
      <==> (runs != [] ==> !LateSave(calls, RowsIn(keys, run))) && NoLateSave(calls, keys, runs)
  {
    hide CompareItems, HasKeys, LastSaved, LateSave, RowsIn, Keyed;
    var all := [run] + runs;
    if NoLateSave(calls, keys, all) {
      if runs != [] {
        assert !LateSave(calls, RowsIn(keys, all[0]));
      }
      forall i | 0 <= i < |runs| - 1
        ensures !LateSave(calls, RowsIn(keys, runs[i]))
      {
        assert all[i + 1] == runs[i];
      }
    }
    if NoLateSave(calls, keys, runs) && (runs != [] ==> !LateSave(calls, RowsIn(keys, run))) {
      forall i | 0 <= i < |all| - 1
        ensures !LateSave(calls, RowsIn(keys, all[i]))
      {
        if i > 0 {
          assert all[i] == runs[i - 1];
        }
      }
    }
  }

  /**
   * The groups step every row exactly once, class by class, if and only if no class but the last ends
   * in a row that improves a min or a max; otherwise rows of later classes are lost.
   */
  lemma {:induction false} EveryRowOnce(calls: seq<Agg>, keys: Keys, items: seq<Item>)
    requires Keyed(keys, items)
    ensures |Concat(ItemsOf(Groups(calls, keys, items)))| <= |items|
    ensures NoLateSave(calls, keys, Runs(keys, items)) <==> Concat(ItemsOf(Groups(calls, keys, items))) == items
    ensures NoLateSave(calls, keys, Runs(keys, items)) ==> ItemsOf(Groups(calls, keys, items)) == Runs(keys, items)
    decreases |items|
  {
    hide *;
    if items == [] {
      NoGroups(calls, keys, items);
    } else {
      var run := items[..RunLength(keys, items)];
      var rest, after := items[RunLength(keys, items)..], AfterGroup(calls, keys, items);
      GroupsStep(calls, keys, items);
      EveryRowOnce(calls, keys, after);
      NoLateCons(calls, keys, run, Runs(keys, rest));
      assert |items| == |run| + |rest|;
    }
  }

  /** No call that ever saves a row: neither min nor max. */
  predicate NeverSaves(calls: seq<Agg>) {
    forall i :: 0 <= i < |calls| ==> !calls[i].Min? && !calls[i].Max?
  }

  lemma {:induction false} NothingSaved(calls: seq<Agg>, rows: seq<Row>)
    requires NeverSaves(calls)
    ensures LastSaved(calls, rows) == -1
  {
    if rows != [] {
      NothingSaved(calls, rows[..|rows| - 1]);
    }
  }

  /** Without min and max every class of equal rows is one group, which shows its last row. */
  lemma GroupsAreClasses(calls: seq<Agg>, keys: Keys, items: seq<Item>)
    requires Keyed(keys, items) && NeverSaves(calls)
    ensures ItemsOf(Groups(calls, keys, items)) == Runs(keys, items)
  {
    forall i | 0 <= i < |Runs(keys, items)|
      ensures !LateSave(calls, RowsIn(keys, Runs(keys, items)[i]))
    {
      NothingSaved(calls, RowsIn(keys, Runs(keys, items)[i]));
    }
    EveryRowOnce(calls, keys, items);
  }

  /** Two rows of different groups under `max`: the second row is lost. */
  lemma SecondGroupIsLost()
    ensures exists calls: seq<Agg>, keys: Keys, items: seq<Item> ::
      && Keyed(keys, items) && Sorted(keys, items)
      && |Runs(keys, items)| == 2 && |Groups(calls, keys, items)| == 1
  {
    var calls := [Max((row: Row) => Null)];
    var keys := By([false]);
    var items: seq<Item> := [[False, Null], [True, Null]];
    TwoRuns(keys, items);
    OneGroup(calls, keys, items);
    hide *;
    assert Keyed(keys, items) && Sorted(keys, items) && |Runs(keys, items)| == 2 && |Groups(calls, keys, items)| == 1;
  }

  lemma TwoRuns(keys: Keys, items: seq<Item>)
    requires keys == By([false]) && items == [[False, Null], [True, Null]]
    ensures Keyed(keys, items) && Sorted(keys, items) && |Runs(keys, items)| == 2 && RunLength(keys, items) == 1
  {
    assert CompareItems(keys, items[0], items[1]) != 0;
    assert RunLength(keys, items) == 1;
    assert Runs(keys, items)[1..] == Runs(keys, items[1..]);
    assert RunLength(keys, items[1..]) == 1 && items[1..][1..] == [];
    assert |Runs(keys, items[1..])| == 1;
  }

  lemma OneGroup(calls: seq<Agg>, keys: Keys, items: seq<Item>)
    requires Keyed(keys, items) && |items| == 2 && RunLength(keys, items) == 1
    requires |calls| == 1 && calls[0].Max?
    ensures |Groups(calls, keys, items)| == 1
  {
    assert SavesRow(calls[0], [], RowOf(keys, items[0]));
    var run := RowsIn(keys, items[..1]);
    assert run[..0] == [] && AnySaves(calls, [], run[0]);
    assert LateSave(calls, run);
    assert AfterGroup(calls, keys, items) == [];
  }

  /** What has been saved after some rows of a group. */
  function SavedItem(calls: seq<Agg>, keys: Keys, items: seq<Item>): Option<Item>
    requires Keyed(keys, items)
  {
    var k := LastSaved(calls, RowsIn(keys, items));
    if k >= 0 then Some(items[k]) else None
  }

  lemma SaveStep(calls: seq<Agg>, keys: Keys, items: seq<Item>, i: nat)
    requires Keyed(keys, items) && i < |items|
    ensures RowsIn(keys, items[..i + 1]) == RowsIn(keys, items[..i]) + [RowOf(keys, items[i])]
    ensures SavedItem(calls, keys, items[..i + 1])
         == if AnySaves(calls, RowsIn(keys, items[..i]), RowOf(keys, items[i])) then Some(items[i])
            else SavedItem(calls, keys, items[..i])
    ensures LateSave(calls, RowsIn(keys, items[..i + 1]))
       <==> AnySaves(calls, RowsIn(keys, items[..i]), RowOf(keys, items[i]))
  {
    hide HasKeys, AnySaves;
    var rows := RowsIn(keys, items[..i + 1]);
    assert rows[..i] == RowsIn(keys, items[..i]);
    assert rows[i] == RowOf(keys, items[i]);
  }

  lemma GroupStarts(calls: seq<Agg>, keys: Keys, items: seq<Item>)
    requires Keyed(keys, items) && items != []
    ensures Keyed(keys, items[..0]) && SavedItem(calls, keys, items[..0]) == None && RowsIn(keys, items[..0]) == []
  {
  }

  /** The run ends where the next row has other keys, or there is none. */
  lemma InRun(keys: Keys, items: seq<Item>, i: nat)
    requires Keyed(keys, items) && items != [] && i < RunLength(keys, items)
    ensures HasKeys(keys, items[i]) && keys.Count() <= |items[i]|
    ensures RowOf(keys, items[i]) == items[i][keys.Count()..]
    ensures Keyed(keys, items[..i]) && Keyed(keys, items[..i + 1])
    ensures i + 1 == |items| ==> i == RunLength(keys, items) - 1
    ensures i + 1 < |items| ==>
      HasKeys(keys, items[i + 1]) &&
      (CompareItems(keys, items[i], items[i + 1]) != 0 <==> i == RunLength(keys, items) - 1)
  {
    hide CompareItems;
  }

  /** What the group shows and what it leaves, from the state before its last row */
  lemma GroupEnds(calls: seq<Agg>, keys: Keys, items: seq<Item>, i: nat)
    requires Keyed(keys, items) && items != [] && i == RunLength(keys, items) - 1
    ensures Keyed(keys, items[..i]) && HasKeys(keys, items[i]) && Keyed(keys, items[..i + 1])
    ensures var group, rest := FirstGroup(calls, keys, items), AfterGroup(calls, keys, items);
      var before := SavedItem(calls, keys, items[..i]);
      && group.items == items[..i + 1]
      && if AnySaves(calls, RowsIn(keys, items[..i]), RowOf(keys, items[i])) then
           group.shown == items[i] && rest == if i + 1 == |items| then [] else items[i + 1..][1..]
         else
           group.shown == (if before.Some? then before.value else items[i]) && rest == items[i + 1..]
  {
    InRun(keys, items, i);
    SaveStep(calls, keys, items, i);
    hide *;
    GroupShows(calls, keys, items);
    GroupLeaves(calls, keys, items);
  }

  lemma GroupShows(calls: seq<Agg>, keys: Keys, items: seq<Item>)
    requires Keyed(keys, items) && items != []
    ensures var n, group := RunLength(keys, items), FirstGroup(calls, keys, items);
      && Keyed(keys, items[..n]) && group.items == items[..n]
      && match SavedItem(calls, keys, items[..n])
         case Some(x) => group.shown == x
         case None => group.shown == items[n - 1]
  {
    hide HasKeys, RunLength, LastSaved, RowsIn;
  }

  lemma GroupLeaves(calls: seq<Agg>, keys: Keys, items: seq<Item>)
    requires Keyed(keys, items) && items != []
    ensures var n := RunLength(keys, items);
      && Keyed(keys, items[..n])
      && AfterGroup(calls, keys, items)
         == if !LateSave(calls, RowsIn(keys, items[..n])) then items[n..] else if n == |items| then [] else items[n..][1..]
  {
    hide HasKeys, RunLength, LateSave, RowsIn;
  }

  /** The sorted rows of a GROUP BY query, and the row put aside for the group in progress. */
  class GroupedRows {
    var items: seq<Item>
    var saved: Option<Item>

    constructor (items: seq<Item>)
      ensures this.items == items && saved == None
    {
      this.items, saved := items, None;
    }

    method Pop()
      modifies `items
      ensures items == if old(items) == [] then [] else old(items)[1..]
    {
      if items != [] {
        items := items[1..];
      }
    }

    method Clear()
      modifies this
      ensures items == [] && saved == None
    {
      items, saved := [], None;
    }

    /** Takes the head off the list and puts it aside. */
    method Save()
      requires items != []
      modifies this
      ensures saved == Some(old(items[0])) && items == old(items)[1..]
    {
      saved, items := Some(items[0]), items[1..];
    }

    /** Puts the row that was set aside in the place of the head. */
    method Restore()
      modifies this
      ensures saved == None
      ensures old(saved).None? ==> items == old(items)
      ensures old(saved).Some? ==> items == [old(saved).value] + if old(items) == [] then [] else old(items)[1..]
    {
      if saved.Some? {
        Pop();
        items, saved := [saved.value] + items, None;
      }
    }

    /** Steps the aggregates through the group at the front of the list. */
    method StepGroup(agg: Aggregate, keys: Keys)
      requires Keyed(keys, items) && items != [] && saved == None
      requires agg.Valid() && agg.seen == []
      modifies this, agg
      ensures saved == None && agg.Valid() && agg.seen == []
      ensures var group := FirstGroup(agg.calls, keys, old(items));
        && items == [group.shown] + AfterGroup(agg.calls, keys, old(items))
        && Keyed(keys, group.items)
        && agg.values == Finals(agg.calls, RowsIn(keys, group.items))
    {
      hide *;
      ghost var all, n := items, RunLength(keys, items);
      ghost var i := 0;
      GroupStarts(agg.calls, keys, all);
      while true
        invariant i < n <= |all| && items == all[i..] && Keyed(keys, all) && Keyed(keys, all[..i])
        invariant saved == SavedItem(agg.calls, keys, all[..i])
        invariant agg.Valid() && agg.seen == RowsIn(keys, all[..i])
        decreases n - i
      {
        var item := items[0];
        var last := |items| == 1;
        InRun(keys, all, i);
        SaveStep(agg.calls, keys, all, i);
        var save := agg.Step(item[keys.Count()..]);
        if !last {
          var c := CmpResultItem(keys, item, items[1]);
          last := c != 0;
        }
        if save {
          Save();
        }
        if last {
          Restore();
          GroupEnds(agg.calls, keys, all, i);
          break;
        }
        if !save {
          Pop();
        }
        i := i + 1;
      }
      agg.Finalize();
    }
  }
}
