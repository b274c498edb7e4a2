/** The runs of step-by-step queries: the rows they deliver and how they end. */
module QueryRuns {
  import opened Flattening

  /**
   * How a run ends: with DONE, with a claim to a row that is not there, or in a step that follows a
   * null pointer.
   */
  datatype End = Done | NoRow | Broken

  datatype Run<T> = Run(rows: seq<T>, end: End)

  /** What a step reports; NULL stands for the dereference of a null pointer. */
  datatype Status = ROW | DONE | NULL

  function Next<T>(run: Run<T>): Status {
    if run.rows != [] || run.end == NoRow then ROW else if run.end == Done then DONE else NULL
  }

  function Behind<T>(s: seq<T>): seq<T> {
    if s == [] then [] else s[1..]
  }

  function Head<T>(s: seq<T>): Option<T> {
    if s == [] then None else Some(s[0])
  }

  function After<T>(run: Run<T>): Run<T> {
    if run.rows == [] then Run([], Done) else Run(run.rows[1..], run.end)
  }

  /** How many more steps report a row. */
  function Left<T>(run: Run<T>): nat {
    |run.rows| + if run.end == NoRow then 1 else 0
  }

  /**
   * A run as seen by one who reads every row: the rows read, the row the last step reported, and the run
   * still to come.
   */
  ghost predicate Walked<T>(all: Run<T>, seen: seq<T>, status: Status, at: Option<T>, rest: Run<T>) {
    match status
    case ROW => if at.Some? then all == Run(seen + [at.value] + rest.rows, rest.end) else all == Run(seen, NoRow)
    case DONE => all == Run(seen, Done)
    case NULL => all == Run(seen, Broken)
  }

  lemma WalkStarts<T>(all: Run<T>)
    ensures Walked(all, [], Next(all), Head(all.rows), After(all))
  {
  }

  lemma WalkEnds<T>(all: Run<T>, seen: seq<T>, status: Status, at: Option<T>, rest: Run<T>)
    requires Walked(all, seen, status, at, rest)
    ensures status == ROW && at == None ==> all == Run(seen, NoRow)
    ensures status == DONE ==> all == Run(seen, Done)
    ensures status == NULL ==> all == Run(seen, Broken)
  {
  }

  lemma WalkGoesOn<T>(all: Run<T>, seen: seq<T>, at: Option<T>, rest: Run<T>)
    requires Walked(all, seen, ROW, at, rest) && at.Some?
    ensures Walked(all, seen + [at.value], Next(rest), Head(rest.rows), After(rest))
    ensures Next(rest) == ROW ==> Left(After(rest)) < Left(rest)
  {
    if rest.rows != [] { assert seen + [at.value] + rest.rows == seen + [at.value] + [rest.rows[0]] + rest.rows[1..]; }
  }
}

/** One SELECT without its ORDER BY and LIMIT: WHERE, GROUP BY with HAVING, and DISTINCT. */
module Selects {
  import opened JsonValues
  import opened JsonOrder
  import opened ResultLists
  import opened Flattening
  import opened DataSources
  import opened Aggregates
  import opened Grouping
  import opened QueryRuns

  /** A result row: the result document, then the documents of the row it came from. */
  type Tuple = seq<Value>

  /**
   * A parsed SELECT. Expressions are functions of the row they are evaluated on and, where the grammar
   * allows aggregate calls, of the values of those calls. `calls` is present in an aggregate query.
   */
  datatype SelectAst = SelectAst(
    from: Source,
    where: Option<Row -> bool>,
    calls: Option<seq<Agg>>,
    groupBy: Option<seq<Row -> Value>>,
    having: Option<(Row, seq<Value>) -> bool>,
    result: Option<(Row, seq<Value>) -> Value>,
    distinct: bool)
  {
    /** GROUP BY makes a query an aggregate one, and HAVING comes only with it. */
    predicate Grammatical() {
      && from.Grammatical()
      && (groupBy.Some? ==> calls.Some?)
      && (having.Some? ==> groupBy.Some?)
    }

    /** The sort keys of GROUP BY, all ascending. */
    function Keys(): Keys {
      By(seq(if groupBy.Some? then |groupBy.value| else 0, _ => false))
    }

    /** The result document for a row: the row's first document if the SELECT names no result. */
    function Tuple(row: Row, values: seq<Value>): (t: Tuple)
      ensures t != [] && t[1..] == row
    {
      [if result.Some? then result.value(row, values) else if row == [] then Absent else row[0]] + row
    }

    predicate Keeps(row: Row, values: seq<Value>) {
      having.Some? ==> having.value(row, values)
    }
  }

  // ---------------------------------------------------------------- what a SELECT means

  function Where(rows: seq<Row>, cond: Option<Row -> bool>): (r: seq<Row>)
    ensures |r| <= |rows|
  {
    if rows == [] then []
    else (if cond.None? || cond.value(rows[0]) then [rows[0]] else []) + Where(rows[1..], cond)
  }

  /** The rows a SELECT is about. */
  function Matching(s: SelectAst): seq<Row> {
    Where(Rows(s.from), s.where)
  }

  function PlainTuples(s: SelectAst, rows: seq<Row>): (r: seq<Tuple>)
    ensures |r| == |rows|
  {
    if rows == [] then [] else [s.Tuple(rows[0], [])] + PlainTuples(s, rows[1..])
  }

  /** A row behind its GROUP BY keys. */
  function KeyedRow(ks: seq<Row -> Value>, row: Row): (item: Item)
    ensures |item| == |ks| + |row| && item[|ks|..] == row
  {
    seq(|ks|, i requires 0 <= i < |ks| => ks[i](row)) + row
  }

  function KeyedRows(s: SelectAst, rows: seq<Row>): (items: seq<Item>)
    requires s.groupBy.Some?
    ensures |items| == |rows| && Keyed(s.Keys(), items)
  {
    if rows == [] then [] else [KeyedRow(s.groupBy.value, rows[0])] + KeyedRows(s, rows[1..])
  }

  /** The result row of a group: its shown row and the calls' values over all its rows, if HAVING keeps it. */
  function GroupTuple(s: SelectAst, g: Group): seq<Tuple>
    requires s.calls.Some? && HasKeys(s.Keys(), g.shown) && Keyed(s.Keys(), g.items)
  {
    var row, values := RowOf(s.Keys(), g.shown), Finals(s.calls.value, RowsIn(s.Keys(), g.items));
    if s.Keeps(row, values) then [s.Tuple(row, values)] else []
  }

  /** The result rows of a list of keyed rows, group by group. */
  function GroupTuples(s: SelectAst, items: seq<Item>): seq<Tuple>
    requires s.calls.Some? && Keyed(s.Keys(), items)
    decreases |items|
  {
    if items == [] then []
    else
      GroupTuple(s, FirstGroup(s.calls.value, s.Keys(), items))
      + GroupTuples(s, AfterGroup(s.calls.value, s.Keys(), items))
  }

  /** The row shown by an aggregate query without GROUP BY: saved last, or first, or none at all. */
  function ShownRow(s: SelectAst, rows: seq<Row>): Row
    requires s.calls.Some?
  {
    var k := LastSaved(s.calls.value, rows);
    if k >= 0 then rows[k] else if rows != [] then rows[0] else seq(s.from.Width(), _ => Absent)
  }

  /** The result rows before DISTINCT. */
  function GroupedTuples(s: SelectAst): seq<Tuple>
    requires s.Grammatical()
  {
    var rows := Matching(s);
    if s.calls.None? then PlainTuples(s, rows)
    else if s.groupBy.None? then [s.Tuple(ShownRow(s, rows), Finals(s.calls.value, rows))]
    else GroupTuples(s, StableSort(s.Keys(), KeyedRows(s, rows)))
  }

  // ---------------------------------------------------------------- the SELECT as it runs

  datatype DocFrom = FromDataSrc | FromGrouped | FromDistincted

  /** Steps a source to its next row that meets a condition. */
  method StepWhered(from: DataSrc, cond: Option<Row -> bool>) returns (row: bool)
    requires from.Valid() && from.live
    modifies from.repr
    ensures from.Valid() && row == from.live == (Where(old(from.rest), cond) != [])
    ensures row ==>
      && from.at != []
      && Where(old(from.rest), cond) == [from.at] + Where(from.rest, cond)
  {
    hide DataSrc.Valid, Rows;
    var done := false;
    row := true;
    while row && !done
      invariant from.Valid() && row == from.live
      invariant row && !done ==> Where(old(from.rest), cond) == Where(from.rest, cond)
      invariant row && done ==>
        from.at != [] && Where(old(from.rest), cond) == [from.at] + Where(from.rest, cond)
      invariant !row ==> Where(old(from.rest), cond) == []
      decreases row, !done, |from.rest|
    {
      row := from.Step();
      if row {
        done := cond.None?;
        if cond.Some? {
          var current := from.CacheSave([]);
          assert current == from.at;
          done := cond.value(current);
        }
      }
    }
  }

  lemma ShownStep(s: SelectAst, rows: seq<Row>, row: Row)
    requires s.calls.Some?
    ensures ShownRow(s, rows + [row])
         == if rows == [] || AnySaves(s.calls.value, rows, row) then row else ShownRow(s, rows)
  {
    hide AnySaves;
    var all := rows + [row];
    assert all[..|rows|] == rows && all[|rows|] == row;
  }

  lemma {:induction false} KeyedRowsAppend(s: SelectAst, rows: seq<Row>, row: Row)
    requires s.groupBy.Some?
    ensures KeyedRows(s, rows + [row]) == KeyedRows(s, rows) + [KeyedRow(s.groupBy.value, row)]
  {
    if rows != [] {
      assert (rows + [row])[1..] == rows[1..] + [row];
      KeyedRowsAppend(s, rows[1..], row);
    }
  }

  lemma NoGroupTuples(s: SelectAst)
    requires s.calls.Some?
    ensures GroupTuples(s, []) == []
  {
  }

  lemma GroupTuplesStep(s: SelectAst, items: seq<Item>)
    requires s.calls.Some? && Keyed(s.Keys(), items) && items != []
    ensures var g := FirstGroup(s.calls.value, s.Keys(), items);
      && HasKeys(s.Keys(), g.shown) && Keyed(s.Keys(), g.items)
      && GroupTuples(s, items) == GroupTuple(s, g) + GroupTuples(s, AfterGroup(s.calls.value, s.Keys(), items))
  {
  }

  /** The SELECT up to GROUP BY and HAVING. */
  class GroupedSelect {
    const ast: SelectAst
    const from: DataSrc
    const agg: Aggregate
    const grouped: GroupedRows
    /** The matching rows have been collected. */
    var collected: bool
    var docFrom: DocFrom

    /** The end has not been reported since the last rewind. */
    ghost var live: bool
    /** The result rows still to come. */
    ghost var rest: seq<Tuple>
    /** The result row the query stands on, or nothing. */
    ghost var at: Tuple
    ghost const repr: set<object>

    ghost predicate Valid()
      reads this, repr
    {
      && {this, from, agg, grouped} <= repr && from.repr <= repr
      && {this, agg, grouped} !! from.repr
      && ast.Grammatical() && |Matching(ast)| < Pow2(SLOTS)
      && from.ast == ast.from && from.Valid()
      && agg.calls == (if ast.calls.Some? then ast.calls.value else [])
      && agg.Valid() && agg.seen == []
      && grouped.saved == None && Keyed(ast.Keys(), grouped.items)
      && Stands()
      && (live ==> Accounts())
    }

    /** The result row is made from the row of the source or from the head of the grouped list. */
    ghost predicate Stands()
      requires Keyed(ast.Keys(), grouped.items)
      reads this, from, agg, grouped
    {
      at != [] ==>
        if docFrom.FromDataSrc? then from.at != [] && at == ast.Tuple(from.at, [])
        else grouped.items != [] && at == ast.Tuple(RowOf(ast.Keys(), grouped.items[0]), agg.values)
    }

    /** While the query is live its state accounts for the result rows still to come. */
    ghost predicate Accounts()
      requires ast.Grammatical() && Keyed(ast.Keys(), grouped.items)
      reads this, from, agg, grouped
    {
      if ast.calls.None? then docFrom.FromDataSrc? && from.live && rest == PlainTuples(ast, Where(from.rest, ast.where))
      else if !collected then docFrom.FromDataSrc? && from.live && from.rest == Rows(ast.from) && rest == GroupedTuples(ast)
      else if ast.groupBy.None? then rest == []
      else rest == GroupTuples(ast, Behind(grouped.items))
    }

    ghost predicate Stepped(was: seq<Tuple>, row: bool)
      reads this
    {
      && row == live == (was != [])
      && (row ==> rest == was[1..] && at == was[0] && at != [])
      && (!row ==> at == [])
    }

    constructor (ast: SelectAst)
      requires ast.Grammatical() && |Matching(ast)| < Pow2(SLOTS)
      ensures Valid() && fresh(repr) && this.ast == ast
      ensures live && rest == GroupedTuples(ast)
    {
      hide Pow2, Where, PlainTuples, GroupTuples, StableSort, KeyedRows, ShownRow, Finals, Rows, DataSrc.Valid, HasKeys;
      this.ast := ast;
      var src := new DataSrc(ast.from);
      var calls := new Aggregate(if ast.calls.Some? then ast.calls.value else []);
      var list := new GroupedRows([]);
      from, agg, grouped := src, calls, list;
      collected, docFrom := false, FromDataSrc;
      live, rest, at := true, GroupedTuples(ast), [];
      repr := {this, src, calls, list} + src.repr;
    }

    /** Back to before the first row, from any state. */
    method Rewind()
      requires Valid()
      modifies repr
      ensures Valid() && live && rest == GroupedTuples(ast)
    {
      hide Pow2, Where, PlainTuples, GroupTuples, StableSort, KeyedRows, ShownRow, Finals, Rows, DataSrc.Valid, HasKeys;
      from.Rewind();
      grouped.Clear();
      agg.Clear();
      collected, docFrom := false, FromDataSrc;
      live, rest, at := true, GroupedTuples(ast), [];
    }

    /** The next row of a query without aggregates. */
    method StepPlain() returns (row: bool)
      requires Valid() && live && ast.calls.None?
      modifies repr
      ensures Valid() && Stepped(old(rest), row)
    {
      hide Pow2, Where, GroupTuples, StableSort, KeyedRows, ShownRow, Finals, Rows, DataSrc.Valid, HasKeys, Matching;
      row := StepWhered(from, ast.where);
      live := row;
      at := if row then ast.Tuple(from.at, []) else [];
      rest := if row then rest[1..] else rest;
    }

    /** Steps the calls through every matching row and picks the row to show. */
    method Gather() returns (shown: Row)
      requires Valid() && live && ast.calls.Some? && !collected
      modifies from.repr, agg
      ensures from.Valid() && agg.Valid() && agg.seen == Matching(ast)
      ensures shown == ShownRow(ast, Matching(ast))
    {
      hide Pow2, Where, GroupTuples, StableSort, KeyedRows, ShownRow, Finals, Rows, DataSrc.Valid, HasKeys, AnySaves;
      var n := from.Count();
      shown := seq(n, _ => Absent);
      assert shown == ShownRow(ast, []) by { NoRowShown(); }
      var saved := false;
      var more := StepWhered(from, ast.where);
      while more
        invariant from.Valid() && agg.Valid() && more == from.live
        invariant more ==> from.at != [] && agg.seen + [from.at] + Where(from.rest, ast.where) == Matching(ast)
        invariant !more ==> agg.seen == Matching(ast)
        invariant shown == ShownRow(ast, agg.seen) && saved == (agg.seen != [])
        decreases more, |Where(from.rest, ast.where)|
      {
        var row := from.CacheSave([]);
        assert row == from.at;
        ShownStep(ast, agg.seen, row);
        var save := agg.Step(row);
        if !saved || save {
          shown, saved := row, true;
        }
        more := StepWhered(from, ast.where);
      }
    }

    lemma NoRowShown()
      requires ast.calls.Some?
      ensures ShownRow(ast, []) == seq(ast.from.Width(), _ => Absent)
    {
    }

    /** The one row of an aggregate query without GROUP BY. */
    method StepWhole() returns (row: bool)
      requires Valid() && live && ast.calls.Some? && ast.groupBy.None?
      modifies repr
      ensures Valid() && Stepped(old(rest), row)
    {
      hide Pow2, Where, GroupTuples, StableSort, KeyedRows, ShownRow, Finals, Rows, DataSrc.Valid, AnySaves, Matching,
        SelectAst.Tuple;
      row := !collected;
      if row {
        var shown := Gather();
        grouped.items := [shown];
        agg.Finalize();
        collected, docFrom := true, FromGrouped;
        assert shown[0..] == shown;
        at, rest := rest[0], [];
      } else {
        live, at := false, [];
      }
    }

    /** Collects the matching rows behind their GROUP BY keys and sorts them. */
    method Collect()
      requires Valid() && live && ast.groupBy.Some? && !collected
      modifies from.repr, grouped
      ensures from.Valid() && grouped.saved == None
      ensures grouped.items == StableSort(ast.Keys(), KeyedRows(ast, Matching(ast)))
    {
      hide Pow2, Where, GroupTuples, StableSort, ShownRow, Finals, Rows, DataSrc.Valid, CompareItems;
      var items: seq<Item> := [];
      ghost var seen: seq<Row> := [];
      var more := StepWhered(from, ast.where);
      while more
        invariant from.Valid() && more == from.live
        invariant more ==> from.at != [] && seen + [from.at] + Where(from.rest, ast.where) == Matching(ast)
        invariant !more ==> seen == Matching(ast)
        invariant Reverse(items) == KeyedRows(ast, seen)
        decreases more, |Where(from.rest, ast.where)|
      {
        var row := from.CacheSave([]);
        assert row == from.at;
        KeyedRowsAppend(ast, seen, row);
        items, seen := [KeyedRow(ast.groupBy.value, row)] + items, seen + [row];
        more := StepWhered(from, ast.where);
      }
      ReverseTwice(items);
      ReverseKeyed(ast.Keys(), Reverse(items));
      items := SortResultList(ast.Keys(), items, false);
      grouped.items, grouped.saved := items, None;
    }

    /** The next group that HAVING keeps. */
    method StepGroups() returns (row: bool)
      requires Valid() && live && ast.groupBy.Some?
      modifies repr
      ensures Valid() && Stepped(old(rest), row)
    {
      hide Pow2, Where, GroupTuples, StableSort, KeyedRows, ShownRow, Finals, Rows, DataSrc.Valid, Matching, AnySaves,
        SelectAst.Tuple, FirstGroup, AfterGroup, SelectAst.Keeps, HasKeys;
      if !collected {
        Collect();
        collected := true;
      } else {
        grouped.Pop();
      }
      docFrom, at := FromGrouped, [];
      row := false;
      while grouped.items != [] && !row
        modifies grouped, agg
        invariant from.Valid() && agg.Valid() && agg.seen == [] && grouped.saved == None
        invariant Keyed(ast.Keys(), grouped.items)
        invariant !row ==> rest == GroupTuples(ast, grouped.items)
        invariant row ==>
          && grouped.items != []
          && rest == [ast.Tuple(RowOf(ast.Keys(), grouped.items[0]), agg.values)] + GroupTuples(ast, grouped.items[1..])
        decreases !row, |grouped.items|
      {
        GroupTuplesStep(ast, grouped.items);
        grouped.StepGroup(agg, ast.Keys());
        row := ast.Keeps(grouped.items[0][ast.Keys().Count()..], agg.values);
        if !row {
          grouped.Pop();
        }
      }
      NoGroupTuples(ast);
      live := row;
      if row {
        at, rest := rest[0], rest[1..];
      }
    }

    method Step() returns (row: bool)
      requires Valid() && live
      modifies repr
      ensures Valid() && Stepped(old(rest), row)
    {
      if ast.calls.None? {
        row := StepPlain();
      } else if ast.groupBy.None? {
        row := StepWhole();
      } else {
        row := StepGroups();
      }
    }

    /** The documents of the row the result row was made from. */
    method CurrentRow() returns (row: Row)
      requires Valid() && at != []
      ensures row == at[1..]
    {
      if docFrom.FromDataSrc? {
        row := from.CacheSave([]);
        assert row == from.at;
      } else {
        row := grouped.items[0][ast.Keys().Count()..];
      }
    }

    /** The result document, evaluated when it is asked for. */
    method Doc() returns (doc: Value)
      requires Valid() && at != []
      ensures doc == at[0]
    {
      hide DataSrc.Valid, Pow2, Matching, Accounts;
      var row := CurrentRow();
      var tuple := ast.Tuple(row, if docFrom.FromDataSrc? then [] else agg.values);
      doc := tuple[0];
    }
  }

  // ---------------------------------------------------------------- DISTINCT

  /**
   * What DISTINCT keeps of a result row: all of it, or the document alone in an aggregate query, whose
   * source has by then been read to its end.
   */
  function DistinctItem(s: SelectAst, t: Tuple): (item: Item)
    requires t != []
    ensures item != [] && item[0] == t[0]
  {
    if s.calls.Some? then [t[0]] else t
  }

  function DistinctItems(s: SelectAst, ts: seq<Tuple>): (items: seq<Item>)
    requires forall i :: 0 <= i < |ts| ==> ts[i] != []
    ensures |items| == |ts| && Keyed(First, items)
  {
    if ts == [] then [] else [DistinctItem(s, ts[0])] + DistinctItems(s, ts[1..])
  }

  predicate NonEmpty(ts: seq<Tuple>) {
    forall i :: 0 <= i < |ts| ==> ts[i] != []
  }

  lemma {:induction false} GroupTuplesNonEmpty(s: SelectAst, items: seq<Item>)
    requires s.calls.Some? && Keyed(s.Keys(), items)
    ensures NonEmpty(GroupTuples(s, items))
    decreases |items|
  {
    if items != [] {
      GroupTuplesNonEmpty(s, AfterGroup(s.calls.value, s.Keys(), items));
    }
  }

  lemma {:induction false} PlainTuplesNonEmpty(s: SelectAst, rows: seq<Row>)
    ensures NonEmpty(PlainTuples(s, rows))
  {
    if rows != [] {
      PlainTuplesNonEmpty(s, rows[1..]);
    }
  }

  lemma GroupedTuplesNonEmpty(s: SelectAst)
    requires s.Grammatical()
    ensures NonEmpty(GroupedTuples(s))
  {
    var rows := Matching(s);
    PlainTuplesNonEmpty(s, rows);
    if s.groupBy.Some? {
      GroupTuplesNonEmpty(s, StableSort(s.Keys(), KeyedRows(s, rows)));
    }
  }

  /** The result rows of a SELECT: with DISTINCT sorted by document, the first row for every document. */
  function SelectTuples(s: SelectAst): (ts: seq<Tuple>)
    requires s.Grammatical()
    ensures NonEmpty(ts)
  {
    GroupedTuplesNonEmpty(s);
    var ts := GroupedTuples(s);
    if s.distinct then SortedList(First, DistinctItems(s, ts), true) else ts
  }

  /**
   * GROUP BY without min and max: the `i`-th group steps all rows with one combination of keys, in the
   * order they arrived, and the groups come in ascending order of their keys.
   */
  lemma GroupsInArrivalOrder(s: SelectAst, i: nat)
    requires s.Grammatical() && s.groupBy.Some? && NeverSaves(s.calls.value)
    requires var items := KeyedRows(s, Matching(s));
      i < |Groups(s.calls.value, s.Keys(), StableSort(s.Keys(), items))|
    ensures var items := KeyedRows(s, Matching(s));
      var groups := ItemsOf(Groups(s.calls.value, s.Keys(), StableSort(s.Keys(), items)));
      && groups[i] != [] && HasKeys(s.Keys(), groups[i][0])
      && groups[i] == Class(s.Keys(), items, groups[i][0])
      && Concat(groups) == StableSort(s.Keys(), items)
      && (i + 1 < |groups| ==> groups[i + 1] != [] && HasKeys(s.Keys(), groups[i + 1][0])
                               && CompareItems(s.Keys(), groups[i][0], groups[i + 1][0]) < 0)
  {
    hide CompareItems, Groups, Matching, KeyedRows, StableSort, Class, Sorted, SelectAst.Keys;
    var keys, items := s.Keys(), KeyedRows(s, Matching(s));
    var sorted := StableSort(keys, items);
    StableSortSorts(keys, items);
    GroupsAreClasses(s.calls.value, keys, sorted);
    RunsCover(keys, sorted);
    RunsAreClasses(keys, sorted, i);
    StableSortKeepsClasses(keys, items, Runs(keys, sorted)[i][0]);
  }

  /** DISTINCT returns the documents in strictly ascending order, each with the first row that had it. */
  lemma DistinctKeepsFirst(s: SelectAst, item: Item)
    requires s.Grammatical() && s.distinct && item != []
    ensures NonEmpty(GroupedTuples(s))
    ensures StrictlySorted(First, SelectTuples(s))
    ensures var all := Class(First, DistinctItems(s, GroupedTuples(s)), item);
      Class(First, SelectTuples(s), item) == if all == [] then [] else [all[0]]
  {
    hide CompareItems, GroupedTuples;
    GroupedTuplesNonEmpty(s);
    var items := DistinctItems(s, GroupedTuples(s));
    StableSortSorts(First, items);
    UniqFacts(First, StableSort(First, items));
    UniqKeepsFirst(First, StableSort(First, items), item);
    StableSortKeepsClasses(First, items, item);
  }

  lemma {:induction false} GroupTuplesBounded(s: SelectAst, items: seq<Item>)
    requires s.calls.Some? && Keyed(s.Keys(), items)
    ensures |GroupTuples(s, items)| <= |items|
    decreases |items|
  {
    if items != [] {
      GroupTuplesBounded(s, AfterGroup(s.calls.value, s.Keys(), items));
    }
  }

  /** There are never more result rows than matching rows, but for the one row of a whole aggregate. */
  lemma GroupedTuplesBounded(s: SelectAst)
    requires s.Grammatical()
    ensures |GroupedTuples(s)| <= if |Matching(s)| == 0 then 1 else |Matching(s)|
  {
    if s.groupBy.Some? {
      var items := StableSort(s.Keys(), KeyedRows(s, Matching(s)));
      StableSortSorts(s.Keys(), KeyedRows(s, Matching(s)));
      GroupTuplesBounded(s, items);
    }
  }

  lemma {:induction false} DistinctItemsAppend(s: SelectAst, ts: seq<Tuple>, t: Tuple)
    requires NonEmpty(ts) && t != []
    ensures DistinctItems(s, ts + [t]) == DistinctItems(s, ts) + [DistinctItem(s, t)]
  {
    if ts != [] {
      assert (ts + [t])[1..] == ts[1..] + [t];
      DistinctItemsAppend(s, ts[1..], t);
    }
  }

  /** What a SELECT steps through: DISTINCT over zero rows claims a row that is not there. */
  function SelectRun(s: SelectAst): (run: Run<Tuple>)
    requires s.Grammatical()
    ensures NonEmpty(run.rows)
  {
    Run(SelectTuples(s), if s.distinct && SelectTuples(s) == [] then NoRow else Done)
  }

  /** A SELECT with its DISTINCT list on top. */
  class Select {
    const ast: SelectAst
    const grouped: GroupedSelect
    /** The result rows have been collected and sorted. */
    var cached: bool
    var distincted: seq<Item>

    ghost var live: bool
    /** The result rows still to come, and the end after them. */
    ghost var run: Run<Tuple>
    ghost var at: Option<Tuple>
    ghost const repr: set<object>

    ghost predicate Valid()
      reads this, repr
    {
      && {this, grouped} <= repr && grouped.repr <= repr && this !in grouped.repr
      && ast.Grammatical() && |Matching(ast)| < Pow2(SLOTS)
      && grouped.ast == ast && grouped.Valid()
      && NonEmpty(distincted) && NonEmpty(run.rows)
      && (at.Some? ==> at.value != [] && if ast.distinct then Some(at.value) == Head(distincted) else at.value == grouped.at)
      && (live ==> Accounts())
    }

    ghost predicate Accounts()
      requires ast.Grammatical() && grouped.ast == ast && grouped.Valid()
      reads this, grouped, grouped.repr
    {
      if !ast.distinct then grouped.live && run == Run(grouped.rest, Done)
      else if cached then run == Run(Behind(distincted), Done) && at == Head(distincted)
      else grouped.live && grouped.rest == GroupedTuples(ast) && run == SelectRun(ast)
    }

    /** The last step claimed a row, although with DISTINCT there may be none. */
    ghost predicate OnRow()
      reads this
    {
      at.Some? || (live && ast.distinct && cached)
    }

    ghost predicate Stepped(was: Run<Tuple>, status: Status)
      reads this
    {
      && status == Next(was)
      && (status == ROW ==> live && run == After(was) && at == Head(was.rows) && OnRow())
      && (status == DONE ==> !live && at == None)
    }

    constructor (ast: SelectAst)
      requires ast.Grammatical() && |Matching(ast)| < Pow2(SLOTS)
      ensures Valid() && fresh(repr) && this.ast == ast
      ensures live && run == SelectRun(ast) && at == None && this in repr
    {
      hide GroupedSelect.Valid, GroupedTuples, SelectTuples;
      this.ast := ast;
      var inner := new GroupedSelect(ast);
      grouped := inner;
      cached, distincted := false, [];
      live, run, at := true, SelectRun(ast), None;
      repr := {this, inner} + inner.repr;
      new;
      PlainRun();
    }

    lemma PlainRun()
      requires ast.Grammatical()
      ensures NonEmpty(SelectTuples(ast)) && (!ast.distinct ==> SelectTuples(ast) == GroupedTuples(ast))
    {
    }

    lemma Shown()
      requires Valid()
      ensures NonEmpty(run.rows) && (at.Some? ==> at.value != []) && this in repr
    {
    }

    method Rewind()
      requires Valid()
      modifies repr
      ensures Valid() && live && run == SelectRun(ast) && at == None
    {
      hide GroupedSelect.Valid, GroupedTuples, SelectTuples;
      PlainRun();
      grouped.Rewind();
      cached, distincted := false, [];
      live, run, at := true, SelectRun(ast), None;
    }

    /** Collects all result rows and sorts them by document, dropping duplicates. */
    method Collect()
      requires Valid() && live && ast.distinct && !cached
      modifies grouped.repr, `distincted
      ensures grouped.Valid() && distincted == SelectTuples(ast)
    {
      hide GroupedSelect.Valid, Pow2, GroupedTuples, SelectTuples, DistinctItems, DistinctItem, Reverse, Matching,
        SelectAst.Grammatical, CompareItems, HasKeys, Keyed, Head, SortedList;
      var items: seq<Item> := [];
      ghost var seen: seq<Tuple> := [];
      NoneCollected(ast);
      var more := grouped.Step();
      while more
        invariant grouped.Valid() && more == grouped.live && NonEmpty(seen)
        invariant more ==> grouped.at != [] && seen + [grouped.at] + grouped.rest == GroupedTuples(ast)
        invariant !more ==> seen == GroupedTuples(ast)
        invariant Reverse(items) == DistinctItems(ast, seen)
        decreases more, |grouped.rest|
      {
        var doc := grouped.Doc();
        var row: Row := [];
        if ast.calls.None? {
          row := grouped.CurrentRow();
        }
        OneCollected(ast, seen, grouped.at, items, doc, row);
        items, seen := [[doc] + row] + items, seen + [grouped.at];
        more := grouped.Step();
      }
      AllCollected(ast, items);
      distincted := SortResultList(First, items, true);
    }

    /** The next result row, or the end: with DISTINCT the first step always claims a row. */
    method Step() returns (status: Status)
      requires Valid() && live
      modifies repr
      ensures Valid() && Stepped(old(run), status)
    {
      hide Valid;
      if ast.distinct {
        status := StepDistinct();
      } else {
        status := StepAll();
      }
    }

    method StepAll() returns (status: Status)
      requires Valid() && live && !ast.distinct
      modifies repr
      ensures Valid() && Stepped(old(run), status)
    {
      hide GroupedSelect.Valid, GroupedTuples, SelectTuples;
      var row := grouped.Step();
      status := if row then ROW else DONE;
      live, at := row, if row then Some(grouped.at) else None;
      run := After(run);
    }

    method StepDistinct() returns (status: Status)
      requires Valid() && live && ast.distinct
      modifies repr
      ensures Valid() && Stepped(old(run), status)
    {
      hide GroupedSelect.Valid, GroupedTuples, SelectTuples, SelectAst.Grammatical, Matching;
      if cached {
        distincted := Behind(distincted);
      } else {
        Collect();
      }
      status := if cached && distincted == [] then DONE else ROW;
      cached, live, at := true, status == ROW, Head(distincted);
      run := After(run);
    }

    /** The result document, or nothing where there is no row to take it from. */
    method Doc() returns (doc: Option<Value>)
      requires Valid() && OnRow()
      ensures match at
              case None => doc == None
              case Some(t) => t != [] && doc == Some(t[0])
    {
      hide GroupedSelect.Valid;
      doc := None;
      if !ast.distinct {
        var d := grouped.Doc();
        doc := Some(d);
      } else if distincted != [] {
        doc := Some(distincted[0][0]);
      }
    }

    /** The result document and the documents it came with, or nothing. */
    method Current() returns (t: Option<Tuple>)
      requires Valid() && OnRow()
      ensures t == at
    {
      hide GroupedSelect.Valid;
      if ast.distinct {
        t := Head(distincted);
      } else {
        var doc := grouped.Doc();
        var row := grouped.CurrentRow();
        assert [doc] + row == grouped.at;
        t := Some([doc] + row);
      }
    }
  }

  lemma NoneCollected(s: SelectAst)
    requires s.Grammatical()
    ensures Reverse([]) == DistinctItems(s, []) && NonEmpty(GroupedTuples(s))
  {
    GroupedTuplesNonEmpty(s);
  }

  lemma OneCollected(s: SelectAst, seen: seq<Tuple>, t: Tuple, items: seq<Item>, doc: Value, row: Row)
    requires NonEmpty(seen) && t != [] && doc == t[0] && row == if s.calls.None? then t[1..] else []
    requires Reverse(items) == DistinctItems(s, seen)
    ensures Reverse([[doc] + row] + items) == DistinctItems(s, seen + [t])
  {
    assert [doc] + row == DistinctItem(s, t);
    DistinctItemsAppend(s, seen, t);
  }

  lemma AllCollected(s: SelectAst, items: seq<Item>)
    requires s.Grammatical() && s.distinct && |Matching(s)| < Pow2(SLOTS) && NonEmpty(GroupedTuples(s))
    requires Reverse(items) == DistinctItems(s, GroupedTuples(s))
    ensures Keyed(First, items) && |items| < Pow2(SLOTS) && Keyed(First, Reverse(items))
    ensures SelectTuples(s) == SortedList(First, Reverse(items), true)
  {
    hide Matching, GroupedTuples;
    GroupedTuplesBounded(s);
    assert Pow2(SLOTS) == 2 * Pow2(SLOTS - 1);
    ReverseTwice(items);
    ReverseKeyed(First, Reverse(items));
  }
}
