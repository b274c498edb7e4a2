/** Whole queries: compounds of SELECTs, ORDER BY, and the LIMIT and OFFSET window. */
module Queries {
  import opened JsonValues
  import opened JsonOrder
  import opened ResultLists
  import opened SetOperations
  import opened Flattening
  import opened DataSources
  import opened QueryRuns
  import opened Selects

  datatype Op = UnionAll | UnionOp | IntersectOp | ExceptOp

  /** A SELECT, or two queries under a compound operator; only a whole query has ORDER BY and LIMIT. */
  datatype QueryAst =
    | Core(select: SelectAst)
    | Compound(op: Op, left: QueryAst, right: QueryAst)
  {
    predicate Grammatical() {
      match this
      case Core(select) => select.Grammatical()
      case Compound(_, left, right) => left.Grammatical() && right.Grammatical()
    }
  }

  // ---------------------------------------------------------------- what a compound means

  /** The result documents alone. */
  function DocItems(ts: seq<Tuple>): (items: seq<Item>)
    requires NonEmpty(ts)
    ensures |items| == |ts| && Singles(items) && Keyed(First, items) && NonEmpty(items)
    ensures forall i :: 0 <= i < |ts| ==> items[i] == [ts[i][0]]
  {
    if ts == [] then [] else [[ts[0][0]]] + DocItems(ts[1..])
  }

  /** The documents of a query as the set of them. */
  function DocSet(ts: seq<Tuple>): (items: seq<Item>)
    requires NonEmpty(ts)
    ensures Keyed(First, items)
  {
    SortedList(First, DocItems(ts), true)
  }

  function Combined(op: Op, p: seq<Item>, q: seq<Item>): seq<Item>
    requires Keyed(First, p) && Keyed(First, q) && op != UnionAll
  {
    if op == UnionOp then Union(p, q) else if op == IntersectOp then Intersect(p, q) else Except(p, q)
  }

  lemma CombinedSets(op: Op, p: seq<Item>, q: seq<Item>)
    requires SetList(p) && SetList(q) && op != UnionAll
    ensures SetList(Combined(op, p, q))
    ensures forall x: Item :: x in Combined(op, p, q) <==>
      if op == UnionOp then x in p || x in q else if op == IntersectOp then x in p && x in q else x in p && x !in q
  {
    if op == UnionOp {
      UnionIsUnion(p, q);
    } else if op == IntersectOp {
      IntersectIsIntersection(p, q);
    } else {
      ExceptIsDifference(p, q);
    }
  }

  /** The rows of a set operation on the documents of two queries. */
  function CombinedDocs(op: Op, l: seq<Tuple>, r: seq<Tuple>): (ts: seq<Tuple>)
    requires NonEmpty(l) && NonEmpty(r) && op != UnionAll
    ensures NonEmpty(ts)
  {
    SortMakesSetList(DocItems(l));
    SortMakesSetList(DocItems(r));
    CombinedSets(op, DocSet(l), DocSet(r));
    Combined(op, DocSet(l), DocSet(r))
  }

  /** The result rows of a query without ORDER BY, LIMIT and OFFSET. */
  function Tuples(q: QueryAst): (ts: seq<Tuple>)
    requires q.Grammatical()
    ensures NonEmpty(ts)
  {
    if q.Core? then SelectTuples(q.select)
    else
      var l, r := Tuples(q.left), Tuples(q.right);
      if q.op == UnionAll then DocItems(l) + DocItems(r) else CombinedDocs(q.op, l, r)
  }

  predicate IsResult(ts: seq<Tuple>, doc: Value) {
    exists i :: 0 <= i < |ts| && ts[i] != [] && ts[i][0] == doc
  }

  lemma ResultItems(ts: seq<Tuple>, doc: Value)
    requires NonEmpty(ts)
    ensures [doc] in DocItems(ts) <==> IsResult(ts, doc)
  {
    var items := DocItems(ts);
    if [doc] in items {
      var i :| 0 <= i < |items| && items[i] == [doc];
      assert ts[i][0] == [doc][0];
    }
    if IsResult(ts, doc) {
      var i :| 0 <= i < |ts| && ts[i] != [] && ts[i][0] == doc;
      assert items[i] == [doc];
    }
  }

  /** UNION, INTERSECT and EXCEPT are the set operations, their results distinct and in ascending order. */
  lemma CompoundMeans(q: QueryAst, doc: Value)
    requires q.Grammatical() && q.Compound? && q.op != UnionAll
    ensures SetList(Tuples(q))
    ensures var l, r := IsResult(Tuples(q.left), doc), IsResult(Tuples(q.right), doc);
      IsResult(Tuples(q), doc) <==> if q.op == UnionOp then l || r else if q.op == IntersectOp then l && r else l && !r
  {
    hide StrictlySorted, Combined, SortedList;
    var l, r := Tuples(q.left), Tuples(q.right);
    SortMakesSetList(DocItems(l));
    SortMakesSetList(DocItems(r));
    CombinedSets(q.op, DocSet(l), DocSet(r));
    ResultItems(l, doc);
    ResultItems(r, doc);
    assert Tuples(q) == Combined(q.op, DocSet(l), DocSet(r));
    SinglesResults(Tuples(q), doc);
  }

  lemma SinglesResults(ts: seq<Tuple>, doc: Value)
    requires Singles(ts)
    ensures IsResult(ts, doc) <==> [doc] in ts
  {
    if IsResult(ts, doc) {
      var i :| 0 <= i < |ts| && ts[i] != [] && ts[i][0] == doc;
      assert ts[i] == [doc];
    }
  }

  lemma DocItemsStep(ts: seq<Tuple>)
    requires NonEmpty(ts)
    ensures ts == [] ==> DocItems(ts) == []
    ensures ts != [] ==> NonEmpty(ts[1..]) && DocItems(ts) == [[ts[0][0]]] + DocItems(ts[1..])
  {
  }

  lemma CombinedDocSets(op: Op, l: seq<Tuple>, r: seq<Tuple>)
    requires NonEmpty(l) && NonEmpty(r) && op != UnionAll
    ensures Sides(DocSet(l), DocSet(r)) && CombinedDocs(op, l, r) == Combined(op, DocSet(l), DocSet(r))
  {
    SortMakesSetList(DocItems(l));
    SortMakesSetList(DocItems(r));
  }

  lemma {:induction false} DocItemsAppend(ts: seq<Tuple>, t: Tuple)
    requires NonEmpty(ts) && t != []
    ensures DocItems(ts + [t]) == DocItems(ts) + [[t[0]]]
  {
    if ts != [] {
      assert (ts + [t])[1..] == ts[1..] + [t];
      DocItemsAppend(ts[1..], t);
    }
  }

  /** Two lists of one-document rows. */
  predicate Sides(p: seq<Item>, q: seq<Item>) {
    Singles(p) && Singles(q) && Keyed(First, p) && Keyed(First, q)
  }

  /** The smaller head, or one of two equal heads; both equal heads go. */
  method NextOfUnion(p1: seq<Item>, p2: seq<Item>) returns (out: seq<Item>, p: seq<Item>, q: seq<Item>)
    requires Sides(p1, p2)
    ensures Sides(p, q) && Singles(out) && |out| <= 1
    ensures Union(p1, p2) == out + Union(p, q) && (out == [] ==> Union(p1, p2) == [])
  {
    hide CompareItems;
    out, p, q := [], p1, p2;
    if p != [] || q != [] {
      var c := -1;
      if p == [] {
        c := 1;
      } else if q != [] {
        c := CmpResultItem(First, p[0], q[0]);
      }
      out := [if c < 0 then p[0] else q[0]];
      p, q := if c <= 0 then p[1..] else p, if c >= 0 then q[1..] else q;
    }
  }

  /** Drops the smaller head until the heads are equal. */
  method NextOfIntersect(p1: seq<Item>, p2: seq<Item>) returns (out: seq<Item>, p: seq<Item>, q: seq<Item>)
    requires Sides(p1, p2)
    ensures Sides(p, q) && Singles(out) && |out| <= 1
    ensures Intersect(p1, p2) == out + Intersect(p, q) && (out == [] ==> Intersect(p1, p2) == [])
  {
    hide CompareItems;
    out, p, q := [], p1, p2;
    while out == [] && p != [] && q != []
      invariant Sides(p, q) && Singles(out) && |out| <= 1
      invariant Intersect(p1, p2) == out + Intersect(p, q)
      decreases |p| + |q|
    {
      var c := CmpResultItem(First, p[0], q[0]);
      if c == 0 {
        out := [p[0]];
      }
      p, q := if c <= 0 then p[1..] else p, if c >= 0 then q[1..] else q;
    }
  }

  lemma ExceptNext(p: seq<Item>, q: seq<Item>)
    requires Sides(p, q) && p != []
    ensures |p[0]| == 1 && HasKeys(First, p[0]) && Sides(p[1..], q)
    ensures q != [] ==> HasKeys(First, q[0]) && Sides(p, q[1..])
    ensures q == [] ==> Except(p, q) == [p[0]] + Except(p[1..], q)
    ensures q != [] ==>
      var c := CompareItems(First, p[0], q[0]);
      Except(p, q) == if c < 0 then [p[0]] + Except(p[1..], q) else if c > 0 then Except(p, q[1..]) else Except(p[1..], q)
  {
    hide CompareItems;
  }

  /** The next left head that the right side does not have. */
  method NextOfExcept(p1: seq<Item>, p2: seq<Item>) returns (out: seq<Item>, p: seq<Item>, q: seq<Item>)
    requires Sides(p1, p2)
    ensures Sides(p, q) && Singles(out) && |out| <= 1
    ensures Keyed(First, p1) && Keyed(First, p2) && Keyed(First, p) && Keyed(First, q)
    ensures Except(p1, p2) == out + Except(p, q) && (out == [] ==> Except(p1, p2) == [])
  {
    hide CompareItems, HasKeys;
    out, p, q := [], p1, p2;
    while out == [] && p != []
      invariant Sides(p, q) && Singles(out) && |out| <= 1
      invariant Except(p1, p2) == out + Except(p, q)
      decreases |p| + |q|
    {
      hide Except, Sides, Keyed;
      ExceptNext(p, q);
      var c := -1;
      if q != [] {
        c := CmpResultItem(First, p[0], q[0]);
      }
      if c <= 0 {
        out, p := if c != 0 then [p[0]] else [], p[1..];
      } else {
        q := q[1..];
      }
    }
  }

  method NextOf(op: Op, p1: seq<Item>, p2: seq<Item>) returns (out: seq<Item>, p: seq<Item>, q: seq<Item>)
    requires Sides(p1, p2) && op != UnionAll
    ensures Sides(p, q) && Singles(out) && |out| <= 1
    ensures Combined(op, p1, p2) == out + Combined(op, p, q) && (out == [] ==> Combined(op, p1, p2) == [])
  {
    match op {
      case UnionOp => out, p, q := NextOfUnion(p1, p2);
      case IntersectOp => out, p, q := NextOfIntersect(p1, p2);
      case ExceptOp => out, p, q := NextOfExcept(p1, p2);
    }
  }

  // ---------------------------------------------------------------- a compound as it runs

  /** One after the other. The documents of the rows are read, so a row that is not there breaks the run. */
  function Sequence(l: Run<Tuple>, r: Run<Tuple>): (run: Run<Tuple>)
    requires NonEmpty(l.rows) && NonEmpty(r.rows)
    ensures NonEmpty(run.rows)
  {
    if l.end != Done then Run(DocItems(l.rows), Broken)
    else Run(DocItems(l.rows) + DocItems(r.rows), if r.end == Done then Done else Broken)
  }

  /** What a query without ORDER BY, LIMIT and OFFSET steps through. */
  function Outcome(q: QueryAst): (run: Run<Tuple>)
    requires q.Grammatical()
    ensures NonEmpty(run.rows)
  {
    match q
    case Core(select) => SelectRun(select)
    case Compound(op, left, right) =>
      var l, r := Outcome(left), Outcome(right);
      if op == UnionAll then Sequence(l, r)
      else if l.end != Done || r.end != Done then Run([], Broken)
      else Run(CombinedDocs(op, l.rows, r.rows), Done)
  }

  /** No part of the query is a DISTINCT over zero rows. */
  predicate Sane(q: QueryAst)
    requires q.Grammatical()
  {
    match q
    case Core(select) => select.distinct ==> SelectTuples(select) != []
    case Compound(_, left, right) => Sane(left) && Sane(right)
  }

  /** Exactly without such a part a query runs to its end, and then over all its result rows. */
  lemma {:induction false} SaneQueriesEnd(q: QueryAst)
    requires q.Grammatical()
    ensures Outcome(q).end == Done <==> Sane(q)
    ensures Sane(q) ==> Outcome(q).rows == Tuples(q)
  {
    if q.Compound? {
      SaneQueriesEnd(q.left);
      SaneQueriesEnd(q.right);
    }
  }

  // ---------------------------------------------------------------- a compound as it runs

  /** The lists are short enough for the forty slots of the sort. */
  predicate Fits(q: QueryAst)
    requires q.Grammatical()
  {
    match q
    case Core(select) => |Matching(select)| < Pow2(SLOTS)
    case Compound(op, left, right) =>
      && Fits(left) && Fits(right)
      && (op == UnionAll || (|Outcome(left).rows| < Pow2(SLOTS) && |Outcome(right).rows| < Pow2(SLOTS)))
  }

  /** A step of the left side. */
  lemma LeftSteps(l: Run<Tuple>, r: Run<Tuple>)
    requires NonEmpty(l.rows) && NonEmpty(r.rows)
    ensures NonEmpty(After(l).rows)
    ensures l.rows != [] ==>
      var run := Sequence(l, r);
      l.rows[0] != [] && Head(run.rows) == Some([l.rows[0][0]]) && After(run) == Sequence(After(l), r)
    ensures l.rows == [] && l.end != Done ==> Next(Sequence(l, r)) == NULL
    ensures l == Run([], Done) ==> Sequence(l, r) == Sequence(Run([], Done), r)
  {
    DocItemsStep(l.rows);
    if l.rows != [] {
      assert (DocItems(l.rows) + DocItems(r.rows))[1..] == DocItems(l.rows)[1..] + DocItems(r.rows);
    }
  }

  lemma RightSteps(r: Run<Tuple>)
    requires NonEmpty(r.rows)
    ensures NonEmpty(After(r).rows)
    ensures r.rows != [] ==>
      var run := Sequence(Run([], Done), r);
      r.rows[0] != [] && Head(run.rows) == Some([r.rows[0][0]]) && After(run) == Sequence(Run([], Done), After(r))
    ensures r.rows == [] ==> Sequence(Run([], Done), r) == Run([], if r.end == Done then Done else Broken)
  {
    DocItemsStep(r.rows);
    NothingBefore(DocItems(r.rows));
    NothingBefore(DocItems(After(r).rows));
  }

  lemma NothingBefore(items: seq<Item>)
    ensures DocItems([]) + items == items
  {
  }

  class CompoundQuery {
    const ast: QueryAst
    const select: Select?
    const left: CompoundQuery?
    const right: CompoundQuery?
    var doneLeft: bool
    /** The sorted results of both sides are there. */
    var cached: bool
    var leftItems: seq<Item>
    var rightItems: seq<Item>
    var pOut: Value

    ghost var live: bool
    ghost var run: Run<Tuple>
    ghost var at: Option<Tuple>
    ghost const repr: set<object>

    ghost predicate Valid()
      reads this, repr
      decreases ast
    {
      && this in repr && ast.Grammatical() && Fits(ast)
      && (select != null ==> select in repr) && (left != null ==> left in repr) && (right != null ==> right in repr)
      && (ast.Core? ==>
            && select != null && select.repr <= repr && this !in select.repr
            && select.ast == ast.select && select.Valid())
      && (ast.Compound? ==>
            && left != null && left.repr <= repr && this !in left.repr
            && right != null && right.repr <= repr && this !in right.repr
            && left.repr !! right.repr
            && left.ast == ast.left && right.ast == ast.right
            && left.Valid() && right.Valid())
      && Stands()
      && (live ==> Accounts())
    }

    /** The row shown, and only rows that have documents. */
    ghost predicate Stands()
      requires ast.Core? ==> select != null
      reads this, select
    {
      && NonEmpty(run.rows) && (at.Some? ==> at.value != [])
      && if ast.Core? then at == select.at else at.Some? ==> at.value == [pOut]
    }

    /** While the query is live its state accounts for the run still to come. */
    ghost predicate Accounts()
      requires ast.Grammatical()
      requires ast.Core? ==> select != null
      requires ast.Compound? ==> left != null && right != null
      reads this, select, left, right
    {
      if ast.Core? then select.live && run == select.run
      else if ast.op == UnionAll then UnionAccounts()
      else if cached then
        Sides(leftItems, rightItems) && run == Run(Combined(ast.op, leftItems, rightItems), Done)
      else
        && left.live && left.run == Outcome(ast.left) && right.live && right.run == Outcome(ast.right)
        && run == Outcome(ast)
    }

    ghost predicate UnionAccounts()
      requires ast.Compound? && left != null && right != null
      reads this, left, right
    {
      && right.live && NonEmpty(right.run.rows)
      && if doneLeft then run == Sequence(Run([], Done), right.run)
         else left.live && NonEmpty(left.run.rows) && run == Sequence(left.run, right.run)
    }

    /** The two sides of a compound, whatever the state of the compound itself. */
    ghost predicate Whole()
      reads this, repr
    {
      && this in repr && ast.Grammatical() && Fits(ast) && ast.Compound?
      && left != null && left in repr && left in left.repr && left.repr <= repr && this !in left.repr
      && right != null && right in repr && right in right.repr && right.repr <= repr && this !in right.repr
      && (select != null ==> select in repr)
      && left.repr !! right.repr && left.ast == ast.left && right.ast == ast.right
      && left.Valid() && right.Valid()
    }

    /** The single SELECT of a core. */
    ghost predicate Single()
      reads this, repr
    {
      && this in repr && ast.Grammatical() && Fits(ast) && ast.Core?
      && (left != null ==> left in repr) && (right != null ==> right in repr)
      && select != null && select in repr && select in select.repr && select.repr <= repr && this !in select.repr
      && select.ast == ast.select && select.Valid()
    }

    lemma Open()
      requires Valid()
      ensures this in repr && ast.Grammatical() && Fits(ast) && NonEmpty(run.rows) && (at.Some? ==> at.value != [])
      ensures ast.Compound? ==> Whole() && left != null && right != null && (at.Some? ==> at.value == [pOut])
      ensures ast.Core? ==> Single() && select != null && at == select.at
      ensures live ==> Accounts()
    {
      hide QueryAst.Grammatical, Fits, Accounts, Select.Valid, NonEmpty;
      if ast.Core? { select.Shown(); }
    }

    /** What a live query stands for, by kind */
    lemma Counts()
      requires ast.Grammatical() && (ast.Core? ==> select != null) && (ast.Compound? ==> left != null && right != null)
      ensures ast.Core? ==> (Accounts() <==> select.live && run == select.run)
      ensures ast.Compound? && ast.op == UnionAll ==> (Accounts() <==> UnionAccounts())
      ensures ast.Compound? && ast.op != UnionAll && cached ==>
        (Accounts() <==> Sides(leftItems, rightItems) && run == Run(Combined(ast.op, leftItems, rightItems), Done))
      ensures ast.Compound? && ast.op != UnionAll && !cached ==>
        (Accounts() <==>
          && left.live && left.run == Outcome(ast.left) && right.live && right.run == Outcome(ast.right)
          && run == Outcome(ast))
    {
      hide Outcome, UnionAccounts, Combined, Sides;
    }

    lemma CloseCompound()
      requires Whole() && NonEmpty(run.rows) && (at.Some? ==> at.value == [pOut])
      requires live ==> Accounts()
      ensures Valid()
    {
      hide QueryAst.Grammatical, Fits, Accounts, NonEmpty;
    }

    lemma CloseCore()
      requires Single() && NonEmpty(run.rows) && at == select.at && (at.Some? ==> at.value != [])
      requires live ==> select.live && run == select.run
      ensures Valid()
    {
      hide QueryAst.Grammatical, Fits, Select.Valid, NonEmpty;
    }

    /** The last step reported a row, although of a SELECT it may not be there. */
    ghost predicate OnRow()
      reads this, select
    {
      at.Some? || (ast.Core? && select != null && select.OnRow())
    }

    ghost predicate Stepped(was: Run<Tuple>, status: Status)
      reads this, select
    {
      && status == Next(was)
      && (status == ROW ==> live && run == After(was) && at == Head(was.rows) && OnRow())
      && (status == DONE ==> !live && at == None)
    }

    constructor (ast: QueryAst)
      requires ast.Grammatical() && Fits(ast)
      ensures Valid() && fresh(repr) && this.ast == ast
      ensures live && run == Outcome(ast) && at == None && this in repr
      decreases ast
    {
      hide Valid, Accounts, Stands, Fits, QueryAst.Grammatical, Outcome, Sequence, DocItems, DocSet,
        CombinedDocs, NonEmpty, Select.Valid, SelectRun;
      this.ast := ast;
      var s: Select?, l: CompoundQuery?, r: CompoundQuery? := null, null, null;
      ghost var objects: set<object> := {};
      PartsFit(ast);
      if ast.Core? {
        s := new Select(ast.select);
        objects := {s} + s.repr;
      } else {
        l := new CompoundQuery(ast.left);
        r := new CompoundQuery(ast.right);
        objects := {l, r} + l.repr + r.repr;
      }
      select, left, right := s, l, r;
      doneLeft, cached, leftItems, rightItems, pOut := false, false, [], [], Absent;
      live, run, at := true, Outcome(ast), None;
      repr := {this} + objects;
      new;
      Starts();
    }

    /** Before the first step */
    lemma Starts()
      requires if ast.Core? then Single() else Whole()
      requires !doneLeft && !cached && live && run == Outcome(ast) && at == None
      requires ast.Core? ==> select.live && select.run == SelectRun(ast.select) && select.at == None
      requires ast.Compound? ==>
        left.live && left.run == Outcome(ast.left) && right.live && right.run == Outcome(ast.right)
      ensures Valid()
    {
      hide Valid, Select.Valid, SelectRun, Sequence, Fits, CombinedDocs, NonEmpty;
      if ast.Core? {
        CloseCore();
      } else {
        CloseCompound();
      }
    }

    /** Back to before the first row, from any state. */
    method Rewind()
      requires Valid()
      modifies repr
      ensures Valid() && live && run == Outcome(ast) && at == None
      decreases ast
    {
      hide Valid, Accounts, Stands, Fits, QueryAst.Grammatical, Outcome, Sequence, DocItems, DocSet,
        CombinedDocs, NonEmpty, Select.Valid, SelectRun;
      Open();
      if ast.Core? {
        select.Rewind();
      } else {
        left.Rewind();
        right.Rewind();
      }
      doneLeft, cached, leftItems, rightItems, pOut := false, false, [], [], Absent;
      live, run, at := true, Outcome(ast), None;
      Starts();
    }

    /** The result document of the current row, or nothing if it is not there. */
    method Doc() returns (doc: Option<Value>)
      requires Valid() && OnRow()
      ensures match at
              case None => doc == None
              case Some(t) => t != [] && doc == Some(t[0])
    {
      hide Valid, Accounts, Stands, Fits, QueryAst.Grammatical, Outcome, Sequence, DocItems, DocSet,
        CombinedDocs, NonEmpty, Select.Valid, SelectRun;
      Open();
      if ast.Core? {
        doc := select.Doc();
      } else {
        doc := Some(pOut);
      }
    }

    /** The result document and the documents it came with, or nothing. */
    method Current() returns (t: Option<Tuple>)
      requires Valid() && OnRow()
      ensures t == at && (t.Some? ==> t.value != [])
    {
      hide Valid, Accounts, Stands, Fits, QueryAst.Grammatical, Outcome, Sequence, DocItems, DocSet,
        CombinedDocs, NonEmpty, Select.Valid, SelectRun;
      Open();
      if ast.Core? {
        t := select.Current();
      } else {
        t := Some([pOut]);
      }
    }

    /**
     * Runs this query to its end and sorts its documents, dropping duplicates; not ok if it comes upon a
     * null pointer.
     */
    method CacheQuery() returns (items: seq<Item>, ok: bool)
      requires Valid() && live && run == Outcome(ast) && |Outcome(ast).rows| < Pow2(SLOTS)
      modifies repr
      ensures ok <==> Outcome(ast).end == Done
      ensures ok ==> Valid() && NonEmpty(Outcome(ast).rows) && items == DocSet(Outcome(ast).rows)
      decreases ast, 3
    {
      hide Valid, Pow2, SLOTS, CompareItems, Outcome, Next, After, Head, Left, NonEmpty, DocItems, DocSet, Reverse, OnRow;
      ghost var all := run;
      items := [];
      ghost var seen: seq<Tuple> := [];
      NoDocs();
      WalkStarts(all);
      var status := Step();
      while status == ROW
        invariant NonEmpty(seen) && Walked(all, seen, status, at, run) && Reverse(items) == DocItems(seen)
        invariant status != NULL ==> Valid()
        invariant status == ROW ==> live && OnRow()
        decreases status == ROW, Left(run)
      {
        var doc := Doc();
        if doc == None {
          WalkEnds(all, seen, status, at, run);
          return items, false;
        }
        OneMoreDoc(seen, at.value, items);
        WalkGoesOn(all, seen, at, run);
        items, seen := [[doc.value]] + items, seen + [at.value];
        status := Step();
      }
      WalkEnds(all, seen, status, at, run);
      ok := status == DONE;
      if ok {
        AllDocs(seen, items);
        items := SortResultList(First, items, true);
      }
    }

    /** The next row of a single SELECT */
    method StepCore() returns (status: Status)
      requires Valid() && live && ast.Core?
      modifies repr
      ensures Valid() && Stepped(old(run), status)
    {
      hide Valid, Accounts, Stands, Fits, QueryAst.Grammatical, Outcome, Sequence, DocItems, DocSet,
        CombinedDocs, NonEmpty, Select.Valid, SelectRun;
      Open();
      Counts();
      NonEmptyAfter(run);
      status := select.Step();
      select.Shown();
      live, at, run := status == ROW, select.at, After(run);
      CloseCore();
    }

    /** All of the left side, then all of the right side. */
    method StepUnionAll() returns (status: Status)
      requires Valid() && live && ast.Compound? && ast.op == UnionAll
      modifies repr
      ensures (status != NULL ==> Valid()) && Stepped(old(run), status)
      decreases ast, 1
    {
      hide Valid, Accounts, Stands, Fits, QueryAst.Grammatical, Outcome, Sequence, DocItems, DocSet,
        CombinedDocs, NonEmpty, Select.Valid, SelectRun;
      Open();
      Counts();
      status := DONE;
      if !doneLeft {
        status := StepLeftSide();
      }
      if status == DONE {
        status := StepRightSide();
      }
    }

    /** A row of the left side, or nothing more but the right side. */
    method StepLeftSide() returns (status: Status)
      requires Whole() && live && ast.op == UnionAll && !doneLeft && UnionAccounts() && NonEmpty(run.rows)
      modifies `live, `at, `run, `pOut, left.repr
      ensures status == ROW ==> Valid() && Stepped(old(run), ROW)
      ensures status == NULL ==> Next(old(run)) == NULL
      ensures status == DONE ==>
        && Whole() && right.live && NonEmpty(right.run.rows)
        && run == old(run) == Sequence(Run([], Done), right.run)
      decreases ast, 0
    {
      hide Valid, Accounts, Stands, Fits, QueryAst.Grammatical, Outcome, Sequence, DocItems, DocSet,
        CombinedDocs, NonEmpty, Select.Valid, SelectRun;
      LeftSteps(left.run, right.run);
      NonEmptyAfter(run);
      status := left.Step();
      if status == ROW {
        var doc := left.Doc();
        if doc == None {
          return NULL;
        }
        pOut := doc.value;
        live, at, run := true, Some([pOut]), After(run);
        Counts();
        CloseCompound();
      }
    }

    method StepRightSide() returns (status: Status)
      requires Whole() && ast.op == UnionAll && right.live && NonEmpty(run.rows) && NonEmpty(right.run.rows)
      requires run == Sequence(Run([], Done), right.run)
      modifies `live, `at, `run, `pOut, `doneLeft, right.repr
      ensures (status != NULL ==> Valid()) && Stepped(old(run), status)
      decreases ast, 0
    {
      hide Valid, Accounts, Stands, Fits, QueryAst.Grammatical, Outcome, Sequence, DocItems, DocSet,
        CombinedDocs, NonEmpty, Select.Valid, SelectRun;
      RightSteps(right.run);
      NonEmptyAfter(run);
      doneLeft := true;
      status := right.Step();
      var doc := None;
      if status == ROW {
        doc := right.Doc();
        if doc == None {
          return NULL;
        }
        pOut := doc.value;
      }
      live, at, run := status == ROW, if status == ROW then Some([pOut]) else None, After(run);
      if status != NULL {
        Counts();
        CloseCompound();
      }
    }

    /** Caches both sides as sorted lists before the first row. */
    method StepSets() returns (status: Status)
      requires Valid() && live && ast.Compound? && ast.op != UnionAll
      modifies repr
      ensures (status != NULL ==> Valid()) && Stepped(old(run), status)
      decreases ast, 1
    {
      hide Valid, Accounts, Stands, Fits, QueryAst.Grammatical, Outcome, Sequence, DocItems, DocSet,
        CombinedDocs, NonEmpty, Select.Valid, SelectRun;
      Open();
      Counts();
      if !cached {
        PartsFit(ast);
        BothCached(ast);
        var ok;
        leftItems, ok := left.CacheQuery();
        if !ok {
          return NULL;
        }
        rightItems, ok := right.CacheQuery();
        if !ok {
          return NULL;
        }
        cached := true;
      }
      status := StepCached();
    }

    method StepCached() returns (status: Status)
      requires Whole() && live && ast.op != UnionAll && cached
      requires Sides(leftItems, rightItems) && run == Run(Combined(ast.op, leftItems, rightItems), Done)
      requires NonEmpty(run.rows)
      modifies `leftItems, `rightItems, `pOut, `live, `run, `at
      ensures Valid() && Stepped(old(run), status)
    {
      hide Valid, Accounts, Stands, Fits, QueryAst.Grammatical, Outcome, Sequence, DocItems, DocSet,
        CombinedDocs, NonEmpty, Select.Valid, SelectRun, Combined;
      NonEmptyAfter(run);
      var out: seq<Item>;
      out, leftItems, rightItems := NextOf(ast.op, leftItems, rightItems);
      status := if out != [] then ROW else DONE;
      pOut := if out != [] then out[0][0] else Absent;
      live, at, run := out != [], Head(out), After(run);
      Counts();
      CloseCompound();
    }

    method Step() returns (status: Status)
      requires Valid() && live
      modifies repr
      ensures (status != NULL ==> Valid()) && Stepped(old(run), status)
      decreases ast, 2
    {
      hide Valid;
      if ast.Core? {
        status := StepCore();
      } else if ast.op == UnionAll {
        status := StepUnionAll();
      } else {
        status := StepSets();
      }
    }
  }

  lemma PartsFit(q: QueryAst)
    requires q.Grammatical() && Fits(q)
    ensures q.Core? ==> q.select.Grammatical() && |Matching(q.select)| < Pow2(SLOTS)
    ensures q.Compound? ==> q.left.Grammatical() && Fits(q.left) && q.right.Grammatical() && Fits(q.right)
    ensures q.Compound? && q.op != UnionAll ==>
      |Outcome(q.left).rows| < Pow2(SLOTS) && |Outcome(q.right).rows| < Pow2(SLOTS)
  {
    hide SelectAst.Grammatical, Matching, Outcome;
  }

  lemma NonEmptyAfter(run: Run<Tuple>)
    requires NonEmpty(run.rows)
    ensures NonEmpty(After(run).rows)
    ensures run.rows != [] ==> run.rows[0] != []
  {
  }

  /** The run of a set operation from the cached sides */
  lemma BothCached(q: QueryAst)
    requires q.Grammatical() && q.Compound? && q.op != UnionAll
    ensures q.left.Grammatical() && q.right.Grammatical()
    ensures var l, r := Outcome(q.left), Outcome(q.right);
      && NonEmpty(l.rows) && NonEmpty(r.rows)
      && if l.end != Done || r.end != Done then Outcome(q) == Run([], Broken)
         else
           && Sides(DocSet(l.rows), DocSet(r.rows))
           && Outcome(q) == Run(Combined(q.op, DocSet(l.rows), DocSet(r.rows)), Done)
  {
    hide NonEmpty, DocSet, Combined, Sides, CombinedDocs;
    CombinedDocSets(q.op, Outcome(q.left).rows, Outcome(q.right).rows);
  }

  lemma NoDocs()
    ensures NonEmpty([]) && Reverse([]) == DocItems([])
  {
  }

  lemma OneMoreDoc(seen: seq<Tuple>, t: Tuple, items: seq<Item>)
    requires NonEmpty(seen) && t != [] && Reverse(items) == DocItems(seen)
    ensures NonEmpty(seen + [t]) && Reverse([[t[0]]] + items) == DocItems(seen + [t])
  {
    DocItemsAppend(seen, t);
  }

  lemma AllDocs(seen: seq<Tuple>, items: seq<Item>)
    requires NonEmpty(seen) && Reverse(items) == DocItems(seen)
    ensures Keyed(First, items) && Keyed(First, Reverse(items)) && |items| == |seen|
    ensures SortedList(First, Reverse(items), true) == DocSet(seen)
  {
    ReverseTwice(items);
    ReverseKeyed(First, Reverse(items));
  }

  // ---------------------------------------------------------------- ORDER BY, LIMIT and OFFSET

  datatype OrderKey = OrderKey(expr: Tuple -> Value, descending: bool)

  /**
   * A whole query. A LIMIT or OFFSET expression that is present but not a number is `Some(None)`.
   */
  datatype WholeQuery = WholeQuery(
    body: QueryAst,
    orderBy: Option<seq<OrderKey>>,
    limit: Option<Option<real>>,
    offset: Option<Option<real>>)
  {
    function Keys(): Keys {
      By(if orderBy.None? then [] else seq(|orderBy.value|, i requires 0 <= i < |orderBy.value| => orderBy.value[i].descending))
    }

    /** How many rows to skip, and how many to return at most, a negative number meaning all. */
    function Skip(): nat {
      if offset.Some? && offset.value.Some? && Truncated(offset.value.value) > 0 then Truncated(offset.value.value) else 0
    }

    function Take(): int {
      if limit.Some? && limit.value.Some? then Truncated(limit.value.value) else -1
    }

    predicate CanRun() {
      body.Grammatical() && Fits(body) && (orderBy.Some? ==> |Outcome(body).rows| < Pow2(SLOTS))
    }
  }

  /** A number as the integer it is cast to. */
  function Truncated(r: real): (n: int)
    ensures r >= 0.0 ==> n as real <= r < n as real + 1.0
    ensures r < 0.0 ==> n as real - 1.0 < r <= n as real
  {
    if r >= 0.0 then r.Floor else -((-r).Floor)
  }

  function Docs(ts: seq<Tuple>): (docs: seq<Value>)
    requires NonEmpty(ts)
    ensures |docs| == |ts|
  {
    if ts == [] then [] else [ts[0][0]] + Docs(ts[1..])
  }

  /** A result row as ORDER BY sorts it: its keys, then its document. */
  function OrderItem(keys: seq<OrderKey>, t: Tuple): (item: Item)
    requires t != []
    ensures |item| == |keys| + 1
  {
    seq(|keys|, i requires 0 <= i < |keys| => keys[i].expr(t)) + [t[0]]
  }

  function OrderItems(q: WholeQuery, ts: seq<Tuple>): (items: seq<Item>)
    requires NonEmpty(ts) && q.orderBy.Some?
    ensures |items| == |ts| && Keyed(q.Keys(), items) && NonEmpty(items)
  {
    if ts == [] then [] else [OrderItem(q.orderBy.value, ts[0])] + OrderItems(q, ts[1..])
  }

  function LastDocs(items: seq<Item>): (docs: seq<Value>)
    requires NonEmpty(items)
    ensures |docs| == |items|
  {
    if items == [] then [] else [items[0][|items[0]| - 1]] + LastDocs(items[1..])
  }

  lemma SortedNonEmpty(keys: Keys, items: seq<Item>)
    requires Keyed(keys, items) && NonEmpty(items)
    ensures NonEmpty(StableSort(keys, items))
  {
    var t := StableSort(keys, items);
    StableSortSorts(keys, items);
    forall i | 0 <= i < |t|
      ensures t[i] != []
    {
      assert t[i] in multiset(items);
      assert t[i] in items;
    }
  }

  /** The documents, in the order ORDER BY asks for, equal keys keeping the order they came in. */
  function InOrder(q: WholeQuery, ts: seq<Tuple>): (docs: seq<Value>)
    requires NonEmpty(ts)
  {
    if q.orderBy.None? then Docs(ts)
    else
      SortedNonEmpty(q.Keys(), OrderItems(q, ts));
      LastDocs(StableSort(q.Keys(), OrderItems(q, ts)))
  }

  /**
   * What a query steps through before LIMIT and OFFSET. ORDER BY reads every row before the first one is
   * returned.
   */
  function OrderedRun(q: WholeQuery): (run: Run<Value>)
    requires q.body.Grammatical()
  {
    var run := Outcome(q.body);
    if q.orderBy.Some? && run.end != Done then Run([], Broken) else Run(InOrder(q, run.rows), run.end)
  }

  /**
   * The part of a run that OFFSET and LIMIT leave. Skipping steps over a row that is not there; a limit
   * that is reached hides how the run would have ended.
   */
  function Window<T>(run: Run<T>, skip: nat, take: int): Run<T> {
    if skip <= |run.rows| then Limited(Run(run.rows[skip..], run.end), take)
    else if run.end == Broken then run.(rows := [])
    else Run([], Done)
  }

  function Limited<T>(run: Run<T>, take: int): Run<T> {
    if 0 <= take <= |run.rows| then Run(run.rows[..take], Done) else run
  }

  /** What a query returns. */
  function Answer(q: WholeQuery): Run<Value>
    requires q.body.Grammatical()
  {
    Window(OrderedRun(q), q.Skip(), q.Take())
  }

  /** A query without DISTINCT over zero rows returns all its result documents, as far as the window goes. */
  lemma SaneAnswer(q: WholeQuery)
    requires q.body.Grammatical() && Sane(q.body)
    ensures NonEmpty(Tuples(q.body)) && Answer(q).end == Done
    ensures var docs := InOrder(q, Tuples(q.body));
      var rest := if q.Skip() >= |docs| then [] else docs[q.Skip()..];
      Answer(q).rows == if q.Take() < 0 || q.Take() >= |rest| then rest else rest[..q.Take()]
  {
    hide InOrder, Outcome, WholeQuery.Skip, WholeQuery.Take;
    SaneQueriesEnd(q.body);
  }

  /**
   * Exactly when a query comes to its end: it has no DISTINCT over zero rows, or its limit is reached
   * before the row that is not there, or OFFSET steps over that row.
   */
  lemma AnswerEnds(q: WholeQuery)
    requires q.body.Grammatical()
    ensures var run := OrderedRun(q);
      Answer(q).end == Done <==>
      || Sane(q.body)
      || (q.Skip() <= |run.rows| && 0 <= q.Take() <= |run.rows| - q.Skip())
      || (run.end == NoRow && q.Skip() > |run.rows|)
  {
    hide InOrder, Outcome, WholeQuery.Skip, WholeQuery.Take;
    SaneQueriesEnd(q.body);
  }

  lemma {:induction false} OrderItemsAppend(q: WholeQuery, ts: seq<Tuple>, t: Tuple)
    requires NonEmpty(ts) && t != [] && q.orderBy.Some?
    ensures OrderItems(q, ts + [t]) == OrderItems(q, ts) + [OrderItem(q.orderBy.value, t)]
  {
    if ts != [] {
      assert (ts + [t])[1..] == ts[1..] + [t];
      OrderItemsAppend(q, ts[1..], t);
    }
  }

  /** The run of the documents steps along with the run of the rows. */
  lemma DocsStep(run: Run<Tuple>)
    requires NonEmpty(run.rows)
    ensures NonEmpty(After(run).rows) && (run.rows != [] ==> run.rows[0] != [])
    ensures var docs := Run(Docs(run.rows), run.end);
      && Next(docs) == Next(run) && After(docs) == Run(Docs(After(run).rows), After(run).end)
      && Head(docs.rows) == if run.rows == [] then None else Some(run.rows[0][0])
  {
  }

  lemma LastDocsStep(items: seq<Item>)
    requires NonEmpty(items)
    ensures NonEmpty(Behind(items)) && (items != [] ==> items[0] != [])
    ensures Next(Run(LastDocs(items), Done)) == if items == [] then DONE else ROW
    ensures After(Run(LastDocs(items), Done)) == Run(LastDocs(Behind(items)), Done)
    ensures Head(LastDocs(items)) == if items == [] then None else Some(items[0][|items[0]| - 1])
  {
  }

  /** A query up to ORDER BY. */
  class OrderedQuery {
    const ast: WholeQuery
    const body: CompoundQuery
    /** The result rows have been collected and sorted. */
    var sorted: bool
    var ordered: seq<Item>

    ghost var live: bool
    ghost var run: Run<Value>
    ghost var at: Option<Value>
    ghost const repr: set<object>

    ghost predicate Valid()
      reads this, repr
    {
      && {this, body} <= repr && body.repr <= repr && this !in body.repr
      && ast.CanRun() && body.ast == ast.body && body.Valid()
      && NonEmpty(ordered)
      && (if sorted then at.Some? ==> ordered != [] && at.value == ordered[0][|ordered[0]| - 1]
          else match body.at case None => at == None case Some(t) => t != [] && at == Some(t[0]))
      && (live ==> Accounts())
    }

    ghost predicate Accounts()
      requires ast.CanRun() && NonEmpty(ordered)
      reads this, body
    {
      if ast.orderBy.None? then
        !sorted && body.live && NonEmpty(body.run.rows) && run == Run(Docs(body.run.rows), body.run.end)
      else if sorted then run == Run(LastDocs(Behind(ordered)), Done)
      else body.live && body.run == Outcome(ast.body) && run == OrderedRun(ast)
    }

    ghost predicate OnRow()
      reads this, body, body.select
    {
      if sorted then at.Some? else body.OnRow()
    }

    ghost predicate Stepped(was: Run<Value>, status: Status)
      reads this, body, body.select
    {
      && status == Next(was)
      && (status == ROW ==> live && run == After(was) && at == Head(was.rows) && OnRow())
      && (status == DONE ==> !live && at == None)
    }

    constructor (ast: WholeQuery)
      requires ast.CanRun()
      ensures Valid() && fresh(repr) && this.ast == ast
      ensures live && run == OrderedRun(ast)
    {
      hide CompoundQuery.Valid, Outcome, Docs, OrderItems, StableSort, Fits, QueryAst.Grammatical;
      this.ast := ast;
      var b := new CompoundQuery(ast.body);
      body := b;
      sorted, ordered := false, [];
      live, run, at := true, OrderedRun(ast), None;
      repr := {this, b} + b.repr;
    }

    method Rewind()
      requires Valid()
      modifies repr
      ensures Valid() && live && run == OrderedRun(ast)
    {
      hide CompoundQuery.Valid, Outcome, Docs, OrderItems, StableSort, Fits, QueryAst.Grammatical;
      body.Rewind();
      sorted, ordered := false, [];
      live, run, at := true, OrderedRun(ast), None;
    }

    /** Collects every result row behind its keys and sorts them; not ok if a row is not there. */
    method Collect() returns (ok: bool)
      requires Valid() && live && ast.orderBy.Some? && !sorted
      modifies body.repr, `ordered
      ensures ok <==> Outcome(ast.body).end == Done
      ensures ok ==> body.Valid() && NonEmpty(ordered) && OrderedRun(ast) == Run(LastDocs(ordered), Done)
    {
      hide CompoundQuery.Valid, Outcome, Pow2, SLOTS, CompareItems, HasKeys, Keyed, QueryAst.Grammatical, Fits, NonEmpty,
        Reverse, OrderItems, StableSort, Next, After, Head, Left, CompoundQuery.OnRow, OrderedRun, LastDocs;
      ghost var all := body.run;
      var items: seq<Item> := [];
      ghost var seen: seq<Tuple> := [];
      NoneOrdered(ast);
      WalkStarts(all);
      var status := body.Step();
      while status == ROW
        invariant NonEmpty(seen) && Walked(all, seen, status, body.at, body.run)
        invariant Reverse(items) == OrderItems(ast, seen)
        invariant status != NULL ==> body.Valid()
        invariant status == ROW ==> body.live && body.OnRow()
        decreases status == ROW, Left(body.run)
      {
        var t := body.Current();
        if t == None {
          return false;
        }
        OneOrdered(ast, seen, t.value, items);
        WalkGoesOn(all, seen, body.at, body.run);
        items, seen := [OrderItem(ast.orderBy.value, t.value)] + items, seen + [t.value];
        status := body.Step();
      }
      ok := status == DONE;
      if ok {
        AllOrdered(ast, seen, items);
        ordered := SortResultList(ast.Keys(), items, false);
      }
    }

    method Step() returns (status: Status)
      requires Valid() && live
      modifies repr
      ensures (status != NULL ==> Valid()) && Stepped(old(run), status)
    {
      hide Valid;
      if ast.orderBy.None? {
        status := StepUnordered();
      } else {
        status := StepSorted();
      }
    }

    method StepUnordered() returns (status: Status)
      requires Valid() && live && ast.orderBy.None?
      modifies repr
      ensures (status != NULL ==> Valid()) && Stepped(old(run), status)
    {
      hide CompoundQuery.Valid, Outcome, OrderedRun, Docs, LastDocs, Fits, QueryAst.Grammatical, NonEmpty,
        CompoundQuery.OnRow;
      DocsStep(body.run);
      status := body.Step();
      live, at := status == ROW, if body.at.Some? && body.at.value != [] then Some(body.at.value[0]) else None;
      run := After(run);
    }

    method StepSorted() returns (status: Status)
      requires Valid() && live && ast.orderBy.Some?
      modifies repr
      ensures (status != NULL ==> Valid()) && Stepped(old(run), status)
    {
      hide CompoundQuery.Valid, Outcome, OrderedRun, LastDocs, Fits, QueryAst.Grammatical, NonEmpty,
        CompoundQuery.OnRow, Docs;
      if !sorted {
        BrokenOrder(ast);
        var ok := Collect();
        if !ok {
          return NULL;
        }
        sorted := true;
      } else {
        LastDocsStep(ordered);
        ordered := Behind(ordered);
      }
      LastDocsStep(ordered);
      status := if ordered != [] then ROW else DONE;
      live, at := status == ROW, if ordered != [] then Some(ordered[0][|ordered[0]| - 1]) else None;
      run := After(run);
    }

    method Doc() returns (doc: Option<Value>)
      requires Valid() && OnRow()
      ensures doc == at
    {
      hide CompoundQuery.Valid, Accounts, Fits, QueryAst.Grammatical, CompoundQuery.OnRow;
      if sorted {
        doc := Some(ordered[0][|ordered[0]| - 1]);
      } else {
        doc := body.Doc();
      }
    }
  }

  lemma NoneOrdered(q: WholeQuery)
    requires q.orderBy.Some?
    ensures NonEmpty([]) && Reverse([]) == OrderItems(q, [])
  {
  }

  lemma OneOrdered(q: WholeQuery, seen: seq<Tuple>, t: Tuple, items: seq<Item>)
    requires q.orderBy.Some? && NonEmpty(seen) && t != [] && Reverse(items) == OrderItems(q, seen)
    ensures NonEmpty(seen + [t])
    ensures Reverse([OrderItem(q.orderBy.value, t)] + items) == OrderItems(q, seen + [t])
  {
    OrderItemsAppend(q, seen, t);
  }

  lemma AllOrdered(q: WholeQuery, seen: seq<Tuple>, items: seq<Item>)
    requires q.CanRun() && q.orderBy.Some? && Outcome(q.body) == Run(seen, Done)
    requires NonEmpty(seen) && Reverse(items) == OrderItems(q, seen)
    ensures Keyed(q.Keys(), items) && |items| < Pow2(SLOTS) && Keyed(q.Keys(), Reverse(items))
    ensures var sorted := SortedList(q.Keys(), Reverse(items), false);
      NonEmpty(sorted) && OrderedRun(q) == Run(LastDocs(sorted), Done)
  {
    hide Fits, QueryAst.Grammatical, Outcome, HasKeys, Pow2;
    ReverseTwice(items);
    ReverseKeyed(q.Keys(), Reverse(items));
    SortedNonEmpty(q.Keys(), OrderItems(q, seen));
  }

  lemma BrokenOrder(q: WholeQuery)
    requires q.CanRun() && q.orderBy.Some?
    ensures Outcome(q.body).end != Done ==> OrderedRun(q) == Run([], Broken)
  {
    hide Outcome, Fits, QueryAst.Grammatical;
  }

  /** The run after k steps that all reported a row */
  function Skipped<T>(run: Run<T>, k: nat): Run<T> {
    if k <= |run.rows| then Run(run.rows[k..], run.end) else Run([], Done)
  }

  lemma SkipOne<T>(run: Run<T>, k: nat, skip: nat, take: int)
    requires k < skip && (k <= |run.rows| || run.end != Broken)
    ensures match Next(Skipped(run, k))
            case ROW => After(Skipped(run, k)) == Skipped(run, k + 1) && (k + 1 <= |run.rows| || run.end != Broken)
            case DONE => Window(run, skip, take) == Run([], Done)
            case NULL => Window(run, skip, take) == Run([], Broken)
  {
  }

  lemma LimitedStep<T>(run: Run<T>, take: int)
    requires take != 0
    ensures var limited := Limited(run, take);
      && Next(limited) == Next(run) && Head(limited.rows) == Head(run.rows)
      && After(limited) == Limited(After(run), if take > 0 then take - 1 else take)
  {
  }

  /** A whole query. */
  class Query {
    const ast: WholeQuery
    const ordered: OrderedQuery
    var bLimitValid: bool
    var nLimit: int

    ghost var live: bool
    ghost var run: Run<Value>
    ghost var at: Option<Value>
    ghost const repr: set<object>

    ghost predicate Valid()
      reads this, repr
    {
      && {this, ordered} <= repr && ordered.repr <= repr && this !in ordered.repr
      && ast.CanRun() && ordered.ast == ast && ordered.Valid()
      && (live ==>
            && ordered.live
            && (if bLimitValid then run == Limited(ordered.run, nLimit)
                else ordered.run == OrderedRun(ast) && run == Answer(ast)))
    }

    ghost predicate OnRow()
      reads this, ordered, ordered.body, ordered.body.select
    {
      at == ordered.at && ordered.OnRow()
    }

    ghost predicate Stepped(was: Run<Value>, status: Status)
      reads this, ordered, ordered.body, ordered.body.select
    {
      && status == Next(was)
      && (status == ROW ==> live && run == After(was) && at == Head(was.rows) && OnRow())
      && (status == DONE ==> !live && at == None)
    }

    constructor (ast: WholeQuery)
      requires ast.CanRun()
      ensures Valid() && fresh(repr) && this.ast == ast
      ensures live && run == Answer(ast)
    {
      hide OrderedQuery.Valid, OrderedRun, Fits, QueryAst.Grammatical, Window;
      this.ast := ast;
      var o := new OrderedQuery(ast);
      ordered := o;
      bLimitValid, nLimit := false, 0;
      live, run, at := true, Answer(ast), None;
      repr := {this, o} + o.repr;
    }

    method Rewind()
      requires Valid()
      modifies repr
      ensures Valid() && live && run == Answer(ast)
    {
      hide OrderedQuery.Valid, OrderedRun, Fits, QueryAst.Grammatical, Window;
      ordered.Rewind();
      bLimitValid := false;
      live, run, at := true, Answer(ast), None;
    }

    /** Steps over the rows before the window. */
    method SkipRows() returns (status: Status)
      requires Valid() && live && !bLimitValid
      modifies ordered.repr
      ensures match status
              case ROW =>
                && ordered.Valid() && ordered.live
                && Limited(ordered.run, ast.Take()) == Window(OrderedRun(ast), ast.Skip(), ast.Take())
              case DONE => ordered.Valid() && Window(OrderedRun(ast), ast.Skip(), ast.Take()) == Run([], Done)
              case NULL => Window(OrderedRun(ast), ast.Skip(), ast.Take()) == Run([], Broken)
    {
      hide OrderedQuery.Valid, OrderedRun, WholeQuery.CanRun, WholeQuery.Take, Next, After, OrderedQuery.OnRow;
      ghost var all := ordered.run;
      status := ROW;
      if ast.offset.Some? && ast.offset.value.Some? {
        var nOffset := Truncated(ast.offset.value.value);
        ghost var k := 0;
        while nOffset > 0
          invariant ordered.Valid() && status == ROW && ordered.live
          invariant k <= ast.Skip() && (k <= |all.rows| || all.end != Broken)
          invariant if nOffset > 0 then k + nOffset == ast.Skip() else k == ast.Skip()
          invariant ordered.run == Skipped(all, k)
          decreases nOffset
        {
          SkipOne(all, k, ast.Skip(), ast.Take());
          status := ordered.Step();
          if status != ROW {
            return;
          }
          k, nOffset := k + 1, nOffset - 1;
        }
      }
    }

    method Step() returns (status: Status)
      requires Valid() && live
      modifies repr
      ensures (status != NULL ==> Valid()) && Stepped(old(run), status)
    {
      hide OrderedQuery.Valid, OrderedRun, WholeQuery.CanRun, Window, Limited, WholeQuery.Skip, OrderedQuery.OnRow;
      status := ROW;
      if !bLimitValid {
        status := SkipRows();
        nLimit := -1;
        if ast.limit.Some? && ast.limit.value.Some? {
          nLimit := Truncated(ast.limit.value.value);
        }
        bLimitValid := true;
      }
      if status == ROW {
        status := StepWindow();
      } else {
        live, at := false, None;
      }
    }

    method StepWindow() returns (status: Status)
      requires Valid() && live && bLimitValid
      modifies repr
      ensures (status != NULL ==> Valid()) && Stepped(old(run), status)
    {
      hide OrderedQuery.Valid, OrderedRun, WholeQuery.CanRun, OrderedQuery.OnRow;
      if nLimit == 0 {
        status, live, at := DONE, false, None;
      } else {
        LimitedStep(ordered.run, nLimit);
        hide Limited;
        status := ordered.Step();
        if nLimit > 0 {
          nLimit := nLimit - 1;
        }
        live, at, run := status == ROW, ordered.at, After(run);
      }
    }

    /** The document of the current row, or nothing if it is not there. */
    method Doc() returns (doc: Option<Value>)
      requires Valid() && OnRow()
      ensures doc == at
    {
      hide OrderedQuery.Valid, OrderedRun, WholeQuery.CanRun, OrderedQuery.OnRow;
      doc := ordered.Doc();
    }
  }

  /**
   * From any state: rewound and stepped to the end, a query returns exactly its answer, and comes to the
   * end unless it is asked for a row that is not there.
   */
  method RunQuery(q: Query) returns (docs: seq<Value>, ok: bool)
    requires q.Valid()
    modifies q.repr
    ensures docs == Answer(q.ast).rows && (ok <==> Answer(q.ast).end == Done)
    ensures ok ==> q.Valid()
  {
    hide Query.Valid, Answer, Query.OnRow, Next, After, Head, Left;
    q.Rewind();
    ghost var all := q.run;
    docs := [];
    WalkStarts(all);
    var status := q.Step();
    while status == ROW
      invariant Walked(all, docs, status, q.at, q.run)
      invariant status != NULL ==> q.Valid()
      invariant status == ROW ==> q.live && q.OnRow()
      decreases status == ROW, Left(q.run)
    {
      var doc := q.Doc();
      if doc == None {
        return docs, false;
      }
      WalkGoesOn(all, docs, q.at, q.run);
      docs := docs + [doc.value];
      status := q.Step();
    }
    ok := status == DONE;
  }
}
