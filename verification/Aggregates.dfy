/** The aggregate functions of src/func.c and how a query steps and finalizes them. */
module Aggregates {
  import opened JsonValues
  import opened JsonOrder
  import opened Flattening
  import opened DataSources

  /** An aggregate call; its argument is evaluated on a row, and converted to a number for sum and avg. */
  datatype Agg =
    | CountRows
    | CountOf(arg: Row -> Value)
    | Min(arg: Row -> Value)
    | Max(arg: Row -> Value)
    | ArrayOf(arg: Row -> Value)
    | Sum(num: Row -> Option<real>)
    | Avg(num: Row -> Option<real>)

  /** What a call has gathered; no context yet is a null pointer. */
  datatype Ctx =
    | NoCtx
    | Counted(n: nat)
    | Best(v: Value)
    | Collected(elems: seq<Value>)
    | Summed(sum: real)
    | Averaged(rows: nat, total: real)

  /** A step on one row: the new context, and whether the row is one to save. */
  function StepOne(f: Agg, c: Ctx, row: Row): (Ctx, bool) {
    match f
    case CountRows => (Counted(if c.Counted? then c.n + 1 else 1), false)
    case CountOf(arg) =>
      var one := if arg(row).Null? then 0 else 1;
      (Counted(if c.Counted? then c.n + one else one), false)
    case Min(arg) =>
      if !c.Best? || Compare(arg(row), c.v) < 0 then (Best(arg(row)), true) else (c, false)
    case Max(arg) =>
      if !c.Best? || Compare(arg(row), c.v) > 0 then (Best(arg(row)), true) else (c, false)
    case ArrayOf(arg) => (Collected((if c.Collected? then c.elems else []) + [arg(row)]), false)
    case Sum(num) =>
      (Summed((if c.Summed? then c.sum else 0.0) + if num(row).Some? then num(row).value else 0.0), false)
    case Avg(num) =>
      var x := if num(row).Some? then num(row).value else 0.0;
      (if c.Averaged? then Averaged(c.rows + 1, c.total + x) else Averaged(1, x), false)
  }

  function Final(f: Agg, c: Ctx): Value {
    match f
    case CountRows => Real(if c.Counted? then c.n as real else 0.0)
    case CountOf(_) => Real(if c.Counted? then c.n as real else 0.0)
    case Min(_) => if c.Best? then c.v else Null
    case Max(_) => if c.Best? then c.v else Null
    case ArrayOf(_) => Array(if c.Collected? then c.elems else [])
    case Sum(_) => Real(if c.Summed? then c.sum else 0.0)
    case Avg(_) => if c.Averaged? && c.rows > 0 then Real(c.total / c.rows as real) else Null
  }

  /** The context after a run of rows. */
  function Gathered(f: Agg, rows: seq<Row>): Ctx {
    if rows == [] then NoCtx else StepOne(f, Gathered(f, rows[..|rows| - 1]), rows[|rows| - 1]).0
  }

  /** Whether a call asks to save a row that comes after some others: only min and max ever do. */
  predicate SavesRow(f: Agg, before: seq<Row>, row: Row) {
    StepOne(f, Gathered(f, before), row).1
  }

  predicate AnySaves(fs: seq<Agg>, before: seq<Row>, row: Row) {
    exists i :: 0 <= i < |fs| && SavesRow(fs[i], before, row)
  }

  // ---------------------------------------------------------------- what the calls mean

  function Arguments(arg: Row -> Value, rows: seq<Row>): (r: seq<Value>)
    ensures |r| == |rows|
    ensures forall i :: 0 <= i < |rows| ==> r[i] == arg(rows[i])
  {
    seq(|rows|, i requires 0 <= i < |rows| => arg(rows[i]))
  }

  function Total(num: Row -> Option<real>, rows: seq<Row>): real {
    if rows == [] then 0.0
    else Total(num, rows[..|rows| - 1]) + match num(rows[|rows| - 1]) { case Some(x) => x case None => 0.0 }
  }

  function NonNull(arg: Row -> Value, rows: seq<Row>): (n: nat) {
    if rows == [] then 0
    else NonNull(arg, rows[..|rows| - 1]) + if arg(rows[|rows| - 1]).Null? then 0 else 1
  }

  /** `v` is one of the arguments, and none of them is less (`sign` 1) or greater (`sign` -1). */
  ghost predicate IsExtreme(arg: Row -> Value, rows: seq<Row>, v: Value, sign: int) {
    && (exists i :: 0 <= i < |rows| && v == arg(rows[i]))
    && (forall i :: 0 <= i < |rows| ==> sign * Compare(v, arg(rows[i])) <= 0)
  }

  /** What an aggregate call returns for a set of rows. */
  ghost predicate Aggregated(f: Agg, rows: seq<Row>, v: Value) {
    match f
    case CountRows => v == Real(|rows| as real)
    case CountOf(arg) => v == Real(NonNull(arg, rows) as real)
    case Min(arg) => if rows == [] then v == Null else IsExtreme(arg, rows, v, 1)
    case Max(arg) => if rows == [] then v == Null else IsExtreme(arg, rows, v, -1)
    case ArrayOf(arg) => v == Array(Arguments(arg, rows))
    case Sum(num) => v == Real(Total(num, rows))
    case Avg(num) => if rows == [] then v == Null else v == Real(Total(num, rows) / |rows| as real)
  }

  /** What the context of a call says about the rows it has seen. */
  ghost predicate Tells(f: Agg, rows: seq<Row>, c: Ctx) {
    if rows == [] then c == NoCtx
    else match f
      case CountRows => c == Counted(|rows|)
      case CountOf(arg) => c == Counted(NonNull(arg, rows))
      case Min(arg) => c.Best? && IsExtreme(arg, rows, c.v, 1)
      case Max(arg) => c.Best? && IsExtreme(arg, rows, c.v, -1)
      case ArrayOf(arg) => c == Collected(Arguments(arg, rows))
      case Sum(num) => c == Summed(Total(num, rows))
      case Avg(num) => c == Averaged(|rows|, Total(num, rows))
  }

  lemma StepTells(f: Agg, before: seq<Row>, row: Row, c: Ctx)
    requires Tells(f, before, c)
    ensures Tells(f, before + [row], StepOne(f, c, row).0)
  {
    var rows := before + [row];
    assert rows[..|rows| - 1] == before && rows[|rows| - 1] == row;
    match f {
      case Min(arg) => ExtremeStep(arg, before, row, if c.Best? then c.v else Null, StepOne(f, c, row).0.v, 1);
      case Max(arg) => ExtremeStep(arg, before, row, if c.Best? then c.v else Null, StepOne(f, c, row).0.v, -1);
      case ArrayOf(arg) => assert Arguments(arg, rows) == Arguments(arg, before) + [arg(row)];
      case Sum(num) => assert Total(num, []) == 0.0;
      case Avg(num) => assert Total(num, []) == 0.0;
      case _ =>
    }
  }

  /** Stepping a call through a set of rows and finalizing it returns what the call stands for. */
  lemma {:induction false} GatheredMeans(f: Agg, rows: seq<Row>)
    ensures Tells(f, rows, Gathered(f, rows))
    ensures Aggregated(f, rows, Final(f, Gathered(f, rows)))
  {
    if rows != [] {
      var before, row := rows[..|rows| - 1], rows[|rows| - 1];
      GatheredMeans(f, before);
      StepTells(f, before, row, Gathered(f, before));
      assert rows == before + [row];
    }
  }

  lemma Improves(v: Value, was: Value, x: Value, sign: int)
    requires sign == 1 || sign == -1
    requires sign * Compare(v, was) < 0 && sign * Compare(was, x) <= 0
    ensures sign * Compare(v, x) <= 0
  {
    hide *;
    if sign == 1 {
      CompareTransitive(v, was, x);
    } else {
      CompareNegates(was, x);
      CompareNegates(v, x);
      CompareNegates(v, was);
      CompareTransitive(x, was, v);
    }
  }

  lemma ExtremeStep(arg: Row -> Value, before: seq<Row>, row: Row, was: Value, v: Value, sign: int)
    requires sign == 1 || sign == -1
    requires before != [] ==> IsExtreme(arg, before, was, sign)
    requires v == if before == [] || sign * Compare(arg(row), was) < 0 then arg(row) else was
    ensures IsExtreme(arg, before + [row], v, sign)
  {
    hide Compare;
    var rows := before + [row];
    assert rows[|rows| - 1] == row;
    CompareNegates(arg(row), was);
    CompareNegates(v, v);
    if before != [] {
      var k :| 0 <= k < |before| && was == arg(before[k]);
      assert rows[k] == before[k];
    }
    forall i | 0 <= i < |rows|
      ensures sign * Compare(v, arg(rows[i])) <= 0
    {
      if i < |before| {
        assert rows[i] == before[i];
        if v != was {
          Improves(v, was, arg(rows[i]), sign);
        }
      }
    }
  }

  // ---------------------------------------------------------------- the aggregates of a query

  function Contexts(fs: seq<Agg>, rows: seq<Row>): (r: seq<Ctx>)
    ensures |r| == |fs|
  {
    seq(|fs|, i requires 0 <= i < |fs| => Gathered(fs[i], rows))
  }

  /** What the calls of a query return for a set of rows. */
  function Finals(fs: seq<Agg>, rows: seq<Row>): (r: seq<Value>)
    ensures |r| == |fs|
  {
    seq(|fs|, i requires 0 <= i < |fs| => Final(fs[i], Gathered(fs[i], rows)))
  }

  class Aggregate {
    const calls: seq<Agg>
    var ctx: seq<Ctx>
    var values: seq<Value>
    /** The rows stepped since the last finalization. */
    ghost var seen: seq<Row>

    ghost predicate Valid()
      reads this
    {
      |values| == |calls| && ctx == Contexts(calls, seen)
    }

    constructor (calls: seq<Agg>)
      ensures Valid() && this.calls == calls && seen == []
    {
      this.calls := calls;
      ctx := seq(|calls|, _ => NoCtx);
      values := seq(|calls|, _ => Absent);
      seen := [];
    }

    /** Steps every call on one row. */
    method Step(row: Row) returns (save: bool)
      requires Valid()
      modifies `ctx, `seen
      ensures Valid() && seen == old(seen) + [row]
      ensures save == AnySaves(calls, old(seen), row)
    {
      hide StepOne;
      save := false;
      ghost var now := seen + [row];
      assert now[..|seen|] == seen;
      for i := 0 to |calls|
        invariant |ctx| == |calls| && seen == old(seen)
        invariant forall j :: 0 <= j < i ==> ctx[j] == Gathered(calls[j], now)
        invariant forall j :: i <= j < |calls| ==> ctx[j] == Gathered(calls[j], seen)
        invariant save == exists j :: 0 <= j < i && SavesRow(calls[j], seen, row)
      {
        var (c, saves) := StepOne(calls[i], ctx[i], row);
        assert saves == SavesRow(calls[i], seen, row);
        ctx := ctx[i := c];
        save := save || saves;
      }
      seen := seen + [row];
    }

    /** Takes the value of every call and starts them all over. */
    method Finalize()
      requires Valid()
      modifies this
      ensures Valid() && seen == [] && values == Finals(calls, old(seen))
    {
      hide Final;
      for i := 0 to |calls|
        invariant |values| == |ctx| == |calls|
        invariant values[..i] == Finals(calls, old(seen))[..i]
        invariant forall j :: 0 <= j < i ==> ctx[j] == NoCtx
        invariant ctx[i..] == Contexts(calls, old(seen))[i..]
      {
        assert ctx[i] == ctx[i..][0] == Gathered(calls[i], old(seen));
        values, ctx := values[i := Final(calls[i], ctx[i])], ctx[i := NoCtx];
        assert ctx[i + 1..] == Contexts(calls, old(seen))[i + 1..];
      }
      seen := [];
    }

    /** Drops what was gathered, as a rewind does. */
    method Clear()
      requires Valid()
      modifies this
      ensures Valid() && seen == []
    {
      ctx, values, seen := seq(|calls|, _ => NoCtx), seq(|calls|, _ => Absent), [];
    }
  }
}
