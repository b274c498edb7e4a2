/** A query that reports a row which is not there. */
module QueryExamples {
  import opened JsonValues
  import opened JsonOrder
  import opened ResultLists
  import opened SetOperations
  import opened Flattening
  import opened DataSources
  import opened QueryRuns
  import opened Selects
  import opened Queries

  /**
   * SELECT DISTINCT FROM an empty collection: the first step reports a row, and there is no document to it.
   * ORDER BY and a set operation read that document and so follow a null pointer; a query that skips the
   * row comes to its end.
   */
  lemma DistinctOverNothing(select: SelectAst, q: WholeQuery)
    requires select == SelectAst(Table([]), None, None, None, None, None, true)
    requires q == WholeQuery(Core(select), None, None, None)
    ensures q.CanRun() && Matching(select) == []
    ensures Answer(q) == Run([], NoRow) && Next(Answer(q)) == ROW && Head(Answer(q).rows) == None
    ensures Answer(q.(orderBy := Some([]))) == Run([], Broken)
    ensures Answer(q.(body := Compound(UnionOp, q.body, q.body))) == Run([], Broken)
    ensures Answer(q.(offset := Some(Some(1.0)))) == Run([], Done)
  {
    NothingSelected(select);
    assert OrderedRun(q) == Run([], NoRow);
  }

  lemma NothingSelected(select: SelectAst)
    requires select == SelectAst(Table([]), None, None, None, None, None, true)
    ensures select.Grammatical() && Matching(select) == [] && SelectRun(select) == Run([], NoRow)
  {
    assert GroupedTuples(select) == [] && DistinctItems(select, []) == [];
    StableSortSorts(First, []);
    assert StableSort(First, []) == [];
  }

  /** The query of DistinctOverNothing at work: the first step reports a row, and there is no document. */
  method StepDistinct() returns (status: Status, doc: Option<Value>)
    ensures status == ROW && doc == None
  {
    hide *;
    var select := SelectAst(Table([]), None, None, None, None, None, true);
    var q := WholeQuery(Core(select), None, None, None);
    DistinctOverNothing(select, q);
    var query := new Query(q);
    ghost var all := query.run;
    status := query.Step();
    NoRowThere(query, all, status);
    doc := query.Doc();
  }

  lemma NoRowThere(query: Query, all: Run<Value>, status: Status)
    requires query.Stepped(all, status) && all == Run([], NoRow)
    ensures status == ROW && query.live && query.OnRow() && query.at == None
  {
    hide Query.OnRow;
  }
}
