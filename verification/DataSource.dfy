/** The sources of a FROM clause: collections, paths, EACH and FLATTEN, joins. */
module DataSources {
  import opened JsonValues
  import opened JsonOrder
  import opened Flattening

  /** The documents of one row, one per source that is not a join, left to right. */
  type Row = seq<Value>

  /**
   * A FROM clause as parsed. `Table` is a named collection, given by the documents its cursor returns;
   * `Elements` a path whose value is walked if it is an array; `Nothing` the empty FROM clause.
   */
  datatype Source =
    | Table(docs: seq<Value>)
    | Elements(path: Value)
    | Operator(base: Source, expr: Path, alias: Option<CString>, recursive: bool)
    | Join(left: Source, right: Source)
    | Nothing
  {
    /** EACH and FLATTEN apply to a single item of the FROM list, as the grammar has it. */
    predicate Grammatical() {
      match this
      case Operator(base, _, _, _) => !base.Join? && base.Grammatical()
      case Join(left, right) => left.Grammatical() && right.Grammatical()
      case _ => true
    }

    function Width(): (n: nat)
      ensures n > 0
    {
      if Join? then left.Width() + right.Width() else 1
    }
  }

  // ---------------------------------------------------------------- what a source means

  function RowsOf(docs: seq<Value>): (r: seq<Row>)
    ensures |r| == |docs|
  {
    if docs == [] then [] else [[docs[0]]] + RowsOf(docs[1..])
  }

  function Prefixed(row: Row, rows: seq<Row>): (r: seq<Row>)
    ensures |r| == |rows|
  {
    if rows == [] then [] else [row + rows[0]] + Prefixed(row, rows[1..])
  }

  /** The product, all of `rows` for the first of `ls` before any for the second. */
  function Product(ls: seq<Row>, rs: seq<Row>): seq<Row> {
    if ls == [] then [] else Prefixed(ls[0], rs) + Product(ls[1..], rs)
  }

  /** The path a row's object gets its entry at. */
  function Target(expr: Path, alias: Option<CString>): Path {
    if alias.Some? then Id(alias.value) else expr
  }

  /** The rows for one object, from the entries found in it. */
  function Built(base: Value, s: Source, es: seq<Entry>): (r: seq<Row>)
    requires s.Operator? && (es != [] ==> CanPut(base, Target(s.expr, s.alias)))
    ensures |r| == |es|
  {
    if es == [] then []
    else
      [[FlattenedObject(base, KeyOf(es[0], s.recursive), es[0].value, Target(s.expr, s.alias))]]
      + Built(base, s, es[1..])
  }

  /** If the path finds anything in an object, an entry can be put into that object. */
  lemma EntriesCanBePut(base: Value, s: Source)
    requires s.Operator? && EntriesAt(base, s.expr, s.recursive) != []
    ensures CanPut(base, Target(s.expr, s.alias))
  {
    FoundCanPut(base, s.expr);
  }

  /** The rows an operator makes of one row of its base. */
  function Expanded(row: Row, s: Source): seq<Row>
    requires s.Operator?
  {
    if row == [] then []
    else
      var es := EntriesAt(row[0], s.expr, s.recursive);
      if es == [] then []
      else
        EntriesCanBePut(row[0], s);
        Built(row[0], s, es)
  }

  function ExpandedAll(rows: seq<Row>, s: Source): seq<Row>
    requires s.Operator?
  {
    if rows == [] then [] else Expanded(rows[0], s) + ExpandedAll(rows[1..], s)
  }

  function ElementsOf(path: Value): seq<Value> {
    if path.Array? then path.elems else []
  }

  /** The rows of a source: a left-major product for a join, a flat map for an operator. */
  function Rows(s: Source): seq<Row> {
    match s
    case Table(docs) => RowsOf(docs)
    case Elements(path) => RowsOf(ElementsOf(path))
    case Operator(base, _, _, _) => ExpandedAll(Rows(base), s)
    case Join(left, right) => Product(Rows(left), Rows(right))
    case Nothing => [[Absent]]
  }

  lemma FirstRow(ls: seq<Row>, rs: seq<Row>)
    ensures ls == [] ==> Product(ls, rs) == []
    ensures ls != [] ==> Product(ls, rs) == Prefixed(ls[0], rs) + Product(ls[1..], rs)
  {
  }

  lemma FirstPrefixed(row: Row, rs: seq<Row>)
    ensures rs == [] ==> Prefixed(row, rs) == []
    ensures rs != [] ==> Prefixed(row, rs) == [row + rs[0]] + Prefixed(row, rs[1..])
  {
  }

  lemma {:induction false} NoProduct(ls: seq<Row>)
    ensures Product(ls, []) == []
  {
    if ls != [] {
      NoProduct(ls[1..]);
    }
  }

  lemma FirstExpanded(rows: seq<Row>, s: Source)
    requires s.Operator?
    ensures rows == [] ==> ExpandedAll(rows, s) == []
    ensures rows != [] ==> ExpandedAll(rows, s) == Expanded(rows[0], s) + ExpandedAll(rows[1..], s)
  {
  }

  lemma FirstBuilt(base: Value, s: Source, e: Entry, es: seq<Entry>)
    requires s.Operator? && CanPut(base, Target(s.expr, s.alias))
    ensures Built(base, s, [e] + es)
         == [[FlattenedObject(base, KeyOf(e, s.recursive), e.value, Target(s.expr, s.alias))]] + Built(base, s, es)
    ensures es == [] ==> Built(base, s, es) == []
  {
    assert ([e] + es)[1..] == es;
  }

  lemma GrammaticalParts(s: Source)
    requires s.Grammatical()
    ensures s.Join? ==> s.left.Grammatical() && s.right.Grammatical()
    ensures s.Operator? ==> s.base.Grammatical()
  {
  }

  // ---------------------------------------------------------------- the sources as they run

  class DataSrc {
    const ast: Source
    const left: DataSrc?
    const right: DataSrc?
    const iter: FlattenIter?
    var pValue: Value
    var bStart: bool
    var iNext: nat
    var isDone: bool

    /** The end has not been reported since the source was made or rewound. */
    ghost var live: bool
    /** The rows still to come. */
    ghost var rest: seq<Row>
    /** The row the source stands on, or nothing. */
    ghost var at: Row
    ghost const repr: set<object>

    /** The tree of objects follows the tree of the FROM clause, every object occurring once. */
    ghost predicate Valid()
      reads this, repr
      decreases ast
    {
      && this in repr && ast.Grammatical()
      && (left != null ==> left in repr) && (right != null ==> right in repr) && (iter != null ==> iter in repr)
      && (ast.Join? || ast.Operator? ==>
            && left != null && left.repr <= repr && this !in left.repr
            && left.ast == (if ast.Join? then ast.left else ast.base)
            && left.Valid())
      && (ast.Join? ==>
            && right != null && right.repr <= repr && this !in right.repr
            && left.repr !! right.repr
            && right.ast == ast.right
            && right.Valid())
      && (ast.Operator? ==>
            && iter != null && iter !in left.repr
            && iter.recursive == ast.recursive && iter.Valid())
      && Stands()
      && (live ==> Accounts())
    }

    /** What the source stands on is what its parts stand on. */
    ghost predicate Stands()
      requires ast.Join? ==> left != null && right != null
      reads this, left, right
    {
      at != [] ==>
        |at| == ast.Width() &&
        if ast.Join? then left.at != [] && right.at != [] && at == left.at + right.at
        else at == [pValue]
    }

    /** While the source is live its state accounts for the rows still to come. */
    ghost predicate Accounts()
      requires ast.Join? || ast.Operator? ==> left != null
      requires ast.Join? ==> right != null
      requires ast.Operator? ==> iter != null && iter.Valid()
      reads this, left, right, iter
    {
      match ast
      case Table(docs) =>
        iNext <= |docs| && rest == RowsOf(docs[iNext..])
      case Elements(path) =>
        iNext <= |ElementsOf(path)| && rest == RowsOf(ElementsOf(path)[iNext..])
      case Nothing =>
        pValue == Absent && rest == if isDone then [] else [[Absent]]
      case Join(l, r) =>
        && left.live && right.live
        && (if bStart then left.at != [] && rest == Prefixed(left.at, right.rest) + Product(left.rest, Rows(r))
            else left.rest == Rows(l) && right.rest == Rows(r) && rest == Product(Rows(l), Rows(r)))
      case Operator(_, _, _, _) =>
        && left.live
        && (iter.Rest() != [] ==> left.at != [] && CanPut(left.at[0], Target(ast.expr, ast.alias)))
        && rest == (if iter.Rest() == [] then [] else Built(left.at[0], ast, iter.Rest())) + ExpandedAll(left.rest, ast)
    }

    /** A step delivers the first of the rows that were still to come, or reports that there are none. */
    ghost predicate Stepped(was: seq<Row>, row: bool)
      reads this
    {
      && row == live == (was != [])
      && (row ==> rest == was[1..] && at == was[0] && |at| == ast.Width())
      && (!row ==> at == [])
    }

    constructor (ast: Source)
      requires ast.Grammatical()
      ensures Valid() && fresh(repr) && this.ast == ast
      ensures live && rest == Rows(ast) && this in repr
      decreases ast
    {
      hide Product, RowsOf, Built, ExpandedAll, Expanded, Prefixed, FlattenIter.Rest, FlattenIter.Valid, Valid, Accounts,
        Rows, Source.Grammatical;
      GrammaticalParts(ast);
      this.ast := ast;
      var l: DataSrc?, r: DataSrc?, it: FlattenIter? := null, null, null;
      ghost var objects: set<object> := {};
      if ast.Join? {
        l := new DataSrc(ast.left);
        r := new DataSrc(ast.right);
        objects := {l, r} + l.repr + r.repr;
      } else if ast.Operator? {
        l := new DataSrc(ast.base);
        it := new FlattenIter(ast.recursive);
        objects := {l, it} + l.repr;
      }
      left, right, iter := l, r, it;
      pValue, bStart, iNext, isDone := Absent, false, 0, false;
      live, rest, at := true, Rows(ast), [];
      repr := {this} + objects;
      new;
      Starts();
    }

    /** The tree below this source, whatever the state of the source itself */
    ghost predicate Parts()
      reads this, repr
    {
      && this in repr && ast.Grammatical()
      && (left != null ==> left in repr) && (right != null ==> right in repr) && (iter != null ==> iter in repr)
      && (ast.Join? || ast.Operator? ==>
            && left != null && left in left.repr && left.repr <= repr && this !in left.repr
            && left.ast == (if ast.Join? then ast.left else ast.base)
            && left.Valid())
      && (ast.Join? ==>
            && right != null && right in right.repr && right.repr <= repr && this !in right.repr
            && left.repr !! right.repr
            && right.ast == ast.right
            && right.Valid())
      && (ast.Operator? ==>
            && iter != null && iter !in left.repr
            && iter.recursive == ast.recursive && iter.Valid())
    }

    lemma Open()
      requires Valid()
      ensures Parts()
    {
      hide Stands, Accounts, Source.Grammatical, FlattenIter.Valid;
    }

    /** Before the first row */
    lemma Starts()
      requires Parts() && live && rest == Rows(ast) && at == []
      requires pValue == Absent && !bStart && iNext == 0 && !isDone
      requires ast.Join? || ast.Operator? ==> left.live && left.rest == Rows(left.ast)
      requires ast.Join? ==> right.live && right.rest == Rows(right.ast)
      requires ast.Operator? ==> iter.Rest() == []
      ensures Valid()
    {
      hide Product, RowsOf, Built, ExpandedAll, Expanded, Prefixed, FlattenIter.Rest, FlattenIter.Valid, Source.Grammatical;
    }

    /** Back to before the first row, from any state. */
    method Rewind()
      requires Valid()
      modifies repr
      ensures Valid() && live && rest == Rows(ast)
      decreases ast
    {
      hide Valid, Stands, Accounts, Rows, Source.Grammatical, FlattenIter.Valid, FlattenIter.Rest;
      Open();
      pValue, bStart, iNext, isDone := Absent, false, 0, false;
      live, rest, at := true, Rows(ast), [];
      if ast.Join? || ast.Operator? {
        left.Rewind();
        if ast.Join? {
          right.Rewind();
        } else {
          iter.Clear();
        }
      }
      Starts();
    }

    method StepLeaf() returns (row: bool)
      requires Valid() && live && !ast.Join? && !ast.Operator?
      modifies repr
      ensures Valid() && Stepped(old(rest), row)
    {
      row := false;
      if ast.Nothing? {
        row := !isDone;
        isDone := true;
      } else {
        var docs := if ast.Table? then ast.docs else ElementsOf(ast.path);
        pValue := Absent;
        if iNext < |docs| {
          assert docs[iNext..][1..] == docs[iNext + 1..];
          pValue, iNext, row := docs[iNext], iNext + 1, true;
        }
      }
      live, at := row, if row then [pValue] else [];
      rest := if row then rest[1..] else rest;
    }

    /** Starts with the left source's first row. */
    method StepJoin() returns (row: bool)
      requires Valid() && live && ast.Join?
      modifies repr
      ensures Valid() && Stepped(old(rest), row)
      decreases ast, 2
    {
      hide Rows, Product, Prefixed, RowsOf, Built, ExpandedAll, Expanded, FlattenIter.Rest, FlattenIter.Valid;
      row := true;
      at := [];
      if !bStart {
        live, bStart := false, true;
        FirstRow(left.rest, Rows(ast.right));
        row := left.Step();
      }
      if row {
        row := StepPair();
      } else {
        live := false;
      }
    }

    /** Every row of the right source for one row of the left, then the first row for the left's next. */
    method StepPair() returns (row: bool)
      requires Valid() && ast.Join? && left.live && right.live && bStart
      requires left.at != [] && at == []
      requires rest == Prefixed(left.at, right.rest) + Product(left.rest, Rows(ast.right))
      modifies repr
      ensures Valid() && Stepped(old(rest), row)
      decreases ast, 1
    {
      hide Rows, Product, Prefixed, RowsOf, Built, ExpandedAll, Expanded, FlattenIter.Rest, FlattenIter.Valid;
      live := false;
      FirstPrefixed(left.at, right.rest);
      row := right.Step();
      if !row {
        row := NextLeft();
      }
      if row {
        Arrive();
      }
    }

    /** Settles on the pair that both sides stand on. */
    ghost method Arrive()
      requires Valid() && ast.Join? && !live && left.live && right.live && bStart
      requires left.at != [] && right.at != [] && |left.at| == ast.left.Width() && |right.at| == ast.right.Width()
      requires rest == [left.at + right.at] + Prefixed(left.at, right.rest) + Product(left.rest, Rows(ast.right))
      modifies `live, `rest, `at
      ensures Valid() && Stepped(old(rest), true)
    {
      hide Rows, Product, Prefixed, RowsOf, Built, ExpandedAll, Expanded, FlattenIter.Rest, FlattenIter.Valid;
      live, rest, at := true, rest[1..], left.at + right.at;
    }

    /** Moves the left source on and starts the right one over. */
    method NextLeft() returns (row: bool)
      requires Valid() && ast.Join? && left.live && at == [] && !live
      modifies left, left.repr, right, right.repr
      ensures Valid()
      ensures row == (Product(old(left.rest), Rows(ast.right)) != [])
      ensures row ==>
        && left.live && right.live && left.at != [] && right.at != []
        && |left.at| == ast.left.Width() && |right.at| == ast.right.Width()
        && Product(old(left.rest), Rows(ast.right))
           == [left.at + right.at] + Prefixed(left.at, right.rest) + Product(left.rest, Rows(ast.right))
      decreases ast, 0
    {
      hide Rows, Product, Prefixed, RowsOf, Built, ExpandedAll, Expanded, FlattenIter.Rest, FlattenIter.Valid;
      FirstRow(left.rest, Rows(ast.right));
      row := left.Step();
      if row {
        right.Rewind();
        FirstPrefixed(left.at, right.rest);
        NoProduct(left.rest);
        row := right.Step();
      }
    }

    /** The next entry of the object the base stands on, or of the first later object that has one. */
    method NextEntry() returns (row: bool)
      requires Valid() && live && ast.Operator? && at == []
      modifies repr
      ensures Valid() && unchanged(`rest) && unchanged(`at)
      ensures row == (rest != [])
      ensures row ==> !live && left.live && OnObject(rest)
      ensures !row ==> !live
      decreases ast, 1
    {
      hide Rows, Product, Prefixed, RowsOf, Built, ExpandedAll, Expanded, FlattenIter.Rest, FlattenIter.Valid;
      live := false;
      row := iter.Next();
      var more := true;
      while !row && more
        invariant Valid() && !live && rest == old(rest) && at == old(at)
        invariant more ==> left.live
        invariant row ==> more && OnObject(rest)
        invariant !row ==> iter.Rest() == [] && rest == if more then ExpandedAll(left.rest, ast) else []
        decreases more, |left.rest|
      {
        more, row := NextObject();
      }
    }

    /** Moves the base on by one object and the iterator to the first of its entries. */
    method NextObject() returns (more: bool, row: bool)
      requires Valid() && !live && ast.Operator? && left.live && at == []
      requires rest == ExpandedAll(left.rest, ast)
      modifies left, left.repr, iter
      ensures Valid() && more == left.live && (more ==> |left.rest| < old(|left.rest|))
      ensures row ==> more && OnObject(rest)
      ensures !row ==> iter.Rest() == [] && rest == if more then ExpandedAll(left.rest, ast) else []
      decreases ast, 0
    {
      hide Rows, Product, Prefixed, RowsOf, Built, ExpandedAll, Expanded, FlattenIter.Rest, FlattenIter.Valid;
      row := false;
      iter.Clear();
      FirstExpanded(left.rest, ast);
      more := left.Step();
      if more {
        iter.Begin(left.pValue, ast.expr);
        StartObject(left.at, iter.Rest());
        row := iter.Next();
      }
    }

    lemma StartObject(row: Row, es: seq<Entry>)
      requires ast.Operator? && row != [] && es == EntriesAt(row[0], ast.expr, ast.recursive)
      ensures es == [] ==> Expanded(row, ast) == []
      ensures es != [] ==> CanPut(row[0], Target(ast.expr, ast.alias)) && Expanded(row, ast) == Built(row[0], ast, es)
    {
      if es != [] {
        EntriesCanBePut(row[0], ast);
      }
    }

    /** The operator's iterator stands on an entry, and `was` starts with the row for it. */
    ghost predicate OnObject(was: seq<Row>)
      requires ast.Operator? && left != null && iter != null && iter.Valid()
      reads this, left, iter
    {
      && iter.OnEntry() && left.at != [] && CanPut(left.at[0], Target(ast.expr, ast.alias))
      && was == Built(left.at[0], ast, [Here(iter.stack)] + iter.Rest()) + ExpandedAll(left.rest, ast)
    }

    /** The object the base stands on with the next of its entries put into it. */
    method StepOperator() returns (row: bool)
      requires Valid() && live && ast.Operator?
      modifies repr
      ensures Valid() && Stepped(old(rest), row)
      decreases ast, 2
    {
      hide Rows, Product, Prefixed, RowsOf, Built, ExpandedAll, Expanded, FlattenIter.Rest,
        FlattenedObject, CanPut, Here, KeyOf, Target;
      pValue, at := Absent, [];
      row := NextEntry();
      if row {
        PutEntry();
      }
    }

    method PutEntry()
      requires Valid() && ast.Operator? && !live && left.live && OnObject(rest) && at == []
      modifies `pValue, `live, `rest, `at
      ensures Valid() && Stepped(old(rest), true)
    {
      hide Rows, Product, Prefixed, RowsOf, Built, ExpandedAll, Expanded, FlattenIter.Rest,
        FlattenedObject, CanPut, Here, KeyOf, Target, GoodStack;
      FirstBuilt(left.at[0], ast, Here(iter.stack), iter.Rest());
      var key, val := iter.EntryAt();
      pValue := FlattenedObject(left.pValue, key, val, Target(ast.expr, ast.alias));
      live, rest, at := true, rest[1..], [pValue];
    }

    method Step() returns (row: bool)
      requires Valid() && live
      modifies repr
      ensures Valid() && Stepped(old(rest), row)
      decreases ast, 3
    {
      if ast.Join? {
        row := StepJoin();
      } else if ast.Operator? {
        row := StepOperator();
      } else {
        row := StepLeaf();
      }
    }

    /** How many documents a row has. */
    method Count() returns (n: nat)
      requires Valid()
      ensures n == ast.Width()
      decreases ast
    {
      if ast.Join? {
        var l := left.Count();
        var r := right.Count();
        n := l + r;
      } else {
        n := 1;
      }
    }

    /** Appends the documents of the row the source stands on. */
    method CacheSave(row: Row) returns (r: Row)
      requires Valid() && at != []
      ensures r == row + at
      decreases ast
    {
      if ast.Join? {
        r := left.CacheSave(row);
        r := right.CacheSave(r);
      } else {
        r := row + [pValue];
      }
    }

    /** Looks for the document with number `iDoc`, `iEntry` being the number of the first one of this source. */
    method ReadFrom(iEntry: nat, iDoc: nat) returns (doc: Value, next: nat)
      requires Valid() && at != []
      ensures doc == Absent ==> next == iEntry + ast.Width()
      ensures doc == if iEntry <= iDoc < iEntry + ast.Width() then at[iDoc - iEntry] else Absent
      decreases ast
    {
      if ast.Join? {
        doc, next := left.ReadFrom(iEntry, iDoc);
        if doc == Absent {
          doc, next := right.ReadFrom(next, iDoc);
        }
      } else {
        doc, next := if iEntry == iDoc then pValue else Absent, iEntry + 1;
      }
    }
  }

  /** From any state: rewound and stepped to the end, a source delivers exactly its rows. */
  method RunSource(src: DataSrc) returns (rows: seq<Row>)
    requires src.Valid()
    modifies src.repr
    ensures src.Valid() && rows == Rows(src.ast)
  {
    hide Rows, RowsOf, Product, Prefixed, Built, ExpandedAll, Expanded, DataSrc.Accounts, DataSrc.Stands;
    src.Rewind();
    rows := [];
    var more := src.Step();
    assert more ==> [src.at] + src.rest == Rows(src.ast);
    while more
      invariant src.Valid() && src.live == more
      invariant more ==> src.at != [] && rows + [src.at] + src.rest == Rows(src.ast)
      invariant !more ==> rows == Rows(src.ast)
      decreases more, |src.rest|
    {
      var row := src.CacheSave([]);
      assert row == src.at;
      ghost var was := src.rest;
      rows := rows + [row];
      more := src.Step();
      assert more ==> [src.at] + src.rest == was;
    }
  }
}
