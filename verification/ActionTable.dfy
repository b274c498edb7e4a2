/**
 The "acttab" module of LEMON: the sparse action rows of many states are overlaid in one array.

 A row maps lookaheads to actions.  Inserting a row picks an offset o and stores the pair for
 lookahead la in slot o+la, so a slot belongs to the row exactly when the lookahead stored there
 is the slot number minus o.  The theorems say when that overlay loses nothing.
 */
module ActionTable {

  datatype Option<+T> = None | Some(value: T)

  datatype Entry = Entry(lookahead: int, action: int)

  // A slot that nobody has written: new slots are filled with -1.
  const EMPTY := Entry(-1, -1)

  type Row = map<int, int>

  // A finished row together with the offset acttab_insert returned for it.
  datatype Placed = Placed(row: Row, offset: int)

  ghost predicate ValidRow(row: Row) {
    (exists la :: la in row) && forall la :: la in row ==> la >= 0
  }

  function RowAction(row: Row, la: int): Option<int> {
    if la in row then Some(row[la]) else None
  }

  // The test the generated parser makes: the slot must exist and carry the lookahead itself.
  function Lookup(t: seq<Entry>, offset: int, la: int): Option<int> {
    if 0 <= offset + la < |t| && t[offset + la].lookahead == la
    then Some(t[offset + la].action)
    else None
  }

  // Slot j looks as if it belonged to a row placed at this offset.
  predicate Claims(t: seq<Entry>, offset: int, j: int)
    requires 0 <= j < |t|
  {
    t[j].lookahead >= 0 && t[j].lookahead == j - offset
  }

  ghost predicate Unclaimed(t: seq<Entry>, offset: int) {
    forall j :: 0 <= j < |t| ==> !Claims(t, offset, j)
  }

  ghost predicate InPlace(t: seq<Entry>, row: Row, offset: int) {
    forall la :: la in row ==> 0 <= offset + la < |t| && t[offset + la] == Entry(la, row[la])
  }

  // The slots that look like the row are the row: nothing lost, nothing added.
  ghost predicate Holds(t: seq<Entry>, row: Row, offset: int) {
    && InPlace(t, row, offset)
    && (forall j :: 0 <= j < |t| && Claims(t, offset, j) ==> t[j].lookahead in row)
  }

  ghost predicate AllInPlace(t: seq<Entry>, rows: seq<Placed>) {
    forall r :: 0 <= r < |rows| ==> InPlace(t, rows[r].row, rows[r].offset)
  }

  ghost predicate AllHold(t: seq<Entry>, rows: seq<Placed>) {
    forall r :: 0 <= r < |rows| ==> Holds(t, rows[r].row, rows[r].offset)
  }

  // Holding a row is the same as answering every lookup as the row would.
  lemma HoldsIffLookup(t: seq<Entry>, row: Row, offset: int)
    requires ValidRow(row)
    ensures Holds(t, row, offset) <==>
            forall la :: la >= 0 ==> Lookup(t, offset, la) == RowAction(row, la)
  {
    if Holds(t, row, offset) {
      forall la | la >= 0
        ensures Lookup(t, offset, la) == RowAction(row, la)
      {
        if Lookup(t, offset, la).Some? { assert Claims(t, offset, offset + la); }
      }
    }
    if forall la :: la >= 0 ==> Lookup(t, offset, la) == RowAction(row, la) {
      forall la | la in row
        ensures 0 <= offset + la < |t| && t[offset + la] == Entry(la, row[la])
      {
        assert Lookup(t, offset, la) == RowAction(row, la);
      }
      forall j | 0 <= j < |t| && Claims(t, offset, j)
        ensures t[j].lookahead in row
      {
        assert Lookup(t, offset, t[j].lookahead) == RowAction(row, t[j].lookahead);
      }
    }
  }

  // ---------- Writing a row ----------

  ghost predicate Written(t: seq<Entry>, row: Row, offset: int, t': seq<Entry>) {
    && |t'| == |t|
    && (forall k :: 0 <= k < |t| ==> t'[k] == if k - offset in row then Entry(k - offset, row[k - offset]) else t[k])
  }

  ghost predicate Vacant(t: seq<Entry>, row: Row, offset: int) {
    forall la :: la in row ==> 0 <= offset + la < |t| && t[offset + la].lookahead < 0
  }

  lemma VacantMisses(t: seq<Entry>, row: Row, offset: int, k: int)
    requires Vacant(t, row, offset) && 0 <= k < |t| && t[k].lookahead >= 0
    ensures k - offset !in row
  {
  }

  lemma OffsetIsClaimed(t: seq<Entry>, row: Row, offset: int)
    requires ValidRow(row) && InPlace(t, row, offset)
    ensures !Unclaimed(t, offset)
  {
    var la :| la in row;
    assert Claims(t, offset, offset + la);
  }

  lemma WriteKeepsRow(t: seq<Entry>, row: Row, offset: int, t': seq<Entry>, p: Placed)
    requires Vacant(t, row, offset) && Written(t, row, offset, t') && Unclaimed(t, offset)
    requires ValidRow(p.row) && Holds(t, p.row, p.offset)
    ensures Holds(t', p.row, p.offset)
  {
    forall la | la in p.row
      ensures 0 <= p.offset + la < |t'| && t'[p.offset + la] == Entry(la, p.row[la])
    {
      var k := p.offset + la;
      assert t[k] == Entry(la, p.row[la]);
      VacantMisses(t, row, offset, k);
    }
    forall j | 0 <= j < |t'| && Claims(t', p.offset, j)
      ensures t'[j].lookahead in p.row
    {
      if j - offset in row {
        OffsetIsClaimed(t, p.row, p.offset);
        assert false;
      } else {
        assert Claims(t, p.offset, j);
      }
    }
  }

  // Writing into vacant slots keeps every row readable, the new one included, exactly when no
  // stored entry already claimed the offset.
  lemma WriteKeepsRows(t: seq<Entry>, row: Row, offset: int, t': seq<Entry>, rows: seq<Placed>)
    requires ValidRow(row) && Vacant(t, row, offset) && Written(t, row, offset, t')
    requires forall r :: 0 <= r < |rows| ==> ValidRow(rows[r].row)
    requires AllHold(t, rows)
    ensures AllHold(t', rows + [Placed(row, offset)]) <==> Unclaimed(t, offset)
  {
    if Unclaimed(t, offset) {
      forall r | 0 <= r < |rows|
        ensures Holds(t', rows[r].row, rows[r].offset)
      {
        WriteKeepsRow(t, row, offset, t', rows[r]);
      }
      assert Holds(t', row, offset) by {
        forall j | 0 <= j < |t'| && Claims(t', offset, j)
          ensures t'[j].lookahead in row
        {
          assert !Claims(t, offset, j);
        }
      }
    } else {
      var j :| 0 <= j < |t| && Claims(t, offset, j);
      assert j - offset !in row;
      assert Claims(t', offset, j);
      var all := rows + [Placed(row, offset)];
      assert all[|rows|] == Placed(row, offset);
    }
  }

  lemma DuplicateChangesNothing(t: seq<Entry>, row: Row, offset: int, t': seq<Entry>)
    requires InPlace(t, row, offset) && Written(t, row, offset, t')
    ensures t' == t
  {
    forall k | 0 <= k < |t| ensures t'[k] == t[k] {
      if k - offset in row { assert t[offset + (k - offset)] == Entry(k - offset, row[k - offset]); }
    }
  }

  // ---------- The duplicate test counts claims ----------

  function ClaimCount(t: seq<Entry>, offset: int, n: nat): nat
    requires n <= |t|
  {
    if n == 0 then 0
    else ClaimCount(t, offset, n - 1) + if Claims(t, offset, n - 1) then 1 else 0
  }

  predicate ClaimsBelow(t: seq<Entry>, offset: int, n: nat, la: int)
    requires n <= |t|
  {
    0 <= offset + la < n && Claims(t, offset, offset + la)
  }

  // The lookaheads under which the first n slots claim the offset.
  ghost function Claimed(t: seq<Entry>, offset: int, n: nat): set<int>
    requires n <= |t|
  {
    set la | -offset <= la < n - offset && ClaimsBelow(t, offset, n, la)
  }

  lemma {:induction false} CountIsCardinality(t: seq<Entry>, offset: int, n: nat)
    requires n <= |t|
    ensures ClaimCount(t, offset, n) == |Claimed(t, offset, n)|
  {
    if n == 0 {
      assert Claimed(t, offset, n) == {};
    } else {
      CountIsCardinality(t, offset, n - 1);
      var rest, la := Claimed(t, offset, n - 1), n - 1 - offset;
      assert offset + la == n - 1;
      assert forall x :: x != la ==> ClaimsBelow(t, offset, n, x) == ClaimsBelow(t, offset, n - 1, x);
      if Claims(t, offset, n - 1) {
        assert Claimed(t, offset, n) == rest + {la};
      } else {
        assert Claimed(t, offset, n) == rest;
      }
    }
  }

  lemma {:induction false} EmptyTailCountsNothing(t: seq<Entry>, offset: int, n: nat, m: nat)
    requires n <= m <= |t| && forall j :: n <= j < |t| ==> t[j] == EMPTY
    ensures ClaimCount(t, offset, m) == ClaimCount(t, offset, n)
  {
    if n < m { EmptyTailCountsNothing(t, offset, n, m - 1); }
  }

  lemma EqualCardinality(s: set<int>, u: set<int>)
    requires s <= u && |s| == |u|
    ensures s == u
  {
    assert u == s + (u - s);
    assert |u - s| == 0;
  }

  // Once every entry of the row is in place, the count agrees with the row's size exactly when
  // nothing else claims the offset.
  lemma CountDecidesHolds(t: seq<Entry>, row: Row, offset: int)
    requires ValidRow(row) && InPlace(t, row, offset)
    ensures ClaimCount(t, offset, |t|) == |row| <==> Holds(t, row, offset)
  {
    CountIsCardinality(t, offset, |t|);
    var claimed := Claimed(t, offset, |t|);
    assert |row.Keys| == |row|;
    forall la | la in row.Keys ensures la in claimed {
      assert ClaimsBelow(t, offset, |t|, la);
    }
    if |row.Keys| == |claimed| {
      EqualCardinality(row.Keys, claimed);
      forall j | 0 <= j < |t| && Claims(t, offset, j) ensures t[j].lookahead in row {
        assert t[j].lookahead in claimed;
      }
    }
    if Holds(t, row, offset) {
      forall la | la in claimed ensures la in row.Keys {
        assert Claims(t, offset, offset + la);
      }
      assert claimed == row.Keys;
    }
  }

  // ---------- The transaction being built ----------

  ghost predicate Distinct(txn: seq<Entry>) {
    forall j, k :: 0 <= j < k < |txn| ==> txn[j].lookahead != txn[k].lookahead
  }

  function RowOf(txn: seq<Entry>): Row {
    if |txn| == 0 then map[] else RowOf(txn[..|txn| - 1])[txn[|txn| - 1].lookahead := txn[|txn| - 1].action]
  }

  lemma {:induction false} RowOfEntries(txn: seq<Entry>)
    requires Distinct(txn)
    ensures |RowOf(txn)| == |txn|
    ensures forall j :: 0 <= j < |txn| ==> txn[j].lookahead in RowOf(txn) && RowOf(txn)[txn[j].lookahead] == txn[j].action
    ensures forall la :: la in RowOf(txn) ==> exists j :: 0 <= j < |txn| && txn[j].lookahead == la
  {
    if |txn| > 0 {
      var init, last := txn[..|txn| - 1], txn[|txn| - 1];
      RowOfEntries(init);
      assert last.lookahead !in RowOf(init);
      assert forall j :: 0 <= j < |init| ==> txn[j] == init[j];
    }
  }

  lemma PrefixRow(txn: seq<Entry>, j: nat)
    requires j < |txn|
    ensures RowOf(txn[..j + 1]) == RowOf(txn[..j])[txn[j].lookahead := txn[j].action]
  {
    assert txn[..j + 1][..j] == txn[..j];
  }

  // The first n slots are in use, up to the last entry.
  ghost predicate UsedSlots(t: seq<Entry>, n: nat) {
    && n <= |t|
    && (n > 0 ==> t[n - 1].lookahead >= 0)
    && (forall j :: n <= j < |t| ==> t[j] == EMPTY)
  }

  lemma WriteUsesSlots(t: seq<Entry>, n: nat, k: int, e: Entry)
    requires UsedSlots(t, n) && 0 <= k < |t| && e.lookahead >= 0
    ensures UsedSlots(t[k := e], if k >= n then k + 1 else n)
  {
  }

  lemma NoRow(txn: seq<Entry>)
    ensures RowOf(txn[..0]) == map[]
  {
  }

  lemma WriteOne(t: seq<Entry>, txn: seq<Entry>, offset: int, j: nat, t': seq<Entry>)
    requires j < |txn| && 0 <= offset + txn[j].lookahead < |t|
    requires Written(t, RowOf(txn[..j]), offset, t')
    ensures Written(t, RowOf(txn[..j + 1]), offset, t'[offset + txn[j].lookahead := txn[j]])
  {
    PrefixRow(txn, j);
  }

  ghost predicate Fits(t: seq<Entry>, n: nat, row: Row, offset: int) {
    && Vacant(t, row, offset)
    && (forall j :: 0 <= j < n <= |t| ==> t[j].lookahead != j - offset)
  }

  // One least lookahead past the last entry there is always a hole that passes the test.
  lemma RoomPastEnd(t: seq<Entry>, n: nat, row: Row)
    requires n <= |t| && (n > 0 ==> t[n - 1].lookahead >= 0)
    requires forall j :: 0 <= j < |t| ==> t[j].lookahead >= -1
    requires forall j :: n <= j < |t| ==> t[j] == EMPTY
    requires forall la :: la in row ==> 0 <= la && n + la < |t|
    ensures Fits(t, n, row, n)
  {
    forall j | 0 <= j < n ensures t[j].lookahead != j - n {
      if t[j].lookahead == -1 { assert j != n - 1; }
    }
  }

  lemma FitsIsUnclaimed(t: seq<Entry>, n: nat, row: Row, offset: int)
    requires n <= |t| && Fits(t, n, row, offset)
    requires forall j :: n <= j < |t| ==> t[j] == EMPTY
    ensures Unclaimed(t, offset)
  {
  }

  // The table after a reallocation
  ghost predicate Extends(t: seq<Entry>, t': seq<Entry>) {
    t <= t' && forall j :: |t| <= j < |t'| ==> t'[j] == EMPTY
  }

  lemma AppendEmptyKeepsRows(t: seq<Entry>, t': seq<Entry>, rows: seq<Placed>)
    requires AllHold(t, rows)
    requires Extends(t, t')
    ensures AllHold(t', rows)
  {
    forall r | 0 <= r < |rows|
      ensures Holds(t', rows[r].row, rows[r].offset)
    {
      GrownHolds(t, t', rows[r].row, rows[r].offset);
    }
  }

  lemma GrownHolds(t: seq<Entry>, t': seq<Entry>, row: Row, offset: int)
    requires Holds(t, row, offset)
    requires Extends(t, t')
    ensures Holds(t', row, offset)
  {
    forall j | 0 <= j < |t'| && Claims(t', offset, j)
      ensures t'[j].lookahead in row
    {
      assert Claims(t, offset, j);
    }
  }

  // The row is stored already, at an offset that puts its least lookahead below slot n.
  ghost predicate Stored(t: seq<Entry>, n: nat, row: Row, mn: int) {
    exists d :: -mn <= d < n - mn && Holds(t, row, d)
  }

  // A larger table holds a row exactly where the smaller one did.
  lemma GrownStored(t: seq<Entry>, t': seq<Entry>, n: nat, row: Row, mn: int)
    requires Extends(t, t') && forall la :: la in row ==> la >= 0
    ensures Stored(t, n, row, mn) <==> Stored(t', n, row, mn)
  {
    if d :| -mn <= d < n - mn && Holds(t, row, d) {
      GrownHolds(t, t', row, d);
    }
    if d :| -mn <= d < n - mn && Holds(t', row, d) {
      ShrunkHolds(t, t', row, d);
    }
  }

  lemma ShrunkHolds(t: seq<Entry>, t': seq<Entry>, row: Row, offset: int)
    requires Extends(t, t') && forall la :: la in row ==> la >= 0
    requires Holds(t', row, offset)
    ensures Holds(t, row, offset)
  {
    forall la | la in row
      ensures 0 <= offset + la < |t| && t[offset + la] == Entry(la, row[la])
    {
      assert t'[offset + la] == Entry(la, row[la]);
    }
    forall j | 0 <= j < |t| && Claims(t, offset, j)
      ensures t[j].lookahead in row
    {
      assert Claims(t', offset, j);
    }
  }

  // The table with room for a transaction whose greatest lookahead is mx, appended at the end
  function Grown(t: seq<Entry>, n: nat, mx: nat): (t': seq<Entry>)
    ensures n + mx + 1 < |t'|
  {
    if n + mx + 1 >= |t| then t + seq(n + mx + 1 + 20, _ => EMPTY) else t
  }

  // The row fits at index i, the place of its least lookahead.
  ghost predicate FitsAtIndex(t: seq<Entry>, n: nat, row: Row, mn: int, mx: int, i: int) {
    0 <= i < |t| - mx && Fits(t, n, row, i - mn)
  }

  ghost predicate FitsSomewhere(t: seq<Entry>, n: nat, row: Row, mn: int, mx: int) {
    exists i :: FitsAtIndex(t, n, row, mn, mx, i)
  }

  // Where the row goes: to its last duplicate, else to the first hole that fits, else to the index at
  // which the scan gives up.
  ghost predicate Goes(t: seq<Entry>, n: nat, row: Row, mn: int, mx: int, offset: int) {
    if Stored(t, n, row, mn) then
      && -mn <= offset < n - mn && Holds(t, row, offset)
      && (forall d :: offset < d < n - mn ==> !Holds(t, row, d))
    else if FitsSomewhere(t, n, row, mn, mx) then
      && FitsAtIndex(t, n, row, mn, mx, offset + mn)
      && (forall i :: 0 <= i < offset + mn ==> !FitsAtIndex(t, n, row, mn, mx, i))
    else
      offset == |t| - mx - mn
  }

  // What storing the row at the chosen offset does to all rows together.
  lemma InsertOutcome(before: seq<Entry>, t: seq<Entry>, after: seq<Entry>, rows: seq<Placed>, row: Row, offset: int)
    requires Extends(before, t) && Written(t, row, offset, after)
    requires ValidRow(row) && forall r :: 0 <= r < |rows| ==> ValidRow(rows[r].row)
    ensures Holds(t, row, offset) ==> after == t
    ensures Holds(t, row, offset) && AllHold(t, rows) ==> AllHold(after, rows + [Placed(row, offset)])
    ensures Vacant(t, row, offset) && AllHold(t, rows) ==>
              (AllHold(after, rows + [Placed(row, offset)]) <==> Unclaimed(before, offset))
    ensures Unclaimed(t, offset) <==> Unclaimed(before, offset)
    ensures |after| == |t|
  {
    if Holds(t, row, offset) { DuplicateChangesNothing(t, row, offset, after); }
    if Vacant(t, row, offset) && AllHold(t, rows) { WriteKeepsRows(t, row, offset, after, rows); }
    assert forall j :: 0 <= j < |before| ==> Claims(t, offset, j) == Claims(before, offset, j);
  }

  // No entry of an inserted row is ever overwritten, and therefore a row that is lost stays lost.
  lemma LostStaysLost(before: seq<Entry>, t: seq<Entry>, after: seq<Entry>, rows: seq<Placed>, row: Row, offset: int)
    requires Extends(before, t) && Written(t, row, offset, after) && AllInPlace(before, rows)
    requires ValidRow(row) && forall r :: 0 <= r < |rows| ==> ValidRow(rows[r].row)
    requires Holds(t, row, offset) || Vacant(t, row, offset)
    ensures AllInPlace(after, rows + [Placed(row, offset)])
    ensures AllHold(after, rows + [Placed(row, offset)]) ==> AllHold(before, rows)
  {
    var all := rows + [Placed(row, offset)];
    if Holds(t, row, offset) { DuplicateChangesNothing(t, row, offset, after); }
    EntriesStay(before, t, after, row, offset);
    hide Written, Vacant, Extends;
    forall r | 0 <= r < |rows|
      ensures InPlace(after, rows[r].row, rows[r].offset)
      ensures AllHold(after, all) ==> Holds(before, rows[r].row, rows[r].offset)
    {
      StaysInPlace(before, after, rows[r]);
      assert AllHold(after, all) ==> Holds(after, all[r].row, all[r].offset);
    }
    assert InPlace(after, row, offset) by { RowInPlace(t, row, offset, after); }
  }

  lemma EntriesStay(before: seq<Entry>, t: seq<Entry>, after: seq<Entry>, row: Row, offset: int)
    requires Extends(before, t) && Written(t, row, offset, after) && (after == t || Vacant(t, row, offset))
    ensures |before| <= |after| && forall k :: 0 <= k < |before| && before[k].lookahead >= 0 ==> after[k] == before[k]
  {
    forall k | 0 <= k < |before| && before[k].lookahead >= 0
      ensures after[k] == before[k]
    {
      assert t[k] == before[k];
      if after != t { VacantMisses(t, row, offset, k); }
    }
  }

  lemma RowInPlace(t: seq<Entry>, row: Row, offset: int, after: seq<Entry>)
    requires Written(t, row, offset, after) && (Holds(t, row, offset) || Vacant(t, row, offset))
    ensures InPlace(after, row, offset)
  {
    forall la | la in row
      ensures 0 <= offset + la < |after| && after[offset + la] == Entry(la, row[la])
    {
      assert 0 <= offset + la < |t| && (offset + la) - offset in row;
    }
  }

  lemma StaysInPlace(before: seq<Entry>, after: seq<Entry>, p: Placed)
    requires ValidRow(p.row) && InPlace(before, p.row, p.offset) && |before| <= |after|
    requires forall k :: 0 <= k < |before| && before[k].lookahead >= 0 ==> after[k] == before[k]
    ensures InPlace(after, p.row, p.offset)
    ensures Holds(after, p.row, p.offset) ==> Holds(before, p.row, p.offset)
  {
    forall la | la in p.row
      ensures 0 <= p.offset + la < |after| && after[p.offset + la] == Entry(la, p.row[la])
    {
      assert before[p.offset + la] == Entry(la, p.row[la]);
    }
    if Holds(after, p.row, p.offset) {
      forall j | 0 <= j < |before| && Claims(before, p.offset, j)
        ensures before[j].lookahead in p.row
      {
        assert Claims(after, p.offset, j);
      }
    }
  }

  lemma GoesToDuplicate(t: seq<Entry>, n: nat, row: Row, mn: int, mx: int, offset: int)
    requires -mn <= offset < n - mn && Holds(t, row, offset)
    requires forall d :: offset < d < n - mn ==> !Holds(t, row, d)
    ensures Goes(t, n, row, mn, mx, offset) && Stored(t, n, row, mn)
  {
    hide Holds;
  }

  lemma GoesToHole(t: seq<Entry>, n: nat, row: Row, mn: int, mx: int, i: nat)
    requires !Stored(t, n, row, mn) && i <= |t| - mx
    requires i < |t| - mx ==> FitsAtIndex(t, n, row, mn, mx, i)
    requires forall k :: 0 <= k < i ==> !FitsAtIndex(t, n, row, mn, mx, k)
    ensures Goes(t, n, row, mn, mx, i - mn) && (FitsSomewhere(t, n, row, mn, mx) <==> i < |t| - mx)
  {
    hide Fits, Stored;
    assert FitsSomewhere(t, n, row, mn, mx) <==> i < |t| - mx;
  }

  // The slots a row goes to
  lemma WhereItGoes(t: seq<Entry>, n: nat, row: Row, mn: nat, mx: nat, offset: int)
    requires Goes(t, n, row, mn, mx, offset) && UsedSlots(t, n) && n + mx + 1 < |t|
    requires (forall la :: la in row ==> mn <= la <= mx) && forall j :: 0 <= j < |t| ==> t[j].lookahead >= -1
    ensures Stored(t, n, row, mn) ==> Holds(t, row, offset)
    ensures !Stored(t, n, row, mn) ==> Vacant(t, row, offset)
    ensures !Stored(t, n, row, mn) && FitsSomewhere(t, n, row, mn, mx) ==> Unclaimed(t, offset)
    ensures !Stored(t, n, row, mn) && !FitsSomewhere(t, n, row, mn, mx) ==>
              2 <= mn && |t| <= n + mn + mx && offset == |t| - mx - mn
    ensures 0 <= offset + mn && forall la :: la in row ==> offset + la < |t|
  {
    if !Stored(t, n, row, mn) {
      if FitsSomewhere(t, n, row, mn, mx) {
        FitsIsUnclaimed(t, n, row, offset);
      } else {
        if n + mn < |t| - mx { PastEndFits(t, n, row, mn, mx); }
      }
    }
  }

  lemma PastEndFits(t: seq<Entry>, n: nat, row: Row, mn: nat, mx: nat)
    requires UsedSlots(t, n) && n + mx + 1 < |t| && n + mn < |t| - mx
    requires (forall la :: la in row ==> mn <= la <= mx) && forall j :: 0 <= j < |t| ==> t[j].lookahead >= -1
    ensures FitsSomewhere(t, n, row, mn, mx)
  {
    RoomPastEnd(t, n, row);
    assert FitsAtIndex(t, n, row, mn, mx, n + mn);
  }

  // ---------- The table under construction ----------

  class ActTab {
    var nAction: nat
    var aAction: seq<Entry>
    var aLookahead: seq<Entry>
    var mnLookahead: int
    var mnAction: int
    var mxLookahead: int
    // Every row inserted so far, with its offset
    ghost var placed: seq<Placed>

    // mnLookahead, mnAction and mxLookahead describe the entries of the transaction.
    ghost predicate ValidTransaction()
      reads this
    {
      && (forall j :: 0 <= j < |aLookahead| ==> 0 <= mnLookahead <= aLookahead[j].lookahead <= mxLookahead)
      && (|aLookahead| > 0 ==> Entry(mnLookahead, mnAction) in aLookahead)
      && (|aLookahead| > 0 ==> exists j :: 0 <= j < |aLookahead| && aLookahead[j].lookahead == mxLookahead)
    }

    ghost predicate Valid()
      reads this
    {
      && UsedSlots(aAction, nAction)
      && (forall j :: 0 <= j < |aAction| ==> aAction[j].lookahead >= -1)
      && (forall r :: 0 <= r < |placed| ==> ValidRow(placed[r].row))
      && ValidTransaction()
    }

    // Every row inserted so far can be read back exactly.
    ghost predicate Lossless()
      reads this
    {
      AllHold(aAction, placed)
    }

    // Every row inserted so far is still where it was put.
    ghost predicate Undisturbed()
      reads this
    {
      AllInPlace(aAction, placed)
    }

    constructor ()
      ensures Valid() && Lossless() && Undisturbed()
      ensures nAction == 0 && aAction == [] && aLookahead == [] && placed == []
    {
      nAction := 0;
      aAction := [];
      aLookahead := [];
      mnLookahead, mnAction, mxLookahead := 0, 0, 0;
      placed := [];
    }

    // acttab_action
    method Action(lookahead: int, action: int)
      requires Valid() && lookahead >= 0
      modifies this
      ensures Valid()
      ensures aLookahead == old(aLookahead) + [Entry(lookahead, action)]
      ensures aAction == old(aAction) && nAction == old(nAction) && placed == old(placed)
    {
      if |aLookahead| == 0 {
        mxLookahead, mnLookahead, mnAction := lookahead, lookahead, action;
      } else {
        if mxLookahead < lookahead { mxLookahead := lookahead; }
        if mnLookahead > lookahead { mnLookahead, mnAction := lookahead, action; }
      }
      aLookahead := aLookahead + [Entry(lookahead, action)];
      assert aLookahead[|aLookahead| - 1] == Entry(lookahead, action);
      assert forall j :: 0 <= j < |old(aLookahead)| ==> aLookahead[j] == old(aLookahead)[j];
    }

    lemma TransactionRow()
      requires ValidTransaction() && Distinct(aLookahead) && |aLookahead| > 0
      ensures ValidRow(RowOf(aLookahead)) && |RowOf(aLookahead)| == |aLookahead|
      ensures forall la :: la in RowOf(aLookahead) ==> mnLookahead <= la <= mxLookahead
      ensures mnLookahead in RowOf(aLookahead) && RowOf(aLookahead)[mnLookahead] == mnAction
    {
      RowOfEntries(aLookahead);
      var j :| 0 <= j < |aLookahead| && aLookahead[j] == Entry(mnLookahead, mnAction);
    }

    // Make room for the worst case, in which the transaction is appended.
    method Grow()
      requires Valid() && |aLookahead| > 0
      modifies this`aAction
      ensures Valid()
      ensures mxLookahead >= 0 && aAction == Grown(old(aAction), nAction, mxLookahead)
      ensures Extends(old(aAction), aAction)
      ensures old(Lossless()) ==> Lossless()
    {
      var n := mxLookahead + 1;
      if nAction + n >= |aAction| {
        aAction := aAction + seq(nAction + n + 20, _ => EMPTY);
      }
      if old(Lossless()) {
        AppendEmptyKeepsRows(old(aAction), aAction, placed);
      }
    }

    // Are all entries of the transaction in the table already, for the index i?
    method EntriesMatch(i: nat, offset: int) returns (all: bool)
      requires Valid() && Distinct(aLookahead) && i < nAction && offset == i - mnLookahead
      ensures all <==> InPlace(aAction, RowOf(aLookahead), offset)
    {
      RowOfEntries(aLookahead);
      for j := 0 to |aLookahead|
        invariant forall q :: 0 <= q < j ==>
          && 0 <= offset + aLookahead[q].lookahead < nAction
          && aAction[offset + aLookahead[q].lookahead] == aLookahead[q]
      {
        var k := aLookahead[j].lookahead - mnLookahead + i;
        assert k == offset + aLookahead[j].lookahead;
        if k < 0 || k >= nAction || aAction[k] != aLookahead[j] {
          assert aLookahead[j].lookahead in RowOf(aLookahead);
          return false;
        }
      }
      return true;
    }

    // How many stored entries claim the offset?
    method CountClaims(offset: int) returns (n: nat)
      requires Valid()
      ensures n == ClaimCount(aAction, offset, |aAction|)
    {
      n := 0;
      for j := 0 to nAction
        invariant n == ClaimCount(aAction, offset, j)
      {
        if aAction[j].lookahead < 0 { continue; }
        if aAction[j].lookahead == j - offset { n := n + 1; }
      }
      EmptyTailCountsNothing(aAction, offset, nAction, |aAction|);
    }

    // Does index i hold an exact duplicate of the transaction?
    method IsDuplicate(i: nat, offset: int) returns (dup: bool)
      requires Valid() && Distinct(aLookahead) && |aLookahead| > 0 && i < nAction && offset == i - mnLookahead
      ensures dup <==> Holds(aAction, RowOf(aLookahead), offset)
    {
      TransactionRow();
      if aAction[i] != Entry(mnLookahead, mnAction) {
        assert offset + mnLookahead == i;
        return false;
      }
      dup := EntriesMatch(i, offset);
      if dup {
        var n := CountClaims(offset);
        CountDecidesHolds(aAction, RowOf(aLookahead), offset);
        dup := n == |aLookahead|;
      }
    }

    // Are the slots the transaction would occupy at index i all empty?
    method SlotsVacant(i: nat) returns (vacant: bool)
      requires Valid() && Distinct(aLookahead) && |aLookahead| > 0 && i + mxLookahead < |aAction|
      ensures vacant <==> Vacant(aAction, RowOf(aLookahead), i - mnLookahead)
    {
      RowOfEntries(aLookahead);
      for j := 0 to |aLookahead|
        invariant forall q :: 0 <= q < j ==> aAction[i - mnLookahead + aLookahead[q].lookahead].lookahead < 0
      {
        var k := aLookahead[j].lookahead - mnLookahead + i;
        if aAction[k].lookahead >= 0 {
          assert aLookahead[j].lookahead in RowOf(aLookahead);
          return false;
        }
      }
      return true;
    }

    // Does the transaction fit in the holes at index i?
    method FitsAt(i: nat) returns (fits: bool)
      requires Valid() && Distinct(aLookahead) && |aLookahead| > 0 && i + mxLookahead < |aAction|
      ensures fits <==> Fits(aAction, nAction, RowOf(aLookahead), i - mnLookahead)
    {
      TransactionRow();
      if aAction[i].lookahead >= 0 { return false; }
      fits := SlotsVacant(i);
      if fits {
        for j := 0 to nAction
          invariant forall q :: 0 <= q < j ==> aAction[q].lookahead != q + mnLookahead - i
        {
          if aAction[j].lookahead == j + mnLookahead - i { return false; }
        }
      }
    }

    // First scan of acttab_insert: the last index at which the transaction is stored already.
    method FindDuplicate() returns (i: int, offset: int)
      requires Valid() && Distinct(aLookahead) && |aLookahead| > 0
      ensures -1 <= i < nAction && offset == i - mnLookahead
      ensures i < 0 ==> !Stored(aAction, nAction, RowOf(aLookahead), mnLookahead)
      ensures i >= 0 ==>
        && Holds(aAction, RowOf(aLookahead), offset)
        && (forall d :: offset < d < nAction - mnLookahead ==> !Holds(aAction, RowOf(aLookahead), d))
    {
      i := nAction - 1;
      offset := i - mnLookahead;
      while i >= 0
        invariant -1 <= i < nAction && offset == i - mnLookahead
        invariant forall d :: offset < d < nAction - mnLookahead ==> !Holds(aAction, RowOf(aLookahead), d)
      {
        var dup := IsDuplicate(i, offset);
        if dup { return; }
        i, offset := i - 1, offset - 1;
      }
    }

    // Second scan: the first hole that fits, or the end of the range it looks through.
    method FindHole() returns (i: nat)
      requires Valid() && Distinct(aLookahead) && |aLookahead| > 0 && mxLookahead < |aAction|
      ensures i < |aAction| - mxLookahead ==>
        FitsAtIndex(aAction, nAction, RowOf(aLookahead), mnLookahead, mxLookahead, i)
      ensures forall k :: 0 <= k < i ==> !FitsAtIndex(aAction, nAction, RowOf(aLookahead), mnLookahead, mxLookahead, k)
      ensures i <= |aAction| - mxLookahead
    {
      hide Fits, RowOf;
      i := 0;
      while i < |aAction| - mxLookahead
        invariant i <= |aAction| - mxLookahead
        invariant forall k :: 0 <= k < i ==> !FitsAtIndex(aAction, nAction, RowOf(aLookahead), mnLookahead, mxLookahead, k)
      {
        var fits := FitsAt(i);
        if fits { return; }
        i := i + 1;
      }
    }

    // Both scans, and whether one of them found an index
    method Locate() returns (i: int, offset: int, checked: bool)
      requires Valid() && Distinct(aLookahead) && |aLookahead| > 0 && mxLookahead < |aAction|
      ensures offset == i - mnLookahead
      ensures Goes(aAction, nAction, RowOf(aLookahead), mnLookahead, mxLookahead, offset)
      ensures checked <==>
        || Stored(aAction, nAction, RowOf(aLookahead), mnLookahead)
        || FitsSomewhere(aAction, nAction, RowOf(aLookahead), mnLookahead, mxLookahead)
    {
      hide *;
      i, offset := FindDuplicate();
      checked := true;
      if i < 0 {
        i := FindHole();
        offset := i - mnLookahead;
        checked := i < |aAction| - mxLookahead;
        GoesToHole(aAction, nAction, RowOf(aLookahead), mnLookahead, mxLookahead, i);
      } else {
        GoesToDuplicate(aAction, nAction, RowOf(aLookahead), mnLookahead, mxLookahead, offset);
      }
    }

    // Copy the transaction into its slots and start a new one.
    method Store(i: nat, offset: int)
      requires Valid() && Distinct(aLookahead) && |aLookahead| > 0 && offset == i - mnLookahead
      requires forall la :: la in RowOf(aLookahead) ==> offset + la < |aAction|
      modifies this`nAction, this`aLookahead, this`placed, this`aAction
      ensures Valid() && aLookahead == []
      ensures placed == old(placed) + [Placed(RowOf(old(aLookahead)), offset)]
      ensures Written(old(aAction), RowOf(old(aLookahead)), offset, aAction)
      ensures aAction == old(aAction) ==> nAction == old(nAction)
    {
      hide RowOf, Distinct;
      var txn := aLookahead;
      RowOfEntries(txn);
      TransactionRow();
      NoRow(txn);
      for j := 0 to |txn|
        invariant placed == old(placed) && aLookahead == txn
        invariant old(nAction) <= nAction && UsedSlots(aAction, nAction)
        invariant Written(old(aAction), RowOf(txn[..j]), offset, aAction)
      {
        var k := txn[j].lookahead - mnLookahead + i;
        assert k == offset + txn[j].lookahead && txn[j].lookahead in RowOf(txn);
        WriteUsesSlots(aAction, nAction, k, txn[j]);
        WriteOne(old(aAction), txn, offset, j, aAction);
        aAction := aAction[k := txn[j]];
        if k >= nAction { nAction := k + 1; }
      }
      assert txn[..|txn|] == txn;
      aLookahead := [];
      placed := placed + [Placed(RowOf(txn), offset)];
    }

    // The row of the transaction is stored already, or the scan for a hole will find one.
    ghost predicate ScanSucceeds()
      requires ValidTransaction() && |aLookahead| > 0
      reads this
    {
      var row := RowOf(aLookahead);
      || Stored(aAction, nAction, row, mnLookahead)
      || FitsSomewhere(Grown(aAction, nAction, mxLookahead), nAction, row, mnLookahead, mxLookahead)
    }

    // The offset that is left over when it does not
    function LeftOver(): int
      requires |aLookahead| > 0 && mxLookahead >= 0
      reads this
    {
      |Grown(aAction, nAction, mxLookahead)| - mxLookahead - mnLookahead
    }

    // acttab_insert.  A lossless overlay stays lossless if and only if the scan succeeds or no stored
    // entry happens to claim the offset left over.  The scan fails only for a transaction whose least
    // lookahead is at least 2, when the spare room is short.  A row that is stored already is found
    // again and costs no slot.
    method Insert() returns (offset: int, checked: bool)
      requires Valid() && Distinct(aLookahead) && |aLookahead| > 0
      modifies this
      ensures Valid() && aLookahead == [] && old(mxLookahead) >= 0
      ensures placed == old(placed) + [Placed(RowOf(old(aLookahead)), offset)]
      ensures var grown := Grown(old(aAction), old(nAction), old(mxLookahead)); var row := RowOf(old(aLookahead));
        && Goes(grown, old(nAction), row, old(mnLookahead), old(mxLookahead), offset)
        && Written(grown, row, offset, aAction)
      ensures checked <==> old(ScanSucceeds())
      ensures !checked ==> offset == old(LeftOver())
      ensures old(Lossless()) ==> (Lossless() <==> old(ScanSucceeds() || Unclaimed(aAction, LeftOver())))
      ensures old(Undisturbed()) ==>
                && Undisturbed()
                && (Lossless() <==> old(Lossless() && (ScanSucceeds() || Unclaimed(aAction, LeftOver()))))
      ensures !checked ==> 2 <= old(mnLookahead)
      ensures !checked ==> |aAction| <= old(nAction + mnLookahead + mxLookahead)
      ensures old(Stored(aAction, nAction, RowOf(aLookahead), mnLookahead)) ==>
              nAction == old(nAction) && Extends(old(aAction), aAction)
    {
      hide *;
      Facts();
      ScanMeans();
      LosslessMeans();
      TransactionRow();
      Grow();
      Facts();
      ghost var row, grown, n, mn, mx := RowOf(aLookahead), aAction, nAction, mnLookahead, mxLookahead;
      GrownStored(old(aAction), grown, n, row, mn);
      var i;
      i, offset, checked := Locate();
      WhereItGoes(grown, n, row, mn, mx, offset);
      Store(i, offset);
      InsertOutcome(old(aAction), grown, aAction, old(placed), row, offset);
      LosslessMeans();
      if AllInPlace(old(aAction), old(placed)) { LostStaysLost(old(aAction), grown, aAction, old(placed), row, offset); }
    }

    lemma Bounds()
      requires Valid() && |aLookahead| == 1
      ensures mnLookahead == mxLookahead == aLookahead[0].lookahead
    {
      hide UsedSlots, ValidRow;
    }

    lemma LosslessMeans()
      ensures Lossless() <==> AllHold(aAction, placed)
      ensures Undisturbed() <==> AllInPlace(aAction, placed)
    {
    }

    lemma Facts()
      requires Valid()
      ensures UsedSlots(aAction, nAction) && forall j :: 0 <= j < |aAction| ==> aAction[j].lookahead >= -1
      ensures ValidTransaction() && forall r :: 0 <= r < |placed| ==> ValidRow(placed[r].row)
      ensures |aLookahead| > 0 ==> 0 <= mnLookahead <= mxLookahead
    {
      hide UsedSlots, ValidRow;
    }

    lemma ScanMeans()
      requires Valid() && |aLookahead| > 0
      ensures ValidTransaction() && mxLookahead >= 0
      ensures ScanSucceeds() <==>
        || Stored(aAction, nAction, RowOf(aLookahead), mnLookahead)
        || FitsSomewhere(Grown(aAction, nAction, mxLookahead), nAction, RowOf(aLookahead), mnLookahead, mxLookahead)
      ensures LeftOver() == |Grown(aAction, nAction, mxLookahead)| - mxLookahead - mnLookahead
    {
      hide UsedSlots, RowOf, Stored, FitsSomewhere, Grown;
    }
  }

  // ---------- The scan can run off its end ----------

  // Rows with lookahead 1 alone, each with its own action, in a table of the size the first of them
  // allocates
  function OneEach(k: nat): (t: seq<Entry>)
    requires k <= 10
    ensures |t| == 22
  {
    seq(22, j => if 0 <= j < k then Entry(1, j) else EMPTY)
  }

  function RowOfOne(k: int): Placed {
    Placed(map[1 := k], k - 1)
  }

  function Rows(k: nat): (rows: seq<Placed>)
    ensures |rows| == k
  {
    seq(k, j => RowOfOne(j))
  }

  // The next row goes to the next slot.
  lemma NextRow(k: nat, t: seq<Entry>, offset: int, t': seq<Entry>)
    requires k < 10 && t == (if k == 0 then [] else OneEach(k))
    requires Goes(Grown(t, k, 1), k, map[1 := k], 1, 1, offset) && Written(Grown(t, k, 1), map[1 := k], offset, t')
    ensures offset == k - 1 && t' == OneEach(k + 1)
  {
    var g, row := Grown(t, k, 1), map[1 := k];
    assert g == OneEach(k);
    NotYet(k);
    hide Stored, FitsAtIndex;
    assert FitsSomewhere(g, k, row, 1, 1);
    assert offset + 1 == k;
  }

  lemma NotYet(k: nat)
    requires k < 10
    ensures !Stored(OneEach(k), k, map[1 := k], 1)
    ensures FitsAtIndex(OneEach(k), k, map[1 := k], 1, 1, k)
    ensures forall i :: 0 <= i < k ==> !FitsAtIndex(OneEach(k), k, map[1 := k], 1, 1, i)
  {
    var row := map[1 := k];
    assert 1 in row;
    forall i | 0 <= i < k ensures !FitsAtIndex(OneEach(k), k, row, 1, 1, i) {
      assert !Vacant(OneEach(k), row, i - 1);
    }
  }

  // The row with lookahead 7 alone meets no duplicate and no hole that fits.
  lemma NowhereFits(action: int)
    ensures UsedSlots(OneEach(10), 10) && AllHold(OneEach(10), Rows(10))
    ensures Grown(OneEach(10), 10, 7) == OneEach(10)
    ensures !Stored(OneEach(10), 10, map[7 := action], 7)
    ensures !FitsSomewhere(OneEach(10), 10, map[7 := action], 7, 7)
    ensures Claims(OneEach(10), 8, 9)
  {
    var row, t := map[7 := action], OneEach(10);
    assert 7 in row;
    forall i ensures !FitsAtIndex(t, 10, row, 7, 7, i) {
      if 0 <= i < 10 {
        assert !Vacant(t, row, i - 7);
      } else if 10 <= i < 15 {
        assert t[i - 6].lookahead == (i - 6) - (i - 7);
      }
    }
  }

  // A run of acttab_insert whose scan ends without a checked index: after ten rows that all answer
  // lookahead 1, a row with lookahead 7 alone is stored at the end of the range the scan looks through,
  // where lookahead 1 finds an action of another row.
  method ScanRunsOff(action: int) returns (p: ActTab, offset: int, checked: bool)
    ensures fresh(p) && p.Valid() && !checked
    ensures p.placed == Rows(10) + [Placed(map[7 := action], offset)]
    ensures RowAction(map[7 := action], 1) == None && Lookup(p.aAction, offset, 1) == Some(9)
    ensures !p.Lossless()
  {
    p := TenRows();
    hide *;
    NowhereFits(action);
    p.Action(7, action);
    OneEntry(p.aLookahead, 7, action);
    p.Bounds();
    ghost var t := p.aAction;
    p.ScanMeans();
    offset, checked := p.Insert();
    RanOff(action, t, p.aAction, offset);
    p.LosslessMeans();
  }

  lemma RanOff(action: int, t: seq<Entry>, t': seq<Entry>, offset: int)
    requires t == OneEach(10) && offset == 8 && Written(t, map[7 := action], offset, t')
    ensures RowAction(map[7 := action], 1) == None && Lookup(t', offset, 1) == Some(9)
    ensures !AllHold(t', Rows(10) + [Placed(map[7 := action], offset)])
  {
    assert t'[9] == Entry(1, 9) && Claims(t', 8, 9);
    assert (Rows(10) + [Placed(map[7 := action], 8)])[10] == Placed(map[7 := action], 8);
  }

  lemma OneEntry(txn: seq<Entry>, la: int, action: int)
    requires txn == [Entry(la, action)]
    ensures Distinct(txn) && RowOf(txn) == map[la := action]
  {
    hide RowOf;
    PrefixRow(txn, 0);
    NoRow(txn);
    assert txn[..1] == txn;
  }

  method TenRows() returns (p: ActTab)
    ensures fresh(p) && p.Valid() && p.Lossless() && p.aLookahead == []
    ensures p.nAction == 10 && p.aAction == OneEach(10) && p.placed == Rows(10)
  {
    hide *;
    p := new ActTab();
    NoRows();
    for k := 0 to 10
      invariant fresh(p) && p.Valid() && p.aLookahead == []
      invariant p.nAction == k && p.placed == Rows(k)
      invariant p.aAction == if k == 0 then [] else OneEach(k)
    {
      p.Action(1, k);
      OneEntry(p.aLookahead, 1, k);
      p.Bounds();
      ghost var t := p.aAction;
      var offset, checked := p.Insert();
      NextRow(k, t, offset, p.aAction);
      p.Facts();
      CountUsed(k, p.nAction);
      OneMore(k);
    }
    NowhereFits(0);
    p.LosslessMeans();
  }

  lemma NoRows()
    ensures Rows(0) == []
  {
  }

  lemma OneMore(k: nat)
    ensures Rows(k + 1) == Rows(k) + [Placed(map[1 := k], k - 1)]
  {
  }

  lemma CountUsed(k: nat, n: nat)
    requires k < 10 && UsedSlots(OneEach(k + 1), n)
    ensures n == k + 1
  {
    assert OneEach(k + 1)[k] == Entry(1, k);
  }
}
