/** ResortStates and the table-writing part of ReportTable. */
module LemonResort {
  import opened LemonActions

  // Something to be sorted: first by a, then b, then c, each in descending order
  datatype Keyed = Keyed(id: nat, a: nat, b: nat, c: nat)

  predicate Before(x: Keyed, y: Keyed) {
    x.a > y.a || (x.a == y.a && (x.b > y.b || (x.b == y.b && x.c >= y.c)))
  }

  ghost predicate Descending(s: seq<Keyed>) {
    forall i, j :: 0 <= i < j < |s| ==> Before(s[i], s[j])
  }

  function Place(s: seq<Keyed>, x: Keyed): (r: seq<Keyed>)
    ensures multiset(r) == multiset(s) + multiset{x}
  {
    if |s| == 0 || Before(x, s[0]) then
      assert s + [] == s;
      [x] + s
    else
      assert s == [s[0]] + s[1..];
      [s[0]] + Place(s[1..], x)
  }

  // The result of qsort
  function SortKeyed(s: seq<Keyed>): (r: seq<Keyed>)
    ensures multiset(r) == multiset(s)
  {
    if |s| == 0 then []
    else
      assert s == [s[0]] + s[1..];
      Place(SortKeyed(s[1..]), s[0])
  }

  lemma {:induction false} PlaceDescends(s: seq<Keyed>, x: Keyed)
    requires Descending(s)
    ensures Descending(Place(s, x))
  {
    if |s| > 0 && !Before(x, s[0]) {
      PlaceDescends(s[1..], x);
      var rest := Place(s[1..], x);
      forall j | 0 <= j < |rest| ensures Before(s[0], rest[j]) {
        assert rest[j] in multiset(rest);
        assert rest[j] == x || rest[j] in s[1..];
      }
    }
  }

  lemma {:induction false} SortDescends(s: seq<Keyed>)
    ensures Descending(SortKeyed(s))
  {
    if |s| > 0 {
      SortDescends(s[1..]);
      PlaceDescends(SortKeyed(s[1..]), s[0]);
    }
  }

  // How many effective actions a list has on the symbols lo..hi
  function CountEffective(l: seq<Action>, lo: nat, hi: nat): nat {
    if |l| == 0 then 0
    else CountEffective(l[1..], lo, hi) + if Effective(l[0]) && lo <= l[0].sp < hi then 1 else 0
  }

  lemma {:induction false} CountIsPositive(l: seq<Action>, lo: nat, hi: nat)
    ensures CountEffective(l, lo, hi) > 0 <==> exists i :: 0 <= i < |l| && Effective(l[i]) && lo <= l[i].sp < hi
  {
    if |l| > 0 {
      CountIsPositive(l[1..], lo, hi);
      assert l == [l[0]] + l[1..];
      if i :| 0 <= i < |l| && Effective(l[i]) && lo <= l[i].sp < hi {
        if i > 0 { assert l[1..][i - 1] == l[i]; }
      }
      if i :| 0 <= i < |l[1..]| && Effective(l[1..][i]) && lo <= l[1..][i].sp < hi { assert l[i + 1] == l[1..][i]; }
    }
  }

  // The renumbering: order lists the old numbers by position, num is its inverse, state 0 stays first.
  ghost predicate Renumbering(n: nat, order: seq<nat>, num: seq<nat>) {
    && |order| == |num| == n
    && (forall i :: 0 <= i < n ==> order[i] < n && num[order[i]] == i)
    && (forall k :: 0 <= k < n ==> num[k] < n && order[num[k]] == k)
    && (n > 0 ==> order[0] == 0)
  }

  ghost predicate Occurs(order: seq<nat>, k: nat) {
    exists i :: 0 <= i < |order| && order[i] == k
  }

  ghost predicate Permutation(order: seq<nat>) {
    && (forall i :: 0 <= i < |order| ==> order[i] < |order|)
    && (forall i, j :: 0 <= i < j < |order| ==> order[i] != order[j])
    && (forall k :: 0 <= k < |order| ==> Occurs(order, k))
  }

  // sorted[i]->statenum = i
  method Renumber(order: seq<nat>) returns (num: seq<nat>)
    requires Permutation(order) && (|order| > 0 ==> order[0] == 0)
    ensures Renumbering(|order|, order, num)
  {
    num := seq(|order|, _ => 0);
    for i := 0 to |order|
      invariant |num| == |order|
      invariant forall j :: 0 <= j < i ==> num[order[j]] == j
    {
      num := num[order[i] := i];
    }
    forall k | 0 <= k < |order| ensures num[k] < |order| && order[num[k]] == k {
      assert Occurs(order, k);
      var i :| 0 <= i < |order| && order[i] == k;
      assert num[order[i]] == i;
    }
  }

  // Every state but the first with its counts of actions
  function StateKeys(ap: seq<seq<Action>>, nterminal: nat, nsymbol: nat): (keyed: seq<Keyed>)
    requires |ap| > 0
    ensures |keyed| == |ap| - 1
    ensures forall i :: 0 <= i < |keyed| ==> keyed[i] == StateKey(ap, i + 1, nterminal, nsymbol)
  {
    seq(|ap| - 1, i requires 0 <= i < |ap| - 1 => StateKey(ap, i + 1, nterminal, nsymbol))
  }

  function StateKey(ap: seq<seq<Action>>, k: nat, nterminal: nat, nsymbol: nat): Keyed
    requires k < |ap|
  {
    Keyed(k, CountEffective(ap[k], nterminal, nsymbol), CountEffective(ap[k], 0, nterminal), k)
  }

  // ResortStates: states with more nonterminal actions, then more token actions, then higher old
  // numbers come first.
  method Resort(ap: seq<seq<Action>>, nterminal: nat, nsymbol: nat) returns (order: seq<nat>, num: seq<nat>)
    ensures Renumbering(|ap|, order, num)
    ensures forall i, j :: 0 < i < j < |order| ==>
              order[i] < |ap| && order[j] < |ap| &&
              Before(StateKey(ap, order[i], nterminal, nsymbol), StateKey(ap, order[j], nterminal, nsymbol))
  {
    if |ap| == 0 { return [], []; }
    hide CountEffective, SortKeyed, StateKeys, StateKey, Before, Renumbering;
    var keyed := StateKeys(ap, nterminal, nsymbol);
    order := Ids(SortKeyed(keyed));
    SortedIds(keyed, SortKeyed(keyed));
    SortDescends(keyed);
    IdsDescend(ap, nterminal, nsymbol, keyed, SortKeyed(keyed));
    num := Renumber(order);
  }

  lemma IdsDescend(ap: seq<seq<Action>>, nterminal: nat, nsymbol: nat, keyed: seq<Keyed>, sorted: seq<Keyed>)
    requires |keyed| == |sorted| == |ap| - 1 && Descending(sorted)
    requires forall i :: 0 <= i < |keyed| ==> keyed[i] == StateKey(ap, i + 1, nterminal, nsymbol)
    requires forall i :: 0 <= i < |sorted| ==> 1 <= sorted[i].id <= |sorted| && sorted[i] == keyed[sorted[i].id - 1]
    ensures forall i, j :: 0 < i < j < |ap| ==>
              Ids(sorted)[i] < |ap| && Ids(sorted)[j] < |ap| &&
              Before(StateKey(ap, Ids(sorted)[i], nterminal, nsymbol), StateKey(ap, Ids(sorted)[j], nterminal, nsymbol))
  {
    hide StateKey, Before;
    var order := Ids(sorted);
    forall i | 0 < i < |ap|
      ensures order[i] < |ap| && StateKey(ap, order[i], nterminal, nsymbol) == sorted[i - 1]
    {
      assert order[i] == sorted[i - 1].id;
      assert keyed[sorted[i - 1].id - 1] == StateKey(ap, sorted[i - 1].id, nterminal, nsymbol);
    }
    forall i, j | 0 < i < j < |ap|
      ensures Before(StateKey(ap, order[i], nterminal, nsymbol), StateKey(ap, order[j], nterminal, nsymbol))
    {
      assert Before(sorted[i - 1], sorted[j - 1]);
    }
  }

  function Ids(s: seq<Keyed>): (r: seq<nat>)
    ensures |r| == |s| + 1 && r[0] == 0 && forall i :: 0 <= i < |s| ==> r[i + 1] == s[i].id
  {
    [0] + seq(|s|, i requires 0 <= i < |s| => s[i].id)
  }

  // Sorting entries whose ids are 1..n gives those ids in some order, each once.
  lemma SortedIds(keyed: seq<Keyed>, sorted: seq<Keyed>)
    requires multiset(keyed) == multiset(sorted)
    requires forall i :: 0 <= i < |keyed| ==> keyed[i].id == i + 1
    ensures |sorted| == |keyed| && Permutation(Ids(sorted))
    ensures forall i :: 0 <= i < |sorted| ==> 1 <= sorted[i].id <= |sorted| && sorted[i] == keyed[sorted[i].id - 1]
  {
    assert |multiset(keyed)| == |keyed| && |multiset(sorted)| == |sorted|;
    forall i | 0 <= i < |sorted| ensures 1 <= sorted[i].id <= |sorted| && sorted[i] == keyed[sorted[i].id - 1] {
      assert sorted[i] in multiset(keyed);
      var j :| 0 <= j < |keyed| && keyed[j] == sorted[i];
    }
    SortedIdsPermute(keyed, sorted);
  }

  lemma SortedIdsPermute(keyed: seq<Keyed>, sorted: seq<Keyed>)
    requires multiset(keyed) == multiset(sorted) && |sorted| == |keyed|
    requires forall i :: 0 <= i < |keyed| ==> keyed[i].id == i + 1
    requires forall i :: 0 <= i < |sorted| ==> 1 <= sorted[i].id <= |sorted| && sorted[i] == keyed[sorted[i].id - 1]
    ensures Permutation(Ids(sorted))
  {
    var order := Ids(sorted);
    forall k | 0 <= k < |order| ensures Occurs(order, k) {
      if k > 0 {
        assert keyed[k - 1] in multiset(sorted);
        var i :| 0 <= i < |sorted| && sorted[i] == keyed[k - 1];
        assert order[i + 1] == k;
      } else { assert order[0] == 0; }
    }
    forall i, j | 0 <= i < j < |order| ensures order[i] != order[j] {
      IdsDiffer(keyed, sorted, i, j);
    }
    forall i | 0 <= i < |order| ensures order[i] < |order| {
      if i > 0 { assert order[i] == sorted[i - 1].id; }
    }
  }

  lemma IdsDiffer(keyed: seq<Keyed>, sorted: seq<Keyed>, i: nat, j: nat)
    requires multiset(keyed) == multiset(sorted) && |sorted| == |keyed| && i < j <= |sorted|
    requires forall a :: 0 <= a < |keyed| ==> keyed[a].id == a + 1
    requires forall a :: 0 <= a < |sorted| ==> 1 <= sorted[a].id <= |sorted| && sorted[a] == keyed[sorted[a].id - 1]
    ensures Ids(sorted)[i] != Ids(sorted)[j]
  {
    assert Ids(sorted)[j] == sorted[j - 1].id;
    if i > 0 {
      assert Ids(sorted)[i] == sorted[i - 1].id;
      NotTwice(keyed, sorted, i - 1, j - 1);
    }
  }

  lemma NotTwice(keyed: seq<Keyed>, sorted: seq<Keyed>, i: nat, j: nat)
    requires multiset(keyed) == multiset(sorted) && i < j < |sorted|
    requires forall a :: 0 <= a < |keyed| ==> keyed[a].id == a + 1
    ensures sorted[i] != sorted[j]
  {
    if sorted[i] == sorted[j] {
      var x := sorted[i];
      assert sorted == sorted[..j] + [x] + sorted[j + 1..];
      assert sorted[..j][i] == x;
      OnlyOnce(keyed, x);
    }
  }

  lemma {:induction false} OnlyOnce(keyed: seq<Keyed>, x: Keyed)
    requires forall i, j :: 0 <= i < j < |keyed| ==> keyed[i] != keyed[j]
    ensures multiset(keyed)[x] <= 1
  {
    if |keyed| > 0 {
      OnlyOnce(keyed[1..], x);
      assert keyed == [keyed[0]] + keyed[1..];
      if keyed[0] == x { assert x !in keyed[1..]; }
    }
  }
}

/** The packed tables of ReportTable and the proof that they say what the action lists say. */
module LemonReport {
  import opened LemonActions
  import opened LemonResort
  import A = ActionTable
  import opened ParserTables

  // The numbers the generated parser is compiled with
  datatype Sizes = Sizes(nstate: nat, nrule: nat, nterminal: nat, nsymbol: nat)

  // compute_action, with states under their new numbers
  function Code(a: Action, num: seq<nat>, z: Sizes): int
    requires a.kind == SHIFT ==> a.x < |num|
  {
    match a.kind
    case SHIFT => num[a.x]
    case REDUCE => a.x + z.nstate
    case ERROR => z.nstate + z.nrule
    case ACCEPT => z.nstate + z.nrule + 1
    case _ => -1
  }

  ghost predicate GoodList(l: seq<Action>, num: seq<nat>, z: Sizes) {
    && OnePerSymbol(l)
    && (forall i :: 0 <= i < |l| ==> l[i].kind != ERROR && (l[i].kind == SHIFT ==> l[i].x < |num|))
  }

  // A row of the action table has exactly the effective actions on the symbols lo..hi.
  ghost predicate RowMatches(l: seq<Action>, lo: nat, hi: nat, num: seq<nat>, z: Sizes, row: A.Row)
    requires GoodList(l, num, z)
  {
    && (forall i :: 0 <= i < |l| && Effective(l[i]) && lo <= l[i].sp < hi ==>
          l[i].sp in row && row[l[i].sp] == Code(l[i], num, z))
    && (forall la :: la in row ==> exists i :: 0 <= i < |l| && Effective(l[i]) && lo <= l[i].sp < hi && l[i].sp == la)
  }

  // The transaction made of the first n entries of the list
  ghost predicate Collected(l: seq<Action>, n: nat, lo: nat, hi: nat, num: seq<nat>, z: Sizes, txn: seq<A.Entry>)
    requires GoodList(l, num, z) && n <= |l|
  {
    && (forall i :: 0 <= i < n && Effective(l[i]) && lo <= l[i].sp < hi ==> A.Entry(l[i].sp, Code(l[i], num, z)) in txn)
    && (forall e :: e in txn ==>
          exists i :: 0 <= i < n && Effective(l[i]) && lo <= l[i].sp < hi && e == A.Entry(l[i].sp, Code(l[i], num, z)))
  }

  lemma CollectedRow(l: seq<Action>, lo: nat, hi: nat, num: seq<nat>, z: Sizes, txn: seq<A.Entry>)
    requires GoodList(l, num, z) && Collected(l, |l|, lo, hi, num, z, txn) && A.Distinct(txn)
    ensures RowMatches(l, lo, hi, num, z, A.RowOf(txn))
  {
    A.RowOfEntries(txn);
    var row := A.RowOf(txn);
    forall i | 0 <= i < |l| && Effective(l[i]) && lo <= l[i].sp < hi
      ensures l[i].sp in row && row[l[i].sp] == Code(l[i], num, z)
    {
      var j :| 0 <= j < |txn| && txn[j] == A.Entry(l[i].sp, Code(l[i], num, z));
    }
    forall la | la in row
      ensures exists i :: 0 <= i < |l| && Effective(l[i]) && lo <= l[i].sp < hi && l[i].sp == la
    {
      var j :| 0 <= j < |txn| && txn[j].lookahead == la;
      assert txn[j] in txn;
    }
  }

  // One pass of the loop of ReportTable: put the actions of one list on one kind of symbol in the table.
  method InsertActions(p: A.ActTab, l: seq<Action>, lo: nat, hi: nat, num: seq<nat>, z: Sizes)
    returns (offset: int, checked: bool, ghost row: A.Row)
    requires p.Valid() && p.aLookahead == [] && GoodList(l, num, z)
    requires CountEffective(l, lo, hi) > 0
    modifies p
    ensures p.Valid() && p.aLookahead == []
    ensures p.placed == old(p.placed) + [A.Placed(row, offset)] && RowMatches(l, lo, hi, num, z, row)
    ensures checked && old(p.Lossless()) ==> p.Lossless()
  {
    CollectActions(p, l, lo, hi, num, z);
    hide GoodList, Collected, RowMatches, CountEffective;
    CountIsPositive(l, lo, hi);
    CollectedRow(l, lo, hi, num, z, p.aLookahead);
    row := A.RowOf(p.aLookahead);
    offset, checked := p.Insert();
  }

  method CollectActions(p: A.ActTab, l: seq<Action>, lo: nat, hi: nat, num: seq<nat>, z: Sizes)
    requires p.Valid() && p.aLookahead == [] && GoodList(l, num, z)
    modifies p
    ensures p.Valid() && p.placed == old(p.placed) && p.aAction == old(p.aAction)
    ensures A.Distinct(p.aLookahead) && Collected(l, |l|, lo, hi, num, z, p.aLookahead)
  {
    for i := 0 to |l|
      invariant p.Valid() && p.placed == old(p.placed) && p.aAction == old(p.aAction)
      invariant A.Distinct(p.aLookahead) && Collected(l, i, lo, hi, num, z, p.aLookahead)
    {
      if lo <= l[i].sp < hi && Code(l[i], num, z) >= 0 {
        ghost var txn := p.aLookahead;
        NewLookahead(l, i, lo, hi, num, z, txn);
        p.Action(l[i].sp, Code(l[i], num, z));
        CollectOne(l, i, lo, hi, num, z, txn);
      }
    }
  }

  lemma NewLookahead(l: seq<Action>, i: nat, lo: nat, hi: nat, num: seq<nat>, z: Sizes, txn: seq<A.Entry>)
    requires GoodList(l, num, z) && i < |l| && Collected(l, i, lo, hi, num, z, txn)
    requires Effective(l[i])
    ensures forall j :: 0 <= j < |txn| ==> txn[j].lookahead != l[i].sp
  {
    forall j | 0 <= j < |txn| ensures txn[j].lookahead != l[i].sp {
      assert txn[j] in txn;
    }
  }

  lemma CollectOne(l: seq<Action>, i: nat, lo: nat, hi: nat, num: seq<nat>, z: Sizes, txn: seq<A.Entry>)
    requires GoodList(l, num, z) && i < |l| && Collected(l, i, lo, hi, num, z, txn)
    requires Effective(l[i]) && lo <= l[i].sp < hi
    ensures Collected(l, i + 1, lo, hi, num, z, txn + [A.Entry(l[i].sp, Code(l[i], num, z))])
  {
  }

  // The offset belongs to a row of the table that matches the list.
  ghost predicate Recorded(placed: seq<A.Placed>, l: seq<Action>, lo: nat, hi: nat, num: seq<nat>, z: Sizes, offset: int)
    requires GoodList(l, num, z)
  {
    exists r :: 0 <= r < |placed| && placed[r].offset == offset && RowMatches(l, lo, hi, num, z, placed[r].row)
  }

  ghost predicate AllRecorded(placed: seq<A.Placed>, ap: seq<seq<Action>>, lo: nat, hi: nat, num: seq<nat>, z: Sizes,
                              ofst: map<nat, int>, mn: int)
    requires forall k :: 0 <= k < |ap| ==> GoodList(ap[k], num, z)
  {
    mn <= 0 && forall k :: k in ofst ==> k < |ap| && mn <= ofst[k] && Recorded(placed, ap[k], lo, hi, num, z, ofst[k])
  }

  lemma MoreRowsKeepRecorded(placed: seq<A.Placed>, p: A.Placed, ap: seq<seq<Action>>, lo: nat, hi: nat, num: seq<nat>,
                             z: Sizes, ofst: map<nat, int>, mn: int)
    requires forall k :: 0 <= k < |ap| ==> GoodList(ap[k], num, z)
    requires AllRecorded(placed, ap, lo, hi, num, z, ofst, mn)
    ensures AllRecorded(placed + [p], ap, lo, hi, num, z, ofst, mn)
  {
    forall k | k in ofst ensures Recorded(placed + [p], ap[k], lo, hi, num, z, ofst[k]) {
      var r :| 0 <= r < |placed| && placed[r].offset == ofst[k] && RowMatches(ap[k], lo, hi, num, z, placed[r].row);
      assert (placed + [p])[r] == placed[r];
    }
  }

  lemma NewRowRecorded(placed: seq<A.Placed>, p: A.Placed, ap: seq<seq<Action>>, k: nat, lo: nat, hi: nat, num: seq<nat>,
                       z: Sizes, ofst: map<nat, int>, mn: int)
    requires forall k :: 0 <= k < |ap| ==> GoodList(ap[k], num, z)
    requires AllRecorded(placed, ap, lo, hi, num, z, ofst, mn)
    requires k < |ap| && RowMatches(ap[k], lo, hi, num, z, p.row)
    ensures AllRecorded(placed + [p], ap, lo, hi, num, z, ofst[k := p.offset], if p.offset < mn then p.offset else mn)
  {
    MoreRowsKeepRecorded(placed, p, ap, lo, hi, num, z, ofst, mn);
    assert (placed + [p])[|placed|] == p;
  }

  // The offsets of the rows of all states: token rows and nonterminal rows
  datatype Offsets = Offsets(tkn: map<nat, int>, mnTkn: int, nt: map<nat, int>, mnNt: int)

  ghost predicate Packed(p: A.ActTab, ap: seq<seq<Action>>, num: seq<nat>, z: Sizes, o: Offsets)
    reads p
  {
    && p.Valid() && p.aLookahead == []
    && (forall k :: 0 <= k < |ap| ==> GoodList(ap[k], num, z))
    && AllRecorded(p.placed, ap, 0, z.nterminal, num, z, o.tkn, o.mnTkn)
    && AllRecorded(p.placed, ap, z.nterminal, z.nsymbol, num, z, o.nt, o.mnNt)
  }

  method PackOne(p: A.ActTab, ap: seq<seq<Action>>, num: seq<nat>, z: Sizes, o: Offsets, k: nat, isTkn: bool)
    returns (o': Offsets, checked: bool)
    requires Packed(p, ap, num, z, o) && k < |ap|
    requires if isTkn then CountEffective(ap[k], 0, z.nterminal) > 0 else CountEffective(ap[k], z.nterminal, z.nsymbol) > 0
    modifies p
    ensures Packed(p, ap, num, z, o')
    ensures o'.tkn.Keys == o.tkn.Keys + if isTkn then {k} else {}
    ensures o'.nt.Keys == o.nt.Keys + if isTkn then {} else {k}
    ensures checked && old(p.Lossless()) ==> p.Lossless()
  {
    hide A.ActTab.Valid, A.ActTab.Lossless, GoodList, AllRecorded, RowMatches, CountEffective;
    ghost var placed, row := p.placed, map[];
    var offset;
    if isTkn {
      offset, checked, row := InsertActions(p, ap[k], 0, z.nterminal, num, z);
      NewRowRecorded(placed, A.Placed(row, offset), ap, k, 0, z.nterminal, num, z, o.tkn, o.mnTkn);
      MoreRowsKeepRecorded(placed, A.Placed(row, offset), ap, z.nterminal, z.nsymbol, num, z, o.nt, o.mnNt);
      o' := o.(tkn := o.tkn[k := offset], mnTkn := if offset < o.mnTkn then offset else o.mnTkn);
    } else {
      offset, checked, row := InsertActions(p, ap[k], z.nterminal, z.nsymbol, num, z);
      NewRowRecorded(placed, A.Placed(row, offset), ap, k, z.nterminal, z.nsymbol, num, z, o.nt, o.mnNt);
      MoreRowsKeepRecorded(placed, A.Placed(row, offset), ap, 0, z.nterminal, num, z, o.tkn, o.mnTkn);
      o' := o.(nt := o.nt[k := offset], mnNt := if offset < o.mnNt then offset else o.mnNt);
    }
  }

  // The action sets to place, a token set and a nonterminal set per state (c tells them apart)
  function AxSets(ap: seq<seq<Action>>, z: Sizes): (ax: seq<Keyed>)
    ensures |ax| == 2 * |ap|
    ensures forall k :: 0 <= k < |ap| ==> ax[k] == Keyed(k, CountEffective(ap[k], 0, z.nterminal), 2 * k, 1)
    ensures forall k :: 0 <= k < |ap| ==>
              ax[|ap| + k] == Keyed(k, CountEffective(ap[k], z.nterminal, z.nsymbol), 2 * k + 1, 0)
  {
    seq(|ap|, k requires 0 <= k < |ap| => Keyed(k, CountEffective(ap[k], 0, z.nterminal), 2 * k, 1))
    + seq(|ap|, k requires 0 <= k < |ap| => Keyed(k, CountEffective(ap[k], z.nterminal, z.nsymbol), 2 * k + 1, 0))
  }

  // An entry of the sorted list of action sets describes a state.
  ghost predicate GoodAx(ap: seq<seq<Action>>, z: Sizes, x: Keyed) {
    && x.id < |ap|
    && x.a == if x.c == 1 then CountEffective(ap[x.id], 0, z.nterminal) else CountEffective(ap[x.id], z.nterminal, z.nsymbol)
  }

  lemma AxEntries(ap: seq<seq<Action>>, z: Sizes)
    ensures forall i :: 0 <= i < |SortKeyed(AxSets(ap, z))| ==> GoodAx(ap, z, SortKeyed(AxSets(ap, z))[i])
    ensures forall i :: 0 <= i < |AxSets(ap, z)| ==> AxSets(ap, z)[i] in SortKeyed(AxSets(ap, z))
  {
    var ax, sorted := AxSets(ap, z), SortKeyed(AxSets(ap, z));
    forall i | 0 <= i < |sorted| ensures GoodAx(ap, z, sorted[i]) {
      assert sorted[i] in multiset(ax);
      var j :| 0 <= j < |ax| && ax[j] == sorted[i];
      if j >= |ap| { assert ax[|ap| + (j - |ap|)] == ax[j]; }
    }
    forall i | 0 <= i < |ax| ensures ax[i] in sorted {
      assert ax[i] in multiset(sorted);
    }
  }

  // The placed sets up to position i
  ghost predicate AllPlaced(sorted: seq<Keyed>, i: nat, o: Offsets)
    requires i <= |sorted|
  {
    forall j :: 0 <= j < i ==> if sorted[j].c == 1 then sorted[j].id in o.tkn else sorted[j].id in o.nt
  }

  lemma EverySetPlaced(ap: seq<seq<Action>>, z: Sizes, i: nat, o: Offsets)
    requires i <= |SortKeyed(AxSets(ap, z))| && AllPlaced(SortKeyed(AxSets(ap, z)), i, o)
    requires i < |SortKeyed(AxSets(ap, z))| ==> SortKeyed(AxSets(ap, z))[i].a == 0
    ensures forall k :: 0 <= k < |ap| && CountEffective(ap[k], 0, z.nterminal) > 0 ==> k in o.tkn
    ensures forall k :: 0 <= k < |ap| && CountEffective(ap[k], z.nterminal, z.nsymbol) > 0 ==> k in o.nt
  {
    var ax, sorted := AxSets(ap, z), SortKeyed(AxSets(ap, z));
    SortDescends(ax);
    AxEntries(ap, z);
    hide *;
    forall k | 0 <= k < |ap| && CountEffective(ap[k], 0, z.nterminal) > 0 ensures k in o.tkn {
      PlacedBefore(sorted, i, o, ax[k]);
    }
    forall k | 0 <= k < |ap| && CountEffective(ap[k], z.nterminal, z.nsymbol) > 0 ensures k in o.nt {
      PlacedBefore(sorted, i, o, ax[|ap| + k]);
    }
  }

  // The sets placed before the first empty one are all that are not empty.
  lemma PlacedBefore(sorted: seq<Keyed>, i: nat, o: Offsets, x: Keyed)
    requires i <= |sorted| && Descending(sorted) && AllPlaced(sorted, i, o)
    requires i < |sorted| ==> sorted[i].a == 0
    requires x in sorted && x.a > 0
    ensures if x.c == 1 then x.id in o.tkn else x.id in o.nt
  {
    var j :| 0 <= j < |sorted| && sorted[j] == x;
    assert j < i;
  }

  lemma NonePlaced(sorted: seq<Keyed>, o: Offsets)
    ensures AllPlaced(sorted, 0, o)
  {
  }

  lemma GoodAxFacts(ap: seq<seq<Action>>, z: Sizes, x: Keyed)
    requires GoodAx(ap, z, x)
    ensures x.id < |ap|
    ensures x.a == if x.c == 1 then CountEffective(ap[x.id], 0, z.nterminal) else CountEffective(ap[x.id], z.nterminal, z.nsymbol)
  {
  }

  lemma OneMorePlaced(sorted: seq<Keyed>, i: nat, o: Offsets, o': Offsets)
    requires i < |sorted| && AllPlaced(sorted, i, o)
    requires o'.tkn.Keys == o.tkn.Keys + if sorted[i].c == 1 then {sorted[i].id} else {}
    requires o'.nt.Keys == o.nt.Keys + if sorted[i].c == 1 then {} else {sorted[i].id}
    ensures AllPlaced(sorted, i + 1, o')
  {
    forall j | 0 <= j < i + 1 ensures if sorted[j].c == 1 then sorted[j].id in o'.tkn.Keys else sorted[j].id in o'.nt.Keys {}
  }

  lemma EmptyIsPacked(p: A.ActTab, ap: seq<seq<Action>>, num: seq<nat>, z: Sizes)
    requires p.Valid() && p.aLookahead == [] && forall k :: 0 <= k < |ap| ==> GoodList(ap[k], num, z)
    ensures Packed(p, ap, num, z, Offsets(map[], 0, map[], 0))
  {
  }

  // The packing loop: larger sets first, until the first empty one
  method PackAll(ap: seq<seq<Action>>, num: seq<nat>, z: Sizes) returns (p: A.ActTab, o: Offsets, checked: bool)
    requires forall k :: 0 <= k < |ap| ==> GoodList(ap[k], num, z)
    ensures fresh(p) && Packed(p, ap, num, z, o)
    ensures forall k :: 0 <= k < |ap| && CountEffective(ap[k], 0, z.nterminal) > 0 ==> k in o.tkn
    ensures forall k :: 0 <= k < |ap| && CountEffective(ap[k], z.nterminal, z.nsymbol) > 0 ==> k in o.nt
    ensures checked ==> p.Lossless()
  {
    hide *;
    var ax := SortKeyed(AxSets(ap, z));
    AxEntries(ap, z);
    p := new A.ActTab();
    o := Offsets(map[], 0, map[], 0);
    EmptyIsPacked(p, ap, num, z);
    NonePlaced(ax, o);
    checked := true;
    var i := 0;
    while i < |ax| && ax[i].a > 0
      invariant i <= |ax| && fresh(p) && Packed(p, ap, num, z, o)
      invariant AllPlaced(ax, i, o)
      invariant checked ==> p.Lossless()
    {
      ghost var before := o;
      GoodAxFacts(ap, z, ax[i]);
      var c;
      o, c := PackOne(p, ap, num, z, o, ax[i].id, ax[i].c == 1);
      OneMorePlaced(ax, i, before, o);
      checked := checked && c;
      i := i + 1;
    }
    EverySetPlaced(ap, z, i, o);
  }

  // ---------- Writing the tables ----------

  // iDflt: the action on the {default} symbol, or the error action
  ghost predicate IsDefault(l: seq<Action>, num: seq<nat>, z: Sizes, d: int)
    requires GoodList(l, num, z)
  {
    if HasEffective(l, z.nsymbol)
    then exists i :: 0 <= i < |l| && l[i].sp == z.nsymbol && Effective(l[i]) && d == Code(l[i], num, z)
    else d == z.nstate + z.nrule
  }

  method FindDefault(l: seq<Action>, num: seq<nat>, z: Sizes) returns (d: int)
    requires GoodList(l, num, z) && forall i :: 0 <= i < |l| ==> l[i].sp <= z.nsymbol
    ensures IsDefault(l, num, z, d)
  {
    d := z.nstate + z.nrule;
    for i := 0 to |l|
      invariant if exists k :: 0 <= k < i && l[k].sp == z.nsymbol && Effective(l[k])
                then exists k :: 0 <= k < i && l[k].sp == z.nsymbol && Effective(l[k]) && d == Code(l[k], num, z)
                else d == z.nstate + z.nrule
    {
      if Code(l[i], num, z) >= 0 && l[i].sp >= z.nsymbol { d := Code(l[i], num, z); }
    }
  }

  // The number of states from the front up to the last one that has an offset
  method Trim(order: seq<nat>, ofst: map<nat, int>) returns (n: nat)
    ensures n <= |order| && forall i :: n <= i < |order| ==> order[i] !in ofst
  {
    n := |order|;
    while n > 0 && order[n - 1] !in ofst
      invariant n <= |order| && forall i :: n <= i < |order| ==> order[i] !in ofst
    {
      n := n - 1;
    }
  }

  function OffsetTable(order: seq<nat>, n: nat, ofst: map<nat, int>, useDflt: int): (t: seq<int>)
    requires n <= |order|
    ensures |t| == n && forall i :: 0 <= i < n ==> t[i] == if order[i] in ofst then ofst[order[i]] else useDflt
  {
    seq(n, i requires 0 <= i < n => if order[i] in ofst then ofst[order[i]] else useDflt)
  }

  // The written tables, entry by entry
  ghost predicate TablesFrom(t: Tables, a: seq<A.Entry>, n: nat, ap: seq<seq<Action>>, order: seq<nat>, num: seq<nat>,
                             z: Sizes, o: Offsets)
  {
    && n <= |a| && t.Shaped() && t.nstate == z.nstate == |ap| && Renumbering(|ap|, order, num)
    && (forall k :: 0 <= k < |ap| ==> GoodList(ap[k], num, z))
    && t.shiftUseDflt == o.mnTkn - 1 && t.reduceUseDflt == o.mnNt - 1 && |t.action| == n
    && (forall i :: 0 <= i < n ==>
          && t.lookahead[i] == (if a[i].lookahead < 0 then z.nsymbol else a[i].lookahead)
          && (a[i].action >= 0 ==> t.action[i] == a[i].action))
    && (forall i :: 0 <= i < |ap| ==>
          && order[i] < |ap|
          && (if i < |t.shiftOfst| && t.shiftOfst[i] != t.shiftUseDflt
              then order[i] in o.tkn && t.shiftOfst[i] == o.tkn[order[i]] else order[i] !in o.tkn)
          && (if i < |t.reduceOfst| && t.reduceOfst[i] != t.reduceUseDflt
              then order[i] in o.nt && t.reduceOfst[i] == o.nt[order[i]] else order[i] !in o.nt)
          && IsDefault(ap[order[i]], num, z, t.dflt[i]))
  }

  method WriteTables(p: A.ActTab, ap: seq<seq<Action>>, order: seq<nat>, num: seq<nat>, z: Sizes, o: Offsets,
                     ruleLhs: seq<nat>, ruleSize: seq<nat>)
    returns (t: Tables)
    requires Packed(p, ap, num, z, o) && |ap| == z.nstate && Renumbering(|ap|, order, num)
    requires forall k, i :: 0 <= k < |ap| && 0 <= i < |ap[k]| ==> ap[k][i].sp <= z.nsymbol
    requires |ruleLhs| == |ruleSize| == z.nrule
    ensures t.nrule == z.nrule && t.ruleLhs == ruleLhs && t.ruleSize == ruleSize
    ensures TablesFrom(t, p.aAction, p.nAction, ap, order, num, z, o)
  {
    var a, n := p.aAction, p.nAction;
    var action := seq(n, i requires 0 <= i < n <= |a| => if a[i].action < 0 then z.nstate + z.nrule + 2 else a[i].action);
    var lookahead := seq(n, i requires 0 <= i < n <= |a| => if a[i].lookahead < 0 then z.nsymbol else a[i].lookahead);
    var nShift := Trim(order, o.tkn);
    var nReduce := Trim(order, o.nt);
    var dflt: seq<int> := [];
    for i := 0 to |order|
      invariant |dflt| == i
      invariant forall j :: 0 <= j < i ==> IsDefault(ap[order[j]], num, z, dflt[j])
    {
      var d := FindDefault(ap[order[i]], num, z);
      dflt := dflt + [d];
    }
    t := Tables(z.nstate, z.nrule, action, lookahead,
                OffsetTable(order, nShift, o.tkn, o.mnTkn - 1), o.mnTkn - 1,
                OffsetTable(order, nReduce, o.nt, o.mnNt - 1), o.mnNt - 1,
                dflt, ruleLhs, ruleSize);
  }

  // ---------- The packed tables say what the action lists say ----------

  // A lookup at a recorded offset finds the action of the list on that symbol, and nothing else.
  lemma RecordedLookup(a: seq<A.Entry>, placed: seq<A.Placed>, l: seq<Action>, lo: nat, hi: nat, num: seq<nat>, z: Sizes,
                       offset: int, la: nat)
    requires GoodList(l, num, z) && A.AllHold(a, placed) && Recorded(placed, l, lo, hi, num, z, offset)
    requires forall r :: 0 <= r < |placed| ==> A.ValidRow(placed[r].row)
    requires lo <= la < hi
    ensures A.Lookup(a, offset, la).Some? <==> HasEffective(l, la)
    ensures forall i :: 0 <= i < |l| && l[i].sp == la && Effective(l[i]) ==>
              A.Lookup(a, offset, la) == A.Some(Code(l[i], num, z))
  {
    var r :| 0 <= r < |placed| && placed[r].offset == offset && RowMatches(l, lo, hi, num, z, placed[r].row);
    A.HoldsIffLookup(a, placed[r].row, offset);
    assert A.Lookup(a, offset, la) == A.RowAction(placed[r].row, la);
  }

  lemma WrittenLookup(t: Tables, a: seq<A.Entry>, n: nat, ap: seq<seq<Action>>, order: seq<nat>, num: seq<nat>,
                      z: Sizes, o: Offsets, offset: int, la: nat)
    requires TablesFrom(t, a, n, ap, order, num, z, o) && A.UsedSlots(a, n) && la < z.nsymbol
    ensures (0 <= offset + la < |t.action| && t.lookahead[offset + la] == la) <==> A.Lookup(a, offset, la).Some?
    ensures A.Lookup(a, offset, la).Some? && A.Lookup(a, offset, la).value >= 0 ==>
              t.action[offset + la] == A.Lookup(a, offset, la).value
  {
  }

  // The entries of one state in the written tables
  lemma StateEntries(t: Tables, a: seq<A.Entry>, n: nat, ap: seq<seq<Action>>, order: seq<nat>, num: seq<nat>,
                     z: Sizes, o: Offsets, k: nat)
    requires TablesFrom(t, a, n, ap, order, num, z, o) && k < |ap|
    ensures t.Shaped() && k < |num| && num[k] < t.nstate == |t.dflt|
    ensures forall j :: 0 <= j < |ap| ==> GoodList(ap[j], num, z)
    ensures if num[k] < |t.shiftOfst| && t.shiftOfst[num[k]] != t.shiftUseDflt
            then k in o.tkn && t.shiftOfst[num[k]] == o.tkn[k] else k !in o.tkn
    ensures if num[k] < |t.reduceOfst| && t.reduceOfst[num[k]] != t.reduceUseDflt
            then k in o.nt && t.reduceOfst[num[k]] == o.nt[k] else k !in o.nt
    ensures IsDefault(ap[k], num, z, t.dflt[num[k]])
  {
    assert order[num[k]] == k;
  }

  // yy_find_shift_action on the packed tables gives the code of the state's action on the token;
  // where the state has none it gives the state's default.
  lemma TokenLookup(t: Tables, a: seq<A.Entry>, n: nat, placed: seq<A.Placed>, ap: seq<seq<Action>>, order: seq<nat>,
                    num: seq<nat>, z: Sizes, o: Offsets, k: nat, la: nat)
    requires TablesFrom(t, a, n, ap, order, num, z, o) && A.UsedSlots(a, n) && A.AllHold(a, placed)
    requires forall r :: 0 <= r < |placed| ==> A.ValidRow(placed[r].row)
    requires AllRecorded(placed, ap, 0, z.nterminal, num, z, o.tkn, o.mnTkn)
    requires k < |ap| && la < z.nterminal <= z.nsymbol
    requires CountEffective(ap[k], 0, z.nterminal) > 0 ==> k in o.tkn
    ensures num[k] < t.nstate
    ensures forall i :: 0 <= i < |ap[k]| && ap[k][i].sp == la && Effective(ap[k][i]) ==>
              t.FindShiftAction(num[k], la) == Code(ap[k][i], num, z)
    ensures !HasEffective(ap[k], la) ==> IsDefault(ap[k], num, z, t.FindShiftAction(num[k], la))
  {
    hide *;
    StateEntries(t, a, n, ap, order, num, z, o, k);
    LookupShift(t, num[k], la);
    if k in o.tkn {
      RecordedAt(placed, ap, 0, z.nterminal, num, z, o.tkn, o.mnTkn, k);
      WrittenLookup(t, a, n, ap, order, num, z, o, o.tkn[k], la);
      FoundInRow(t, a, placed, ap[k], num, z, o.tkn[k], num[k], la);
    } else {
      NoTokenAction(ap[k], z.nterminal, la);
      assert !RowHas(t, num[k], la) by { NoRow(t, num[k], la); }
    }
  }

  lemma RecordedAt(placed: seq<A.Placed>, ap: seq<seq<Action>>, lo: nat, hi: nat, num: seq<nat>, z: Sizes,
                   ofst: map<nat, int>, mn: int, k: nat)
    requires forall j :: 0 <= j < |ap| ==> GoodList(ap[j], num, z)
    requires AllRecorded(placed, ap, lo, hi, num, z, ofst, mn) && k in ofst && k < |ap|
    ensures Recorded(placed, ap[k], lo, hi, num, z, ofst[k])
  {
    hide GoodList, Recorded;
  }

  lemma NoRow(t: Tables, s: nat, x: nat)
    requires t.Shaped() && s < t.nstate && !(s < |t.shiftOfst| && t.shiftOfst[s] != t.shiftUseDflt)
    ensures !RowHas(t, s, x)
  {
  }

  lemma FoundInRow(t: Tables, a: seq<A.Entry>, placed: seq<A.Placed>, l: seq<Action>, num: seq<nat>, z: Sizes,
                   offset: int, s: nat, la: nat)
    requires GoodList(l, num, z) && A.AllHold(a, placed) && Recorded(placed, l, 0, z.nterminal, num, z, offset)
    requires (forall r :: 0 <= r < |placed| ==> A.ValidRow(placed[r].row)) && la < z.nterminal
    requires t.Shaped() && s < t.nstate && s < |t.shiftOfst| && t.shiftOfst[s] == offset != t.shiftUseDflt
    requires (0 <= offset + la < |t.action| && t.lookahead[offset + la] == la) <==> A.Lookup(a, offset, la).Some?
    requires A.Lookup(a, offset, la).Some? && A.Lookup(a, offset, la).value >= 0 ==>
      t.action[offset + la] == A.Lookup(a, offset, la).value
    ensures forall i :: 0 <= i < |l| && l[i].sp == la && Effective(l[i]) ==> t.FindShiftAction(s, la) == Code(l[i], num, z)
    ensures !HasEffective(l, la) ==> s < |t.dflt| && t.FindShiftAction(s, la) == t.dflt[s]
  {
    LookupShift(t, s, la);
    AllCodesAreNatural(l, num, z);
    RecordedLookup(a, placed, l, 0, z.nterminal, num, z, offset, la);
    hide GoodList, Recorded, A.AllHold, A.ValidRow, A.Lookup, Code, Effective, Tables.FindShiftAction;
  }

  lemma AllCodesAreNatural(l: seq<Action>, num: seq<nat>, z: Sizes)
    requires GoodList(l, num, z)
    ensures forall i :: 0 <= i < |l| && Effective(l[i]) ==> Code(l[i], num, z) >= 0
  {
  }

  lemma NoTokenAction(l: seq<Action>, nterminal: nat, la: nat)
    requires CountEffective(l, 0, nterminal) == 0 && la < nterminal
    ensures !HasEffective(l, la) && forall i :: 0 <= i < |l| && l[i].sp == la ==> !Effective(l[i])
  {
    CountIsPositive(l, 0, nterminal);
  }

  // The row of a state in the written tables has an entry for the token.
  predicate RowHas(t: Tables, s: nat, x: nat)
    requires t.Shaped() && s < t.nstate
  {
    && s < |t.shiftOfst| && t.shiftOfst[s] != t.shiftUseDflt
    && 0 <= t.shiftOfst[s] + x < |t.action| && t.lookahead[t.shiftOfst[s] + x] == x
  }

  // What yy_find_shift_action does with the row and the default of a state
  lemma LookupShift(t: Tables, s: nat, x: nat)
    requires t.Shaped() && s < t.nstate
    ensures s < |t.dflt|
    ensures t.FindShiftAction(s, x) == if RowHas(t, s, x) then t.action[t.shiftOfst[s] + x] else t.dflt[s]
  {
  }

  // yy_find_reduce_action meets its assertions and gives the code of the state's action on the
  // nonterminal whenever the state has one.
  lemma GotoLookup(t: Tables, a: seq<A.Entry>, n: nat, placed: seq<A.Placed>, ap: seq<seq<Action>>, order: seq<nat>,
                   num: seq<nat>, z: Sizes, o: Offsets, k: nat, i: nat)
    requires TablesFrom(t, a, n, ap, order, num, z, o) && A.UsedSlots(a, n) && A.AllHold(a, placed)
    requires forall r :: 0 <= r < |placed| ==> A.ValidRow(placed[r].row)
    requires AllRecorded(placed, ap, z.nterminal, z.nsymbol, num, z, o.nt, o.mnNt)
    requires k < |ap| && i < |ap[k]| && Effective(ap[k][i]) && z.nterminal <= ap[k][i].sp < z.nsymbol
    requires CountEffective(ap[k], z.nterminal, z.nsymbol) > 0 ==> k in o.nt
    ensures num[k] < t.nstate && t.ReduceDefined(num[k], ap[k][i].sp)
    ensures t.FindReduceAction(num[k], ap[k][i].sp) == Code(ap[k][i], num, z)
  {
    hide *;
    StateEntries(t, a, n, ap, order, num, z, o, k);
    SomeCounted(ap[k], i, z.nterminal, z.nsymbol);
    RecordedAt(placed, ap, z.nterminal, z.nsymbol, num, z, o.nt, o.mnNt, k);
    assert HasEffective(ap[k], ap[k][i].sp) by { EffectiveAt(ap[k], i); }
    RecordedLookup(a, placed, ap[k], z.nterminal, z.nsymbol, num, z, o.nt[k], ap[k][i].sp);
    WrittenLookup(t, a, n, ap, order, num, z, o, o.nt[k], ap[k][i].sp);
    CodesAreNatural(ap[k], i, num, z);
    LookupReduce(t, num[k], ap[k][i].sp);
  }

  lemma SomeCounted(l: seq<Action>, i: nat, lo: nat, hi: nat)
    requires i < |l| && Effective(l[i]) && lo <= l[i].sp < hi
    ensures CountEffective(l, lo, hi) > 0
  {
    CountIsPositive(l, lo, hi);
  }

  lemma EffectiveAt(l: seq<Action>, i: nat)
    requires i < |l| && Effective(l[i])
    ensures HasEffective(l, l[i].sp)
  {
  }

  lemma CodesAreNatural(l: seq<Action>, i: nat, num: seq<nat>, z: Sizes)
    requires i < |l| && Effective(l[i]) && GoodList(l, num, z)
    ensures Code(l[i], num, z) >= 0
  {
  }

  lemma LookupReduce(t: Tables, s: nat, x: nat)
    requires t.Shaped() && s < |t.reduceOfst| && t.reduceOfst[s] != t.reduceUseDflt
    requires 0 <= t.reduceOfst[s] + x < |t.action| && t.lookahead[t.reduceOfst[s] + x] == x
    ensures t.ReduceDefined(s, x) && t.FindReduceAction(s, x) == t.action[t.reduceOfst[s] + x]
  {
  }
}
