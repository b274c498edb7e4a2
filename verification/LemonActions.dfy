/** Parser actions: their order in a list, and how two of them on one symbol are resolved. */
module LemonActions {
  import opened Grammars

  datatype Kind =
    | SHIFT | ACCEPT | REDUCE | ERROR
    | SSCONFLICT | SRCONFLICT | RRCONFLICT | SH_RESOLVED | RD_RESOLVED | NOT_USED

  // An action on a lookahead symbol; x is the new state of a shift or the rule of a reduce.
  datatype Action = Action(sp: nat, kind: Kind, x: nat)

  // Actions that compute_action gives a code
  predicate Effective(a: Action) {
    a.kind in {SHIFT, ACCEPT, REDUCE}
  }

  // ---------- Sorting an action list ----------

  function Rank(k: Kind): nat {
    match k
    case SHIFT => 0 case ACCEPT => 1 case REDUCE => 2 case ERROR => 3
    case SSCONFLICT => 4 case SRCONFLICT => 5 case RRCONFLICT => 6
    case SH_RESOLVED => 7 case RD_RESOLVED => 8 case NOT_USED => 9
  }

  // actioncmp, except that equal entries, which the source orders by address, may come in any order
  predicate ActionLeq(a: Action, b: Action) {
    || a.sp < b.sp
    || (a.sp == b.sp && Rank(a.kind) < Rank(b.kind))
    || (a.sp == b.sp && a.kind == b.kind && (a.kind != REDUCE || a.x <= b.x))
  }

  ghost predicate Sorted(l: seq<Action>) {
    forall i, j :: 0 <= i < j < |l| ==> ActionLeq(l[i], l[j])
  }

  function InsertAction(l: seq<Action>, a: Action): (r: seq<Action>)
    ensures multiset(r) == multiset(l) + multiset{a}
  {
    if |l| == 0 || ActionLeq(a, l[0]) then
      assert l + [] == l;
      [a] + l
    else
      assert l == [l[0]] + l[1..];
      [l[0]] + InsertAction(l[1..], a)
  }

  // Action_sort
  function SortActions(l: seq<Action>): (r: seq<Action>)
    ensures multiset(r) == multiset(l)
  {
    if |l| == 0 then []
    else
      assert l == [l[0]] + l[1..];
      InsertAction(SortActions(l[1..]), l[0])
  }

  lemma {:induction false} InsertKeepsSorted(l: seq<Action>, a: Action)
    requires Sorted(l)
    ensures Sorted(InsertAction(l, a))
  {
    if !(|l| == 0 || ActionLeq(a, l[0])) {
      InsertKeepsSorted(l[1..], a);
      var rest := InsertAction(l[1..], a);
      forall j | 0 <= j < |rest| ensures ActionLeq(l[0], rest[j]) {
        assert rest[j] in multiset(rest);
        assert rest[j] == a || rest[j] in l[1..];
      }
    }
  }

  lemma {:induction false} SortSorts(l: seq<Action>)
    ensures Sorted(SortActions(l))
  {
    if |l| > 0 {
      SortSorts(l[1..]);
      InsertKeepsSorted(SortActions(l[1..]), l[0]);
    }
  }

  // ---------- Conflicts ----------

  datatype Assoc = LEFT | RIGHT | NONE | UNK

  // Precedences: of a symbol (-1 if it has none) and the symbol that gives a rule its precedence
  datatype Precedence = Precedence(prec: nat -> int, assoc: nat -> Assoc, precsym: nat -> Opt)

  datatype Opt = No | Yes(sym: nat)

  predicate Conflicting(x: Action, y: Action) {
    (x.kind == SHIFT && y.kind in {SHIFT, REDUCE}) || (x.kind == REDUCE && y.kind == REDUCE)
  }

  // The precedence of a rule; negative if it has none
  function RulePrec(p: Precedence, rule: nat): int {
    match p.precsym(rule) case No => -1 case Yes(sym) => p.prec(sym)
  }

  // A reduce takes the place of an earlier action if both have a precedence and that of the reduce is
  // higher, or is the same as that of the token of a shift and the token is left associative.
  predicate Displaces(y: Action, x: Action, p: Precedence) {
    if x.kind == SHIFT then
      && 0 <= p.prec(x.sp) <= RulePrec(p, y.x)
      && (p.prec(x.sp) == RulePrec(p, y.x) ==> p.assoc(x.sp) == LEFT)
    else
      0 <= RulePrec(p, x.x) < RulePrec(p, y.x)
  }

  // resolve_conflict, without its count of errors
  function ResolveConflict(x: Action, y: Action, p: Precedence): (r: (Action, Action))
    ensures r.0.sp == x.sp && r.1.sp == y.sp && r.0.x == x.x && r.1.x == y.x
    ensures r.0 == x || r.0.kind in {SH_RESOLVED, RD_RESOLVED}
    ensures r.1 == y || r.1.kind in {SSCONFLICT, SRCONFLICT, RRCONFLICT, RD_RESOLVED}
    ensures Conflicting(x, y) ==> (r.0 == x && !Effective(r.1)) || (!Effective(r.0) && r.1 == y)
    ensures !Conflicting(x, y) ==> r == (x, y)
    ensures Conflicting(x, y) ==> (Effective(r.1) <==> y.kind == REDUCE && Displaces(y, x, p))
  {
    if x.kind == SHIFT && y.kind == SHIFT then (x, y.(kind := SSCONFLICT))
    else if x.kind == SHIFT && y.kind == REDUCE then
      var spx := x.sp;
      match p.precsym(y.x)
      case No => (x, y.(kind := SRCONFLICT))
      case Yes(spy) =>
        if p.prec(spx) < 0 || p.prec(spy) < 0 then (x, y.(kind := SRCONFLICT))
        else if p.prec(spx) > p.prec(spy) then (x, y.(kind := RD_RESOLVED))
        else if p.prec(spx) < p.prec(spy) then (x.(kind := SH_RESOLVED), y)
        else if p.assoc(spx) == RIGHT then (x, y.(kind := RD_RESOLVED))
        else if p.assoc(spx) == LEFT then (x.(kind := SH_RESOLVED), y)
        else (x, y.(kind := SRCONFLICT))
    else if x.kind == REDUCE && y.kind == REDUCE then
      match (p.precsym(x.x), p.precsym(y.x))
      case (Yes(spx), Yes(spy)) =>
        if p.prec(spx) < 0 || p.prec(spy) < 0 || p.prec(spx) == p.prec(spy) then (x, y.(kind := RRCONFLICT))
        else if p.prec(spx) > p.prec(spy) then (x, y.(kind := RD_RESOLVED))
        else (x.(kind := RD_RESOLVED), y)
      case _ => (x, y.(kind := RRCONFLICT))
    else (x, y)
  }

  // Before resolution: at most one shift or accept per symbol, and then before the reduces.
  ghost predicate Resolvable(l: seq<Action>) {
    forall i, j :: 0 <= i < j < |l| && l[i].sp == l[j].sp ==>
      l[i].kind !in {ACCEPT, ERROR} && l[j].kind !in {SHIFT, ACCEPT, ERROR}
  }

  // Grouped by symbol
  ghost predicate Grouped(l: seq<Action>) {
    forall i, j, k :: 0 <= i < j < k < |l| && l[i].sp == l[k].sp ==> l[j].sp == l[i].sp
  }

  // At most one action per symbol has an effect.
  ghost predicate OnePerSymbol(l: seq<Action>) {
    forall i, j :: 0 <= i < j < |l| && l[i].sp == l[j].sp ==> !(Effective(l[i]) && Effective(l[j]))
  }

  // Resolution only takes effect away from actions, and never from all actions of a symbol.
  ghost predicate Weakened(l: seq<Action>, l': seq<Action>) {
    && |l'| == |l|
    && (forall i :: 0 <= i < |l| ==>
          && l'[i].sp == l[i].sp && l'[i].x == l[i].x
          && (l'[i] == l[i] || l'[i].kind in {SSCONFLICT, SRCONFLICT, RRCONFLICT, SH_RESOLVED, RD_RESOLVED}))
    && (forall i :: 0 <= i < |l| && Effective(l[i]) ==> HasEffective(l', l[i].sp))
  }

  ghost predicate HasEffective(l: seq<Action>, sp: nat) {
    exists i :: 0 <= i < |l| && l[i].sp == sp && Effective(l[i])
  }

  // The position that wins among lo..hi, all on one symbol: each action meets the winner of those before it.
  ghost function Champion(l: seq<Action>, lo: nat, hi: nat, p: Precedence): (c: nat)
    requires lo < hi <= |l|
    ensures lo <= c < hi
    decreases hi - lo
  {
    if hi == lo + 1 then lo
    else
      var c := Champion(l, lo, hi - 1, p);
      if Displaces(l[hi - 1], l[c], p) then hi - 1 else c
  }

  // A shift that comes first survives if and only if no reduce behind it displaces it.
  lemma {:induction false} ShiftSurvives(l: seq<Action>, lo: nat, hi: nat, p: Precedence)
    requires lo < hi <= |l|
    ensures Champion(l, lo, hi, p) == lo <==> forall j :: lo < j < hi ==> !Displaces(l[j], l[lo], p)
    decreases hi - lo
  {
    if hi > lo + 1 {
      ShiftSurvives(l, lo, hi - 1, p);
    }
  }

  // Among reduces whose precedences are all known the earliest with the highest precedence survives.
  lemma {:induction false} HighestSurvives(l: seq<Action>, lo: nat, hi: nat, p: Precedence)
    requires lo < hi <= |l|
    requires forall j :: lo <= j < hi ==> l[j].kind == REDUCE && RulePrec(p, l[j].x) >= 0
    ensures var c := Champion(l, lo, hi, p);
      && (forall j :: lo <= j < hi ==> RulePrec(p, l[j].x) <= RulePrec(p, l[c].x))
      && (forall j :: lo <= j < c ==> RulePrec(p, l[j].x) < RulePrec(p, l[c].x))
    decreases hi - lo
  {
    if hi > lo + 1 {
      HighestSurvives(l, lo, hi - 1, p);
    }
  }

  // The group of actions on one symbol that a position belongs to
  ghost function GroupStart(l: seq<Action>, a: nat): (lo: nat)
    requires a < |l|
    ensures lo <= a && forall b :: lo <= b <= a ==> l[b].sp == l[a].sp
    ensures lo > 0 ==> l[lo - 1].sp != l[a].sp
  {
    if a > 0 && l[a - 1].sp == l[a].sp then GroupStart(l, a - 1) else a
  }

  ghost function GroupEnd(l: seq<Action>, a: nat): (hi: nat)
    requires a < |l|
    ensures a < hi <= |l| && forall b :: a <= b < hi ==> l[b].sp == l[a].sp
    ensures hi < |l| ==> l[hi].sp != l[a].sp
    decreases |l| - a
  {
    if a + 1 < |l| && l[a + 1].sp == l[a].sp then GroupEnd(l, a + 1) else a + 1
  }

  ghost predicate Wins(l: seq<Action>, a: nat, p: Precedence)
    requires a < |l|
  {
    a == Champion(l, GroupStart(l, a), GroupEnd(l, a), p)
  }

  // Exactly the winners of their groups keep their effect.
  ghost predicate WinnersStay(l: seq<Action>, l': seq<Action>, p: Precedence) {
    |l'| == |l| && forall a :: 0 <= a < |l| ==> (Effective(l'[a]) <==> Wins(l, a, p))
  }

  // Actions as FindActions collects them
  ghost predicate Unresolved(l: seq<Action>) {
    forall a :: a in l ==> a.kind in {SHIFT, ACCEPT, REDUCE}
  }

  // While the group from lo is being resolved: positions up to m have met their champion.
  ghost predicate Resolving(l: seq<Action>, l': seq<Action>, lo: nat, m: nat, p: Precedence) {
    && lo < m <= |l| == |l'|
    && (forall b :: lo <= b < m ==> l[b].sp == l[lo].sp)
    && (forall b :: lo <= b < m ==>
          if b == Champion(l, lo, m, p) then l'[b] == l[b] else !Effective(l'[b]) && l'[b].kind != REDUCE && l'[b].kind != SHIFT)
    && (forall b :: m <= b < |l| ==> l'[b] == l[b])
  }

  ghost predicate ResolvedBefore(l: seq<Action>, l': seq<Action>, lo: nat, p: Precedence) {
    && lo <= |l| == |l'|
    && (0 < lo < |l| ==> l[lo - 1].sp != l[lo].sp)
    && (forall a :: 0 <= a < lo ==> (Effective(l'[a]) <==> Wins(l, a, p)))
  }

  lemma ResolvingStep(l: seq<Action>, l': seq<Action>, lo: nat, m: nat, p: Precedence)
    requires Resolving(l, l', lo, m, p) && Resolvable(l) && Unresolved(l) && m < |l| && l[m].sp == l[lo].sp
    ensures var c := Champion(l, lo, m, p); var r := ResolveConflict(l'[c], l'[m], p);
      && Conflicting(l'[c], l'[m])
      && Resolving(l, l'[c := r.0][m := r.1], lo, m + 1, p)
  {
    hide ResolveConflict, Displaces, Resolvable;
    var c := Champion(l, lo, m, p);
    BothActions(l, lo, c, m);
  }

  lemma BothActions(l: seq<Action>, lo: nat, c: nat, m: nat)
    requires Resolvable(l) && Unresolved(l) && lo <= c < m < |l| && l[c].sp == l[m].sp
    ensures Conflicting(l[c], l[m]) && l[c].kind != ACCEPT && l[m].kind == REDUCE
  {
    assert l[c] in l && l[m] in l;
  }

  lemma GroupResolved(l: seq<Action>, l': seq<Action>, lo: nat, hi: nat, p: Precedence)
    requires Resolving(l, l', lo, hi, p) && ResolvedBefore(l, l', lo, p) && Unresolved(l)
    requires hi < |l| ==> l[hi].sp != l[lo].sp
    ensures ResolvedBefore(l, l', hi, p)
  {
    forall a | lo <= a < hi
      ensures Effective(l'[a]) <==> Wins(l, a, p)
    {
      GroupBounds(l, lo, hi, a);
      assert l[a] in l;
    }
  }

  lemma GroupBounds(l: seq<Action>, lo: nat, hi: nat, a: nat)
    requires lo <= a < hi <= |l| && forall b :: lo <= b < hi ==> l[b].sp == l[lo].sp
    requires (lo > 0 ==> l[lo - 1].sp != l[lo].sp) && (hi < |l| ==> l[hi].sp != l[lo].sp)
    ensures GroupStart(l, a) == lo && GroupEnd(l, a) == hi
  {
  }

  lemma WinnersAreOnePerSymbol(l: seq<Action>, l': seq<Action>, p: Precedence)
    requires Grouped(l) && Unresolved(l) && WinnersStay(l, l', p) && Kept(l, l')
    ensures Weakened(l, l') && OnePerSymbol(l')
  {
    hide Effective, Champion;
    forall i, j | 0 <= i < j < |l'| && l'[i].sp == l'[j].sp
      ensures !(Effective(l'[i]) && Effective(l'[j]))
    {
      SameGroup(l, i, j);
    }
    forall i | 0 <= i < |l| && Effective(l[i])
      ensures HasEffective(l', l[i].sp)
    {
      var c := Champion(l, GroupStart(l, i), GroupEnd(l, i), p);
      InGroup(l, i, c);
      assert Wins(l, c, p) && l'[c].sp == l[i].sp;
    }
  }

  lemma SameGroup(l: seq<Action>, i: nat, j: nat)
    requires Grouped(l) && i < j < |l| && l[i].sp == l[j].sp
    ensures GroupStart(l, i) == GroupStart(l, j) && GroupEnd(l, i) == GroupEnd(l, j)
  {
    var lo, hi := GroupStart(l, i), GroupEnd(l, j);
    forall b | lo <= b < hi
      ensures l[b].sp == l[lo].sp
    {
    }
    GroupBounds(l, lo, hi, i);
    GroupBounds(l, lo, hi, j);
  }

  lemma InGroup(l: seq<Action>, i: nat, c: nat)
    requires i < |l| && GroupStart(l, i) <= c < GroupEnd(l, i)
    ensures l[c].sp == l[i].sp && GroupStart(l, c) == GroupStart(l, i) && GroupEnd(l, c) == GroupEnd(l, i)
  {
    GroupBounds(l, GroupStart(l, i), GroupEnd(l, i), c);
  }

  // Resolution changes nothing but kinds, and those only to the marks of a conflict.
  ghost predicate Kept(l: seq<Action>, l': seq<Action>) {
    && |l'| == |l|
    && (forall i :: 0 <= i < |l| ==>
          && l'[i].sp == l[i].sp && l'[i].x == l[i].x
          && (l'[i] == l[i] || l'[i].kind in {SSCONFLICT, SRCONFLICT, RRCONFLICT, SH_RESOLVED, RD_RESOLVED}))
  }

  // Between two rounds of the outer loop: a group begins at i, or the group from lo goes on.
  ghost predicate Between(l: seq<Action>, l': seq<Action>, i: nat, lo: nat, m: nat, p: Precedence) {
    && Kept(l, l') && ResolvedBefore(l, l', lo, p)
    && if lo == i then m == lo && forall b :: lo <= b < |l| ==> l'[b] == l[b]
       else lo < |l| && InRow(l, l', i - 1, GroupEnd(l, lo), lo, m, p) && i < GroupEnd(l, lo)
  }

  // In round i, before it meets position j: only the champion goes on to meet others.
  ghost predicate InRow(l: seq<Action>, l': seq<Action>, i: int, j: nat, lo: nat, m: nat, p: Precedence)
    requires lo < |l|
  {
    && Kept(l, l') && lo <= i < j <= GroupEnd(l, lo) && Resolving(l, l', lo, m, p) && m <= GroupEnd(l, lo)
    && var c := Champion(l, lo, m, p);
       if c == i then m == j else if c > i then m == c + 1 else m == GroupEnd(l, lo)
  }

  lemma RowBegins(l: seq<Action>, l': seq<Action>, i: nat, lo: nat, m: nat, p: Precedence)
    requires Between(l, l', i, lo, m, p) && i < |l|
    ensures lo < |l| && ResolvedBefore(l, l', lo, p)
    ensures InRow(l, l', i, i + 1, lo, if lo == i then i + 1 else m, p)
  {
    if lo == i {
      hide Wins, GroupEnd;
      assert Champion(l, lo, lo + 1, p) == lo;
    } else {
      hide Kept, ResolvedBefore, GroupEnd, Resolving, Champion;
    }
  }

  lemma RowStep(l: seq<Action>, l': seq<Action>, i: nat, j: nat, lo: nat, m: nat, p: Precedence)
    requires Resolvable(l) && Unresolved(l) && lo < |l| && InRow(l, l', i, j, lo, m, p) && j < GroupEnd(l, lo)
    ensures i < |l'| && j < |l'| && lo < m <= |l|
    ensures var r := ResolveConflict(l'[i], l'[j], p);
      InRow(l, l'[i := r.0][j := r.1], i, j + 1, lo, if Champion(l, lo, m, p) == i then m + 1 else m, p)
  {
    hide ResolveConflict, GroupEnd, Resolvable, Unresolved, Displaces;
    var c, r := Champion(l, lo, m, p), ResolveConflict(l'[i], l'[j], p);
    SameSymbol(l, lo, i);
    SameSymbol(l, lo, j);
    if c == i {
      ResolvingStep(l, l', lo, m, p);
    } else {
      assert !Effective(l'[i]) && !Conflicting(l'[i], l'[j]);
      assert l'[i := r.0][j := r.1] == l';
    }
  }

  lemma SameSymbol(l: seq<Action>, lo: nat, i: nat)
    requires lo < |l| && lo <= i < GroupEnd(l, lo)
    ensures l[i].sp == l[lo].sp && GroupEnd(l, i) == GroupEnd(l, lo)
    decreases i
  {
    if i > lo { SameSymbol(l, lo, i - 1); }
  }

  lemma RowEnds(l: seq<Action>, l': seq<Action>, i: nat, lo: nat, m: nat, p: Precedence)
    requires Unresolved(l) && lo < |l| && InRow(l, l', i, GroupEnd(l, lo), lo, m, p) && ResolvedBefore(l, l', lo, p)
    ensures if i + 1 == GroupEnd(l, lo) then Between(l, l', i + 1, i + 1, i + 1, p) else Between(l, l', i + 1, lo, m, p)
  {
    if i + 1 == GroupEnd(l, lo) {
      assert m == i + 1;
      GroupResolved(l, l', lo, m, p);
    }
  }

  // The conflict loop of FindActions over one sorted list
  method ResolveConflicts(l: seq<Action>, p: Precedence) returns (l': seq<Action>)
    requires Grouped(l) && Resolvable(l) && Unresolved(l)
    ensures Weakened(l, l') && OnePerSymbol(l') && WinnersStay(l, l', p)
  {
    hide *;
    l' := l;
    ghost var lo: nat, m: nat := 0, 0;
    NothingResolved(l, p);
    for i := 0 to |l|
      invariant Between(l, l', i, lo, m, p)
    {
      RowBegins(l, l', i, lo, m, p);
      m := if lo == i then i + 1 else m;
      l', m := ResolveRow(l, l', p, i, lo, m);
      RowEnds(l, l', i, lo, m, p);
      if i + 1 == GroupEnd(l, lo) {
        lo, m := i + 1, i + 1;
      }
    }
    AllResolved(l, l', lo, m, p);
    WinnersAreOnePerSymbol(l, l', p);
  }

  // One round: an action meets all those behind it on the same symbol.
  method ResolveRow(l: seq<Action>, l0: seq<Action>, p: Precedence, i: nat, ghost lo: nat, ghost m0: nat)
    returns (l': seq<Action>, ghost m: nat)
    requires Resolvable(l) && Unresolved(l) && lo < |l| && InRow(l, l0, i, i + 1, lo, m0, p)
    requires ResolvedBefore(l, l0, lo, p)
    ensures InRow(l, l', i, GroupEnd(l, lo), lo, m, p) && ResolvedBefore(l, l', lo, p)
  {
    hide *;
    l', m := l0, m0;
    var j := i + 1;
    RowFacts(l, l', i, j, lo, m, p);
    while j < |l'| && l'[j].sp == l'[i].sp
      invariant lo <= i < j <= GroupEnd(l, lo) && |l'| == |l| && l'[i].sp == l[i].sp == l[lo].sp
      invariant j < |l| ==> l'[j].sp == l[j].sp && (l[j].sp == l[lo].sp <==> j < GroupEnd(l, lo))
      invariant InRow(l, l', i, j, lo, m, p) && ResolvedBefore(l, l', lo, p)
    {
      RowStep(l, l', i, j, lo, m, p);
      var r := ResolveConflict(l'[i], l'[j], p);
      StillBefore(l, l', lo, p, i, j, r.0, r.1);
      l' := l'[i := r.0][j := r.1];
      m := if Champion(l, lo, m, p) == i then m + 1 else m;
      j := j + 1;
      RowFacts(l, l', i, j, lo, m, p);
    }
  }

  lemma RowFacts(l: seq<Action>, l': seq<Action>, i: nat, j: nat, lo: nat, m: nat, p: Precedence)
    requires lo < |l| && InRow(l, l', i, j, lo, m, p)
    ensures lo <= i < j <= GroupEnd(l, lo) && |l'| == |l| && l'[i].sp == l[i].sp == l[lo].sp
    ensures j < |l| ==> l'[j].sp == l[j].sp && (l[j].sp == l[lo].sp <==> j < GroupEnd(l, lo))
  {
    SameSymbol(l, lo, i);
    if j < GroupEnd(l, lo) { SameSymbol(l, lo, j); }
  }

  lemma StillBefore(l: seq<Action>, l': seq<Action>, lo: nat, p: Precedence, i: nat, j: nat, x: Action, y: Action)
    requires ResolvedBefore(l, l', lo, p) && lo <= i < j < |l'|
    ensures ResolvedBefore(l, l'[i := x][j := y], lo, p)
  {
  }

  lemma NothingResolved(l: seq<Action>, p: Precedence)
    ensures Between(l, l, 0, 0, 0, p)
  {
  }

  lemma AllResolved(l: seq<Action>, l': seq<Action>, lo: nat, m: nat, p: Precedence)
    requires Between(l, l', |l|, lo, m, p)
    ensures Kept(l, l') && WinnersStay(l, l', p)
  {
    hide Wins;
  }
}
