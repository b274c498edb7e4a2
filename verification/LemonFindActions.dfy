/** FindActions: the action list of every state, with conflicts resolved. */
module LemonFindActions {
  import opened Grammars
  import opened Automata
  import opened LemonClosure
  import opened LemonAutomaton
  import opened LemonActions

  // The start symbol occurs on no right-hand side; LEMON reports an error otherwise.
  ghost predicate StartNotOnRhs(g: Grammar) {
    forall r, j :: 0 <= r < |g.rules| && 0 <= j < |g.rules[r].rhs| ==> g.rules[r].rhs[j] != g.start
  }

  type FollowSets = map<(nat, Item), set<nat>>

  // The actions a state has before conflicts are resolved
  ghost predicate Candidate(g: Grammar, states: seq<State>, fws: FollowSets, k: nat, a: Action)
    requires k < |states|
  {
    match a.kind
    case SHIFT => (a.sp, a.x) in states[k].shifts
    case REDUCE =>
      && a.sp < g.nterminal && a.x < |g.rules|
      && Item(a.x, |g.rules[a.x].rhs|) in states[k].items
      && (k, Item(a.x, |g.rules[a.x].rhs|)) in fws
      && a.sp in fws[(k, Item(a.x, |g.rules[a.x].rhs|))]
    case ACCEPT => k == 0 && a == Action(g.start, ACCEPT, 0)
    case _ => false
  }

  ghost predicate NoDuplicates(l: seq<Action>) {
    forall i, j :: 0 <= i < j < |l| ==> l[i] != l[j]
  }

  lemma {:induction false} CountAtMostOne(l: seq<Action>, a: Action)
    requires NoDuplicates(l)
    ensures multiset(l)[a] <= 1
  {
    if |l| > 0 {
      CountAtMostOne(l[1..], a);
      assert l == [l[0]] + l[1..];
      if l[0] == a { assert a !in l[1..]; }
    }
  }

  lemma CountTwice(r: seq<Action>, i: nat, j: nat)
    requires i < j < |r| && r[i] == r[j]
    ensures multiset(r)[r[i]] >= 2
  {
    assert r == r[..j] + [r[j]] + r[j + 1..];
    assert r[..j][i] == r[i];
  }

  lemma PermutationKeepsNoDuplicates(l: seq<Action>, r: seq<Action>)
    requires NoDuplicates(l) && multiset(l) == multiset(r)
    ensures NoDuplicates(r)
  {
    forall i, j | 0 <= i < j < |r| ensures r[i] != r[j] {
      CountAtMostOne(l, r[i]);
      if r[i] == r[j] { CountTwice(r, i, j); }
    }
  }

  lemma SameElements(l: seq<Action>, r: seq<Action>)
    requires multiset(l) == multiset(r)
    ensures forall a :: a in l <==> a in r
  {
    forall a ensures a in l <==> a in r {
      assert a in multiset(l) <==> a in l;
      assert a in multiset(r) <==> a in r;
    }
  }

  // Add the reduce actions of one completed configuration.
  method AddReduces(nterminal: nat, rule: nat, follow: set<nat>, l: seq<Action>) returns (l': seq<Action>)
    requires NoDuplicates(l) && forall a :: a in l ==> a.kind != REDUCE || a.x != rule
    ensures NoDuplicates(l')
    ensures forall a :: a in l' <==> a in l || (a.kind == REDUCE && a.x == rule && a.sp < nterminal && a.sp in follow)
  {
    l' := l;
    for j := 0 to nterminal
      invariant NoDuplicates(l')
      invariant forall a :: a in l' <==> a in l || (a.kind == REDUCE && a.x == rule && a.sp < j && a.sp in follow)
    {
      if j in follow {
        var a := Action(j, REDUCE, rule);
        assert a !in l';
        l' := [a] + l';
      }
    }
  }

  // The list of one state before sorting
  method Candidates(g: Grammar, states: seq<State>, fws: FollowSets, k: nat) returns (l: seq<Action>)
    requires k < |states| && WellFormed(g) && Ordered(states[k].items)
    requires forall it :: it in states[k].items ==> ValidItem(g, it)
    requires forall i, j :: 0 <= i < j < |states[k].shifts| ==> states[k].shifts[i].0 != states[k].shifts[j].0
    ensures NoDuplicates(l)
    ensures forall a :: a in l <==> Candidate(g, states, fws, k, a)
  {
    var items, shifts := states[k].items, states[k].shifts;
    l := seq(|shifts|, i requires 0 <= i < |shifts| => Action(shifts[i].0, SHIFT, shifts[i].1));
    ShiftActions(shifts, l);
    for i := 0 to |items|
      invariant NoDuplicates(l)
      invariant forall a ::
        a in l <==>
        && Candidate(g, states, fws, k, a) && a.kind != ACCEPT
        && (a.kind == REDUCE ==> Item(a.x, |g.rules[a.x].rhs|) in items[..i])
    {
      var it := items[i];
      assert ValidItem(g, it);
      if it.dot == |g.rules[it.rule].rhs| && (k, it) in fws {
        assert it !in items[..i];
        l := AddReduces(g.nterminal, it.rule, fws[(k, it)], l);
      }
    }
    assert items[..|items|] == items;
    if k == 0 { l := [Action(g.start, ACCEPT, 0)] + l; }
  }

  lemma ShiftActions(shifts: seq<(nat, nat)>, l: seq<Action>)
    requires |l| == |shifts| && forall i :: 0 <= i < |l| ==> l[i] == Action(shifts[i].0, SHIFT, shifts[i].1)
    requires forall i, j :: 0 <= i < j < |shifts| ==> shifts[i].0 != shifts[j].0
    ensures NoDuplicates(l)
    ensures forall a :: a in l <==> a.kind == SHIFT && (a.sp, a.x) in shifts
  {
    forall a: Action | a.kind == SHIFT && (a.sp, a.x) in shifts ensures a in l {
      var i :| 0 <= i < |shifts| && shifts[i] == (a.sp, a.x);
      assert l[i] == a;
    }
  }

  lemma CandidatesAreResolvable(g: Grammar, an: Analysis, states: seq<State>, fws: FollowSets, k: nat, l: seq<Action>)
    requires Inv(g, an, states, {}) && k < |states| && StartNotOnRhs(g)
    requires Sorted(l) && NoDuplicates(l) && forall a :: a in l ==> Candidate(g, states, fws, k, a)
    ensures Grouped(l) && Resolvable(l)
  {
    forall i, j | 0 <= i < j < |l| && l[i].sp == l[j].sp
      ensures l[i].kind !in {ACCEPT, ERROR} && l[j].kind !in {SHIFT, ACCEPT, ERROR}
    {
      assert Candidate(g, states, fws, k, l[i]) && Candidate(g, states, fws, k, l[j]);
      assert ActionLeq(l[i], l[j]);
      if l[i].kind == SHIFT {
        ShiftIsUnique(g, an, states, k, l[i], l[j]);
        NoShiftOverStart(g, an, states, k, l[i]);
      }
    }
  }

  lemma ShiftIsUnique(g: Grammar, an: Analysis, states: seq<State>, k: nat, a: Action, b: Action)
    requires Inv(g, an, states, {}) && k < |states| && a.sp == b.sp && a != b
    requires a.kind == SHIFT && (a.sp, a.x) in states[k].shifts
    ensures b.kind == SHIFT ==> (b.sp, b.x) !in states[k].shifts
  {
    assert GoodShifts(g, states, k);
    if b.kind == SHIFT && (b.sp, b.x) in states[k].shifts {
      var i :| 0 <= i < |states[k].shifts| && states[k].shifts[i] == (a.sp, a.x);
      var j :| 0 <= j < |states[k].shifts| && states[k].shifts[j] == (b.sp, b.x);
    }
  }

  lemma NoShiftOverStart(g: Grammar, an: Analysis, states: seq<State>, k: nat, a: Action)
    requires Inv(g, an, states, {}) && k < |states| && StartNotOnRhs(g)
    requires (a.sp, a.x) in states[k].shifts
    ensures a.sp != g.start
  {
    var j :| 0 <= j < |states[k].shifts| && states[k].shifts[j] == (a.sp, a.x);
    assert GoodShifts(g, states, k) && GoodShift(g, states, k, a.sp, a.x);
    assert GoodState(g, an, a.x == 0, states[a.x]);
    var it := states[a.x].basis[0];
    assert it in Elements(states[a.x].basis);
  }

  // The actions of a state after resolution: every effective one has its reason, no two compete, and
  // a symbol that had candidates keeps one.
  ghost predicate GoodActions(g: Grammar, states: seq<State>, fws: FollowSets, k: nat, l: seq<Action>)
    requires k < |states|
  {
    && OnePerSymbol(l)
    && (forall a :: a in l && Effective(a) ==> Candidate(g, states, fws, k, a))
    && (forall a :: a in l ==> a.kind != ERROR && exists c :: Candidate(g, states, fws, k, c) && c.sp == a.sp)
    && (forall a :: Candidate(g, states, fws, k, a) ==> HasEffective(l, a.sp))
  }

  lemma WeakenedIsGood(g: Grammar, states: seq<State>, fws: FollowSets, k: nat, l: seq<Action>, l': seq<Action>)
    requires k < |states| && Weakened(l, l') && OnePerSymbol(l')
    requires forall a :: a in l <==> Candidate(g, states, fws, k, a)
    ensures GoodActions(g, states, fws, k, l')
  {
    forall a | a in l' && Effective(a) ensures Candidate(g, states, fws, k, a) {
      var i :| 0 <= i < |l'| && l'[i] == a;
      assert l[i] == a;
    }
    forall a | a in l' ensures a.kind != ERROR && exists c :: Candidate(g, states, fws, k, c) && c.sp == a.sp {
      var i :| 0 <= i < |l'| && l'[i] == a;
      assert Candidate(g, states, fws, k, l[i]);
    }
    forall a | Candidate(g, states, fws, k, a) ensures HasEffective(l', a.sp) {
      var i :| 0 <= i < |l| && l[i] == a;
    }
  }

  // The final list is the sorted list of the candidates, each once, in which the winner of every symbol
  // has kept its effect.
  ghost predicate Resolved(g: Grammar, states: seq<State>, fws: FollowSets, k: nat, p: Precedence, l': seq<Action>)
    requires k < |states|
  {
    exists l :: SortedCandidates(g, states, fws, k, l) && Kept(l, l') && WinnersStay(l, l', p)
  }

  ghost predicate SortedCandidates(g: Grammar, states: seq<State>, fws: FollowSets, k: nat, l: seq<Action>)
    requires k < |states|
  {
    Sorted(l) && NoDuplicates(l) && forall a :: a in l <==> Candidate(g, states, fws, k, a)
  }

  lemma CandidatesAreUnresolved(g: Grammar, states: seq<State>, fws: FollowSets, k: nat, l: seq<Action>)
    requires k < |states| && SortedCandidates(g, states, fws, k, l)
    ensures Unresolved(l)
  {
  }

  // FindActions
  method FindActions(g: Grammar, ghost an: Analysis, states: seq<State>, fws: FollowSets, p: Precedence)
    returns (ap: seq<seq<Action>>)
    requires Inv(g, an, states, {}) && StartNotOnRhs(g)
    ensures |ap| == |states|
    ensures forall k :: 0 <= k < |states| ==> GoodActions(g, states, fws, k, ap[k]) && Resolved(g, states, fws, k, p, ap[k])
  {
    hide *;
    ap := [];
    for k := 0 to |states|
      invariant |ap| == k
      invariant forall j :: 0 <= j < k ==> GoodActions(g, states, fws, j, ap[j]) && Resolved(g, states, fws, j, p, ap[j])
    {
      var l := FindStateActions(g, an, states, fws, p, k);
      ap := ap + [l];
    }
  }

  // The actions of one state
  method FindStateActions(g: Grammar, ghost an: Analysis, states: seq<State>, fws: FollowSets, p: Precedence, k: nat)
    returns (resolved: seq<Action>)
    requires Inv(g, an, states, {}) && StartNotOnRhs(g) && k < |states|
    ensures GoodActions(g, states, fws, k, resolved) && Resolved(g, states, fws, k, p, resolved)
  {
    hide *;
    StateIsOrdered(g, an, states, k);
    var l := Candidates(g, states, fws, k);
    var sorted := SortActions(l);
    SortSorts(l);
    PermutationKeepsNoDuplicates(l, sorted);
    SameElements(l, sorted);
    CandidatesAreResolvable(g, an, states, fws, k, sorted);
    AreSorted(g, states, fws, k, sorted);
    CandidatesAreUnresolved(g, states, fws, k, sorted);
    resolved := ResolveConflicts(sorted, p);
    WeakenedIsGood(g, states, fws, k, sorted, resolved);
    IsResolved(g, states, fws, k, p, sorted, resolved);
  }

  lemma StateIsOrdered(g: Grammar, an: Analysis, states: seq<State>, k: nat)
    requires Inv(g, an, states, {}) && k < |states|
    ensures WellFormed(g) && Ordered(states[k].items) && forall it :: it in states[k].items ==> ValidItem(g, it)
    ensures forall i, j :: 0 <= i < j < |states[k].shifts| ==> states[k].shifts[i].0 != states[k].shifts[j].0
  {
    assert GoodState(g, an, k == 0, states[k]) && GoodShifts(g, states, k);
  }

  lemma AreSorted(g: Grammar, states: seq<State>, fws: FollowSets, k: nat, l: seq<Action>)
    requires k < |states| && Sorted(l) && NoDuplicates(l) && forall a :: a in l <==> Candidate(g, states, fws, k, a)
    ensures SortedCandidates(g, states, fws, k, l)
  {
  }

  lemma IsResolved(g: Grammar, states: seq<State>, fws: FollowSets, k: nat, p: Precedence, l: seq<Action>, l': seq<Action>)
    requires k < |states| && SortedCandidates(g, states, fws, k, l) && Weakened(l, l') && WinnersStay(l, l', p)
    ensures Resolved(g, states, fws, k, p, l')
  {
    assert Kept(l, l');
  }

  // Moves over nonterminals are never in conflict, so all of them survive.
  lemma GotosSurvive(g: Grammar, an: Analysis, states: seq<State>, fws: FollowSets, k: nat, l: seq<Action>, a: Action)
    requires Inv(g, an, states, {}) && k < |states| && StartNotOnRhs(g) && GoodActions(g, states, fws, k, l)
    requires Candidate(g, states, fws, k, a) && a.sp >= g.nterminal
    ensures a in l && Effective(a)
  {
    var i :| 0 <= i < |l| && l[i].sp == a.sp && Effective(l[i]);
    var b := l[i];
    assert b in l && Candidate(g, states, fws, k, b);
    if a.kind == SHIFT {
      NoShiftOverStart(g, an, states, k, a);
      if b != a { ShiftIsUnique(g, an, states, k, a, b); }
    } else if b.kind == SHIFT {
      NoShiftOverStart(g, an, states, k, b);
    }
  }

  // Every action of the lists is on a grammar symbol and refers to existing states and rules.
  ghost predicate InRange(g: Grammar, nstate: nat, l: seq<Action>) {
    forall a :: a in l ==>
      && a.sp < g.nsymbol && a.kind != ERROR
      && (a.kind == REDUCE ==> a.x < |g.rules|)
      && (a.kind == SHIFT ==> a.x < nstate)
  }

  lemma GoodActionsInRange(g: Grammar, an: Analysis, states: seq<State>, fws: FollowSets, k: nat, l: seq<Action>)
    requires Inv(g, an, states, {}) && k < |states| && GoodActions(g, states, fws, k, l)
    ensures InRange(g, |states|, l)
  {
    forall a | Candidate(g, states, fws, k, a)
      ensures a.sp < g.nsymbol && (a.kind == SHIFT ==> a.x < |states|)
    {
      if a.kind == SHIFT {
        var j :| 0 <= j < |states[k].shifts| && states[k].shifts[j] == (a.sp, a.x);
        assert GoodShifts(g, states, k);
      }
    }
  }
}
