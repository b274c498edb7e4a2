/** FindStates, getstate and buildshifts: the LR(0) automaton with its propagation links. */
module LemonAutomaton {
  import opened Grammars
  import opened Automata
  import opened LemonClosure
  import opened LemonConfigList

  // A state: its sorted basis and closure, the follow sets and forward links the closure gave its
  // configurations, the backward links (state, item) of its basis, and its shifts (symbol, state).
  datatype State = State(
    basis: seq<Item>, items: seq<Item>,
    fws: map<Item, set<nat>>, fplp: set<(Item, Item)>, bplp: set<(nat, Item)>,
    shifts: seq<(nat, nat)>)

  predicate Advanced(to: Item, from: Item) {
    to.rule == from.rule && to.dot == from.dot + 1
  }

  // Everything about a state that is settled when it is created
  ghost predicate GoodState(g: Grammar, an: Analysis, initial: bool, s: State) {
    && WellFormed(g) && AnalysisFor(g, an)
    && Ordered(s.basis) && Ordered(s.items)
    && (forall it :: it in s.items ==> ValidItem(g, it))
    && GoodBasis(g, initial, s.basis)
    && IsClosure(g, Elements(s.basis), Elements(s.items))
    && s.fws.Keys == Elements(s.items)
    && (forall x, a :: a in Base(s.fws, x) <==>
          (initial && x in s.basis && a == 0) || GivenBy(g, an, s.items, x, a))
    && (forall a, b :: (a, b) in s.fplp <==> a in s.items && (a, b) in ForwardPairs(g, an, a))
  }

  // The initial state starts from the rules of the start symbol, every other one from advanced items.
  ghost predicate GoodBasis(g: Grammar, initial: bool, basis: seq<Item>) {
    forall it :: it in basis ==>
      && ValidItem(g, it)
      && if initial then it.dot == 0 && g.rules[it.rule].lhs == g.start else it.dot > 0
  }

  // Some configuration of the closure contributes the lookahead to x.
  ghost predicate GivenBy(g: Grammar, an: Analysis, items: seq<Item>, x: Item, la: nat)
    requires WellFormed(g) && AnalysisFor(g, an) && forall it :: it in items ==> ValidItem(g, it)
  {
    exists it :: it in items && la in Contribution(g, an, it, x)
  }

  // The shift goes to the state whose basis is exactly the advanced items, and every advanced item
  // links back to where it came from.
  ghost predicate GoodShift(g: Grammar, states: seq<State>, k: nat, symbol: nat, target: nat)
    requires k < |states|
  {
    && AllValid(g, Elements(states[k].items))
    && 0 < target < |states| && states[target].basis != []
    && Elements(states[target].basis) == Successors(g, Elements(states[k].items), symbol)
    && (forall it :: it in states[k].items && HasNext(g, it) && Next(g, it) == symbol ==>
          (k, it) in states[target].bplp)
  }

  ghost predicate GoodShifts(g: Grammar, states: seq<State>, k: nat)
    requires k < |states|
  {
    && (forall j :: 0 <= j < |states[k].shifts| ==>
          && states[k].shifts[j].0 < g.nsymbol
          && GoodShift(g, states, k, states[k].shifts[j].0, states[k].shifts[j].1))
    && (forall i, j :: 0 <= i < j < |states[k].shifts| ==> states[k].shifts[i].0 != states[k].shifts[j].0)
  }

  ghost predicate HasShift(s: State, symbol: nat) {
    exists j :: 0 <= j < |s.shifts| && s.shifts[j].0 == symbol
  }

  // Every symbol after a dot has its shift.
  ghost predicate Complete(g: Grammar, s: State)
  {
    forall it :: it in s.items && HasNext(g, it) ==> HasShift(s, Next(g, it))
  }

  ghost predicate BackLinksGood(g: Grammar, states: seq<State>, t: nat)
    requires t < |states|
  {
    forall p, it :: (p, it) in states[t].bplp ==>
      p < |states| && it in states[p].items && Item(it.rule, it.dot + 1) in states[t].basis
  }

  // Invariant of the construction; the states in `open` are still being given their shifts.
  ghost predicate Inv(g: Grammar, an: Analysis, states: seq<State>, open: set<nat>) {
    && WellFormed(g) && AnalysisFor(g, an)
    && (forall k :: 0 <= k < |states| ==> GoodState(g, an, k == 0, states[k]))
    && (forall k :: 0 <= k < |states| ==> GoodShifts(g, states, k))
    && (forall k :: 0 <= k < |states| ==> BackLinksGood(g, states, k))
    && (forall j, k :: 0 <= j < k < |states| ==> states[j].basis != states[k].basis)
    && (forall k :: 0 <= k < |states| && k !in open ==> Complete(g, states[k]))
  }

  // What later steps may do to a state that exists already: only add backward links.
  ghost predicate Grows(s: State, s': State) {
    s'.bplp >= s.bplp && s' == s.(bplp := s'.bplp)
  }

  ghost predicate AllGrow(states: seq<State>, states': seq<State>) {
    |states| <= |states'| && forall k :: 0 <= k < |states| ==> Grows(states[k], states'[k])
  }

  // ---------- The finitely many bases that are not in the table yet ----------

  ghost function Bases(states: seq<State>): set<set<Item>> {
    set k | 0 <= k < |states| :: Elements(states[k].basis)
  }

  ghost function Unknown(g: Grammar, states: seq<State>): set<set<Item>> {
    (set s: set<Item> | s <= AllItems(g)) - Bases(states)
  }

  lemma UnknownShrinks(g: Grammar, states: seq<State>, states': seq<State>)
    requires |states| <= |states'| && forall k :: 0 <= k < |states| ==> states'[k].basis == states[k].basis
    ensures |Unknown(g, states')| <= |Unknown(g, states)|
  {
    assert Bases(states) <= Bases(states') by {
      forall b | b in Bases(states) ensures b in Bases(states') {
        var k :| 0 <= k < |states| && b == Elements(states[k].basis);
        assert Elements(states'[k].basis) == b;
      }
    }
    SubsetCardinality(Unknown(g, states'), Unknown(g, states));
  }

  lemma {:induction false} SubsetCardinality<T>(a: set<T>, b: set<T>)
    requires a <= b
    ensures |a| <= |b|
  {
    assert b == a + (b - a);
  }

  lemma NewBasisIsUnknown(g: Grammar, states: seq<State>, s: State)
    requires forall it :: it in s.basis ==> ValidItem(g, it)
    requires forall k :: 0 <= k < |states| ==> Ordered(states[k].basis) && states[k].basis != s.basis
    requires Ordered(s.basis)
    ensures |Unknown(g, states + [s])| < |Unknown(g, states)|
  {
    var b := Elements(s.basis);
    assert b <= AllItems(g);
    assert b !in Bases(states) by {
      if b in Bases(states) {
        var k :| 0 <= k < |states| && b == Elements(states[k].basis);
        OrderedIsUnique(states[k].basis, s.basis);
      }
    }
    assert Bases(states + [s]) == Bases(states) + {b} by {
      forall x | x in Bases(states) + {b} ensures x in Bases(states + [s]) {
        if x == b { assert (states + [s])[|states|] == s; } else {
          var k :| 0 <= k < |states| && x == Elements(states[k].basis);
          assert (states + [s])[k] == states[k];
        }
      }
    }
    assert Unknown(g, states + [s]) == Unknown(g, states) - {b};
  }

  // ---------- How later steps keep what holds of earlier states ----------

  lemma GrowsKeepsShift(g: Grammar, states: seq<State>, states': seq<State>, k: nat, symbol: nat, target: nat)
    requires AllGrow(states, states') && k < |states| && GoodShift(g, states, k, symbol, target)
    ensures GoodShift(g, states', k, symbol, target)
  {
    assert Grows(states[k], states'[k]) && Grows(states[target], states'[target]);
  }

  lemma GrowsKeepsShifts(g: Grammar, states: seq<State>, states': seq<State>, k: nat)
    requires AllGrow(states, states') && k < |states| && GoodShifts(g, states, k)
    ensures GoodShifts(g, states', k)
  {
    assert Grows(states[k], states'[k]);
    forall j | 0 <= j < |states[k].shifts|
      ensures GoodShift(g, states', k, states[k].shifts[j].0, states[k].shifts[j].1)
    {
      GrowsKeepsShift(g, states, states', k, states[k].shifts[j].0, states[k].shifts[j].1);
    }
  }

  lemma GrowsKeepsLinks(g: Grammar, states: seq<State>, states': seq<State>, t: nat)
    requires AllGrow(states, states') && t < |states| && BackLinksGood(g, states, t)
    requires states'[t].bplp == states[t].bplp
    ensures BackLinksGood(g, states', t)
  {
    assert Grows(states[t], states'[t]);
    forall p, it | (p, it) in states'[t].bplp
      ensures p < |states'| && it in states'[p].items && Item(it.rule, it.dot + 1) in states'[t].basis
    {
      assert Grows(states[p], states'[p]);
    }
  }

  // The links a shift from state k over the symbol brings
  ghost predicate LinksFrom(g: Grammar, states: seq<State>, k: nat, links: set<(nat, Item)>, basis: set<Item>) {
    k < |states| && forall p, it :: (p, it) in links ==>
      p == k && it in states[k].items && Item(it.rule, it.dot + 1) in basis
  }

  // getstate, first branch: copying links into an existing state
  lemma CopyLinksKeepsInv(g: Grammar, an: Analysis, states: seq<State>, open: set<nat>, t: nat, k: nat, links: set<(nat, Item)>)
    requires Inv(g, an, states, open) && t < |states|
    requires LinksFrom(g, states, k, links, Elements(states[t].basis))
    ensures var states' := states[t := states[t].(bplp := states[t].bplp + links)];
      Inv(g, an, states', open) && AllGrow(states, states')
  {
    var states' := states[t := states[t].(bplp := states[t].bplp + links)];
    assert AllGrow(states, states');
    forall j | 0 <= j < |states'| ensures GoodShifts(g, states', j) && BackLinksGood(g, states', j) {
      GrowsKeepsShifts(g, states, states', j);
      if j == t {
        assert BackLinksGood(g, states, t);
        forall p, it | (p, it) in states'[t].bplp
          ensures p < |states'| && it in states'[p].items && Item(it.rule, it.dot + 1) in states'[t].basis
        {
          if (p, it) in links { assert Item(it.rule, it.dot + 1) in Elements(states[t].basis); }
        }
      } else {
        GrowsKeepsLinks(g, states, states', j);
      }
    }
  }

  // getstate, second branch: a new state without shifts is open.
  lemma NewStateKeepsInv(g: Grammar, an: Analysis, states: seq<State>, open: set<nat>, s: State)
    requires Inv(g, an, states, open) && GoodState(g, an, states == [], s) && s.shifts == []
    requires forall k :: 0 <= k < |states| ==> states[k].basis != s.basis
    requires BackLinksGood(g, states + [s], |states|)
    ensures Inv(g, an, states + [s], open + {|states|}) && AllGrow(states, states + [s])
  {
    var states' := states + [s];
    assert AllGrow(states, states');
    forall j | 0 <= j < |states'| ensures GoodShifts(g, states', j) && BackLinksGood(g, states', j) {
      if j < |states| {
        GrowsKeepsShifts(g, states, states', j);
        GrowsKeepsLinks(g, states, states', j);
      }
    }
  }

  // buildshifts, end of a round: recording the shift of an open state
  lemma AddShiftKeepsInv(g: Grammar, an: Analysis, states: seq<State>, open: set<nat>, k: nat, symbol: nat, target: nat)
    requires Inv(g, an, states, open) && k in open && k < |states|
    requires GoodShift(g, states, k, symbol, target) && !HasShift(states[k], symbol) && symbol < g.nsymbol
    ensures Inv(g, an, states[k := states[k].(shifts := [(symbol, target)] + states[k].shifts)], open)
  {
    var states' := states[k := states[k].(shifts := [(symbol, target)] + states[k].shifts)];
    forall j | 0 <= j < |states'| ensures GoodShifts(g, states', j) && BackLinksGood(g, states', j) {
      assert GoodShifts(g, states, j) && BackLinksGood(g, states, j);
      forall i | 0 <= i < |states'[j].shifts|
        ensures GoodShift(g, states', j, states'[j].shifts[i].0, states'[j].shifts[i].1)
      {
        if j == k && i > 0 { assert states'[j].shifts[i] == states[j].shifts[i - 1]; }
      }
      if j == k {
        forall a, b | 0 <= a < b < |states'[j].shifts|
          ensures states'[j].shifts[a].0 != states'[j].shifts[b].0
        {
          assert states'[j].shifts[b] == states[j].shifts[b - 1];
          if a > 0 { assert states'[j].shifts[a] == states[j].shifts[a - 1]; }
        }
      }
    }
  }

  // ---------- The construction ----------

  lemma {:induction false} ContributedMembers(g: Grammar, an: Analysis, list: seq<Item>, items: seq<Item>)
    requires WellFormed(g) && AnalysisFor(g, an) && Elements(list) == Elements(items)
    requires forall j :: 0 <= j < |list| ==> ValidItem(g, list[j])
    ensures forall it :: it in items ==> it in Elements(list)
    ensures forall x, la :: la in Contributed(g, an, list, x) <==> GivenBy(g, an, items, x, la)
    decreases |list|
  {
    forall it | it in items ensures it in Elements(list) { assert it in Elements(items); }
    forall it | it in list ensures it in items { assert it in Elements(list); }
    forall x, la ensures la in Contributed(g, an, list, x) <==> GivenBy(g, an, list, x, la) {
      ContributedBy(g, an, list, x, la);
    }
  }

  lemma {:induction false} ContributedBy(g: Grammar, an: Analysis, list: seq<Item>, x: Item, la: nat)
    requires WellFormed(g) && AnalysisFor(g, an)
    requires forall j :: 0 <= j < |list| ==> ValidItem(g, list[j])
    ensures la in Contributed(g, an, list, x) <==> GivenBy(g, an, list, x, la)
  {
    if |list| > 0 {
      var init := list[..|list| - 1];
      ContributedBy(g, an, init, x, la);
      assert list == init + [list[|list| - 1]];
    }
  }

  lemma ForwardMembers(g: Grammar, an: Analysis, list: seq<Item>, items: seq<Item>)
    requires WellFormed(g) && AnalysisFor(g, an) && Elements(list) == Elements(items)
    requires forall j :: 0 <= j < |list| ==> ValidItem(g, list[j])
    ensures forall it :: it in items ==> it in Elements(list)
    ensures forall a, b :: (a, b) in AllForwardPairs(g, an, list) <==> a in items && (a, b) in ForwardPairs(g, an, a)
  {
    forall it | it in items ensures it in Elements(list) { assert it in Elements(items); }
    forall it | it in list ensures it in items { assert it in Elements(list); }
    forall a, b ensures (a, b) in AllForwardPairs(g, an, list) <==> a in list && (a, b) in ForwardPairs(g, an, a) {
      ForwardsFrom(g, an, list, a, b);
    }
  }

  lemma StateIsGood(g: Grammar, an: Analysis, initial: bool, basis: seq<Item>, list: seq<Item>,
                    fws0: map<Item, set<nat>>, fws: map<Item, set<nat>>, fplp: set<(Item, Item)>, links: set<(nat, Item)>)
    requires WellFormed(g) && AnalysisFor(g, an) && NoRepeats(basis) && NoRepeats(list)
    requires GoodBasis(g, initial, basis) && IsClosure(g, Elements(basis), Elements(list))
    requires forall j :: 0 <= j < |list| ==> ValidItem(g, list[j])
    requires fws.Keys == Elements(list) && fplp == AllForwardPairs(g, an, list)
    requires forall x :: Base(fws0, x) == if initial && x in basis then {0} else {}
    requires forall x :: Base(fws, x) == Base(fws0, x) + Contributed(g, an, list, x)
    ensures GoodState(g, an, initial, State(Sort(basis), Sort(list), fws, fplp, links, []))
  {
    SortOrders(basis);
    SortOrders(list);
    var s := State(Sort(basis), Sort(list), fws, fplp, links, []);
    SameMembers(basis, s.basis);
    SameMembers(list, s.items);
    ContributedMembers(g, an, list, s.items);
    ForwardMembers(g, an, list, s.items);
  }

  lemma SameMembers(a: seq<Item>, b: seq<Item>)
    requires Elements(a) == Elements(b)
    ensures forall x :: x in a <==> x in b
  {
    forall x ensures x in a <==> x in b {
      assert x in Elements(a) <==> x in a;
      assert x in Elements(b) <==> x in b;
    }
  }

  lemma {:induction false} PairsStartAt(g: Grammar, it: Item, sym: nat, n: nat)
    requires n <= |g.rules|
    ensures forall p :: p in PairsWith(g, it, sym, n) ==> p.0 == it
  {
    if n > 0 { PairsStartAt(g, it, sym, n - 1); }
  }

  lemma {:induction false} ForwardsFrom(g: Grammar, an: Analysis, list: seq<Item>, a: Item, b: Item)
    requires WellFormed(g) && AnalysisFor(g, an)
    requires forall j :: 0 <= j < |list| ==> ValidItem(g, list[j])
    ensures (a, b) in AllForwardPairs(g, an, list) <==> a in list && (a, b) in ForwardPairs(g, an, a)
  {
    if |list| > 0 {
      var init, last := list[..|list| - 1], list[|list| - 1];
      ForwardsFrom(g, an, init, a, b);
      assert list == init + [last];
      if HasNext(g, last) { PairsStartAt(g, last, Next(g, last), |g.rules|); }
    }
  }

  predicate Over(g: Grammar, it: Item, symbol: nat) {
    HasNext(g, it) && Next(g, it) == symbol
  }

  // The inner loop of buildshifts: advance every configuration from index i on that has the symbol
  // after its dot, marking it as used.
  method AdvanceOver(g: Grammar, items: seq<Item>, i: nat, symbol: nat, k: nat, used: seq<bool>)
    returns (basis: seq<Item>, links: set<(nat, Item)>, used': seq<bool>)
    requires Ordered(items) && AllValid(g, Elements(items)) && i <= |items| == |used|
    requires forall j :: 0 <= j < |items| && Over(g, items[j], symbol) ==> i <= j && !used[j]
    ensures NoRepeats(basis) && Elements(basis) == Successors(g, Elements(items), symbol)
    ensures forall p, it :: (p, it) in links <==> p == k && it in items && Over(g, it, symbol)
    ensures |used'| == |used| && forall j :: 0 <= j < |used| ==> used'[j] == (used[j] || Over(g, items[j], symbol))
  {
    basis, links, used' := [], {}, used;
    for j := i to |items|
      invariant |used'| == |used|
      invariant forall q :: 0 <= q < |used| ==> used'[q] == (used[q] || (q < j && Over(g, items[q], symbol)))
      invariant forall x :: x in basis <==> x in Successors(g, Elements(items[..j]), symbol)
      invariant NoRepeats(basis)
      invariant forall p, it :: (p, it) in links <==> p == k && it in items[..j] && Over(g, it, symbol)
    {
      var it := items[j];
      if !used'[j] && HasNext(g, it) && Next(g, it) == symbol {
        assert it !in items[..j];
        assert Item(it.rule, it.dot + 1) !in Successors(g, Elements(items[..j]), symbol);
        used' := used'[j := true];
        basis := basis + [Item(it.rule, it.dot + 1)];
        links := links + {(k, it)};
      }
    }
    assert items[..|items|] == items;
  }

  // ---------- Every state is reached ----------

  ghost predicate ShiftsTo(s: State, t: nat) {
    exists i :: 0 <= i < |s.shifts| && s.shifts[i].1 == t
  }

  // An earlier state has a shift to t.
  ghost predicate HasParent(states: seq<State>, t: nat) {
    exists k: nat :: k < t && k < |states| && ShiftsTo(states[k], t)
  }

  // All states but those that are still waiting for their first shift
  ghost predicate AllParented(states: seq<State>, waiting: set<nat>) {
    forall t :: 0 < t < |states| && t !in waiting ==> HasParent(states, t)
  }

  // A sequence of shifts
  ghost predicate ShiftPath(states: seq<State>, p: seq<nat>) {
    && |p| > 0 && (forall i :: 0 <= i < |p| ==> p[i] < |states|)
    && (forall i :: 0 <= i < |p| - 1 ==> ShiftsTo(states[p[i]], p[i + 1]))
  }

  // A sequence of shifts leads from the first state to t.
  ghost predicate Reachable(states: seq<State>, t: nat) {
    exists p :: ShiftPath(states, p) && p[0] == 0 && p[|p| - 1] == t
  }

  lemma {:induction false} ParentedIsReached(states: seq<State>, t: nat)
    requires AllParented(states, {}) && t < |states|
    ensures Reachable(states, t)
  {
    if t == 0 {
      assert ShiftPath(states, [0]) && [0][|[0]| - 1] == 0;
    } else {
      assert HasParent(states, t);
      var k: nat :| k < t && k < |states| && ShiftsTo(states[k], t);
      ParentedIsReached(states, k);
      hide ShiftsTo, AllParented;
      var p :| ShiftPath(states, p) && p[0] == 0 && p[|p| - 1] == k;
      assert ShiftPath(states, p + [t]) && (p + [t])[|p|] == t;
    }
  }

  lemma KeepParents(states: seq<State>, states': seq<State>, waiting: set<nat>)
    requires AllParented(states, waiting) && |states| <= |states'|
    requires forall k, t: nat :: 0 <= k < |states| && ShiftsTo(states[k], t) ==> ShiftsTo(states'[k], t)
    ensures forall t :: 0 < t < |states| && t !in waiting ==> HasParent(states', t)
  {
    hide ShiftsTo;
    forall t | 0 < t < |states| && t !in waiting
      ensures HasParent(states', t)
    {
      assert HasParent(states, t);
      var k: nat :| k < t && k < |states| && ShiftsTo(states[k], t);
      assert ShiftsTo(states'[k], t);
    }
  }

  lemma NewStateWaits(states: seq<State>, waiting: set<nat>, s: State)
    requires AllParented(states, waiting)
    ensures AllParented(states + [s], waiting + {|states|})
  {
    hide ShiftsTo;
    KeepParents(states, states + [s], waiting);
  }

  lemma LinksKeepParents(states: seq<State>, waiting: set<nat>, id: nat, links: set<(nat, Item)>)
    requires AllParented(states, waiting) && id < |states|
    ensures AllParented(states[id := states[id].(bplp := states[id].bplp + links)], waiting)
  {
    KeepParents(states, states[id := states[id].(bplp := states[id].bplp + links)], waiting);
  }

  lemma ShiftGivesParent(states: seq<State>, waiting: set<nat>, k: nat, symbol: nat, target: nat)
    requires AllParented(states, waiting + {target}) && k < |states| && target < |states|
    requires k < target || AllParented(states, waiting)
    ensures AllParented(states[k := states[k].(shifts := [(symbol, target)] + states[k].shifts)], waiting)
  {
    var states' := states[k := states[k].(shifts := [(symbol, target)] + states[k].shifts)];
    MoreShifts(states[k], symbol, target);
    hide ShiftsTo, HasParent;
    KeepParents(states, states', if k < target then waiting + {target} else waiting);
    if k < target {
      NowParented(states', k, target);
    }
  }

  lemma NowParented(states: seq<State>, k: nat, target: nat)
    requires k < |states| && k < target && ShiftsTo(states[k], target)
    ensures HasParent(states, target)
  {
  }

  lemma MoreShifts(s: State, symbol: nat, target: nat)
    ensures var s' := s.(shifts := [(symbol, target)] + s.shifts);
      ShiftsTo(s', target) && forall t: nat :: ShiftsTo(s, t) ==> ShiftsTo(s', t)
  {
    var s' := s.(shifts := [(symbol, target)] + s.shifts);
    assert s'.shifts[0].1 == target;
    forall t: nat | ShiftsTo(s, t)
      ensures ShiftsTo(s', t)
    {
      var i :| 0 <= i < |s.shifts| && s.shifts[i].1 == t;
      assert s'.shifts[i + 1].1 == t;
    }
  }

  lemma FewerWait(states: seq<State>, waiting: set<nat>, id: nat)
    requires AllParented(states, waiting)
    ensures AllParented(states, waiting + {id})
  {
    hide HasParent;
  }

  class Builder {
    const g: Grammar
    const an: Analysis
    var states: seq<State>

    constructor (g: Grammar, an: Analysis)
      requires WellFormed(g) && AnalysisFor(g, an)
      ensures this.g == g && this.an == an && states == [] && Inv(g, an, states, {})
    {
      this.g, this.an, states := g, an, [];
    }

    // State_find: the state with the given sorted basis
    method Find(basis: seq<Item>) returns (found: bool, id: nat)
      ensures found ==> id < |states| && states[id].basis == basis
      ensures !found ==> forall k :: 0 <= k < |states| ==> states[k].basis != basis
    {
      for k := 0 to |states|
        invariant forall q :: 0 <= q < k ==> states[q].basis != basis
      {
        if states[k].basis == basis { return true, k; }
      }
      return false, 0;
    }

    // The second branch of getstate up to the recursion: close the basis into a new state.
    method NewState(basis: seq<Item>, k: nat, links: set<(nat, Item)>) returns (s: State)
      requires WellFormed(g) && AnalysisFor(g, an) && NoRepeats(basis)
      requires GoodBasis(g, states == [], basis)
      ensures GoodState(g, an, states == [], s)
      ensures s.basis == Sort(basis) && s.bplp == links && s.shifts == []
    {
      var initial := states == [];
      var list := new ConfigList(g, an);
      for i := 0 to |basis|
        invariant list.Valid() && list.current == basis[..i] && list.fplp == {} && fresh(list)
        invariant list.g == g && list.an == an
        invariant forall x :: Base(list.fws, x) == if initial && x in basis[..i] then {0} else {}
      {
        list.Add(basis[i]);
        if initial { list.fws := list.fws[basis[i] := {0}]; }
      }
      assert basis[..|basis|] == basis;
      ghost var fws0 := list.fws;
      list.Closure();
      s := State(Sort(basis), Sort(list.current), list.fws, list.fplp, links, []);
      StateIsGood(g, an, initial, basis, list.current, fws0, list.fws, list.fplp, links);
    }

    // FindStates: the first state starts every rule of the start symbol; the others follow from it.
    method FindStates()
      requires WellFormed(g) && AnalysisFor(g, an) && states == []
      modifies this`states
      ensures Inv(g, an, states, {}) && states != []
      ensures forall it :: it in states[0].basis <==> it in Expansion(g, g.start, |g.rules|)
      ensures forall t: nat :: t < |states| ==> Reachable(states, t)
    {
      var basis: seq<Item> := [];
      ExpansionMembers(g, g.start, |g.rules|);
      for r := 0 to |g.rules|
        invariant NoRepeats(basis)
        invariant forall it :: it in basis <==> it in Expansion(g, g.start, |g.rules|) && it.rule < r
      {
        if g.rules[r].lhs == g.start { basis := basis + [Item(r, 0)]; }
      }
      var s := NewState(basis, 0, {});
      SortOrders(basis);
      SameMembers(basis, s.basis);
      NewStateKeepsInv(g, an, [], {}, s);
      states := [] + [s];
      BuildShifts(0, {0});
      assert {0} - {0} == {};
      assert AllParented(states, {});
      forall t: nat | t < |states|
        ensures Reachable(states, t)
      {
        ParentedIsReached(states, t);
      }
    }

    // getstate: the state with this basis, built (with everything it leads to) if it is new.
    // The recursion ends because every new state takes one of finitely many bases.
    method GetState(basis: seq<Item>, k: nat, links: set<(nat, Item)>, ghost open: set<nat>) returns (id: nat)
      requires Inv(g, an, states, open) && states != []
      requires forall q :: q in open ==> q < |states|
      requires |basis| > 0 && NoRepeats(basis) && GoodBasis(g, false, basis)
      requires LinksFrom(g, states, k, links, Elements(basis)) && k < |states| && AllParented(states, open)
      modifies this`states
      ensures Inv(g, an, states, open) && AllGrow(old(states), states)
      ensures 0 < id < |states| && Elements(states[id].basis) == Elements(basis) && links <= states[id].bplp
      ensures AllParented(states, open + {id}) && (k < id || AllParented(states, open))
      decreases |Unknown(g, states)|, 1
    {
      InvGrammar(g, an, states, open);
      SortOrders(basis);
      var sorted := Sort(basis);
      hide *;
      var found;
      found, id := Find(sorted);
      if found {
        CopyLinksKeepsInv(g, an, states, open, id, k, links);
        InitialHasOtherBasis(g, an, states, open, id, basis);
        LinksKeepParents(states, open, id, links);
        FewerWait(states[id := states[id].(bplp := states[id].bplp + links)], open, id);
        states := states[id := states[id].(bplp := states[id].bplp + links)];
      } else {
        id := AddState(basis, k, links, open);
      }
    }

    // The second branch of getstate: the new state, and everything it leads to
    method AddState(basis: seq<Item>, k: nat, links: set<(nat, Item)>, ghost open: set<nat>) returns (id: nat)
      requires Inv(g, an, states, open) && states != [] && WellFormed(g) && AnalysisFor(g, an)
      requires forall q :: q in open ==> q < |states|
      requires |basis| > 0 && NoRepeats(basis) && GoodBasis(g, false, basis)
      requires LinksFrom(g, states, k, links, Elements(basis))
      requires Ordered(Sort(basis)) && Elements(Sort(basis)) == Elements(basis)
      requires forall j :: 0 <= j < |states| ==> states[j].basis != Sort(basis)
      requires AllParented(states, open)
      modifies this`states
      ensures Inv(g, an, states, open) && AllGrow(old(states), states)
      ensures 0 < id < |states| && Elements(states[id].basis) == Elements(basis) && links <= states[id].bplp
      ensures AllParented(states, open + {id}) && id == |old(states)|
      decreases |Unknown(g, states)|, 0
    {
      hide *;
      var s := NewState(basis, k, links);
      id := |states|;
      NewStateJoins(g, an, states, open, s, basis, k, links);
      NewStateWaits(states, open, s);
      states := states + [s];
      BuildShifts(id, open + {id});
      assert open + {id} - {id} == open;
      BuiltGrows(old(states), s, states);
    }

    // One round of buildshifts: the successor over one symbol
    method ShiftOver(k: nat, i: nat, used: seq<bool>, ghost open: set<nat>) returns (used': seq<bool>)
      requires Inv(g, an, states, open) && k in open && k < |states|
      requires forall q :: q in open ==> q < |states|
      requires i < |states[k].items| == |used| && HasNext(g, states[k].items[i])
      requires UsedMarks(g, states[k], used) && !used[i]
      requires forall j :: 0 <= j < i && HasNext(g, states[k].items[j]) ==> used[j]
      requires AllParented(states, open)
      modifies this`states
      ensures Inv(g, an, states, open) && OthersGrow(old(states), states, k)
      ensures AllParented(states, open)
      ensures UsedMarks(g, states[k], used') && used'[i]
      ensures forall j :: 0 <= j < |used| && used[j] ==> used'[j]
      decreases |Unknown(g, states)|, 2
    {
      var items := states[k].items;
      var symbol := Next(g, items[i]);
      OpenSymbol(g, an, states, open, k, i, used);
      hide *;
      var basis, links;
      basis, links, used' := AdvanceOver(g, items, i, symbol, k, used);
      SuccessorsAreBasis(g, items, symbol, basis, i);
      LinksOfRound(g, states, k, symbol, basis, links);
      var target := GetState(basis, k, links, open);
      ghost var before := states;
      RoundIsGood(g, an, old(states), before, open, k, symbol, basis, links, target);
      ShiftGivesParent(before, open, k, symbol, target);
      states := states[k := states[k].(shifts := [(symbol, target)] + states[k].shifts)];
      RoundGrows(g, old(states), before, states, k, symbol, target, i, used, used');
    }

    // buildshifts: for every symbol after a dot, the state reached over it.
    method BuildShifts(k: nat, ghost open: set<nat>)
      requires Inv(g, an, states, open) && k in open && k < |states| && states[k].shifts == []
      requires forall q :: q in open ==> q < |states|
      requires AllParented(states, open)
      modifies this`states
      ensures Inv(g, an, states, open - {k})
      ensures OthersGrow(old(states), states, k) && AllParented(states, open)
      decreases |Unknown(g, states)|, 3
    {
      NothingUsed(g, states[k]);
      OthersGrowSelf(states, k);
      hide *;
      var items := states[k].items;
      var used := seq(|items|, _ => false);
      for i := 0 to |items|
        invariant Inv(g, an, states, open) && OthersGrow(old(states), states, k) && AllParented(states, open)
        invariant k < |states| && states[k].items == items && |old(states)| <= |states|
        invariant |used| == |items| && UsedMarks(g, states[k], used)
        invariant forall j :: 0 <= j < i && HasNext(g, items[j]) ==> used[j]
      {
        if used[i] || !HasNext(g, items[i]) { continue; }
        OthersGrowFacts(g, old(states), states, k);
        ghost var before := states;
        used := ShiftOver(k, i, used, open);
        OthersGrowTransitive(old(states), before, states, k);
        OthersGrowFacts(g, before, states, k);
      }
      CloseState(g, an, states, open, k, used);
    }
  }

  // What a round of buildshifts starts from
  lemma OpenSymbol(g: Grammar, an: Analysis, states: seq<State>, open: set<nat>, k: nat, i: nat, used: seq<bool>)
    requires Inv(g, an, states, open) && k < |states| && i < |states[k].items| == |used| && HasNext(g, states[k].items[i])
    requires UsedMarks(g, states[k], used) && !used[i]
    requires forall j :: 0 <= j < i && HasNext(g, states[k].items[j]) ==> used[j]
    ensures var items, symbol := states[k].items, Next(g, states[k].items[i]);
      && Ordered(items) && AllValid(g, Elements(items)) && symbol < g.nsymbol && !HasShift(states[k], symbol)
      && Over(g, items[i], symbol)
      && forall j :: 0 <= j < |items| && Over(g, items[j], symbol) ==> i <= j && !used[j]
  {
    assert GoodState(g, an, k == 0, states[k]);
    assert states[k].items[i] in states[k].items;
  }

  lemma LinksOfRound(g: Grammar, states: seq<State>, k: nat, symbol: nat, basis: seq<Item>, links: set<(nat, Item)>)
    requires k < |states| && AllValid(g, Elements(states[k].items))
    requires Elements(basis) == Successors(g, Elements(states[k].items), symbol)
    requires forall p, it :: (p, it) in links <==> p == k && it in states[k].items && Over(g, it, symbol)
    ensures LinksFrom(g, states, k, links, Elements(basis))
  {
    forall p, it | (p, it) in links ensures Item(it.rule, it.dot + 1) in Elements(basis) {
      assert it in Elements(states[k].items);
    }
  }

  // The state found or built for a symbol may be recorded as the shift over it.
  lemma RoundIsGood(g: Grammar, an: Analysis, old': seq<State>, states: seq<State>, open: set<nat>, k: nat, symbol: nat,
                    basis: seq<Item>, links: set<(nat, Item)>, target: nat)
    requires Inv(g, an, states, open) && AllGrow(old', states) && k in open && k < |old'|
    requires AllValid(g, Elements(old'[k].items)) && symbol < g.nsymbol && !HasShift(old'[k], symbol)
    requires |basis| > 0 && Elements(basis) == Successors(g, Elements(old'[k].items), symbol)
    requires forall p, it :: (p, it) in links <==> p == k && it in old'[k].items && Over(g, it, symbol)
    requires 0 < target < |states| && Elements(states[target].basis) == Elements(basis) && links <= states[target].bplp
    ensures k < |states| && states[k].items == old'[k].items
    ensures Inv(g, an, states[k := states[k].(shifts := [(symbol, target)] + states[k].shifts)], open)
  {
    assert Grows(old'[k], states[k]);
    SameMembers(basis, states[target].basis);
    assert basis[0] in states[target].basis;
    hide Inv;
    AddShiftKeepsInv(g, an, states, open, k, symbol, target);
  }

  lemma RoundGrows(g: Grammar, old': seq<State>, before: seq<State>, states: seq<State>, k: nat, symbol: nat, target: nat,
                   i: nat, used: seq<bool>, used': seq<bool>)
    requires AllGrow(old', before) && k < |old'| && k < |before|
    requires states == before[k := before[k].(shifts := [(symbol, target)] + before[k].shifts)]
    requires i < |used| == |used'| == |old'[k].items| && UsedMarks(g, old'[k], used)
    requires Over(g, old'[k].items[i], symbol)
    requires forall j :: 0 <= j < |used| ==> used'[j] == (used[j] || Over(g, old'[k].items[j], symbol))
    ensures OthersGrow(old', states, k)
    ensures UsedMarks(g, states[k], used') && used'[i]
    ensures forall j :: 0 <= j < |used| && used[j] ==> used'[j]
  {
    assert Grows(old'[k], before[k]);
    forall x ensures HasShift(states[k], x) <==> x == symbol || HasShift(old'[k], x) {
      ShiftAdded(before[k], symbol, target, x);
    }
  }

  lemma NothingUsed(g: Grammar, s: State)
    requires s.shifts == []
    ensures UsedMarks(g, s, seq(|s.items|, _ => false))
  {
  }

  lemma OthersGrowSelf(states: seq<State>, k: nat)
    requires k < |states|
    ensures OthersGrow(states, states, k)
  {
  }

  lemma OthersGrowFacts(g: Grammar, states: seq<State>, states': seq<State>, k: nat)
    requires OthersGrow(states, states', k)
    ensures k < |states| <= |states'| && states'[k].items == states[k].items
    ensures |Unknown(g, states')| <= |Unknown(g, states)|
  {
    hide Unknown;
    UnknownShrinks(g, states, states');
  }

  // A configuration is marked when its symbol has its shift.
  ghost predicate UsedMarks(g: Grammar, s: State, used: seq<bool>) {
    && |used| == |s.items|
    && forall j :: 0 <= j < |used| ==> (used[j] <==> HasNext(g, s.items[j]) && HasShift(s, Next(g, s.items[j])))
  }

  // States other than k only gain backward links; k keeps its items.
  ghost predicate OthersGrow(states: seq<State>, states': seq<State>, k: nat) {
    && k < |states| <= |states'|
    && (forall j :: 0 <= j < |states| && j != k ==> Grows(states[j], states'[j]))
    && states'[k].basis == states[k].basis && states'[k].items == states[k].items
    && states'[k].bplp >= states[k].bplp
  }

  lemma OthersGrowTransitive(a: seq<State>, b: seq<State>, c: seq<State>, k: nat)
    requires OthersGrow(a, b, k) && OthersGrow(b, c, k)
    ensures OthersGrow(a, c, k)
  {
    forall j | 0 <= j < |a| && j != k ensures Grows(a[j], c[j]) {
      assert Grows(a[j], b[j]) && Grows(b[j], c[j]);
    }
  }

  lemma InvGrammar(g: Grammar, an: Analysis, states: seq<State>, open: set<nat>)
    requires Inv(g, an, states, open)
    ensures WellFormed(g) && AnalysisFor(g, an)
  {
  }

  // A state with a basis that no state has yet may be added, and uses up one of the possible bases.
  lemma NewStateJoins(g: Grammar, an: Analysis, states: seq<State>, open: set<nat>, s: State, basis: seq<Item>, k: nat,
                      links: set<(nat, Item)>)
    requires Inv(g, an, states, open) && states != [] && GoodState(g, an, false, s) && s.shifts == []
    requires s.basis == Sort(basis) && Ordered(s.basis) && Elements(s.basis) == Elements(basis)
    requires s.bplp == links && LinksFrom(g, states, k, links, Elements(basis))
    requires forall j :: 0 <= j < |states| ==> states[j].basis != s.basis
    ensures Inv(g, an, states + [s], open + {|states|}) && AllGrow(states, states + [s])
    ensures |Unknown(g, states + [s])| < |Unknown(g, states)|
  {
    SameMembers(basis, s.basis);
    NewStateKeepsInv(g, an, states, open, s);
    NewBasisIsUnknown(g, states, s);
  }

  lemma BuiltGrows(states: seq<State>, s: State, states': seq<State>)
    requires OthersGrow(states + [s], states', |states|)
    ensures |states| < |states'| && AllGrow(states, states') && states'[|states|].basis == s.basis && s.bplp <= states'[|states|].bplp
  {
    var added := states + [s];
    assert added[|states|] == s;
    forall k | 0 <= k < |states| ensures Grows(states[k], states'[k]) {
      assert added[k] == states[k];
    }
  }

  lemma CloseState(g: Grammar, an: Analysis, states: seq<State>, open: set<nat>, k: nat, used: seq<bool>)
    requires Inv(g, an, states, open) && k < |states| && UsedMarks(g, states[k], used)
    requires forall j :: 0 <= j < |used| && HasNext(g, states[k].items[j]) ==> used[j]
    ensures Inv(g, an, states, open - {k})
  {
    forall it | it in states[k].items && HasNext(g, it) ensures HasShift(states[k], Next(g, it)) {
      var j :| 0 <= j < |states[k].items| && states[k].items[j] == it;
      assert used[j];
    }
  }

  lemma ShiftAdded(s: State, symbol: nat, target: nat, x: nat)
    ensures HasShift(s.(shifts := [(symbol, target)] + s.shifts), x) <==> x == symbol || HasShift(s, x)
  {
    var s' := s.(shifts := [(symbol, target)] + s.shifts);
    assert s'.shifts[0] == (symbol, target);
    if j :| 0 <= j < |s.shifts| && s.shifts[j].0 == x { assert s'.shifts[j + 1] == s.shifts[j]; }
    if j :| 0 < j < |s'.shifts| && s'.shifts[j].0 == x { assert s'.shifts[j] == s.shifts[j - 1]; }
  }

  lemma SuccessorsAreBasis(g: Grammar, items: seq<Item>, symbol: nat, basis: seq<Item>, i: nat)
    requires AllValid(g, Elements(items)) && Elements(basis) == Successors(g, Elements(items), symbol)
    requires i < |items| && HasNext(g, items[i]) && Next(g, items[i]) == symbol
    ensures |basis| > 0 && GoodBasis(g, false, basis)
  {
    assert items[i] in Elements(items);
    assert Item(items[i].rule, items[i].dot + 1) in Elements(basis);
    forall it | it in basis ensures ValidItem(g, it) && it.dot > 0 {
      assert it in Elements(basis);
    }
  }

  lemma InitialHasOtherBasis(g: Grammar, an: Analysis, states: seq<State>, open: set<nat>, id: nat, basis: seq<Item>)
    requires Inv(g, an, states, open) && id < |states| && |basis| > 0 && GoodBasis(g, false, basis)
    requires Elements(states[id].basis) == Elements(basis)
    ensures id > 0
  {
    assert GoodState(g, an, id == 0, states[id]);
    SameMembers(states[id].basis, basis);
    assert basis[0] in states[id].basis;
  }

  // ---------- What the finished automaton guarantees ----------

  ghost function ItemSets(states: seq<State>): seq<set<Item>> {
    seq(|states|, k requires 0 <= k < |states| => Elements(states[k].items))
  }

  // A closure adds only items with the dot at the left end.
  lemma AddedItemsStart(g: Grammar, basis: set<Item>, items: set<Item>)
    requires IsClosure(g, basis, items)
    ensures forall it :: it in items && it.dot > 0 ==> it in basis
  {
    var s := set it | it in items && (it in basis || it.dot == 0);
    assert Closed(g, s) && basis <= s;
  }

  // Every item of a closure is in the basis or was brought in by another item.
  lemma ItemsAreJustified(g: Grammar, basis: set<Item>, items: set<Item>)
    requires IsClosure(g, basis, items)
    ensures forall it :: it in items ==> it in basis || exists it1 :: it1 in items && Expands(g, it1, it)
  {
    var s := set it | it in items && (it in basis || exists it1 :: it1 in items && Expands(g, it1, it));
    assert Closed(g, s) && basis <= s;
  }

  // Shifts are moves of the automaton.
  lemma ShiftIsLink(g: Grammar, an: Analysis, states: seq<State>, k: nat, j: nat)
    requires Inv(g, an, states, {}) && k < |states| && j < |states[k].shifts|
    ensures var (symbol, target) := states[k].shifts[j];
            0 < target < |states| && Link(g, ItemSets(states)[k], symbol, ItemSets(states)[target])
  {
    var (symbol, target) := states[k].shifts[j];
    assert GoodShifts(g, states, k) && GoodShift(g, states, k, symbol, target);
    assert GoodState(g, an, target == 0, states[target]);
    hide Inv;
    ClosureIsLinked(g, Elements(states[k].items), symbol, Elements(states[target].basis), Elements(states[target].items));
  }

  lemma ClosureIsLinked(g: Grammar, items: set<Item>, symbol: nat, basis: set<Item>, closure: set<Item>)
    requires AllValid(g, items) && AllValid(g, closure) && IsClosure(g, basis, closure)
    requires basis == Successors(g, items, symbol)
    ensures Link(g, items, symbol, closure)
  {
    AddedItemsStart(g, basis, closure);
  }

  // An item with the dot at the left end is waiting for its symbol: the state has a shift over the
  // symbol, unless the item starts a rule of the start symbol in the first state.
  lemma StartedItemHasShift(g: Grammar, an: Analysis, states: seq<State>, k: nat, it: Item)
    requires Inv(g, an, states, {}) && k < |states| && it in states[k].items && it.dot == 0
    ensures ValidItem(g, it)
    ensures HasShift(states[k], g.rules[it.rule].lhs) || (k == 0 && g.rules[it.rule].lhs == g.start)
  {
    assert GoodState(g, an, k == 0, states[k]) && Complete(g, states[k]);
    ItemsAreJustified(g, Elements(states[k].basis), Elements(states[k].items));
    assert it in Elements(states[k].items);
    if it in Elements(states[k].basis) {
      assert it in states[k].basis;
    } else {
      var it1 :| it1 in Elements(states[k].items) && Expands(g, it1, it);
      assert HasShift(states[k], Next(g, it1));
    }
  }

  lemma ItemSetsAreGood(g: Grammar, an: Analysis, states: seq<State>)
    requires Inv(g, an, states, {}) && states != []
    ensures forall it :: it in ItemSets(states)[0] ==> it.dot == 0
    ensures forall s, it :: 0 <= s < |states| && it in ItemSets(states)[s] ==> ValidItem(g, it)
  {
    assert GoodState(g, an, true, states[0]);
    AddedItemsStart(g, Elements(states[0].basis), Elements(states[0].items));
    forall it | it in ItemSets(states)[0] ensures it.dot == 0 {
      if it in Elements(states[0].basis) { assert it in states[0].basis; }
    }
    forall s, it | 0 <= s < |states| && it in ItemSets(states)[s] ensures ValidItem(g, it) {
      assert GoodState(g, an, s == 0, states[s]);
    }
  }
}
