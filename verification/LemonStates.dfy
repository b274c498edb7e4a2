/** What LR(0) states are: closures, successors, and the follow information a closure starts with. */
module LemonClosure {
  import opened Grammars
  import opened Automata

  // The result of FindFirstSets, indexed by symbol
  datatype Analysis = Analysis(first: seq<set<nat>>, lambda: seq<bool>)

  predicate AnalysisFor(g: Grammar, an: Analysis) {
    |an.first| == |an.lambda| == g.nsymbol
  }

  predicate HasNext(g: Grammar, it: Item) {
    it.rule < |g.rules| && it.dot < |g.rules[it.rule].rhs|
  }

  // The symbol after the dot
  function Next(g: Grammar, it: Item): nat
    requires HasNext(g, it)
  {
    g.rules[it.rule].rhs[it.dot]
  }

  // it2 starts a rule of the symbol after it1's dot, so it1 brings it2 into the closure.
  predicate Expands(g: Grammar, it1: Item, it2: Item)
  {
    && HasNext(g, it1) && Next(g, it1) >= g.nterminal
    && it2.dot == 0 && it2.rule < |g.rules| && g.rules[it2.rule].lhs == Next(g, it1)
  }

  ghost predicate AllValid(g: Grammar, items: set<Item>) {
    forall it :: it in items ==> ValidItem(g, it)
  }

  ghost predicate Closed(g: Grammar, items: set<Item>) {
    && AllValid(g, items)
    && (forall it1, it2 :: it1 in items && Expands(g, it1, it2) ==> it2 in items)
  }

  // items is the least closed set containing the basis.
  ghost predicate IsClosure(g: Grammar, basis: set<Item>, items: set<Item>) {
    && basis <= items
    && Closed(g, items)
    && (forall s :: basis <= s && Closed(g, s) ==> items <= s)
  }

  ghost function Successors(g: Grammar, items: set<Item>, symbol: nat): set<Item>
    requires AllValid(g, items)
  {
    set it | it in items && HasNext(g, it) && Next(g, it) == symbol :: Item(it.rule, it.dot + 1)
  }

  ghost function AllItems(g: Grammar): set<Item> {
    set r, d | 0 <= r < |g.rules| && 0 <= d <= |g.rules[r].rhs| :: Item(r, d)
  }

  // ---------- What follows: FIRST of the symbols after the next one ----------

  function FirstOfTail(g: Grammar, an: Analysis, tail: seq<nat>): set<nat>
    requires AnalysisFor(g, an) && forall j :: 0 <= j < |tail| ==> tail[j] < g.nsymbol
  {
    if |tail| == 0 then {}
    else if tail[0] < g.nterminal then {tail[0]}
    else an.first[tail[0]] + if an.lambda[tail[0]] then FirstOfTail(g, an, tail[1..]) else {}
  }

  predicate TailIsLambda(g: Grammar, an: Analysis, tail: seq<nat>)
    requires AnalysisFor(g, an) && forall j :: 0 <= j < |tail| ==> tail[j] < g.nsymbol
  {
    forall j :: 0 <= j < |tail| ==> tail[j] >= g.nterminal && an.lambda[tail[j]]
  }

  function Tail(g: Grammar, it: Item): seq<nat>
    requires HasNext(g, it)
  {
    g.rules[it.rule].rhs[it.dot + 1..]
  }

  // The items that start the first n rules for the symbol
  ghost function Expansion(g: Grammar, sym: nat, n: nat): set<Item>
    requires n <= |g.rules|
  {
    if n == 0 then {}
    else Expansion(g, sym, n - 1) + if g.rules[n - 1].lhs == sym then {Item(n - 1, 0)} else {}
  }

  // The items that `it` brings into the closure
  ghost function ExpansionOf(g: Grammar, it: Item): set<Item> {
    if HasNext(g, it) && Next(g, it) >= g.nterminal
    then Expansion(g, Next(g, it), |g.rules|) else {}
  }

  lemma {:induction false} ExpansionMembers(g: Grammar, sym: nat, n: nat)
    requires n <= |g.rules|
    ensures forall x :: x in Expansion(g, sym, n) <==> x.dot == 0 && x.rule < n && g.rules[x.rule].lhs == sym
  {
    if n > 0 { ExpansionMembers(g, sym, n - 1); }
  }

  lemma ExpansionIsExpands(g: Grammar, it: Item)
    ensures forall x :: x in ExpansionOf(g, it) <==> Expands(g, it, x)
  {
    if HasNext(g, it) { ExpansionMembers(g, Next(g, it), |g.rules|); }
  }

  // The lookaheads that `it` adds to x when the closure is taken
  ghost function Contribution(g: Grammar, an: Analysis, it: Item, x: Item): set<nat>
    requires WellFormed(g) && AnalysisFor(g, an) && ValidItem(g, it)
  {
    if x in ExpansionOf(g, it) then FirstOfTail(g, an, Tail(g, it)) else {}
  }

  ghost function Contributed(g: Grammar, an: Analysis, items: seq<Item>, x: Item): set<nat>
    requires WellFormed(g) && AnalysisFor(g, an) && forall j :: 0 <= j < |items| ==> ValidItem(g, items[j])
  {
    if |items| == 0 then {}
    else Contributed(g, an, items[..|items| - 1], x) + Contribution(g, an, items[|items| - 1], x)
  }

  // The links from `it` to the first n items that start a rule for the symbol
  ghost function PairsWith(g: Grammar, it: Item, sym: nat, n: nat): set<(Item, Item)>
    requires n <= |g.rules|
  {
    if n == 0 then {}
    else PairsWith(g, it, sym, n - 1) + if g.rules[n - 1].lhs == sym then {(it, Item(n - 1, 0))} else {}
  }

  // The links to the configurations that take over the whole follow set of `it`
  ghost function ForwardPairs(g: Grammar, an: Analysis, it: Item): set<(Item, Item)>
    requires WellFormed(g) && AnalysisFor(g, an) && ValidItem(g, it)
  {
    if HasNext(g, it) && Next(g, it) >= g.nterminal && TailIsLambda(g, an, Tail(g, it))
    then PairsWith(g, it, Next(g, it), |g.rules|) else {}
  }

  ghost function AllForwardPairs(g: Grammar, an: Analysis, items: seq<Item>): set<(Item, Item)>
    requires WellFormed(g) && AnalysisFor(g, an) && forall j :: 0 <= j < |items| ==> ValidItem(g, items[j])
  {
    if |items| == 0 then {}
    else AllForwardPairs(g, an, items[..|items| - 1]) + ForwardPairs(g, an, items[|items| - 1])
  }

  // ---------- Sorted lists of items ----------

  predicate ItemLess(a: Item, b: Item) {
    a.rule < b.rule || (a.rule == b.rule && a.dot < b.dot)
  }

  ghost predicate Ordered(s: seq<Item>) {
    forall i, j :: 0 <= i < j < |s| ==> ItemLess(s[i], s[j])
  }

  ghost predicate NoRepeats(s: seq<Item>) {
    forall i, j :: 0 <= i < j < |s| ==> s[i] != s[j]
  }

  function Elements(s: seq<Item>): set<Item> {
    set x | x in s
  }

  function Insert(s: seq<Item>, x: Item): seq<Item> {
    if |s| == 0 then [x]
    else if ItemLess(x, s[0]) then [x] + s
    else [s[0]] + Insert(s[1..], x)
  }

  // The order Configcmp sorts a configuration list into
  function Sort(s: seq<Item>): seq<Item> {
    if |s| == 0 then [] else Insert(Sort(s[1..]), s[0])
  }

  lemma {:induction false} InsertOrders(s: seq<Item>, x: Item)
    requires Ordered(s) && x !in s
    ensures Ordered(Insert(s, x)) && Elements(Insert(s, x)) == Elements(s) + {x}
  {
    if |s| > 0 && !ItemLess(x, s[0]) {
      assert x != s[0];
      assert s == [s[0]] + s[1..];
      InsertOrders(s[1..], x);
      var rest := Insert(s[1..], x);
      forall j | 0 <= j < |rest| ensures ItemLess(s[0], rest[j]) {
        assert rest[j] in Elements(rest);
        if rest[j] != x {
          assert rest[j] in s[1..];
        }
      }
      assert Elements(s) == {s[0]} + Elements(s[1..]);
      assert Elements([s[0]] + rest) == {s[0]} + Elements(rest);
    } else if |s| > 0 {
      assert Elements([x] + s) == {x} + Elements(s);
    }
  }

  lemma {:induction false} SortOrders(s: seq<Item>)
    requires NoRepeats(s)
    ensures Ordered(Sort(s)) && Elements(Sort(s)) == Elements(s)
  {
    if |s| > 0 {
      SortOrders(s[1..]);
      assert s == [s[0]] + s[1..];
      assert Elements(s) == {s[0]} + Elements(s[1..]);
      assert s[0] !in s[1..];
      assert s[0] !in Elements(Sort(s[1..]));
      InsertOrders(Sort(s[1..]), s[0]);
    }
  }

  lemma EmptyElements(s: seq<Item>)
    ensures Elements(s) == {} <==> s == []
  {
    if s != [] { assert s[0] in Elements(s); }
  }

  // Equal sets have equal ordered lists, so comparing sorted lists compares sets.
  lemma {:induction false} OrderedIsUnique(a: seq<Item>, b: seq<Item>)
    requires Ordered(a) && Ordered(b) && Elements(a) == Elements(b)
    ensures a == b
  {
    if |a| == 0 || |b| == 0 {
      EmptyElements(a);
      EmptyElements(b);
    } else {
      assert a[0] in Elements(b) && b[0] in Elements(a);
      assert a[0] == b[0];
      forall x ensures x in Elements(a[1..]) <==> x in Elements(b[1..]) {
        RestElements(a, x);
        RestElements(b, x);
      }
      OrderedIsUnique(a[1..], b[1..]);
      assert a == [a[0]] + a[1..] && b == [b[0]] + b[1..];
    }
  }

  lemma RestElements(s: seq<Item>, x: Item)
    requires Ordered(s) && |s| > 0
    ensures x in Elements(s[1..]) <==> x in Elements(s) && x != s[0]
  {
  }
}

/** Configlist_closure: the list of configurations of one state under construction. */
module LemonConfigList {
  import opened Grammars
  import opened Automata
  import opened LemonClosure

  lemma TailInRange(g: Grammar, it: Item)
    requires WellFormed(g) && ValidItem(g, it) && HasNext(g, it)
    ensures forall j :: 0 <= j < |Tail(g, it)| ==> Tail(g, it)[j] < g.nsymbol
  {
  }

  class ConfigList {
    const g: Grammar
    const an: Analysis
    var current: seq<Item>
    var fws: map<Item, set<nat>>
    var fplp: set<(Item, Item)>

    ghost predicate Valid()
      reads this
    {
      && WellFormed(g) && AnalysisFor(g, an)
      && NoRepeats(current)
      && (forall j :: 0 <= j < |current| ==> ValidItem(g, current[j]))
      && fws.Keys == Elements(current)
    }

    constructor (g: Grammar, an: Analysis)
      requires WellFormed(g) && AnalysisFor(g, an)
      ensures Valid() && current == [] && fws == map[] && fplp == {}
      ensures this.g == g && this.an == an
    {
      this.g, this.an := g, an;
      current, fws, fplp := [], map[], {};
    }

    // Configlist_add and Configlist_addbasis: add the configuration unless the list has it.
    method Add(it: Item)
      requires Valid() && ValidItem(g, it)
      modifies this`current, this`fws
      ensures Valid() && it in current
      ensures current == if it in old(current) then old(current) else old(current) + [it]
      ensures fws == if it in old(current) then old(fws) else old(fws)[it := {}]
    {
      if it !in current {
        current, fws := current + [it], fws[it := {}];
        assert Elements(current) == Elements(old(current)) + {it};
      }
    }

    // The innermost loop of the closure: what can follow the symbol after the dot, and whether the
    // loop got to the end of the rule.
    method FollowOf(it: Item) returns (found: set<nat>, toEnd: bool)
      requires Valid() && ValidItem(g, it) && HasNext(g, it)
      ensures found == FirstOfTail(g, an, Tail(g, it))
      ensures toEnd <==> TailIsLambda(g, an, Tail(g, it))
    {
      TailInRange(g, it);
      var tail := Tail(g, it);
      var i := 0;
      found := {};
      while i < |tail|
        invariant 0 <= i <= |tail|
        invariant found + FirstOfTail(g, an, tail[i..]) == FirstOfTail(g, an, tail)
        invariant forall j :: 0 <= j < i ==> tail[j] >= g.nterminal && an.lambda[tail[j]]
      {
        assert tail[i..][1..] == tail[i + 1..];
        if tail[i] < g.nterminal { return found + {tail[i]}, false; }
        found := found + an.first[tail[i]];
        if !an.lambda[tail[i]] { return found, false; }
        i := i + 1;
      }
      return found, true;
    }

    // One rule of the symbol after the dot of `it`
    method ExpandBy(it: Item, r: nat, found: set<nat>, toEnd: bool)
      requires Valid() && r < |g.rules|
      modifies this`current, this`fws, this`fplp
      ensures Valid() && old(current) <= current
      ensures Elements(current) == Elements(old(current)) + {Item(r, 0)}
      ensures forall x :: Base(fws, x) == Base(old(fws), x) + if x == Item(r, 0) then found else {}
      ensures fplp == old(fplp) + if toEnd then {(it, Item(r, 0))} else {}
    {
      var x := Item(r, 0);
      Add(x);
      fws := fws[x := fws[x] + found];
      if toEnd { fplp := fplp + {(it, x)}; }
    }

    // The rule loop of the closure for one configuration of the list
    method Expand(it: Item)
      requires Valid() && ValidItem(g, it) && HasNext(g, it) && Next(g, it) >= g.nterminal
      modifies this`current, this`fws, this`fplp
      ensures Valid() && old(current) <= current
      ensures Elements(current) == Elements(old(current)) + ExpansionOf(g, it)
      ensures forall x :: Base(fws, x) == Base(old(fws), x) + Contribution(g, an, it, x)
      ensures fplp == old(fplp) + ForwardPairs(g, an, it)
    {
      var sym := Next(g, it);
      var found, toEnd := FollowOf(it);
      ghost var was := Lists(current, fws, fplp);
      NothingReached(g, it, found, toEnd, was);
      hide *;
      for r := 0 to |g.rules|
        invariant Valid() && Reached(g, it, r, found, toEnd, was, Lists(current, fws, fplp))
      {
        ghost var before := Lists(current, fws, fplp);
        if g.rules[r].lhs == sym { ExpandBy(it, r, found, toEnd); }
        ReachedStep(g, it, r, found, toEnd, was, before, Lists(current, fws, fplp));
      }
      AllReached(g, an, it, found, toEnd, was, Lists(current, fws, fplp));
    }

    // Configlist_closure: the list grows while it is walked.
    method Closure()
      requires Valid()
      modifies this`current, this`fws, this`fplp
      ensures Valid() && old(current) <= current
      ensures IsClosure(g, Elements(old(current)), Elements(current))
      ensures forall x :: Base(fws, x) == Base(old(fws), x) + Contributed(g, an, current, x)
      ensures fplp == old(fplp) + AllForwardPairs(g, an, current)
    {
      hide *;
      ghost var basis, fws0, fplp0 := current, fws, fplp;
      var i := 0;
      Facts();
      NothingWalked(g, an, current);
      while i < |current|
        invariant Valid() && basis <= current && i <= |current|
        invariant forall j :: 0 <= j < |current| ==> ValidItem(g, current[j])
        invariant Expanded(g, current, i)
        invariant forall s :: Elements(basis) <= s && Closed(g, s) ==> Elements(current) <= s
        invariant forall x :: Base(fws, x) == Base(fws0, x) + Contributed(g, an, current[..i], x)
        invariant fplp == fplp0 + AllForwardPairs(g, an, current[..i])
        decreases AllItems(g) - Elements(current[..i])
      {
        ghost var before := current;
        var it := current[i];
        if HasNext(g, it) && Next(g, it) >= g.nterminal {
          Expand(it);
        } else {
          NoExpansion(g, an, it);
        }
        Facts();
        WalkOne(g, an, before, current, i);
        i := i + 1;
      }
      assert current[..i] == current;
      AllWalked(g, basis, current);
    }

    lemma Facts()
      requires Valid()
      ensures WellFormed(g) && AnalysisFor(g, an) && NoRepeats(current)
      ensures forall j :: 0 <= j < |current| ==> ValidItem(g, current[j])
    {
    }
  }

  lemma NothingWalked(g: Grammar, an: Analysis, items: seq<Item>)
    requires WellFormed(g) && AnalysisFor(g, an)
    ensures Expanded(g, items, 0) && AllForwardPairs(g, an, items[..0]) == {}
    ensures forall x :: Contributed(g, an, items[..0], x) == {}
  {
  }

  lemma NoExpansion(g: Grammar, an: Analysis, it: Item)
    requires WellFormed(g) && AnalysisFor(g, an) && ValidItem(g, it)
    requires !(HasNext(g, it) && Next(g, it) >= g.nterminal)
    ensures ExpansionOf(g, it) == {} && ForwardPairs(g, an, it) == {}
    ensures forall x :: Contribution(g, an, it, x) == {}
  {
  }

  lemma AllWalked(g: Grammar, basis: seq<Item>, items: seq<Item>)
    requires basis <= items && Expanded(g, items, |items|) && forall j :: 0 <= j < |items| ==> ValidItem(g, items[j])
    requires forall s :: Elements(basis) <= s && Closed(g, s) ==> Elements(items) <= s
    ensures IsClosure(g, Elements(basis), Elements(items))
  {
    ExpandedIsClosed(g, items);
  }

  // What a closure changes: the list, the lookaheads of its configurations and the links between them
  datatype Lists = Lists(current: seq<Item>, fws: map<Item, set<nat>>, fplp: set<(Item, Item)>)

  // The state after the first r rules for one configuration
  ghost predicate Reached(g: Grammar, it: Item, r: nat, found: set<nat>, toEnd: bool, was: Lists, now: Lists)
    requires r <= |g.rules|
  {
    && was.current <= now.current && HasNext(g, it)
    && Elements(now.current) == Elements(was.current) + Expansion(g, Next(g, it), r)
    && (forall x :: Base(now.fws, x) == Base(was.fws, x) + if x in Expansion(g, Next(g, it), r) then found else {})
    && now.fplp == was.fplp + if toEnd then PairsWith(g, it, Next(g, it), r) else {}
  }

  lemma NothingReached(g: Grammar, it: Item, found: set<nat>, toEnd: bool, was: Lists)
    requires HasNext(g, it)
    ensures Reached(g, it, 0, found, toEnd, was, was)
  {
  }

  lemma ReachedStep(g: Grammar, it: Item, r: nat, found: set<nat>, toEnd: bool, was: Lists, before: Lists, now: Lists)
    requires r < |g.rules| && HasNext(g, it) && Reached(g, it, r, found, toEnd, was, before)
    requires g.rules[r].lhs != Next(g, it) ==> now == before
    requires g.rules[r].lhs == Next(g, it) ==>
      && before.current <= now.current && Elements(now.current) == Elements(before.current) + {Item(r, 0)}
      && (forall x :: Base(now.fws, x) == Base(before.fws, x) + if x == Item(r, 0) then found else {})
      && now.fplp == before.fplp + if toEnd then {(it, Item(r, 0))} else {}
    ensures Reached(g, it, r + 1, found, toEnd, was, now)
  {
    hide Base, Elements;
  }

  lemma AllReached(g: Grammar, an: Analysis, it: Item, found: set<nat>, toEnd: bool, was: Lists, now: Lists)
    requires WellFormed(g) && AnalysisFor(g, an) && ValidItem(g, it) && HasNext(g, it) && Next(g, it) >= g.nterminal
    requires found == FirstOfTail(g, an, Tail(g, it)) && (toEnd <==> TailIsLambda(g, an, Tail(g, it)))
    requires Reached(g, it, |g.rules|, found, toEnd, was, now)
    ensures was.current <= now.current && Elements(now.current) == Elements(was.current) + ExpansionOf(g, it)
    ensures forall x :: Base(now.fws, x) == Base(was.fws, x) + Contribution(g, an, it, x)
    ensures now.fplp == was.fplp + ForwardPairs(g, an, it)
  {
    ExpandedBy(g, an, it, found, toEnd);
    hide Base, Elements, Expansion, PairsWith, FirstOfTail, TailIsLambda, Contribution, ForwardPairs;
  }

  lemma ExpandedBy(g: Grammar, an: Analysis, it: Item, found: set<nat>, toEnd: bool)
    requires WellFormed(g) && AnalysisFor(g, an) && ValidItem(g, it) && HasNext(g, it) && Next(g, it) >= g.nterminal
    requires found == FirstOfTail(g, an, Tail(g, it)) && (toEnd <==> TailIsLambda(g, an, Tail(g, it)))
    ensures var sym := Next(g, it);
      && ExpansionOf(g, it) == Expansion(g, sym, |g.rules|)
      && (forall x :: Contribution(g, an, it, x) == if x in Expansion(g, sym, |g.rules|) then found else {})
      && ForwardPairs(g, an, it) == (if toEnd then PairsWith(g, it, sym, |g.rules|) else {})
  {
  }

  // Everything the first n configurations bring in is on the list.
  ghost predicate Expanded(g: Grammar, items: seq<Item>, n: nat) {
    forall j, x :: 0 <= j < n <= |items| && Expands(g, items[j], x) ==> x in Elements(items)
  }

  lemma ExpandedIsClosed(g: Grammar, items: seq<Item>)
    requires Expanded(g, items, |items|) && forall j :: 0 <= j < |items| ==> ValidItem(g, items[j])
    ensures Closed(g, Elements(items))
  {
  }

  lemma WalkOne(g: Grammar, an: Analysis, before: seq<Item>, items: seq<Item>, i: nat)
    requires WellFormed(g) && AnalysisFor(g, an)
    requires before <= items && i < |before| && Expanded(g, before, i) && NoRepeats(items)
    requires forall j :: 0 <= j < |items| ==> ValidItem(g, items[j])
    requires Elements(items) == Elements(before) + ExpansionOf(g, before[i])
    ensures Expanded(g, items, i + 1)
    ensures forall x :: Contributed(g, an, items[..i + 1], x)
                     == Contributed(g, an, before[..i], x) + Contribution(g, an, before[i], x)
    ensures AllForwardPairs(g, an, items[..i + 1]) == AllForwardPairs(g, an, before[..i]) + ForwardPairs(g, an, before[i])
    ensures forall s :: Elements(before) <= s && Closed(g, s) ==> Elements(items) <= s
    ensures Elements(before[..i]) < Elements(items[..i + 1]) <= AllItems(g)
  {
    ExpansionIsExpands(g, before[i]);
    assert items[..i + 1][..i] == before[..i];
    assert before[i] in Elements(items[..i + 1]);
    assert items[..i + 1] == before[..i] + [before[i]];
  }

  function Base(fws: map<Item, set<nat>>, it: Item): set<nat> {
    if it in fws then fws[it] else {}
  }
}
