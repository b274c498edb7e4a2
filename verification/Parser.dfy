/** The tables a generated parser is compiled with, and the two lookups into them. */
module ParserTables {

  datatype Tables = Tables(
    nstate: nat, nrule: nat,
    action: seq<int>, lookahead: seq<int>,
    shiftOfst: seq<int>, shiftUseDflt: int,
    reduceOfst: seq<int>, reduceUseDflt: int,
    dflt: seq<int>,
    ruleLhs: seq<nat>, ruleSize: seq<nat>)
  {
    // Action codes: below nstate a shift, then nrule reduces, then the error and accept actions
    function ErrorAction(): int { nstate + nrule }

    function AcceptAction(): int { nstate + nrule + 1 }

    ghost predicate Shaped() {
      && |lookahead| == |action|
      && |shiftOfst| <= nstate && |reduceOfst| <= nstate && |dflt| == nstate
      && |ruleLhs| == |ruleSize| == nrule
    }

    // yy_find_shift_action, without fallback and wildcard tokens
    function FindShiftAction(stateno: nat, la: nat): int
      requires Shaped() && stateno < nstate
    {
      if stateno >= |shiftOfst| || shiftOfst[stateno] == shiftUseDflt then dflt[stateno]
      else
        var i := shiftOfst[stateno] + la;
        if i < 0 || i >= |action| || lookahead[i] != la then dflt[stateno] else action[i]
    }

    // What yy_find_reduce_action asserts of its arguments
    predicate ReduceDefined(stateno: nat, la: nat)
      requires Shaped()
    {
      && stateno < |reduceOfst|
      && reduceOfst[stateno] != reduceUseDflt
      && 0 <= reduceOfst[stateno] + la < |action|
      && lookahead[reduceOfst[stateno] + la] == la
    }

    // yy_find_reduce_action, without an error symbol
    function FindReduceAction(stateno: nat, la: nat): int
      requires Shaped() && ReduceDefined(stateno, la)
    {
      action[reduceOfst[stateno] + la]
    }
  }
}

/** What must be true of tables for the engine to be safe and sound, in terms of an automaton. */
module TableSoundness {
  import opened Grammars
  import opened Automata
  import opened ParserTables

  // A code that moves from state s over the symbol
  ghost predicate GoodMove(g: Grammar, A: seq<set<Item>>, s: nat, symbol: nat, code: int)
  {
    s < |A| && 0 < code < |A| && Link(g, A[s], symbol, A[code])
  }

  // A code for a token in state s: a shift of something other than "$", a reduce of a recognised
  // rule (of a start rule only at the end of the input), or the error action
  ghost predicate GoodTokenAction(g: Grammar, A: seq<set<Item>>, s: nat, token: nat, code: int)
    requires s < |A|
  {
    || (token != 0 && GoodMove(g, A, s, token, code))
    || (|A| <= code < |A| + |g.rules|
        && Item(code - |A|, |g.rules[code - |A|].rhs|) in A[s]
        && (g.rules[code - |A|].lhs == g.start ==> token == 0))
    || code == |A| + |g.rules|
  }

  // A code for a nonterminal that was just reduced on top of state s
  ghost predicate GoodGoto(g: Grammar, A: seq<set<Item>>, s: nat, lhs: nat, code: int)
  {
    || GoodMove(g, A, s, lhs, code)
    || (s == 0 && lhs == g.start && code == |A| + |g.rules| + 1)
  }

  ghost predicate GoodAutomaton(g: Grammar, A: seq<set<Item>>) {
    && |A| > 0
    && (forall it :: it in A[0] ==> it.dot == 0)
    && (forall s, it :: 0 <= s < |A| && it in A[s] ==> ValidItem(g, it))
  }

  ghost predicate Sound(g: Grammar, A: seq<set<Item>>, t: Tables) {
    && WellFormed(g) && GoodAutomaton(g, A) && t.Shaped()
    && t.nstate == |A| && t.nrule == |g.rules|
    && (forall r :: 0 <= r < |g.rules| ==> t.ruleLhs[r] == g.rules[r].lhs && t.ruleSize[r] == |g.rules[r].rhs|)
    && (forall s, token :: 0 <= s < |A| && 0 <= token < g.nterminal ==>
          GoodTokenAction(g, A, s, token, t.FindShiftAction(s, token)))
    && (forall s, it :: 0 <= s < |A| && it in A[s] && it.dot == 0 && ValidItem(g, it) ==>
          && t.ReduceDefined(s, g.rules[it.rule].lhs)
          && GoodGoto(g, A, s, g.rules[it.rule].lhs, t.FindReduceAction(s, g.rules[it.rule].lhs)))
  }
}

/** What the LR engine of lempar.c keeps on its stack, and what tables make of stacks and tokens. */
module ParserSteps {
  import opened Grammars
  import opened Automata
  import opened TreeBounds
  import opened ParserTables
  import opened TableSoundness

  datatype StackEntry = StackEntry(stateno: nat, major: nat)

  // The stack: entry i moved the automaton from the state below over a symbol for which a
  // derivation tree has been found.
  ghost predicate GoodStack(g: Grammar, A: seq<set<Item>>, st: seq<StackEntry>, trees: seq<Tree>) {
    && |st| == |trees| + 1
    && st[0].stateno == 0
    && (forall i :: 0 <= i < |st| ==> st[i].stateno < |A|)
    && (forall i :: 0 < i < |st| ==> GoodEntry(g, A, st, trees, i))
  }

  ghost predicate GoodEntry(g: Grammar, A: seq<set<Item>>, st: seq<StackEntry>, trees: seq<Tree>, i: nat)
    requires 0 < i < |st| == |trees| + 1
  {
    && 0 < st[i].stateno < |A|
    && st[i - 1].stateno < |A|
    && Link(g, A[st[i - 1].stateno], st[i].major, A[st[i].stateno])
    && Derivation(g, trees[i - 1])
    && Root(g, trees[i - 1]) == st[i].major
  }

  // The heart of LR parsing: an item of the top state says what lies on the stack.  Its recognised
  // symbols are on top, and the state below them has the item with the dot at the left end.
  lemma {:induction false} ItemDescribesStack(g: Grammar, A: seq<set<Item>>, st: seq<StackEntry>, trees: seq<Tree>, it: Item)
    requires GoodAutomaton(g, A) && GoodStack(g, A, st, trees)
    requires it in A[st[|st| - 1].stateno]
    ensures ValidItem(g, it) && it.dot < |st|
    ensures forall j :: 0 <= j < it.dot ==> st[|st| - it.dot + j].major == g.rules[it.rule].rhs[j]
    ensures Item(it.rule, 0) in A[st[|st| - 1 - it.dot].stateno]
    decreases it.dot
  {
    if it.dot > 0 {
      var i := |st| - 1;
      assert i > 0;
      assert GoodEntry(g, A, st, trees, i);
      var below, trees' := st[..i], trees[..i - 1];
      PrefixIsGood(g, A, st, trees, i - 1);
      ItemDescribesStack(g, A, below, trees', Item(it.rule, it.dot - 1));
      forall j | 0 <= j < it.dot ensures st[|st| - it.dot + j].major == g.rules[it.rule].rhs[j] {
        if j < it.dot - 1 { assert st[|st| - it.dot + j] == below[|below| - (it.dot - 1) + j]; }
      }
    }
  }

  // A reduce adds one node to the trees on the stack.
  lemma PoppedSize(g: Grammar, trees: seq<Tree>, rule: nat)
    requires rule < |g.rules| && |g.rules[rule].rhs| <= |trees|
    ensures SizeAll(trees[..|trees| - |g.rules[rule].rhs|]) + Size(Popped(g, trees, rule)) == SizeAll(trees) + 1
  {
    var n := |trees| - |g.rules[rule].rhs|;
    assert trees == trees[..n] + trees[n..];
    SizeOfConcat(trees[..n], trees[n..]);
  }

  lemma OneMoreTree(trees: seq<Tree>, tree: Tree)
    ensures SizeAll(trees + [tree]) == SizeAll(trees) + Size(tree)
  {
    SizeOfConcat(trees, [tree]);
    assert [tree][1..] == [];
  }

  lemma StackTrees(g: Grammar, A: seq<set<Item>>, st: seq<StackEntry>, trees: seq<Tree>)
    requires GoodStack(g, A, st, trees)
    ensures |trees| < |st| && forall j :: 0 <= j < |trees| ==> Derivation(g, trees[j])
  {
    forall j | 0 <= j < |trees|
      ensures Derivation(g, trees[j])
    {
      assert GoodEntry(g, A, st, trees, j + 1);
    }
  }

  lemma LeafIsDerivation(g: Grammar, token: nat)
    requires token < g.nterminal
    ensures Derivation(g, Leaf(token)) && Root(g, Leaf(token)) == token && Yield(Leaf(token)) == [token]
  {
  }

  // What sound tables say of a rule that was popped
  lemma GotoFacts(g: Grammar, A: seq<set<Item>>, t: Tables, s: nat, rule: nat)
    requires Sound(g, A, t) && s < |A| && rule < |g.rules| && Item(rule, 0) in A[s]
    ensures t.Shaped() && t.nstate == |A| && rule < t.nrule && s < t.nstate
    ensures |t.ruleLhs| == |t.ruleSize| == t.nrule && t.AcceptAction() > t.nstate
    ensures t.ruleLhs[rule] == g.rules[rule].lhs && t.ruleSize[rule] == |g.rules[rule].rhs|
    ensures t.ReduceDefined(s, t.ruleLhs[rule])
    ensures var act := t.FindReduceAction(s, t.ruleLhs[rule]);
      || (0 < act < t.nstate && GoodMove(g, A, s, t.ruleLhs[rule], act))
      || (act == t.AcceptAction() && act >= t.nstate && s == 0 && t.ruleLhs[rule] == g.start)
  {
    hide Link, Tables.ReduceDefined, Tables.FindReduceAction, WellFormed, GoodTokenAction;
    assert ValidItem(g, Item(rule, 0));
  }

  lemma ReducedIs(t: Tables, depth: nat, st: seq<StackEntry>, below: seq<StackEntry>, rule: nat)
    requires t.Shaped() && rule < t.nrule && t.ruleSize[rule] < |st| && below == st[..|st| - t.ruleSize[rule]]
    requires t.ReduceDefined(below[|below| - 1].stateno, t.ruleLhs[rule])
    ensures var act := t.FindReduceAction(below[|below| - 1].stateno, t.ruleLhs[rule]);
      Reduced(t, depth, st, rule)
      == if act == t.AcceptAction() then Emptied(true)
         else if act < 0 || act >= t.nstate then Stuck
         else if |below| >= depth then Emptied(false)
         else At(below + [StackEntry(act, t.ruleLhs[rule])])
  {
    hide Tables.ReduceDefined, Tables.FindReduceAction;
  }

  // One round of the loop in Parse
  lemma DrivenStep(t: Tables, noErrorRecovery: bool, depth: nat, st: seq<StackEntry>, token: nat, fuel: nat)
    requires t.Shaped() && 0 < |st| && st[|st| - 1].stateno < t.nstate
    ensures Driven(t, noErrorRecovery, depth, st, token, 0) == Result(OutOfFuel, st)
    ensures fuel > 0 ==>
      var act := t.FindShiftAction(st[|st| - 1].stateno, token);
      var after := Driven(t, noErrorRecovery, depth, st, token, fuel);
      && (0 <= act < t.nstate && token != 0 && |st| < depth ==> after == Result(Shifted, st + [StackEntry(act, token)]))
      && (0 <= act < t.nstate && token != 0 && |st| >= depth ==> after == Result(Overflow, []))
      && (act == t.nstate + t.nrule ==> after == Result(SyntaxError, if !noErrorRecovery && token == 0 then [] else st))
      && (t.nstate <= act < t.nstate + t.nrule ==>
            match Reduced(t, depth, st, act - t.nstate)
            case Stuck => after == Undefined
            case Emptied(accepted) => after == Result(if accepted then Accepted else Overflow, [])
            case At(st') => after == Driven(t, noErrorRecovery, depth, st', token, fuel - 1))
  {
    hide Reduced, Tables.FindShiftAction;
  }

  // What sound tables answer for a token
  lemma TokenActionFacts(g: Grammar, A: seq<set<Item>>, t: Tables, s: nat, token: nat)
    requires Sound(g, A, t) && s < |A| && token < g.nterminal
    ensures t.Shaped() && t.nstate == |A| && t.nrule == |g.rules|
    ensures var act := t.FindShiftAction(s, token);
      || (0 <= act < t.nstate && token != 0 && GoodMove(g, A, s, token, act))
      || (t.nstate <= act < t.nstate + t.nrule
          && Item(act - t.nstate, |g.rules[act - t.nstate].rhs|) in A[s]
          && (g.rules[act - t.nstate].lhs == g.start ==> token == 0))
      || act == t.nstate + t.nrule
  {
    hide Tables.FindShiftAction, GoodAutomaton, WellFormed;
    assert GoodTokenAction(g, A, s, token, t.FindShiftAction(s, token));
  }

  lemma PrefixIsGood(g: Grammar, A: seq<set<Item>>, st: seq<StackEntry>, trees: seq<Tree>, n: nat)
    requires GoodStack(g, A, st, trees) && n < |st|
    ensures GoodStack(g, A, st[..n + 1], trees[..n])
  {
    var below, trees' := st[..n + 1], trees[..n];
    forall k | 0 < k < |below| ensures GoodEntry(g, A, below, trees', k) {
      assert GoodEntry(g, A, st, trees, k);
    }
  }

  lemma PushIsGood(g: Grammar, A: seq<set<Item>>, st: seq<StackEntry>, trees: seq<Tree>, e: StackEntry, t: Tree)
    requires GoodStack(g, A, st, trees)
    requires GoodMove(g, A, st[|st| - 1].stateno, e.major, e.stateno)
    requires Derivation(g, t) && Root(g, t) == e.major
    ensures GoodStack(g, A, st + [e], trees + [t])
    ensures YieldAll(trees + [t]) == YieldAll(trees) + Yield(t)
  {
    forall k | 0 < k < |st + [e]| ensures GoodEntry(g, A, st + [e], trees + [t], k) {
      if k < |st| { assert GoodEntry(g, A, st, trees, k); }
    }
    assert (trees + [t])[..|trees|] == trees;
  }

  // State 0 is never entered again, so finding it on top means the stack is back to its bottom.
  lemma BottomOnly(g: Grammar, A: seq<set<Item>>, st: seq<StackEntry>, trees: seq<Tree>)
    requires GoodStack(g, A, st, trees) && st[|st| - 1].stateno == 0
    ensures |st| == 1 && trees == []
  {
    assert |st| > 1 ==> GoodEntry(g, A, st, trees, |st| - 1);
  }

  ghost function Popped(g: Grammar, trees: seq<Tree>, rule: nat): Tree
    requires rule < |g.rules| && |g.rules[rule].rhs| <= |trees|
  {
    Node(rule, trees[|trees| - |g.rules[rule].rhs|..])
  }

  // Reducing a rule whose item is complete in the top state: the popped symbols are its right-hand
  // side, their trees make a tree of its left-hand side, and no token is lost.
  lemma ReduceIsDerivation(g: Grammar, A: seq<set<Item>>, st: seq<StackEntry>, trees: seq<Tree>, rule: nat)
    requires GoodAutomaton(g, A) && GoodStack(g, A, st, trees) && rule < |g.rules|
    requires Item(rule, |g.rules[rule].rhs|) in A[st[|st| - 1].stateno]
    ensures |g.rules[rule].rhs| <= |trees|
    ensures Derivation(g, Popped(g, trees, rule)) && Root(g, Popped(g, trees, rule)) == g.rules[rule].lhs
    ensures var n := |trees| - |g.rules[rule].rhs|;
      && YieldAll(trees[..n]) + Yield(Popped(g, trees, rule)) == YieldAll(trees)
      && Item(rule, 0) in A[st[n].stateno]
  {
    ItemDescribesStack(g, A, st, trees, Item(rule, |g.rules[rule].rhs|));
    var rhs := g.rules[rule].rhs;
    var n := |trees| - |rhs|;
    var kids := trees[n..];
    forall j | 0 <= j < |rhs| ensures Derivation(g, kids[j]) && Root(g, kids[j]) == rhs[j] {
      assert GoodEntry(g, A, st, trees, n + 1 + j);
      assert st[|st| - |rhs| + j].major == rhs[j];
    }
    YieldAllConcat(trees[..n], kids);
    assert trees[..n] + kids == trees;
  }

  // What one call of Parse ended with
  datatype Outcome = Shifted | Accepted | SyntaxError | Overflow | OutOfFuel | NoInput

  // What the tables alone make of a stack.  `Undefined` and `Stuck` stand for what the engine asserts
  // never to happen: a lookup outside the tables, too short a stack, a code that is no action.
  datatype Step = Stuck | Emptied(accepted: bool) | At(st: seq<StackEntry>)

  datatype Result = Undefined | Result(outcome: Outcome, st: seq<StackEntry>)

  // yy_reduce on a stack of at most `depth` entries
  function Reduced(t: Tables, depth: nat, st: seq<StackEntry>, rule: nat): Step
    requires t.Shaped() && rule < t.nrule
  {
    var size, lhs := t.ruleSize[rule], t.ruleLhs[rule];
    if size >= |st| then Stuck
    else
      var below := st[..|st| - size];
      var stateno := below[|below| - 1].stateno;
      if !t.ReduceDefined(stateno, lhs) then Stuck
      else
        var act := t.FindReduceAction(stateno, lhs);
        if act == t.AcceptAction() then Emptied(true)
        else if act < 0 || act >= t.nstate then Stuck
        else if |below| >= depth then Emptied(false)
        else At(below + [StackEntry(act, lhs)])
  }

  // What one token does to a stack
  function Driven(t: Tables, noErrorRecovery: bool, depth: nat, st: seq<StackEntry>, token: nat, fuel: nat): Result
    requires t.Shaped()
    decreases fuel
  {
    if fuel == 0 then Result(OutOfFuel, st)
    else if st == [] || st[|st| - 1].stateno >= t.nstate then Undefined
    else
      var act := t.FindShiftAction(st[|st| - 1].stateno, token);
      if 0 <= act < t.nstate && token != 0 then
        if |st| < depth then Result(Shifted, st + [StackEntry(act, token)]) else Result(Overflow, [])
      else if t.nstate <= act < t.nstate + t.nrule then
        match Reduced(t, depth, st, act - t.nstate)
        case Stuck => Undefined
        case Emptied(accepted) => Result(if accepted then Accepted else Overflow, [])
        case At(st') => Driven(t, noErrorRecovery, depth, st', token, fuel - 1)
      else if act == t.ErrorAction() then
        Result(SyntaxError, if !noErrorRecovery && token == 0 then [] else st)
      else Undefined
  }

  // A parser whose stack is empty starts afresh.
  function Started(st: seq<StackEntry>): (st': seq<StackEntry>)
    ensures st' != []
  {
    if st == [] then [StackEntry(0, 0)] else st
  }

  // What a list of tokens does to a stack.  An overflow empties the stack, and the next token finds a
  // parser that starts afresh; an error ends the run.
  function Fed(t: Tables, noErrorRecovery: bool, depth: nat, st: seq<StackEntry>, w: seq<nat>, fuel: nat): Result
    requires t.Shaped()
    decreases |w|
  {
    if w == [] then Result(Shifted, st)
    else
      match Driven(t, noErrorRecovery, depth, Started(st), w[0], fuel)
      case Undefined => Undefined
      case Result(outcome, st') =>
        if outcome == Shifted || (outcome == Overflow && |w| > 1) then Fed(t, noErrorRecovery, depth, st', w[1..], fuel)
        else Result(outcome, st')
  }

  // How many tokens are lost: those up to the last one that overflows the stack
  function Dropped(t: Tables, noErrorRecovery: bool, depth: nat, st: seq<StackEntry>, w: seq<nat>, fuel: nat): (n: nat)
    requires t.Shaped()
    ensures n <= |w|
    decreases |w|
  {
    if w == [] then 0
    else
      match Driven(t, noErrorRecovery, depth, Started(st), w[0], fuel)
      case Undefined => 0
      case Result(outcome, st') =>
        if outcome == Overflow then 1 + Dropped(t, noErrorRecovery, depth, [], w[1..], fuel)
        else if outcome == Shifted then
          var n := Dropped(t, noErrorRecovery, depth, st', w[1..], fuel);
          if n == 0 then 0 else n + 1
        else 0
  }

  lemma FedStep(t: Tables, noErrorRecovery: bool, depth: nat, st: seq<StackEntry>, w: seq<nat>, i: nat, fuel: nat)
    requires t.Shaped() && i < |w|
    ensures match Driven(t, noErrorRecovery, depth, Started(st), w[i], fuel)
            case Undefined => true
            case Result(outcome, st') =>
              var fed, n := Fed(t, noErrorRecovery, depth, st, w[i..], fuel), Dropped(t, noErrorRecovery, depth, st, w[i..], fuel);
              && fed == (if outcome == Shifted || (outcome == Overflow && i + 1 < |w|)
                         then Fed(t, noErrorRecovery, depth, st', w[i + 1..], fuel) else Result(outcome, st'))
              && (outcome == Shifted ==>
                    var n' := Dropped(t, noErrorRecovery, depth, st', w[i + 1..], fuel); n == if n' == 0 then 0 else n' + 1)
              && (outcome == Overflow ==> n == 1 + Dropped(t, noErrorRecovery, depth, [], w[i + 1..], fuel))
              && (outcome != Shifted && outcome != Overflow ==> n == 0)
  {
    hide Driven;
    assert w[i..][1..] == w[i + 1..];
  }

  lemma OverflowEmpties(t: Tables, noErrorRecovery: bool, depth: nat, st: seq<StackEntry>, token: nat, fuel: nat)
    requires t.Shaped()
    ensures match Driven(t, noErrorRecovery, depth, st, token, fuel)
            case Undefined => true
            case Result(outcome, st') => outcome == Overflow ==> st' == []
    decreases fuel
  {
    hide Reduced, Tables.FindShiftAction;
    if fuel > 0 && st != [] && st[|st| - 1].stateno < t.nstate {
      var act := t.FindShiftAction(st[|st| - 1].stateno, token);
      if t.nstate <= act < t.nstate + t.nrule {
        match Reduced(t, depth, st, act - t.nstate)
        case At(st') => OverflowEmpties(t, noErrorRecovery, depth, st', token, fuel - 1);
        case _ =>
      }
    }
  }

  // What happens to a list of tokens is what happens to the tokens behind the last overflow, handed to a
  // parser that starts afresh.
  lemma {:induction false} OnlyTheRestCounts(t: Tables, noErrorRecovery: bool, depth: nat, st: seq<StackEntry>, w: seq<nat>,
                                             fuel: nat)
    requires t.Shaped()
    ensures var n := Dropped(t, noErrorRecovery, depth, st, w, fuel);
      && Dropped(t, noErrorRecovery, depth, if n == 0 then st else [], w[n..], fuel) == 0
      && (0 < n < |w| ==> Fed(t, noErrorRecovery, depth, st, w, fuel) == Fed(t, noErrorRecovery, depth, [], w[n..], fuel))
      && (n > 0 && n == |w| ==> Fed(t, noErrorRecovery, depth, st, w, fuel) == Result(Overflow, []))
    decreases |w|
  {
    hide Driven;
    var n := Dropped(t, noErrorRecovery, depth, st, w, fuel);
    if w == [] || n == 0 {
      assert w[0..] == w;
    } else {
      var Result(outcome, st') := Driven(t, noErrorRecovery, depth, Started(st), w[0], fuel);
      OverflowEmpties(t, noErrorRecovery, depth, Started(st), w[0], fuel);
      OnlyTheRestCounts(t, noErrorRecovery, depth, st', w[1..], fuel);
      var n' := Dropped(t, noErrorRecovery, depth, st', w[1..], fuel);
      assert n == n' + 1 && w[1..][n'..] == w[n..];
      assert n' == 0 ==> st' == [];
    }
  }
}

/** The LR engine of lempar.c, and the loop of tokenize.c that feeds it. */
module ParserEngine {
  import opened Grammars
  import opened Automata
  import opened TreeBounds
  import opened ParserTables
  import opened TableSoundness
  import opened ParserSteps

  class Parser {
    const t: Tables
    const noErrorRecovery: bool
    ghost const g: Grammar
    ghost const A: seq<set<Item>>
    const yystack: array<StackEntry>
    var yyidx: int
    // One derivation tree per stack entry above the bottom, and the tokens shifted since the start
    ghost var trees: seq<Tree>
    ghost var shifted: seq<nat>
    // The token strings for which yy_accept ran
    ghost var accepted: seq<seq<nat>>

    function Stack(): (st: seq<StackEntry>)
      requires -1 <= yyidx < yystack.Length
      reads this, yystack
    {
      yystack[..yyidx + 1]
    }

    // The stack describes derivations of exactly the tokens shifted so far.
    ghost predicate Running()
      requires -1 <= yyidx < yystack.Length
      reads this, yystack
    {
      GoodStack(g, A, Stack(), trees) && YieldAll(trees) == shifted
    }

    ghost predicate Valid()
      reads this, yystack
    {
      && Sound(g, A, t)
      && -1 <= yyidx < yystack.Length && 0 < yystack.Length
      && (yyidx >= 0 ==> Running())
      && (forall i :: 0 <= i < |accepted| ==> Sentence(g, accepted[i]))
    }

    lemma TopOfStack()
      requires Valid() && yyidx >= 0
      ensures Sound(g, A, t) && t.Shaped() && t.nstate == |A| && yyidx < yystack.Length
      ensures |Stack()| == yyidx + 1 && Stack()[yyidx] == yystack[yyidx] && yystack[yyidx].stateno < |A|
    {
      hide GoodEntry, Sentence, YieldAll;
    }

    // The trees of a running parser, if no symbol derives itself
    lemma TreesAreBounded()
      requires Valid() && yyidx >= 0 && NoCycles(g)
      ensures SizeAll(trees) < Rounds(g, yystack.Length, |shifted|)
    {
      hide NoCycles, YieldAll, SizeAll, Rounds, Derivation;
      StackTrees(g, A, Stack(), trees);
      ForestIsBounded(g, trees, yystack.Length);
    }

    lemma NoStack()
      requires Valid() && yyidx < 0
      ensures Stack() == []
    {
    }

    constructor (t: Tables, noErrorRecovery: bool, depth: nat, ghost g: Grammar, ghost A: seq<set<Item>>)
      requires 0 < depth && Sound(g, A, t)
      ensures Valid() && yyidx == -1 && accepted == []
      ensures this.g == g && this.A == A && this.t == t && this.noErrorRecovery == noErrorRecovery
      ensures fresh(yystack) && yystack.Length == depth
    {
      this.t, this.noErrorRecovery, this.g, this.A := t, noErrorRecovery, g, A;
      yystack := new StackEntry[depth](_ => StackEntry(0, 0));
      yyidx := -1;
      trees, shifted, accepted := [], [], [];
    }

    // (Re)initialise when the stack is empty: state 0 at the bottom.
    method Start()
      requires Valid()
      modifies this`yyidx, this`trees, this`shifted, yystack
      ensures Valid() && yyidx >= 0
      ensures Stack() == Started(old(Stack())) && shifted == if old(yyidx) < 0 then [] else old(shifted)
    {
      if yyidx < 0 {
        yyidx := 0;
        yystack[0] := StackEntry(0, 0);
        trees, shifted := [], [];
      }
    }

    // Put an entry on top of the stack, where there is room for it.
    method Push(newState: nat, major: nat, ghost tree: Tree)
      requires Valid() && 0 <= yyidx < yystack.Length - 1
      requires GoodMove(g, A, Stack()[yyidx].stateno, major, newState)
      requires Derivation(g, tree) && Root(g, tree) == major
      modifies this`yyidx, this`trees, this`shifted, yystack
      ensures Valid() && yyidx == old(yyidx) + 1
      ensures Stack() == old(Stack()) + [StackEntry(newState, major)]
      ensures trees == old(trees) + [tree] && shifted == old(shifted) + Yield(tree)
    {
      PushIsGood(g, A, Stack(), trees, StackEntry(newState, major), tree);
      hide GoodStack, Sound, Sentence, YieldAll, GoodMove;
      yyidx := yyidx + 1;
      yystack[yyidx] := StackEntry(newState, major);
      trees, shifted := trees + [tree], shifted + Yield(tree);
      assert Stack() == old(Stack()) + [StackEntry(newState, major)];
    }

    // yy_shift, with its overflow branch
    method Shift(newState: nat, major: nat, ghost tree: Tree) returns (pushed: bool)
      requires Valid() && yyidx >= 0
      requires GoodMove(g, A, Stack()[yyidx].stateno, major, newState)
      requires Derivation(g, tree) && Root(g, tree) == major
      modifies this`yyidx, this`trees, this`shifted, yystack
      ensures Valid()
      ensures pushed <==> old(yyidx) + 1 < yystack.Length
      ensures pushed ==> yyidx == old(yyidx) + 1 && Stack() == old(Stack()) + [StackEntry(newState, major)]
      ensures pushed ==> trees == old(trees) + [tree] && shifted == old(shifted) + Yield(tree)
      ensures !pushed ==> yyidx == -1
    {
      if yyidx + 1 >= yystack.Length {
        yyidx := -1;
        return false;
      }
      Push(newState, major, tree);
      return true;
    }

    // Pop the right-hand side of a rule whose item is complete in the top state.
    method Pop(rule: nat) returns (ghost tree: Tree)
      requires Valid() && yyidx >= 0 && rule < |g.rules|
      requires Item(rule, |g.rules[rule].rhs|) in A[Stack()[yyidx].stateno]
      modifies this`yyidx, this`trees, this`shifted
      ensures Valid() && yyidx == old(yyidx) - |g.rules[rule].rhs| >= 0
      ensures Stack() == old(Stack())[..yyidx + 1]
      ensures Derivation(g, tree) && Root(g, tree) == g.rules[rule].lhs
      ensures shifted + Yield(tree) == old(shifted) && SizeAll(trees) + Size(tree) == old(SizeAll(trees)) + 1
      ensures Stack()[yyidx].stateno < |A| && Item(rule, 0) in A[Stack()[yyidx].stateno]
    {
      hide Sentence, YieldAll, Popped, Derivation, Root, Yield, Size, SizeAll, GoodEntry, GoodTokenAction, GoodGoto;
      ghost var st := Stack();
      ReduceIsDerivation(g, A, st, trees, rule);
      tree := Popped(g, trees, rule);
      PoppedSize(g, trees, rule);
      var n := yyidx - t.ruleSize[rule];
      PrefixIsGood(g, A, st, trees, n);
      hide GoodStack, Sound;
      assert yystack[..n + 1] == st[..n + 1];
      yyidx := n;
      trees := trees[..n];
      shifted := YieldAll(trees);
    }

    // yy_reduce: pop the right-hand side, then move over the left-hand side or accept.
    method Reduce(rule: nat) returns (acc: bool)
      requires Valid() && yyidx >= 0 && rule < |g.rules|
      requires Item(rule, |g.rules[rule].rhs|) in A[Stack()[yyidx].stateno]
      modifies this`yyidx, this`trees, this`shifted, this`accepted, yystack
      ensures Valid()
      ensures Reduced(t, yystack.Length, old(Stack()), rule)
           == if yyidx >= 0 then At(Stack()) else Emptied(acc)
      ensures yyidx >= 0 ==> !acc && shifted == old(shifted) && accepted == old(accepted)
      ensures yyidx >= 0 ==> SizeAll(trees) == old(SizeAll(trees)) + 1
      ensures !acc ==> accepted == old(accepted)
      ensures acc ==> yyidx == -1 && accepted == old(accepted) + [old(shifted)] && g.rules[rule].lhs == g.start
    {
      hide *;
      TopOfStack();
      ghost var st := Stack();
      ghost var tree := Pop(rule);
      TopOfStack();
      ghost var top := Stack()[yyidx].stateno;
      TableFacts();
      GotoFacts(g, A, t, top, rule);
      ReducedIs(t, yystack.Length, st, Stack(), rule);
      OneMoreTree(trees, tree);
      acc := false;
      var goto_, size := t.ruleLhs[rule], t.ruleSize[rule];
      var act := t.FindReduceAction(yystack[yyidx].stateno, goto_);
      if act < t.nstate {
        if size > 0 {
          Push(act, goto_, tree);
        } else {
          var pushed := Shift(act, goto_, tree);
        }
      } else {
        Accept(tree, old(shifted));
        acc := true;
      }
    }

    // yy_accept: the stack is popped to nothing.
    method Accept(ghost tree: Tree, ghost tokens: seq<nat>)
      requires Valid() && yyidx >= 0 && Stack()[yyidx].stateno == 0
      requires Derivation(g, tree) && Root(g, tree) == g.start && shifted + Yield(tree) == tokens
      modifies this`yyidx, this`accepted
      ensures Valid() && yyidx == -1 && accepted == old(accepted) + [tokens]
    {
      BottomOnly(g, A, Stack(), trees);
      hide Sound, GoodStack, Derivation, Root, Yield;
      assert trees == [] && shifted == [];
      assert Yield(tree) == tokens;
      yyidx := -1;
      accepted := accepted + [tokens];
    }

    lemma TableFacts()
      requires Valid()
      ensures Sound(g, A, t)
    {
    }

    // yy_parse_failed: the stack is popped to nothing.
    method Abandon()
      requires Valid()
      modifies this`yyidx
      ensures Valid() && yyidx == -1
    {
      yyidx := -1;
    }

    // Parse: hand one token to the parser.  Each round takes the action for the token; the loop ends
    // when the token is consumed or the stack is gone.  The number of rounds is bounded by fuel, which
    // runs out only in a grammar in which some symbol derives itself, if there is enough of it.
    method Parse(token: nat, fuel: nat) returns (outcome: Outcome)
      requires Valid() && token < g.nterminal
      modifies this`yyidx, this`trees, this`shifted, this`accepted, yystack
      ensures Valid()
      ensures Driven(t, noErrorRecovery, yystack.Length, Started(old(Stack())), token, fuel) == Result(outcome, Stack())
      ensures outcome != NoInput && (outcome != Accepted ==> accepted == old(accepted))
      ensures outcome == Shifted ==>
              token != 0 && yyidx >= 0 && shifted == (if old(yyidx) < 0 then [] else old(shifted)) + [token]
      ensures outcome == Accepted ==>
              && token == 0 && yyidx == -1
              && accepted == old(accepted) + [if old(yyidx) < 0 then [] else old(shifted)]
      ensures outcome == SyntaxError ==>
              if yyidx >= 0 then shifted == (if old(yyidx) < 0 then [] else old(shifted))
              else token == 0 && !noErrorRecovery
      ensures outcome == Overflow ==> yyidx == -1
      ensures NoCycles(g) && fuel >= Rounds(g, yystack.Length, if old(yyidx) < 0 then 0 else old(|shifted|)) ==>
                outcome != OutOfFuel
    {
      hide *;
      Start();
      TopOfStack();
      ghost var before, st := shifted, Stack();
      for round := 0 to fuel
        invariant Valid() && 0 <= yyidx < yystack.Length && t.Shaped()
        invariant shifted == before && accepted == old(accepted) && round <= SizeAll(trees)
        invariant Driven(t, noErrorRecovery, yystack.Length, st, token, fuel)
               == Driven(t, noErrorRecovery, yystack.Length, Stack(), token, fuel - round)
      {
        TopOfStack();
        var stateno := yystack[yyidx].stateno;
        TokenActionFacts(g, A, t, stateno, token);
        DrivenStep(t, noErrorRecovery, yystack.Length, Stack(), token, fuel - round);
        var act := t.FindShiftAction(stateno, token);
        if act < t.nstate {
          ghost var tree := Leaf(token);
          LeafIsDerivation(g, token);
          var pushed := Shift(act, token, tree);
          if !pushed { NoStack(); }
          return if pushed then Shifted else Overflow;
        } else if act < t.nstate + t.nrule {
          var acc := Reduce(act - t.nstate);
          if yyidx < 0 {
            TablesShaped();
            NoStack();
            return if acc then Accepted else Overflow;
          }
          TopOfStack();
        } else {
          if !noErrorRecovery && token == 0 {
            Abandon();
            NoStack();
          }
          return SyntaxError;
        }
      }
      TopOfStack();
      DrivenStep(t, noErrorRecovery, yystack.Length, Stack(), token, 0);
      if NoCycles(g) { TreesAreBounded(); }
      return OutOfFuel;
    }

    // xjd1RunParser: feed the tokens up to the first semicolon, supply a semicolon if there was none,
    // then the end of the input; stop at the first error.  An overflow is no error: the loop goes on with
    // a parser that has started afresh.  What it accepts is the part of the statement behind the last
    // token that overflowed, and this part is a sentence.  If the end of the input overflows, then the
    // run ends without an error and without accepting.
    method Run(tokens: seq<nat>, semi: nat, fuel: nat) returns (outcome: Outcome)
      requires Valid() && yyidx == -1 && 0 < semi < g.nterminal
      requires forall i :: 0 <= i < |tokens| ==> 0 < tokens[i] < g.nterminal
      modifies this`yyidx, this`trees, this`shifted, this`accepted, yystack
      ensures Valid() && t.Shaped() && -1 <= yyidx < yystack.Length
      ensures outcome == NoInput <==> tokens == []
      ensures tokens != [] ==>
                Fed(t, noErrorRecovery, yystack.Length, [], Statement(tokens, semi) + [0], fuel) == Result(outcome, Stack())
      ensures var n := Dropped(t, noErrorRecovery, yystack.Length, [], Statement(tokens, semi) + [0], fuel);
        && (outcome == Accepted ==>
              && n <= |Statement(tokens, semi)| && Sentence(g, Statement(tokens, semi)[n..])
              && accepted == old(accepted) + [Statement(tokens, semi)[n..]]
              && (Statement(tokens, semi)[n..] == Statement(tokens, semi) <==> n == 0))
        && (outcome == Overflow <==> tokens != [] && n == |Statement(tokens, semi)| + 1)
      ensures outcome != Accepted ==> accepted == old(accepted)
      ensures NoCycles(g) && fuel >= Rounds(g, yystack.Length, |Statement(tokens, semi)|) ==> outcome != OutOfFuel
    {
      hide *;
      TablesShaped();
      if tokens == [] { return NoInput; }
      ghost var input, lost := Statement(tokens, semi) + [0], 0;
      Begins(input, fuel);
      var i := 0;
      while i < |tokens| && (i == 0 || tokens[i - 1] != semi)
        invariant i <= |tokens| && forall j :: 0 <= j < i - 1 ==> tokens[j] != semi
        invariant accepted == old(accepted) && Halfway(input, i, lost, fuel)
      {
        StatementAt(tokens, semi, i);
        RoundsGrow(g, yystack.Length, i, |input| - 1);
        outcome, lost := Feed(tokens[i], input, i, lost, fuel);
        if outcome != Shifted && outcome != Overflow { return; }
        i := i + 1;
      }
      StatementIs(tokens, semi, i);
      if tokens[i - 1] != semi {
        RoundsGrow(g, yystack.Length, i, |input| - 1);
        outcome, lost := Feed(semi, input, i, lost, fuel);
        if outcome != Shifted && outcome != Overflow { return; }
      }
      outcome, lost := Feed(0, input, |input| - 1, lost, fuel);
    }

    // The first i tokens have been fed, and the stack stands for those of them that are not lost.  What
    // becomes of all tokens depends on the stack and the other tokens only.
    ghost predicate Halfway(input: seq<nat>, i: nat, lost: nat, fuel: nat)
      reads this, yystack
    {
      && Valid() && t.Shaped() && lost <= i <= |input|
      && (if yyidx < 0 then lost == i else shifted == input[lost..i])
      && Fed(t, noErrorRecovery, yystack.Length, [], input, fuel)
         == Fed(t, noErrorRecovery, yystack.Length, Stack(), input[i..], fuel)
      && var n := Dropped(t, noErrorRecovery, yystack.Length, Stack(), input[i..], fuel);
         Dropped(t, noErrorRecovery, yystack.Length, [], input, fuel) == if n == 0 then lost else i + n
    }

    lemma Begins(input: seq<nat>, fuel: nat)
      requires Valid() && yyidx == -1
      ensures Halfway(input, 0, 0, fuel)
    {
      TablesShaped();
      hide Fed, Dropped, Sound, Sentence;
      assert input[0..] == input;
    }

    // One token of a run
    method Feed(token: nat, ghost input: seq<nat>, ghost i: nat, ghost lost: nat, fuel: nat)
      returns (outcome: Outcome, ghost lost': nat)
      requires Halfway(input, i, lost, fuel) && i < |input| && token == input[i] < g.nterminal
      modifies this`yyidx, this`trees, this`shifted, this`accepted, yystack
      ensures Valid() && t.Shaped() && -1 <= yyidx < yystack.Length && outcome != NoInput && lost <= i
      ensures outcome == Shifted || (outcome == Overflow && i + 1 < |input|) ==> Halfway(input, i + 1, lost', fuel)
      ensures outcome != Shifted && (outcome != Overflow || i + 1 == |input|) ==>
                && Fed(t, noErrorRecovery, yystack.Length, [], input, fuel) == Result(outcome, Stack())
                && Dropped(t, noErrorRecovery, yystack.Length, [], input, fuel) == if outcome == Overflow then |input| else lost
      ensures outcome == Shifted ==> token != 0
      ensures outcome == Accepted ==>
                token == 0 && accepted == old(accepted) + [input[lost..i]] && Sentence(g, input[lost..i])
      ensures outcome != Accepted ==> accepted == old(accepted)
      ensures NoCycles(g) && fuel >= Rounds(g, yystack.Length, i) ==> outcome != OutOfFuel
    {
      hide *;
      HalfwayFacts(input, i, lost, fuel);
      FedStep(t, noErrorRecovery, yystack.Length, Stack(), input, i, fuel);
      RoundsGrow(g, yystack.Length, if yyidx < 0 then 0 else |shifted|, i);
      ghost var before := Stack();
      outcome := Parse(token, fuel);
      lost' := if outcome == Overflow then i + 1 else lost;
      TablesShaped();
      if outcome == Accepted { AcceptedLast(|old(accepted)|); }
      if outcome == Shifted || (outcome == Overflow && i + 1 < |input|) {
        if outcome == Overflow { NoStack(); }
        IsHalfway(input, i + 1, lost', fuel);
      }
    }

    lemma HalfwayFacts(input: seq<nat>, i: nat, lost: nat, fuel: nat)
      requires Halfway(input, i, lost, fuel)
      ensures Valid() && t.Shaped() && -1 <= yyidx < yystack.Length && lost <= i <= |input|
      ensures if yyidx < 0 then lost == i && Stack() == [] else shifted == input[lost..i] && Stack() != []
      ensures Fed(t, noErrorRecovery, yystack.Length, [], input, fuel)
           == Fed(t, noErrorRecovery, yystack.Length, Stack(), input[i..], fuel)
      ensures var n := Dropped(t, noErrorRecovery, yystack.Length, Stack(), input[i..], fuel);
        Dropped(t, noErrorRecovery, yystack.Length, [], input, fuel) == if n == 0 then lost else i + n
    {
      hide Fed, Dropped, Sound, Sentence;
    }

    lemma IsHalfway(input: seq<nat>, i: nat, lost: nat, fuel: nat)
      requires Valid() && t.Shaped() && -1 <= yyidx < yystack.Length && lost <= i <= |input|
      requires if yyidx < 0 then lost == i else shifted == input[lost..i]
      requires Fed(t, noErrorRecovery, yystack.Length, [], input, fuel)
            == Fed(t, noErrorRecovery, yystack.Length, Stack(), input[i..], fuel)
      requires var n := Dropped(t, noErrorRecovery, yystack.Length, Stack(), input[i..], fuel);
        Dropped(t, noErrorRecovery, yystack.Length, [], input, fuel) == if n == 0 then lost else i + n
      ensures Halfway(input, i, lost, fuel)
    {
      hide Fed, Dropped, Sound, Sentence;
    }

    lemma TablesShaped()
      requires Valid()
      ensures t.Shaped() && -1 <= yyidx < yystack.Length && 0 < yystack.Length
    {
      hide GoodStack, YieldAll, Sentence;
    }

    lemma AcceptedLast(i: nat)
      requires Valid() && i < |accepted|
      ensures Sentence(g, accepted[i])
    {
    }
  }

  // The tokens up to the first semicolon, which is added if there is none
  function Statement(tokens: seq<nat>, semi: nat): seq<nat> {
    if |tokens| == 0 || tokens[0] == semi then [semi] else [tokens[0]] + Statement(tokens[1..], semi)
  }

  lemma {:induction false} StatementIs(tokens: seq<nat>, semi: nat, i: nat)
    requires 0 < i <= |tokens| && forall j :: 0 <= j < i - 1 ==> tokens[j] != semi
    requires i == |tokens| || tokens[i - 1] == semi
    ensures Statement(tokens, semi) == if tokens[i - 1] == semi then tokens[..i] else tokens[..i] + [semi]
  {
    if i == 1 {
      if tokens[0] != semi { assert tokens[1..] == [] && tokens[..1] == [tokens[0]]; } else { assert tokens[..1] == [semi]; }
    } else {
      StatementIs(tokens[1..], semi, i - 1);
      assert tokens[..i] == [tokens[0]] + tokens[1..][..i - 1];
    }
  }

  lemma {:induction false} StatementAt(tokens: seq<nat>, semi: nat, i: nat)
    requires i < |tokens| && forall j :: 0 <= j < i ==> tokens[j] != semi
    ensures i < |Statement(tokens, semi)| && Statement(tokens, semi)[i] == tokens[i]
  {
    if i > 0 { StatementAt(tokens[1..], semi, i - 1); }
  }
}
