/**
 Two small grammars with their tables: what a stack overflow and a symbol that derives itself do to the
 engine.
 */
module NestedExample {
  import opened Grammars
  import opened Automata
  import opened ParserTables
  import opened TableSoundness
  import opened ParserSteps
  import opened ParserEngine

  // s ::= c ";"   c ::= "(" c ")"   c ::= "x", with "(" = 1, ")" = 2, "x" = 3, ";" = 4, s = 5, c = 6
  const NESTED := Grammar(5, 7, [Rule(5, [6, 4]), Rule(6, [1, 6, 2]), Rule(6, [3])], 5)

  const STATES: seq<set<Item>> := [
    {Item(0, 0), Item(1, 0), Item(2, 0)}, {Item(1, 1), Item(1, 0), Item(2, 0)}, {Item(2, 1)}, {Item(0, 1)},
    {Item(1, 2)}, {Item(1, 3)}, {Item(0, 2)}]

  const TABLES := Tables(7, 3, [12, 1, 12, 2, 12, 11, 3, 4, 6, 5, 7], [7, 1, 7, 3, 7, 5, 6, 6, 4, 2, 0],
                         [0, 0, -1, 4, 7, -1, 10], -1, [0, 1], -1, [10, 10, 9, 10, 10, 8, 10], [5, 6, 6], [2, 3, 1])

  lemma NestedIsSound()
    ensures Sound(NESTED, STATES, TABLES)
  {
    hide GoodTokenAction, GoodGoto, Tables.FindShiftAction, Tables.FindReduceAction, Tables.ReduceDefined;
    forall s, token | 0 <= s < 7 && 0 <= token < 5
      ensures GoodTokenAction(NESTED, STATES, s, token, TABLES.FindShiftAction(s, token))
    {
      TokenIsGood(s, token);
    }
    forall s, it | 0 <= s < 7 && it in STATES[s] && it.dot == 0
      ensures TABLES.ReduceDefined(s, NESTED.rules[it.rule].lhs)
      ensures GoodGoto(NESTED, STATES, s, NESTED.rules[it.rule].lhs, TABLES.FindReduceAction(s, NESTED.rules[it.rule].lhs))
    {
      GotoIsGood(s, it);
    }
  }

  lemma TokenIsGood(s: nat, token: nat)
    requires s < 7 && token < 5
    ensures GoodTokenAction(NESTED, STATES, s, token, TABLES.FindShiftAction(s, token))
  {
    TokenAnswer(s, token);
    hide Tables.FindShiftAction;
  }

  lemma TokenAnswer(s: nat, token: nat)
    requires s < 7 && token < 5
    ensures TABLES.FindShiftAction(s, token)
         == if s <= 1 && token == 1 then 1 else if s <= 1 && token == 3 then 2
            else if s == 2 then 9 else if s == 3 && token == 4 then 6
            else if s == 4 && token == 2 then 5 else if s == 5 then 8
            else if s == 6 && token == 0 then 7 else 10
  {
  }

  lemma GotoIsGood(s: nat, it: Item)
    requires s < 7 && it in STATES[s] && it.dot == 0
    ensures it.rule < 3 && TABLES.ReduceDefined(s, NESTED.rules[it.rule].lhs)
    ensures GoodGoto(NESTED, STATES, s, NESTED.rules[it.rule].lhs, TABLES.FindReduceAction(s, NESTED.rules[it.rule].lhs))
  {
  }

  lemma NestedNode(tree: Tree)
    requires Derivation(NESTED, tree) && tree.Node?
    ensures tree.rule < 3 && Yield(tree) == YieldAll(tree.kids)
    ensures tree.rule == 0 ==> tree.kids == [tree.kids[0], Leaf(4)]
    ensures tree.rule == 1 ==> tree.kids == [Leaf(1), tree.kids[1], Leaf(2)]
    ensures tree.rule == 2 ==> tree.kids == [Leaf(3)]
    ensures tree.rule < 2 ==> var kid := tree.kids[tree.rule]; Derivation(NESTED, kid) && kid.Node?
  {
    hide *;
    NestedRules();
    NodeOf(tree);
    if tree.rule == 0 {
      KidOf(tree, 0);
      KidOf(tree, 1);
    } else if tree.rule == 1 {
      KidOf(tree, 0);
      KidOf(tree, 1);
      KidOf(tree, 2);
    } else {
      KidOf(tree, 0);
    }
  }

  lemma NestedRules()
    ensures |NESTED.rules| == 3
    ensures NESTED.rules[0].rhs == [6, 4] && NESTED.rules[1].rhs == [1, 6, 2] && NESTED.rules[2].rhs == [3]
  {
  }

  lemma NodeOf(tree: Tree)
    requires Derivation(NESTED, tree) && tree.Node?
    ensures tree.rule < 3 && |tree.kids| == |NESTED.rules[tree.rule].rhs| && Yield(tree) == YieldAll(tree.kids)
  {
    hide YieldAll;
  }

  lemma KidOf(tree: Tree, j: nat)
    requires Derivation(NESTED, tree) && tree.Node? && tree.rule < 3 && j < |tree.kids|
    ensures j < |NESTED.rules[tree.rule].rhs|
    ensures var kid, symbol := tree.kids[j], NESTED.rules[tree.rule].rhs[j];
      if symbol < 5 then kid == Leaf(symbol) else kid.Node? && Derivation(NESTED, kid)
  {
    var kid, symbol := tree.kids[j], NESTED.rules[tree.rule].rhs[j];
    assert Derivation(NESTED, kid) && Root(NESTED, kid) == symbol;
    SymbolOf(kid);
  }

  lemma SymbolOf(tree: Tree)
    requires Derivation(NESTED, tree)
    ensures if tree.Leaf? then tree == Leaf(Root(NESTED, tree)) && tree.token < 5 else Root(NESTED, tree) >= 5
  {
  }

  // Every opening bracket has its closing one.
  lemma {:induction false} Balanced(tree: Tree)
    requires Derivation(NESTED, tree) && tree.Node?
    ensures multiset(Yield(tree))[1] == multiset(Yield(tree))[2]
  {
    hide Derivation, YieldAll;
    var kids := tree.kids;
    NestedNode(tree);
    if tree.rule == 0 {
      Balanced(kids[0]);
      YieldOfTwo(kids[0], Leaf(4));
    } else if tree.rule == 1 {
      Balanced(kids[1]);
      YieldOfThree(Leaf(1), kids[1], Leaf(2));
    } else {
      YieldOfOne(Leaf(3));
    }
  }

  lemma YieldOfTwo(a: Tree, b: Tree)
    ensures YieldAll([a, b]) == Yield(a) + Yield(b)
  {
    YieldOfOne(a);
    assert [a, b][..1] == [a];
  }

  lemma YieldOfThree(a: Tree, b: Tree, c: Tree)
    ensures YieldAll([a, b, c]) == Yield(a) + Yield(b) + Yield(c)
  {
    YieldOfTwo(a, b);
    assert [a, b, c][..2] == [a, b];
  }

  // What the tables answer
  lemma Answers()
    ensures TABLES.Shaped()
    ensures TABLES.FindShiftAction(0, 1) == 1 == TABLES.FindShiftAction(1, 1) && TABLES.FindShiftAction(0, 3) == 2
    ensures TABLES.FindShiftAction(2, 4) == 9 && TABLES.FindShiftAction(3, 4) == 6 && TABLES.FindShiftAction(6, 0) == 7
    ensures TABLES.ReduceDefined(0, 5) && TABLES.FindReduceAction(0, 5) == 11 == TABLES.AcceptAction()
    ensures TABLES.ReduceDefined(0, 6) && TABLES.FindReduceAction(0, 6) == 3
  {
  }

  lemma Opens(fuel: nat)
    requires fuel >= 2 && TABLES.Shaped()
    ensures var st := [StackEntry(0, 0)];
      && Driven(TABLES, false, 3, st, 1, fuel) == Result(Shifted, st + [StackEntry(1, 1)])
      && Driven(TABLES, false, 3, st + [StackEntry(1, 1)], 1, fuel)
         == Result(Shifted, st + [StackEntry(1, 1), StackEntry(1, 1)])
      && Driven(TABLES, false, 3, st + [StackEntry(1, 1), StackEntry(1, 1)], 1, fuel) == Result(Overflow, [])
  {
    Answers();
    hide Tables.FindShiftAction, Tables.FindReduceAction, Tables.ReduceDefined;
  }

  lemma Closes(fuel: nat)
    requires fuel >= 2 && TABLES.Shaped()
    ensures var st := [StackEntry(0, 0)];
      && Driven(TABLES, false, 3, st, 3, fuel) == Result(Shifted, st + [StackEntry(2, 3)])
      && Driven(TABLES, false, 3, st + [StackEntry(2, 3)], 4, fuel)
         == Result(Shifted, st + [StackEntry(3, 6), StackEntry(6, 4)])
      && Driven(TABLES, false, 3, st + [StackEntry(3, 6), StackEntry(6, 4)], 0, fuel) == Result(Accepted, [])
  {
    Answers();
    hide Tables.FindShiftAction, Tables.FindReduceAction, Tables.ReduceDefined;
    var st := [StackEntry(0, 0)];
    assert (st + [StackEntry(2, 3)])[..1] == st;
    assert Reduced(TABLES, 3, st + [StackEntry(2, 3)], 2) == At(st + [StackEntry(3, 6)]);
    assert st + [StackEntry(3, 6)] + [StackEntry(6, 4)] == st + [StackEntry(3, 6), StackEntry(6, 4)];
    assert (st + [StackEntry(3, 6), StackEntry(6, 4)])[..1] == st;
    assert Reduced(TABLES, 3, st + [StackEntry(3, 6), StackEntry(6, 4)], 0) == Emptied(true);
  }

  lemma OneFed(st: seq<StackEntry>, token: nat, rest: seq<nat>, fuel: nat, outcome: Outcome, st': seq<StackEntry>)
    requires TABLES.Shaped() && Driven(TABLES, false, 3, Started(st), token, fuel) == Result(outcome, st')
    ensures var w := [token] + rest;
      && (outcome == Accepted ==>
            Fed(TABLES, false, 3, st, w, fuel) == Result(Accepted, st') && Dropped(TABLES, false, 3, st, w, fuel) == 0)
      && (outcome == Shifted || (outcome == Overflow && st' == [] && rest != []) ==>
            && Fed(TABLES, false, 3, st, w, fuel) == Fed(TABLES, false, 3, st', rest, fuel)
            && Dropped(TABLES, false, 3, st, w, fuel)
               == (if Dropped(TABLES, false, 3, st', rest, fuel) == 0 && outcome == Shifted then 0
                   else 1 + Dropped(TABLES, false, 3, st', rest, fuel)))
  {
    hide Driven, Fed, Dropped, Tables.Shaped;
    var w := [token] + rest;
    assert w[0..] == w && w[1..] == rest;
    FedStep(TABLES, false, 3, st, w, 0, fuel);
  }

  // "( ( ( x ;" on a stack of three entries: the third bracket does not fit and empties the stack, the
  // parser starts afresh and accepts "x ;".  No error is reported for an input that is no sentence.
  lemma OverflowIsSilent(fuel: nat)
    requires fuel >= 2
    ensures TABLES.Shaped()
    ensures Fed(TABLES, false, 3, [], [1, 1, 1, 3, 4, 0], fuel) == Result(Accepted, [])
    ensures Dropped(TABLES, false, 3, [], [1, 1, 1, 3, 4, 0], fuel) == 3
    ensures !Sentence(NESTED, [1, 1, 1, 3, 4])
  {
    hide Driven, Fed, Dropped, Tables.Shaped, Sentence;
    var st := [StackEntry(0, 0)];
    Answers();
    Opens(fuel);
    Closes(fuel);
    Lists();
    OneFed(st + [StackEntry(3, 6), StackEntry(6, 4)], 0, [], fuel, Accepted, []);
    OneFed(st + [StackEntry(2, 3)], 4, [0], fuel, Shifted, st + [StackEntry(3, 6), StackEntry(6, 4)]);
    OneFed([], 3, [4, 0], fuel, Shifted, st + [StackEntry(2, 3)]);
    OneFed(st + [StackEntry(1, 1), StackEntry(1, 1)], 1, [3, 4, 0], fuel, Overflow, []);
    OneFed(st + [StackEntry(1, 1)], 1, [1, 3, 4, 0], fuel, Shifted, st + [StackEntry(1, 1), StackEntry(1, 1)]);
    OneFed([], 1, [1, 1, 3, 4, 0], fuel, Shifted, st + [StackEntry(1, 1)]);
    NotBalanced();
  }

  lemma Lists()
    ensures [0] == [0] + [] && [4, 0] == [4] + [0] && [3, 4, 0] == [3] + [4, 0] && [1, 3, 4, 0] == [1] + [3, 4, 0]
    ensures [1, 1, 3, 4, 0] == [1] + [1, 3, 4, 0] && [1, 1, 1, 3, 4, 0] == [1] + [1, 1, 3, 4, 0]
  {
  }

  lemma NotBalanced()
    ensures !Sentence(NESTED, [1, 1, 1, 3, 4])
  {
    forall tree | Derivation(NESTED, tree) && Root(NESTED, tree) == 5
      ensures Yield(tree) != [1, 1, 1, 3, 4]
    {
      Balanced(tree);
      assert multiset([1, 1, 1, 3, 4])[1] == 3;
    }
  }

  // The same, run by the engine itself
  method RunNested(fuel: nat) returns (outcome: Outcome)
    requires fuel >= 2
    ensures outcome == Accepted && !Sentence(NESTED, Statement([1, 1, 1, 3], 4))
  {
    hide *;
    NestedIsSound();
    NestedStatement();
    var parser := new Parser(TABLES, false, 3, NESTED, STATES);
    outcome := parser.Run([1, 1, 1, 3], 4, fuel);
    OverflowIsSilent(fuel);
  }

  lemma NestedStatement()
    ensures Statement([1, 1, 1, 3], 4) == [1, 1, 1, 3, 4]
    ensures [1, 1, 1, 3, 4] + [0] == [1, 1, 1, 3, 4, 0] && 4 < NESTED.nterminal
    ensures forall i :: 0 <= i < 4 ==> 0 < [1, 1, 1, 3][i] < NESTED.nterminal
  {
    assert [1, 1, 1, 3][1..] == [1, 1, 3] && [1, 1, 3][1..] == [1, 3] && [1, 3][1..] == [3] && [3][1..] == [];
  }
}

module LoopingExample {
  import opened Grammars
  import opened Automata
  import opened TreeBounds
  import opened ParserTables
  import opened TableSoundness
  import opened ParserSteps
  import opened LemonActions

  // a ::= a   a ::= "x"   s ::= a, with "x" = 1, a = 2 and the start symbol s = 3
  const LOOPING := Grammar(2, 4, [Rule(2, [2]), Rule(2, [1]), Rule(3, [2])], 3)

  const STATES: seq<set<Item>> := [{Item(2, 0), Item(0, 0), Item(1, 0)}, {Item(1, 1)}, {Item(2, 1), Item(0, 1)}]

  // In the last state a ::= a has won against s ::= a and is the default.
  const TABLES := Tables(3, 3, [8, 1, 2, 7], [4, 1, 2, 3], [0], -1, [0], -1, [6, 4, 3], [2, 2, 3], [1, 1, 1])

  lemma LoopingIsSound()
    ensures Sound(LOOPING, STATES, TABLES)
  {
    hide GoodTokenAction, GoodGoto, Tables.FindShiftAction, Tables.FindReduceAction, Tables.ReduceDefined;
    forall s, token | 0 <= s < 3 && 0 <= token < 2
      ensures GoodTokenAction(LOOPING, STATES, s, token, TABLES.FindShiftAction(s, token))
    {
      TokenIsGood(s, token);
    }
    forall s, it | 0 <= s < 3 && it in STATES[s] && it.dot == 0
      ensures TABLES.ReduceDefined(s, LOOPING.rules[it.rule].lhs)
      ensures GoodGoto(LOOPING, STATES, s, LOOPING.rules[it.rule].lhs, TABLES.FindReduceAction(s, LOOPING.rules[it.rule].lhs))
    {
      GotoIsGood(s, it);
    }
  }

  lemma TokenIsGood(s: nat, token: nat)
    requires s < 3 && token < 2
    ensures GoodTokenAction(LOOPING, STATES, s, token, TABLES.FindShiftAction(s, token))
  {
  }

  lemma GotoIsGood(s: nat, it: Item)
    requires s < 3 && it in STATES[s] && it.dot == 0
    ensures it.rule < 3 && TABLES.ReduceDefined(s, LOOPING.rules[it.rule].lhs)
    ensures GoodGoto(LOOPING, STATES, s, LOOPING.rules[it.rule].lhs, TABLES.FindReduceAction(s, LOOPING.rules[it.rule].lhs))
  {
  }

  // Both rules can be reduced at the end of the input; without precedences the earlier one wins.
  lemma EarlierRuleWins(p: Precedence)
    requires p.precsym(0) == No
    ensures ResolveConflict(Action(0, REDUCE, 0), Action(0, REDUCE, 2), p)
         == (Action(0, REDUCE, 0), Action(0, RRCONFLICT, 2))
  {
  }

  // The symbol a derives itself,
  lemma LoopingHasCycle()
    ensures !NoCycles(LOOPING)
  {
    assert BecomesBy(LOOPING, 2, 2, 0, 0);
    assert Chain(LOOPING, [2, 2]);
  }

  // and the grammar has a sentence.
  lemma LoopingHasSentence()
    ensures Sentence(LOOPING, [1])
  {
    var a := Node(1, [Leaf(1)]);
    var tree := Node(2, [a]);
    assert Derivation(LOOPING, Leaf(1));
    assert Derivation(LOOPING, a);
    YieldOfOne(Leaf(1));
    YieldOfOne(a);
    assert Derivation(LOOPING, tree) && Yield(tree) == [1];
  }

  lemma Answers()
    ensures TABLES.Shaped()
    ensures TABLES.FindShiftAction(0, 1) == 1 && TABLES.FindShiftAction(1, 0) == 4 && TABLES.FindShiftAction(2, 0) == 3
    ensures TABLES.ReduceDefined(0, 2) && TABLES.FindReduceAction(0, 2) == 2
  {
  }

  // Reducing a ::= a leaves the stack as it was,
  lemma {:induction false} ReducesAgain(noErrorRecovery: bool, depth: nat, fuel: nat)
    requires depth >= 2 && TABLES.Shaped()
    ensures var st := [StackEntry(0, 0), StackEntry(2, 2)];
      Driven(TABLES, noErrorRecovery, depth, st, 0, fuel) == Result(OutOfFuel, st)
  {
    Answers();
    hide Tables.FindShiftAction, Tables.FindReduceAction, Tables.ReduceDefined;
    var st := [StackEntry(0, 0), StackEntry(2, 2)];
    assert st[..1] == [StackEntry(0, 0)];
    assert Reduced(TABLES, depth, st, 0) == At(st);
    if fuel > 0 { ReducesAgain(noErrorRecovery, depth, fuel - 1); }
  }

  // so the sentence "x" is never accepted: with sound tables the engine reduces a ::= a for ever.
  lemma LoopsForEver(noErrorRecovery: bool, depth: nat, fuel: nat)
    requires depth >= 2
    ensures Sound(LOOPING, STATES, TABLES) && Sentence(LOOPING, [1]) && !NoCycles(LOOPING)
    ensures match Fed(TABLES, noErrorRecovery, depth, [], [1, 0], fuel)
            case Undefined => false
            case Result(outcome, _) => outcome == OutOfFuel
  {
    hide *;
    LoopingIsSound();
    LoopingHasSentence();
    LoopingHasCycle();
    Answers();
    NoFuel(noErrorRecovery, depth, [1, 0]);
    if fuel > 0 {
      FirstToken(noErrorRecovery, depth, fuel);
      SecondToken(noErrorRecovery, depth, fuel);
      TwoTokens(noErrorRecovery, depth, fuel);
    }
  }

  lemma NoFuel(noErrorRecovery: bool, depth: nat, w: seq<nat>)
    requires TABLES.Shaped() && w != []
    ensures Fed(TABLES, noErrorRecovery, depth, [], w, 0) == Result(OutOfFuel, [StackEntry(0, 0)])
  {
    hide Tables.Shaped;
  }

  lemma FirstToken(noErrorRecovery: bool, depth: nat, fuel: nat)
    requires depth >= 2 && TABLES.Shaped() && fuel > 0
    ensures var st := [StackEntry(0, 0)];
      Driven(TABLES, noErrorRecovery, depth, st, 1, fuel) == Result(Shifted, st + [StackEntry(1, 1)])
  {
    Answers();
    hide Tables.FindShiftAction, Tables.Shaped, Reduced;
  }

  lemma SecondToken(noErrorRecovery: bool, depth: nat, fuel: nat)
    requires depth >= 2 && TABLES.Shaped() && fuel > 0
    ensures Driven(TABLES, noErrorRecovery, depth, [StackEntry(0, 0), StackEntry(1, 1)], 0, fuel)
         == Result(OutOfFuel, [StackEntry(0, 0), StackEntry(2, 2)])
  {
    Answers();
    hide Tables.FindShiftAction, Tables.FindReduceAction, Tables.ReduceDefined, Tables.Shaped;
    var st := [StackEntry(0, 0), StackEntry(1, 1)];
    assert st[..1] == [StackEntry(0, 0)];
    assert Reduced(TABLES, depth, st, 1) == At([StackEntry(0, 0), StackEntry(2, 2)]);
    ReducesAgain(noErrorRecovery, depth, fuel - 1);
    hide Reduced;
  }

  lemma TwoTokens(noErrorRecovery: bool, depth: nat, fuel: nat)
    requires TABLES.Shaped()
    requires Driven(TABLES, noErrorRecovery, depth, [StackEntry(0, 0)], 1, fuel)
          == Result(Shifted, [StackEntry(0, 0)] + [StackEntry(1, 1)])
    requires Driven(TABLES, noErrorRecovery, depth, [StackEntry(0, 0), StackEntry(1, 1)], 0, fuel)
          == Result(OutOfFuel, [StackEntry(0, 0), StackEntry(2, 2)])
    ensures Fed(TABLES, noErrorRecovery, depth, [], [1, 0], fuel) == Result(OutOfFuel, [StackEntry(0, 0), StackEntry(2, 2)])
  {
    hide Driven, Tables.Shaped;
    assert [StackEntry(0, 0)] + [StackEntry(1, 1)] == [StackEntry(0, 0), StackEntry(1, 1)];
    assert [1, 0][1..] == [0] && [0][1..] == [];
  }
}
