/**
 Completeness: a generated parser finds every derivation tree that conflict resolution has not decided
 against, as far as its stack has room, and overflows otherwise.
 */
module ParserRuns {
  import opened Grammars
  import opened TreeBounds
  import opened ParserTables
  import opened ParserSteps

  // From this stack the tables accept this input in n rounds, without an overflow.
  predicate Accepts(t: Tables, depth: nat, st: seq<StackEntry>, w: seq<nat>, n: nat)
    requires t.Shaped()
    decreases n
  {
    && n > 0 && w != [] && st != [] && st[|st| - 1].stateno < t.nstate
    && var act := t.FindShiftAction(st[|st| - 1].stateno, w[0]);
       if 0 <= act < t.nstate && w[0] != 0 then
         |st| < depth && Accepts(t, depth, st + [StackEntry(act, w[0])], w[1..], n - 1)
       else
         && t.nstate <= act < t.nstate + t.nrule
         && match Reduced(t, depth, st, act - t.nstate)
            case Stuck => false
            case Emptied(accepted) => accepted && |w| == 1
            case At(st') => Accepts(t, depth, st', w, n - 1)
  }

  // From this stack the tables run out of room within n rounds.
  predicate Bursts(t: Tables, depth: nat, st: seq<StackEntry>, w: seq<nat>, n: nat)
    requires t.Shaped()
    decreases n
  {
    && n > 0 && w != [] && st != [] && st[|st| - 1].stateno < t.nstate
    && var act := t.FindShiftAction(st[|st| - 1].stateno, w[0]);
       if 0 <= act < t.nstate && w[0] != 0 then
         |st| >= depth || Bursts(t, depth, st + [StackEntry(act, w[0])], w[1..], n - 1)
       else
         && t.nstate <= act < t.nstate + t.nrule
         && match Reduced(t, depth, st, act - t.nstate)
            case Stuck => false
            case Emptied(accepted) => !accepted
            case At(st') => Bursts(t, depth, st', w, n - 1)
  }

  // The engine does what the rounds say as long as its fuel for every token lasts: it accepts without
  // losing a token,
  lemma {:induction false} AcceptsIsFed(t: Tables, noErrorRecovery: bool, depth: nat, st: seq<StackEntry>, w: seq<nat>,
                                        n: nat, fuel: nat)
    requires t.Shaped() && Accepts(t, depth, st, w, n) && n <= fuel
    ensures Fed(t, noErrorRecovery, depth, st, w, fuel) == Result(Accepted, [])
    ensures Dropped(t, noErrorRecovery, depth, st, w, fuel) == 0
    decreases n, 1
  {
    hide Accepts, Driven, Fed, Dropped;
    AcceptsIsDriven(t, noErrorRecovery, depth, st, w, n, fuel, fuel);
    NoneFed(t, depth, st, w, n);
    FedStep(t, noErrorRecovery, depth, st, w, 0, fuel);
  }

  lemma NoneFed(t: Tables, depth: nat, st: seq<StackEntry>, w: seq<nat>, n: nat)
    requires t.Shaped() && (Accepts(t, depth, st, w, n) || Bursts(t, depth, st, w, n))
    ensures w != [] && w[0..] == w && Started(st) == st
  {
    hide Tables.FindShiftAction, Reduced;
  }

  lemma {:induction false} AcceptsIsDriven(t: Tables, noErrorRecovery: bool, depth: nat, st: seq<StackEntry>, w: seq<nat>,
                                           n: nat, left: nat, fuel: nat)
    requires t.Shaped() && Accepts(t, depth, st, w, n) && n <= left && n <= fuel
    ensures match Driven(t, noErrorRecovery, depth, st, w[0], left)
            case Undefined => false
            case Result(outcome, st') =>
              if outcome == Shifted then
                && Fed(t, noErrorRecovery, depth, st', w[1..], fuel) == Result(Accepted, [])
                && Dropped(t, noErrorRecovery, depth, st', w[1..], fuel) == 0
              else outcome == Accepted && st' == [] && |w| == 1
    decreases n, 0
  {
    hide Tables.FindShiftAction, Reduced, Fed, Dropped;
    var act := t.FindShiftAction(st[|st| - 1].stateno, w[0]);
    if 0 <= act < t.nstate && w[0] != 0 {
      AcceptsIsFed(t, noErrorRecovery, depth, st + [StackEntry(act, w[0])], w[1..], n - 1, fuel);
    } else {
      match Reduced(t, depth, st, act - t.nstate)
      case Emptied(_) =>
      case At(st') => AcceptsIsDriven(t, noErrorRecovery, depth, st', w, n - 1, left - 1, fuel);
    }
  }

  // or it loses tokens, if it runs out of room.
  lemma {:induction false} BurstsIsDropped(t: Tables, noErrorRecovery: bool, depth: nat, st: seq<StackEntry>, w: seq<nat>,
                                           n: nat, fuel: nat)
    requires t.Shaped() && Bursts(t, depth, st, w, n) && n <= fuel
    ensures Dropped(t, noErrorRecovery, depth, st, w, fuel) > 0
    decreases n, 1
  {
    hide Bursts, Driven, Fed, Dropped;
    BurstsIsDriven(t, noErrorRecovery, depth, st, w, n, fuel, fuel);
    NoneFed(t, depth, st, w, n);
    FedStep(t, noErrorRecovery, depth, st, w, 0, fuel);
  }

  lemma {:induction false} BurstsIsDriven(t: Tables, noErrorRecovery: bool, depth: nat, st: seq<StackEntry>, w: seq<nat>,
                                          n: nat, left: nat, fuel: nat)
    requires t.Shaped() && Bursts(t, depth, st, w, n) && n <= left && n <= fuel
    ensures match Driven(t, noErrorRecovery, depth, st, w[0], left)
            case Undefined => false
            case Result(outcome, st') =>
              outcome == Overflow || (outcome == Shifted && Dropped(t, noErrorRecovery, depth, st', w[1..], fuel) > 0)
    decreases n, 0
  {
    hide Tables.FindShiftAction, Reduced, Fed, Dropped;
    var act := t.FindShiftAction(st[|st| - 1].stateno, w[0]);
    if 0 <= act < t.nstate && w[0] != 0 {
      if |st| < depth {
        BurstsIsDropped(t, noErrorRecovery, depth, st + [StackEntry(act, w[0])], w[1..], n - 1, fuel);
      }
    } else {
      match Reduced(t, depth, st, act - t.nstate)
      case Emptied(_) =>
      case At(st') => BurstsIsDriven(t, noErrorRecovery, depth, st', w, n - 1, left - 1, fuel);
    }
  }

  lemma {:induction false} BurstsLater(t: Tables, depth: nat, st: seq<StackEntry>, w: seq<nat>, n: nat, n': nat)
    requires t.Shaped() && Bursts(t, depth, st, w, n) && n <= n'
    ensures Bursts(t, depth, st, w, n')
    decreases n
  {
    var act := t.FindShiftAction(st[|st| - 1].stateno, w[0]);
    if 0 <= act < t.nstate && w[0] != 0 {
      if |st| < depth { BurstsLater(t, depth, st + [StackEntry(act, w[0])], w[1..], n - 1, n' - 1); }
    } else {
      match Reduced(t, depth, st, act - t.nstate)
      case Emptied(_) =>
      case At(st') => BurstsLater(t, depth, st', w, n - 1, n' - 1);
    }
  }

  // Whatever the tables accept from the second stack, they accept from the first n rounds earlier; and
  // if they run out of room there, then also here.
  ghost predicate Leads(t: Tables, depth: nat, st: seq<StackEntry>, w: seq<nat>, n: nat, st': seq<StackEntry>, w': seq<nat>)
    requires t.Shaped()
  {
    && (forall m: nat :: Accepts(t, depth, st', w', m) ==> Accepts(t, depth, st, w, n + m))
    && (forall m: nat :: Bursts(t, depth, st', w', m) ==> Bursts(t, depth, st, w, n + m))
  }

  lemma LeadsNowhere(t: Tables, depth: nat, st: seq<StackEntry>, w: seq<nat>)
    requires t.Shaped()
    ensures Leads(t, depth, st, w, 0, st, w)
  {
  }

  lemma LeadsOn(t: Tables, depth: nat, st: seq<StackEntry>, w: seq<nat>, n: nat, st': seq<StackEntry>, w': seq<nat>,
                n': nat, st'': seq<StackEntry>, w'': seq<nat>)
    requires t.Shaped() && Leads(t, depth, st, w, n, st', w') && Leads(t, depth, st', w', n', st'', w'')
    ensures Leads(t, depth, st, w, n + n', st'', w'')
  {
    hide Accepts, Bursts;
    forall m: nat | Accepts(t, depth, st'', w'', m)
      ensures Accepts(t, depth, st, w, n + n' + m)
    {
      assert Accepts(t, depth, st', w', n' + m);
      assert Accepts(t, depth, st, w, n + (n' + m));
    }
    forall m: nat | Bursts(t, depth, st'', w'', m)
      ensures Bursts(t, depth, st, w, n + n' + m)
    {
      assert Bursts(t, depth, st', w', n' + m);
      assert Bursts(t, depth, st, w, n + (n' + m));
    }
  }

  lemma LeadsTo(t: Tables, depth: nat, st: seq<StackEntry>, w: seq<nat>, n: nat, st': seq<StackEntry>, w': seq<nat>, m: nat)
    requires t.Shaped() && Leads(t, depth, st, w, n, st', w')
    ensures Accepts(t, depth, st', w', m) ==> Accepts(t, depth, st, w, n + m)
    ensures Bursts(t, depth, st', w', m) ==> Bursts(t, depth, st, w, n + m)
  {
  }

  lemma ShiftLeads(t: Tables, depth: nat, st: seq<StackEntry>, token: nat, z: seq<nat>, act: nat)
    requires t.Shaped() && 0 < |st| && st[|st| - 1].stateno < t.nstate && token != 0
    requires t.FindShiftAction(st[|st| - 1].stateno, token) == act < t.nstate
    ensures |st| < depth ==> Leads(t, depth, st, [token] + z, 1, st + [StackEntry(act, token)], z)
    ensures |st| >= depth ==> Bursts(t, depth, st, [token] + z, 1)
  {
    assert ([token] + z)[1..] == z;
  }

  // A reduce of a rule whose right-hand side lies on the stack
  lemma ReduceLeads(t: Tables, depth: nat, st: seq<StackEntry>, pushed: seq<StackEntry>, rule: nat, z: seq<nat>, act: nat)
    requires t.Shaped() && 0 < |st| && z != [] && rule < t.nrule && |pushed| == t.ruleSize[rule]
    requires (st + pushed)[|st + pushed| - 1].stateno < t.nstate
    requires t.FindShiftAction((st + pushed)[|st + pushed| - 1].stateno, z[0]) == t.nstate + rule
    requires t.ReduceDefined(st[|st| - 1].stateno, t.ruleLhs[rule])
    requires t.FindReduceAction(st[|st| - 1].stateno, t.ruleLhs[rule]) == act < t.nstate
    ensures |st| < depth ==> Leads(t, depth, st + pushed, z, 1, st + [StackEntry(act, t.ruleLhs[rule])], z)
    ensures |st| >= depth ==> Bursts(t, depth, st + pushed, z, 1)
  {
    hide Tables.FindShiftAction, Tables.FindReduceAction, Tables.ReduceDefined;
    assert (st + pushed)[..|st|] == st;
    assert Reduced(t, depth, st + pushed, rule)
        == if |st| < depth then At(st + [StackEntry(act, t.ruleLhs[rule])]) else Emptied(false);
  }

  // The last reduce of all
  lemma AcceptLeads(t: Tables, depth: nat, pushed: seq<StackEntry>, rule: nat)
    requires t.Shaped() && rule < t.nrule && |pushed| == t.ruleSize[rule]
    requires ([StackEntry(0, 0)] + pushed)[|pushed|].stateno < t.nstate
    requires t.FindShiftAction(([StackEntry(0, 0)] + pushed)[|pushed|].stateno, 0) == t.nstate + rule
    requires t.ReduceDefined(0, t.ruleLhs[rule]) && t.FindReduceAction(0, t.ruleLhs[rule]) == t.AcceptAction()
    ensures Accepts(t, depth, [StackEntry(0, 0)] + pushed, [0], 1)
  {
    hide Tables.FindShiftAction, Tables.FindReduceAction, Tables.ReduceDefined;
    var st := [StackEntry(0, 0)] + pushed;
    assert st[..1] == [StackEntry(0, 0)];
    assert Reduced(t, depth, st, rule) == Emptied(true);
  }

  // The number of stack entries it takes to work through a tree: a child finds those of its elder
  // siblings below it.
  ghost function Need(tree: Tree): (n: nat)
    ensures n > 0
  {
    match tree
    case Leaf(_) => 1
    case Node(_, kids) => if NeedAll(kids) == 0 then 1 else NeedAll(kids)
  }

  ghost function NeedAll(trees: seq<Tree>): (n: nat)
    ensures n > 0 <==> |trees| > 0
  {
    if |trees| == 0 then 0
    else if Need(trees[0]) >= 1 + NeedAll(trees[1..]) then Need(trees[0]) else 1 + NeedAll(trees[1..])
  }
}

/** Derivation trees are found by the tables that LEMON generates. */
module LemonComplete {
  import opened Grammars
  import opened Automata
  import opened ParserTables
  import opened TreeBounds
  import opened ParserSteps
  import opened ParserEngine
  import opened ParserRuns
  import opened LemonClosure
  import opened LemonConfigList
  import opened LemonAutomaton
  import opened LemonFirst
  import opened LemonLinks
  import opened LemonActions
  import opened LemonFindActions
  import opened LemonResort
  import opened LemonReport
  import opened LemonMain

  // Every symbol that derives the empty string has an empty rule, as the lambda flags suppose.
  ghost predicate NullableByRule(g: Grammar) {
    forall x :: g.nterminal <= x < g.nsymbol && Nullable(g, x) ==> HasEmptyRule(g, x)
  }

  // ---------- The follow sets along an item ----------

  // The lookahead may follow the configuration.
  ghost predicate MayFollow(b: Build, k: nat, it: Item, a: nat) {
    (k, it) in b.fws && a in b.fws[(k, it)]
  }

  lemma BaseMayFollow(b: Build, k: nat, it: Item, a: nat)
    requires FollowSolution(b.states, b.fws) && IsConfig(b.states, (k, it)) && a in Base(b.states[k].fws, it)
    ensures MayFollow(b, k, it, a)
  {
    var p := [(k, it)];
    assert EdgePath(b.states, p) && p[|p| - 1] == (k, it);
    assert FollowReason(b.states, (k, it), a);
  }

  lemma EdgeMayFollow(b: Build, c: Config, d: Config, a: nat)
    requires FollowSolution(b.states, b.fws) && MayFollow(b, c.0, c.1, a)
    requires Edge(b.states, c, d) && IsConfig(b.states, d)
    ensures MayFollow(b, d.0, d.1, a)
  {
    hide Edge;
    assert FollowReason(b.states, c, a);
    var p: seq<Config> :| EdgePath(b.states, p) && p[|p| - 1] == c && a in Base(b.states[p[0].0].fws, p[0].1);
    var q := p + [d];
    forall i | 0 <= i < |q| - 1
      ensures Edge(b.states, q[i], q[i + 1])
    {
      if i < |p| - 1 { assert Edge(b.states, p[i], p[i + 1]); }
    }
    assert EdgePath(b.states, q) && q[|q| - 1] == d && q[0] == p[0];
    assert FollowReason(b.states, d, a);
  }

  // An item before a nonterminal starts its rules in the same state.  A lookahead follows such a rule
  // if it can start what comes after the nonterminal, or if that can be empty and the lookahead follows
  // the item.
  lemma RuleIsStarted(g: Grammar, an: Analysis, b: Build, k: nat, it: Item, rule: nat, a: nat)
    requires Inv(g, an, b.states, {}) && FollowSolution(b.states, b.fws) && IsConfig(b.states, (k, it))
    requires HasNext(g, it) && rule < |g.rules| && g.rules[rule].lhs == Next(g, it)
    ensures ValidItem(g, it) && AnalysisFor(g, an) && forall j :: 0 <= j < |Tail(g, it)| ==> Tail(g, it)[j] < g.nsymbol
    ensures IsConfig(b.states, (k, Item(rule, 0)))
    ensures a in FirstOfTail(g, an, Tail(g, it)) ==> MayFollow(b, k, Item(rule, 0), a)
    ensures TailIsLambda(g, an, Tail(g, it)) && MayFollow(b, k, it, a) ==> MayFollow(b, k, Item(rule, 0), a)
  {
    hide FollowSolution, MayFollow, FirstOfTail, TailIsLambda;
    var x := Item(rule, 0);
    ItemIsExpanded(g, an, b.states, k, it, x);
    if a in FirstOfTail(g, an, Tail(g, it)) {
      BaseMayFollow(b, k, x, a);
    }
    if TailIsLambda(g, an, Tail(g, it)) && MayFollow(b, k, it, a) {
      EdgeMayFollow(b, (k, it), (k, x), a);
    }
  }

  lemma ItemIsExpanded(g: Grammar, an: Analysis, states: seq<State>, k: nat, it: Item, x: Item)
    requires Inv(g, an, states, {}) && IsConfig(states, (k, it))
    requires HasNext(g, it) && x.dot == 0 && x.rule < |g.rules| && g.rules[x.rule].lhs == Next(g, it)
    ensures ValidItem(g, it) && AnalysisFor(g, an) && forall j :: 0 <= j < |Tail(g, it)| ==> Tail(g, it)[j] < g.nsymbol
    ensures IsConfig(states, (k, x))
    ensures forall a :: a in FirstOfTail(g, an, Tail(g, it)) ==> a in Base(states[k].fws, x)
    ensures TailIsLambda(g, an, Tail(g, it)) ==> Edge(states, (k, it), (k, x))
  {
    var s := states[k];
    assert GoodState(g, an, k == 0, s);
    hide Inv, FirstOfTail, TailIsLambda;
    TailInRange(g, it);
    ExpansionIsExpands(g, it);
    assert Expands(g, it, x) && x in ExpansionOf(g, it);
    assert it in Elements(s.items) && x in Elements(s.items);
    forall a | a in FirstOfTail(g, an, Tail(g, it))
      ensures a in Base(s.fws, x)
    {
      assert a in Contribution(g, an, it, x);
      assert GivenBy(g, an, s.items, x, a);
    }
    if TailIsLambda(g, an, Tail(g, it)) {
      PairsAreExpansions(g, it, Next(g, it), |g.rules|);
      assert (it, x) in ForwardPairs(g, an, it);
    }
  }

  // The move over the symbol after the dot, with the lookaheads that follow the item
  lemma ItemMoves(g: Grammar, an: Analysis, b: Build, k: nat, it: Item) returns (k': nat)
    requires Inv(g, an, b.states, {}) && FollowSolution(b.states, b.fws) && IsConfig(b.states, (k, it)) && HasNext(g, it)
    ensures (Next(g, it), k') in b.states[k].shifts
    ensures IsConfig(b.states, (k', Item(it.rule, it.dot + 1)))
    ensures forall a :: MayFollow(b, k, it, a) ==> MayFollow(b, k', Item(it.rule, it.dot + 1), a)
  {
    k' := ItemShifts(g, an, b.states, k, it);
    hide *;
    forall a | MayFollow(b, k, it, a)
      ensures MayFollow(b, k', Item(it.rule, it.dot + 1), a)
    {
      EdgeMayFollow(b, (k, it), (k', Item(it.rule, it.dot + 1)), a);
    }
  }

  lemma ItemShifts(g: Grammar, an: Analysis, states: seq<State>, k: nat, it: Item) returns (k': nat)
    requires Inv(g, an, states, {}) && IsConfig(states, (k, it)) && HasNext(g, it)
    ensures (Next(g, it), k') in states[k].shifts
    ensures IsConfig(states, (k', Item(it.rule, it.dot + 1)))
    ensures Edge(states, (k, it), (k', Item(it.rule, it.dot + 1)))
  {
    assert Complete(g, states[k]) && HasShift(states[k], Next(g, it));
    var j :| 0 <= j < |states[k].shifts| && states[k].shifts[j].0 == Next(g, it);
    k' := states[k].shifts[j].1;
    assert states[k].shifts[j] == (Next(g, it), k');
    assert GoodShifts(g, states, k) && GoodShift(g, states, k, Next(g, it), k');
    assert GoodState(g, an, k' == 0, states[k']);
    hide Inv;
    var moved := Item(it.rule, it.dot + 1);
    assert it in Elements(states[k].items);
    assert moved in Successors(g, Elements(states[k].items), Next(g, it));
    assert moved in Elements(states[k'].basis) && moved in Elements(states[k'].items);
  }

  // ---------- What the tables answer ----------

  // Finished tables that answer what the lists of actions say
  ghost predicate Sure(g: Grammar, an: Analysis, b: Build) {
    Finished(g, an, b) && TablesAnswer(g, b)
  }

  lemma SureFacts(g: Grammar, an: Analysis, b: Build)
    requires Sure(g, an, b)
    ensures Inv(g, an, b.states, {}) && WellFormed(g) && AnalysisFor(g, an) && StartNotOnRhs(g)
    ensures |b.full| == |b.num| == |b.states| == b.t.nstate && b.t.Shaped() && b.t.nrule == |g.rules|
    ensures forall k :: 0 <= k < |b.num| ==> b.num[k] < b.t.nstate
    ensures b.num != [] && b.num[0] == 0
    ensures forall r :: 0 <= r < |g.rules| ==> b.t.ruleLhs[r] == g.rules[r].lhs && b.t.ruleSize[r] == |g.rules[r].rhs|
    ensures SizesOf(g, |b.states|) == Sizes(b.t.nstate, b.t.nrule, g.nterminal, g.nsymbol)
    ensures forall k :: 0 <= k < |b.states| ==> GoodActions(g, b.states, b.fws, k, b.full[k])
  {
    assert Renumbering(|b.states|, b.order, b.num);
    assert b.order[0] == 0;
  }

  // The action is on the list of the state, with an effect: it has won against all others on its symbol.
  ghost predicate InForce(b: Build, k: nat, a: Action) {
    k < |b.full| && a in b.full[k] && Effective(a)
  }

  lemma InForceAnswered(g: Grammar, an: Analysis, b: Build, k: nat, a: Action)
    requires Sure(g, an, b) && InForce(b, k, a)
    ensures b.t.Shaped() && k < |b.num| && k < |b.states| && b.num[k] < b.t.nstate
    ensures Gives(g, b.t, b.num, SizesOf(g, |b.states|), b.num[k], a) && Candidate(g, b.states, b.fws, k, a)
  {
    hide Finished, Gives, GivesDefault, Candidate, Tables.Shaped;
    SureFacts(g, an, b);
    assert StateAnswers(g, b.t, b.full[k], b.num, SizesOf(g, |b.states|), b.num[k]);
  }

  lemma ShiftAnswered(g: Grammar, an: Analysis, b: Build, k: nat, x: nat, k': nat)
    requires Sure(g, an, b) && InForce(b, k, Action(x, SHIFT, k'))
    ensures b.t.Shaped() && k < |b.num| && k' < |b.num| && b.num[k] < b.t.nstate && b.num[k'] < b.t.nstate
    ensures if x < g.nterminal then b.t.FindShiftAction(b.num[k], x) == b.num[k']
            else b.t.ReduceDefined(b.num[k], x) && b.t.FindReduceAction(b.num[k], x) == b.num[k']
  {
    hide Sure, Tables.Shaped, Tables.FindShiftAction, Tables.FindReduceAction, Tables.ReduceDefined;
    SureFacts(g, an, b);
    InForceAnswered(g, an, b, k, Action(x, SHIFT, k'));
  }

  lemma ReduceAnswered(g: Grammar, an: Analysis, b: Build, k: nat, rule: nat, a: nat)
    requires Sure(g, an, b) && InForce(b, k, Action(a, REDUCE, rule)) && a < g.nterminal
    ensures b.t.Shaped() && k < |b.num| && b.num[k] < b.t.nstate && rule < |g.rules|
    ensures b.t.FindShiftAction(b.num[k], a) == b.t.nstate + rule
  {
    hide *;
    SureFacts(g, an, b);
    InForceAnswered(g, an, b, k, Action(a, REDUCE, rule));
    ReduceIsGiven(g, b, k, b.num[k], a, rule);
  }

  lemma ReduceIsGiven(g: Grammar, b: Build, k: nat, s: nat, a: nat, rule: nat)
    requires b.t.Shaped() && s < b.t.nstate && a < g.nterminal && k < |b.states|
    requires Candidate(g, b.states, b.fws, k, Action(a, REDUCE, rule))
    requires Gives(g, b.t, b.num, Sizes(b.t.nstate, b.t.nrule, g.nterminal, g.nsymbol), s, Action(a, REDUCE, rule))
    ensures b.t.FindShiftAction(s, a) == b.t.nstate + rule && rule < |g.rules|
  {
  }

  // Moves over nonterminals are always in force.
  lemma GotoInForce(g: Grammar, an: Analysis, b: Build, k: nat, a: Action)
    requires Sure(g, an, b) && k < |b.states| && Candidate(g, b.states, b.fws, k, a) && a.sp >= g.nterminal
    ensures InForce(b, k, a)
  {
    hide Sure, Inv, GoodActions, Candidate;
    SureFacts(g, an, b);
    GotosSurvive(g, an, b.states, b.fws, k, b.full[k], a);
  }

  lemma AcceptAnswered(g: Grammar, an: Analysis, b: Build)
    requires Sure(g, an, b)
    ensures b.t.Shaped() && b.t.ReduceDefined(0, g.start) && b.t.FindReduceAction(0, g.start) == b.t.AcceptAction()
  {
    hide Sure, Tables.Shaped, Tables.FindShiftAction, Tables.FindReduceAction, Tables.ReduceDefined;
    SureFacts(g, an, b);
    var a := Action(g.start, ACCEPT, 0);
    assert Candidate(g, b.states, b.fws, 0, a);
    GotoInForce(g, an, b, 0, a);
    InForceAnswered(g, an, b, 0, a);
  }

  // ---------- Trees that conflict resolution leaves alone ----------

  // The state that a shift over the symbol leads to
  ghost function Target(b: Build, k: nat, x: nat): nat {
    if k < |b.states| then ShiftTarget(b.states[k].shifts, x) else 0
  }

  ghost function ShiftTarget(shifts: seq<(nat, nat)>, x: nat): nat {
    if |shifts| == 0 then 0 else if shifts[0].0 == x then shifts[0].1 else ShiftTarget(shifts[1..], x)
  }

  lemma {:induction false} OnlyTarget(shifts: seq<(nat, nat)>, x: nat, k: nat)
    requires (x, k) in shifts && forall i, j :: 0 <= i < j < |shifts| ==> shifts[i].0 != shifts[j].0
    ensures ShiftTarget(shifts, x) == k
  {
    var i :| 0 <= i < |shifts| && shifts[i] == (x, k);
    if i > 0 {
      assert shifts[1..][i - 1] == (x, k) && shifts[0].0 != shifts[i].0;
      OnlyTarget(shifts[1..], x, k);
    }
  }

  // The token that comes next when the trees are empty or not
  ghost function FirstOf(trees: seq<Tree>, a: nat): nat {
    if YieldAll(trees) == [] then a else YieldAll(trees)[0]
  }

  // Every action that the tree asks for, when it begins in state k and the token a comes behind it, is in
  // force.
  ghost predicate Favoured(g: Grammar, b: Build, k: nat, tree: Tree, a: nat)
    decreases tree
  {
    match tree
    case Leaf(token) => InForce(b, k, Action(token, SHIFT, Target(b, k, token)))
    case Node(rule, kids) =>
      FavouredAll(g, b, k, kids, a) && InForce(b, StateAfter(g, b, k, kids), Action(a, REDUCE, rule))
  }

  ghost predicate FavouredAll(g: Grammar, b: Build, k: nat, trees: seq<Tree>, a: nat)
    decreases trees
  {
    |trees| > 0 ==>
      && Favoured(g, b, k, trees[0], FirstOf(trees[1..], a))
      && FavouredAll(g, b, Target(b, k, Root(g, trees[0])), trees[1..], a)
  }

  ghost function StateAfter(g: Grammar, b: Build, k: nat, trees: seq<Tree>): nat
    decreases |trees|
  {
    if |trees| == 0 then k else StateAfter(g, b, Target(b, k, Root(g, trees[0])), trees[1..])
  }

  // A stack whose top is state k
  ghost predicate OnTop(b: Build, st: seq<StackEntry>, k: nat) {
    st != [] && k < |b.num| && st[|st| - 1].stateno == b.num[k]
  }

  // The move over the symbol after the dot
  lemma MoveOver(g: Grammar, an: Analysis, b: Build, k: nat, it: Item)
    requires Sure(g, an, b) && IsConfig(b.states, (k, it)) && HasNext(g, it)
    ensures k < |b.states| && (Next(g, it), Target(b, k, Next(g, it))) in b.states[k].shifts
    ensures IsConfig(b.states, (Target(b, k, Next(g, it)), Item(it.rule, it.dot + 1)))
  {
    hide Sure, IsConfig, Edge;
    SureFacts(g, an, b);
    var k' := ItemShifts(g, an, b.states, k, it);
    StateOf(b, k, it);
    TargetIs(g, an, b, k, Next(g, it), k');
  }

  lemma StateOf(b: Build, k: nat, it: Item)
    requires IsConfig(b.states, (k, it))
    ensures k < |b.states|
  {
  }

  lemma TargetIs(g: Grammar, an: Analysis, b: Build, k: nat, x: nat, k': nat)
    requires Inv(g, an, b.states, {}) && k < |b.states| && (x, k') in b.states[k].shifts
    ensures Target(b, k, x) == k'
  {
    assert GoodShifts(g, b.states, k);
    OnlyTarget(b.states[k].shifts, x, k');
  }

  // From a state with an item before the root of a tree whose actions are in force, the tables work
  // through the yield of the tree and end up in the state over its root, if the stack has room for what
  // the tree needs.  Otherwise they run out of room.
  lemma {:induction false} TreeIsFound(g: Grammar, an: Analysis, b: Build, depth: nat, st: seq<StackEntry>, k: nat, it: Item,
                                       tree: Tree, z: seq<nat>)
    requires Sure(g, an, b) && b.t.Shaped() && OnTop(b, st, k) && |st| <= depth && Derivation(g, tree)
    requires IsConfig(b.states, (k, it)) && HasNext(g, it) && Next(g, it) == Root(g, tree)
    requires z != [] && z[0] < g.nterminal && Favoured(g, b, k, tree, z[0])
    ensures var k' := Target(b, k, Root(g, tree));
      && k' < |b.num| && IsConfig(b.states, (k', Item(it.rule, it.dot + 1)))
      && if |st| + Need(tree) <= depth
         then Leads(b.t, depth, st, Yield(tree) + z, Size(tree), st + [StackEntry(b.num[k'], Root(g, tree))], z)
         else Bursts(b.t, depth, st, Yield(tree) + z, Size(tree))
    decreases tree, 1
  {
    hide *;
    SureFacts(g, an, b);
    MoveOver(g, an, b, k, it);
    TopState(b, st, k);
    var k' := Target(b, k, Root(g, tree));
    match tree
    case Leaf(token) =>
      LeafFacts(g, b, k, tree, it, z[0]);
      ShiftAnswered(g, an, b, k, token, k');
      ShiftLeads(b.t, depth, st, token, z, b.num[k']);
    case Node(rule, kids) =>
      NodeFacts(g, tree);
      FavouredNode(g, b, k, tree, z[0]);
      NodeIsStarted(g, an, b, k, it, rule);
      GotoAnswered(g, an, b, k, Root(g, tree), k');
      var pushed := KidsAreFound(g, an, b, depth, st, k, tree, 0, z);
      if |st| + NeedAll(kids) <= depth {
        var k1 := StateAfter(g, b, k, kids);
        ReduceAnswered(g, an, b, k1, rule, z[0]);
        TopState(b, st + pushed, k1);
        ReduceLeads(b.t, depth, st, pushed, rule, z, b.num[k']);
        if |st| < depth {
          LeadsOn(b.t, depth, st, Yield(tree) + z, SizeAll(kids), st + pushed, z,
                  1, st + [StackEntry(b.num[k'], Root(g, tree))], z);
        } else {
          LeadsTo(b.t, depth, st, Yield(tree) + z, SizeAll(kids), st + pushed, z, 1);
        }
      } else {
        BurstsLater(b.t, depth, st, Yield(tree) + z, SizeAll(kids), Size(tree));
      }
  }

  lemma NodeIsStarted(g: Grammar, an: Analysis, b: Build, k: nat, it: Item, rule: nat)
    requires Inv(g, an, b.states, {}) && IsConfig(b.states, (k, it)) && HasNext(g, it)
    requires rule < |g.rules| && g.rules[rule].lhs == Next(g, it)
    ensures IsConfig(b.states, (k, Item(rule, 0)))
  {
    hide *;
    var x := Item(rule, 0);
    ItemIsExpanded(g, an, b.states, k, it, x);
  }

  lemma GotoAnswered(g: Grammar, an: Analysis, b: Build, k: nat, x: nat, k': nat)
    requires Sure(g, an, b) && k < |b.states| && (x, k') in b.states[k].shifts && x >= g.nterminal
    ensures b.t.Shaped() && k < |b.num| && k' < |b.num| && b.num[k] < b.t.nstate && b.num[k'] < b.t.nstate
    ensures b.t.ReduceDefined(b.num[k], x) && b.t.FindReduceAction(b.num[k], x) == b.num[k']
  {
    hide Sure, Tables.Shaped, Tables.FindReduceAction, Tables.ReduceDefined;
    assert Candidate(g, b.states, b.fws, k, Action(x, SHIFT, k'));
    GotoInForce(g, an, b, k, Action(x, SHIFT, k'));
    ShiftAnswered(g, an, b, k, x, k');
  }

  lemma TopState(b: Build, st: seq<StackEntry>, k: nat)
    requires OnTop(b, st, k)
    ensures st != [] && k < |b.num| && st[|st| - 1].stateno == b.num[k]
  {
  }

  lemma LeafFacts(g: Grammar, b: Build, k: nat, tree: Tree, it: Item, a: nat)
    requires WellFormed(g) && tree.Leaf? && Derivation(g, tree) && HasNext(g, it) && Next(g, it) == Root(g, tree)
    requires Favoured(g, b, k, tree, a)
    ensures Root(g, tree) == tree.token && 0 < tree.token < g.nterminal && Yield(tree) == [tree.token]
    ensures Size(tree) == 1 && Need(tree) == 1
    ensures InForce(b, k, Action(tree.token, SHIFT, Target(b, k, tree.token)))
  {
    hide InForce, Target;
  }

  lemma NodeFacts(g: Grammar, tree: Tree)
    requires WellFormed(g) && tree.Node? && Derivation(g, tree)
    ensures tree.rule < |g.rules| && Root(g, tree) == g.rules[tree.rule].lhs >= g.nterminal
    ensures |g.rules[tree.rule].rhs| == |tree.kids| && tree.kids[0..] == tree.kids
    ensures Yield(tree) == YieldAll(tree.kids) && Size(tree) == 1 + SizeAll(tree.kids)
    ensures Need(tree) == if NeedAll(tree.kids) == 0 then 1 else NeedAll(tree.kids)
    ensures NeedAll(tree.kids) > 0 <==> |tree.kids| > 0
  {
  }

  lemma FavouredNode(g: Grammar, b: Build, k: nat, tree: Tree, a: nat)
    requires tree.Node? && Favoured(g, b, k, tree, a)
    ensures FavouredAll(g, b, k, tree.kids, a)
    ensures InForce(b, StateAfter(g, b, k, tree.kids), Action(a, REDUCE, tree.rule))
  {
    hide InForce, FavouredAll, StateAfter;
  }

  // The children of a node from the j-th on, one after the other
  lemma {:induction false} KidsAreFound(g: Grammar, an: Analysis, b: Build, depth: nat, st: seq<StackEntry>, k: nat,
                                        tree: Tree, j: nat, z: seq<nat>)
    returns (pushed: seq<StackEntry>)
    requires Sure(g, an, b) && b.t.Shaped() && OnTop(b, st, k) && |st| <= depth
    requires Derivation(g, tree) && tree.Node? && j <= |tree.kids| && IsConfig(b.states, (k, Item(tree.rule, j)))
    requires z != [] && z[0] < g.nterminal && FavouredAll(g, b, k, tree.kids[j..], z[0])
    ensures if |st| + NeedAll(tree.kids[j..]) <= depth
            then
              && |pushed| == |tree.kids| - j && OnTop(b, st + pushed, StateAfter(g, b, k, tree.kids[j..]))
              && Leads(b.t, depth, st, YieldAll(tree.kids[j..]) + z, SizeAll(tree.kids[j..]), st + pushed, z)
            else Bursts(b.t, depth, st, YieldAll(tree.kids[j..]) + z, SizeAll(tree.kids[j..]))
    decreases tree, 0, |tree.kids| - j
  {
    hide *;
    SureFacts(g, an, b);
    pushed := [];
    if j == |tree.kids| {
      NoKids(g, b, k, tree, z);
      assert st + [] == st;
      LeadsNowhere(b.t, depth, st, z);
    } else {
      var kid, rest, it := tree.kids[j], tree.kids[j + 1..], Item(tree.rule, j);
      var z1 := YieldAll(rest) + z;
      KidFacts(g, tree, j, z);
      FavouredKid(g, b, k, tree, j, z);
      TreeIsFound(g, an, b, depth, st, k, it, kid, z1);
      if |st| + Need(kid) <= depth {
        var k1 := Target(b, k, Root(g, kid));
        var entry := StackEntry(b.num[k1], Root(g, kid));
        Pushed(b, st, k1, entry);
        var pushed1 := KidsAreFound(g, an, b, depth, st + [entry], k1, tree, j + 1, z);
        pushed := [entry] + pushed1;
        assert st + pushed == st + [entry] + pushed1;
        if |st| + 1 + NeedAll(rest) <= depth {
          LeadsOn(b.t, depth, st, YieldAll(tree.kids[j..]) + z, Size(kid), st + [entry], z1, SizeAll(rest), st + pushed, z);
        } else {
          LeadsTo(b.t, depth, st, YieldAll(tree.kids[j..]) + z, Size(kid), st + [entry], z1, SizeAll(rest));
        }
      } else {
        BurstsLater(b.t, depth, st, YieldAll(tree.kids[j..]) + z, Size(kid), SizeAll(tree.kids[j..]));
      }
    }
  }

  lemma Pushed(b: Build, st: seq<StackEntry>, k: nat, entry: StackEntry)
    requires k < |b.num| && entry.stateno == b.num[k]
    ensures OnTop(b, st + [entry], k)
  {
  }

  lemma NoKids(g: Grammar, b: Build, k: nat, tree: Tree, z: seq<nat>)
    requires tree.Node?
    ensures YieldAll(tree.kids[|tree.kids|..]) + z == z && SizeAll(tree.kids[|tree.kids|..]) == 0
    ensures NeedAll(tree.kids[|tree.kids|..]) == 0 && StateAfter(g, b, k, tree.kids[|tree.kids|..]) == k
  {
  }

  lemma FavouredKid(g: Grammar, b: Build, k: nat, tree: Tree, j: nat, z: seq<nat>)
    requires tree.Node? && j < |tree.kids| && z != [] && FavouredAll(g, b, k, tree.kids[j..], z[0])
    ensures var k1, rest := Target(b, k, Root(g, tree.kids[j])), tree.kids[j + 1..];
      && Favoured(g, b, k, tree.kids[j], (YieldAll(rest) + z)[0])
      && FavouredAll(g, b, k1, rest, z[0])
      && StateAfter(g, b, k, tree.kids[j..]) == StateAfter(g, b, k1, rest)
  {
    hide Favoured, Target, Root;
    assert tree.kids[j..][1..] == tree.kids[j + 1..];
  }

  // One child, and the rest of them
  lemma KidFacts(g: Grammar, tree: Tree, j: nat, z: seq<nat>)
    requires WellFormed(g) && Derivation(g, tree) && tree.Node? && j < |tree.kids| && z != [] && z[0] < g.nterminal
    ensures Derivation(g, tree.kids[j])
    ensures HasNext(g, Item(tree.rule, j)) && Next(g, Item(tree.rule, j)) == Root(g, tree.kids[j])
    ensures SizeAll(tree.kids[j..]) == Size(tree.kids[j]) + SizeAll(tree.kids[j + 1..])
    ensures NeedAll(tree.kids[j..]) == (if Need(tree.kids[j]) >= 1 + NeedAll(tree.kids[j + 1..]) then Need(tree.kids[j])
                                        else 1 + NeedAll(tree.kids[j + 1..]))
    ensures Need(tree.kids[j]) >= 1 && Size(tree.kids[j]) > 0
    ensures var z1 := YieldAll(tree.kids[j + 1..]) + z;
      && z1 != [] && z1[0] < g.nterminal
      && YieldAll(tree.kids[j..]) + z == Yield(tree.kids[j]) + z1
  {
    KidRoot(g, tree, j);
    YieldIsTokens(g, tree, j + 1);
    hide *;
    assert tree.kids[j..][1..] == tree.kids[j + 1..] && tree.kids[j..][0] == tree.kids[j];
    YieldStart(tree.kids[j..]);
    SizeStart(tree.kids[j..]);
    assert Yield(tree.kids[j]) + YieldAll(tree.kids[j + 1..]) + z == Yield(tree.kids[j]) + (YieldAll(tree.kids[j + 1..]) + z);
  }

  lemma KidRoot(g: Grammar, tree: Tree, j: nat)
    requires WellFormed(g) && Derivation(g, tree) && tree.Node? && j < |tree.kids|
    ensures Derivation(g, tree.kids[j])
    ensures HasNext(g, Item(tree.rule, j)) && Next(g, Item(tree.rule, j)) == Root(g, tree.kids[j])
  {
  }

  lemma SizeStart(trees: seq<Tree>)
    requires trees != []
    ensures SizeAll(trees) == Size(trees[0]) + SizeAll(trees[1..])
    ensures NeedAll(trees) == if Need(trees[0]) >= 1 + NeedAll(trees[1..]) then Need(trees[0]) else 1 + NeedAll(trees[1..])
  {
  }

  lemma {:induction false} YieldIsTokens(g: Grammar, tree: Tree, i: nat)
    requires Derivation(g, tree) && tree.Node? && i <= |tree.kids|
    ensures forall j :: 0 <= j < |YieldAll(tree.kids[i..])| ==> YieldAll(tree.kids[i..])[j] < g.nterminal
    decreases tree, |tree.kids| - i
  {
    if i < |tree.kids| {
      var kid := tree.kids[i];
      assert tree.kids[i..][1..] == tree.kids[i + 1..];
      YieldStart(tree.kids[i..]);
      assert Derivation(g, kid);
      if kid.Node? {
        YieldIsTokens(g, kid, 0);
        assert kid.kids[0..] == kid.kids;
      }
      YieldIsTokens(g, tree, i + 1);
    }
  }

  // A derivation tree of the start symbol
  ghost predicate Parses(g: Grammar, tree: Tree, w: seq<nat>) {
    Derivation(g, tree) && Root(g, tree) == g.start && tree.Node? && Yield(tree) == w
  }

  // The stack entries that a whole parse needs, the bottom included
  ghost function Room(tree: Tree): nat {
    match tree
    case Leaf(_) => 1
    case Node(_, kids) => 1 + NeedAll(kids)
  }

  // The whole parse: a tree of the start symbol whose actions are in force is accepted, in as many rounds
  // as it has nodes, if and only if the stack has room for it.
  lemma SentenceIsAccepted(g: Grammar, an: Analysis, b: Build, depth: nat, tree: Tree, w: seq<nat>)
    requires Sure(g, an, b) && depth > 0 && Parses(g, tree, w) && Favoured(g, b, 0, tree, 0)
    requires IsConfig(b.states, (0, Item(tree.rule, 0)))
    ensures b.t.Shaped()
    ensures if Room(tree) <= depth then Accepts(b.t, depth, [StackEntry(0, 0)], w + [0], Size(tree))
            else Bursts(b.t, depth, [StackEntry(0, 0)], w + [0], Size(tree))
  {
    hide *;
    ParsesFacts(g, tree, w);
    SureFacts(g, an, b);
    NodeFacts(g, tree);
    FavouredNode(g, b, 0, tree, 0);
    var st := [StackEntry(0, 0)];
    Pushed(b, [], 0, st[0]);
    assert [] + st == st;
    var pushed := KidsAreFound(g, an, b, depth, st, 0, tree, 0, [0]);
    if Room(tree) <= depth {
      var k := StateAfter(g, b, 0, tree.kids);
      ReduceAnswered(g, an, b, k, tree.rule, 0);
      TopState(b, st + pushed, k);
      AcceptAnswered(g, an, b);
      AcceptLeads(b.t, depth, pushed, tree.rule);
      LeadsTo(b.t, depth, st, w + [0], SizeAll(tree.kids), st + pushed, [0], 1);
    } else {
      BurstsLater(b.t, depth, st, w + [0], SizeAll(tree.kids), Size(tree));
    }
  }

  lemma ParsesFacts(g: Grammar, tree: Tree, w: seq<nat>)
    requires Parses(g, tree, w)
    ensures Derivation(g, tree) && Root(g, tree) == g.start && tree.Node? && Yield(tree) == w
    ensures Room(tree) == 1 + NeedAll(tree.kids)
  {
  }

  // ---------- Without conflicts every tree is left alone ----------

  ghost predicate Ready(g: Grammar, p: Precedence, an: Analysis, b: Build) {
    Sure(g, an, b) && Analysed(g, p, an, b) && AllEffective(b.full) && NullableByRule(g)
  }

  lemma ReadyFacts(g: Grammar, p: Precedence, an: Analysis, b: Build)
    requires Ready(g, p, an, b)
    ensures Sure(g, an, b) && Inv(g, an, b.states, {}) && WellFormed(g) && AnalysisFor(g, an)
    ensures FollowSolution(b.states, b.fws) && |b.full| == |b.states| && StartsRight(g, b)
  {
    hide Sure, AllEffective, NullableByRule, Inv, FollowSolution, LeastFirst, Reachable, Resolved, Expansion;
    SureFacts(g, an, b);
  }

  // The first state starts exactly the rules of the start symbol.
  ghost predicate StartsRight(g: Grammar, b: Build) {
    b.states != [] && forall it :: it in b.states[0].basis <==> it in Expansion(g, g.start, |g.rules|)
  }

  // Without conflicts every candidate is still in its list.
  lemma CandidateInForce(g: Grammar, p: Precedence, an: Analysis, b: Build, k: nat, a: Action)
    requires Ready(g, p, an, b) && k < |b.states| && Candidate(g, b.states, b.fws, k, a)
    ensures InForce(b, k, a)
  {
    hide Sure, LeastFirst, FollowSolution, Reachable, NullableByRule, Candidate, Sorted, NoDuplicates, WinnersStay;
    assert Resolved(g, b.states, b.fws, k, p, b.full[k]);
    var l :| SortedCandidates(g, b.states, b.fws, k, l) && Kept(l, b.full[k]) && WinnersStay(l, b.full[k], p);
    var i :| 0 <= i < |l| && l[i] == a;
    assert Effective(b.full[k][i]);
    assert b.full[k][i] == a && a in b.full[k];
  }

  // What comes after a child may follow its rule.
  lemma KidMayFollow(g: Grammar, p: Precedence, an: Analysis, b: Build, k: nat, tree: Tree, j: nat, a: nat)
    requires Ready(g, p, an, b) && Derivation(g, tree) && tree.Node? && j < |tree.kids| && tree.kids[j].Node?
    requires IsConfig(b.states, (k, Item(tree.rule, j))) && MayFollow(b, k, Item(tree.rule, j), a)
    ensures tree.kids[j].rule < |g.rules| && IsConfig(b.states, (k, Item(tree.kids[j].rule, 0)))
    ensures MayFollow(b, k, Item(tree.kids[j].rule, 0), FirstOf(tree.kids[j + 1..], a))
  {
    hide *;
    ReadyFacts(g, p, an, b);
    KidRule(g, tree, j);
    RuleIsStarted(g, an, b, k, Item(tree.rule, j), tree.kids[j].rule, FirstOf(tree.kids[j + 1..], a));
    BehindKid(g, p, an, b, tree, j, a);
  }

  // The token behind a child can start what comes after it, or that can be empty.
  lemma BehindKid(g: Grammar, p: Precedence, an: Analysis, b: Build, tree: Tree, j: nat, a: nat)
    requires Ready(g, p, an, b) && AnalysisFor(g, an) && Derivation(g, tree) && tree.Node? && j < |tree.kids|
    requires var it := Item(tree.rule, j);
      ValidItem(g, it) && HasNext(g, it) && forall i :: 0 <= i < |Tail(g, it)| ==> Tail(g, it)[i] < g.nsymbol
    ensures var it, first := Item(tree.rule, j), FirstOf(tree.kids[j + 1..], a);
      first in FirstOfTail(g, an, Tail(g, it)) || (first == a && TailIsLambda(g, an, Tail(g, it)))
  {
    ReadyFacts(g, p, an, b);
    hide Ready, FirstOfTail, TailIsLambda, Inv, FollowSolution, Sure, StartsRight, AnalysisFor, YieldAll;
    assert Tail(g, Item(tree.rule, j)) == g.rules[tree.rule].rhs[j + 1..];
    RestStarts(g, p, an, b, tree, j + 1);
  }

  lemma KidRule(g: Grammar, tree: Tree, j: nat)
    requires Derivation(g, tree) && tree.Node? && j < |tree.kids| && tree.kids[j].Node?
    ensures HasNext(g, Item(tree.rule, j)) && tree.kids[j].rule < |g.rules|
    ensures g.rules[tree.kids[j].rule].lhs == Next(g, Item(tree.rule, j))
  {
    assert Derivation(g, tree.kids[j]);
  }

  // The rest of a right-hand side yields something that starts with one of its FIRST tokens, or nothing.
  lemma RestStarts(g: Grammar, p: Precedence, an: Analysis, b: Build, tree: Tree, i: nat)
    requires Ready(g, p, an, b) && AnalysisFor(g, an) && Derivation(g, tree) && tree.Node? && i <= |tree.kids|
    requires forall j :: 0 <= j < |g.rules[tree.rule].rhs| ==> g.rules[tree.rule].rhs[j] < g.nsymbol
    ensures if YieldAll(tree.kids[i..]) == [] then TailIsLambda(g, an, g.rules[tree.rule].rhs[i..])
            else YieldAll(tree.kids[i..])[0] in FirstOfTail(g, an, g.rules[tree.rule].rhs[i..])
  {
    FlagsFacts(g, p, an, b);
    if YieldAll(tree.kids[i..]) != [] {
      FirstCoversKids(g, an, tree, i);
    } else {
      EmptyRest(g, an, tree, i);
    }
  }

  lemma FlagsFacts(g: Grammar, p: Precedence, an: Analysis, b: Build)
    requires Ready(g, p, an, b)
    ensures FirstClosed(g, an)
    ensures forall x :: g.nterminal <= x < g.nsymbol && Nullable(g, x) ==> an.lambda[x]
  {
    hide Sure, AllEffective, Nullable, HasEmptyRule, FirstClosed;
  }

  lemma EmptyRest(g: Grammar, an: Analysis, tree: Tree, i: nat)
    requires WellFormed(g) && AnalysisFor(g, an) && Derivation(g, tree) && tree.Node? && i <= |tree.kids|
    requires forall x :: g.nterminal <= x < g.nsymbol && Nullable(g, x) ==> an.lambda[x]
    requires YieldAll(tree.kids[i..]) == []
    ensures TailIsLambda(g, an, g.rules[tree.rule].rhs[i..])
  {
    var tail := g.rules[tree.rule].rhs[i..];
    forall j | 0 <= j < |tail|
      ensures tail[j] >= g.nterminal && an.lambda[tail[j]]
    {
      EmptyYields(tree.kids[i..], j);
      var kid := tree.kids[i + j];
      assert tree.kids[i..][j] == kid && Derivation(g, kid) && Root(g, kid) == tail[j];
      assert Nullable(g, tail[j]);
    }
  }

  // The move over the symbol after the dot keeps the lookaheads that follow the item.
  lemma FollowsOver(g: Grammar, p: Precedence, an: Analysis, b: Build, k: nat, it: Item)
    requires Ready(g, p, an, b) && IsConfig(b.states, (k, it)) && HasNext(g, it)
    ensures k < |b.states| && (Next(g, it), Target(b, k, Next(g, it))) in b.states[k].shifts
    ensures var k' := Target(b, k, Next(g, it));
      && IsConfig(b.states, (k', Item(it.rule, it.dot + 1)))
      && forall a :: MayFollow(b, k, it, a) ==> MayFollow(b, k', Item(it.rule, it.dot + 1), a)
  {
    hide *;
    ReadyFacts(g, p, an, b);
    StateOf(b, k, it);
    var k' := ItemMoves(g, an, b, k, it);
    TargetIs(g, an, b, k, Next(g, it), k');
  }

  lemma {:induction false} TreeIsFavoured(g: Grammar, p: Precedence, an: Analysis, b: Build, k: nat, it: Item, tree: Tree, a: nat)
    requires Ready(g, p, an, b) && IsConfig(b.states, (k, it)) && HasNext(g, it) && Next(g, it) == Root(g, tree)
    requires Derivation(g, tree) && a < g.nterminal
    requires tree.Node? ==> MayFollow(b, k, Item(tree.rule, 0), a) && IsConfig(b.states, (k, Item(tree.rule, 0)))
    ensures Favoured(g, b, k, tree, a)
    decreases tree, 1
  {
    hide *;
    match tree
    case Leaf(token) =>
      FollowsOver(g, p, an, b, k, it);
      ShiftInForce(g, p, an, b, k, Next(g, it));
      FavouredLeaf(g, b, k, tree, a);
    case Node(rule, kids) =>
      NodeIsFavoured(g, p, an, b, k, tree, a);
  }

  // A node whose rule is started in a state, with the lookahead behind it
  lemma {:induction false} NodeIsFavoured(g: Grammar, p: Precedence, an: Analysis, b: Build, k: nat, tree: Tree, a: nat)
    requires Ready(g, p, an, b) && Derivation(g, tree) && tree.Node? && a < g.nterminal
    requires MayFollow(b, k, Item(tree.rule, 0), a) && IsConfig(b.states, (k, Item(tree.rule, 0)))
    ensures Favoured(g, b, k, tree, a)
    decreases tree, 0, |tree.kids| + 1
  {
    hide *;
    ReadyFacts(g, p, an, b);
    NodeFacts(g, tree);
    KidsAreFavoured(g, p, an, b, k, tree, 0, a);
    ReduceInForce(g, p, an, b, StateAfter(g, b, k, tree.kids), tree.rule, a);
    IsFavouredNode(g, b, k, tree, a);
  }

  lemma ShiftInForce(g: Grammar, p: Precedence, an: Analysis, b: Build, k: nat, x: nat)
    requires Ready(g, p, an, b) && k < |b.states| && (x, Target(b, k, x)) in b.states[k].shifts
    ensures InForce(b, k, Action(x, SHIFT, Target(b, k, x)))
  {
    hide Ready, InForce, Target;
    CandidateInForce(g, p, an, b, k, Action(x, SHIFT, Target(b, k, x)));
  }

  lemma ReduceInForce(g: Grammar, p: Precedence, an: Analysis, b: Build, k: nat, rule: nat, a: nat)
    requires Ready(g, p, an, b) && rule < |g.rules| && IsConfig(b.states, (k, Item(rule, |g.rules[rule].rhs|)))
    requires MayFollow(b, k, Item(rule, |g.rules[rule].rhs|), a) && a < g.nterminal
    ensures InForce(b, k, Action(a, REDUCE, rule))
  {
    hide Ready, InForce;
    CandidateInForce(g, p, an, b, k, Action(a, REDUCE, rule));
  }

  lemma FavouredLeaf(g: Grammar, b: Build, k: nat, tree: Tree, a: nat)
    requires tree.Leaf? && InForce(b, k, Action(Root(g, tree), SHIFT, Target(b, k, Root(g, tree))))
    ensures Favoured(g, b, k, tree, a)
  {
    hide InForce, Target;
  }

  lemma IsFavouredNode(g: Grammar, b: Build, k: nat, tree: Tree, a: nat)
    requires tree.Node? && FavouredAll(g, b, k, tree.kids, a)
    requires InForce(b, StateAfter(g, b, k, tree.kids), Action(a, REDUCE, tree.rule))
    ensures Favoured(g, b, k, tree, a)
  {
    hide InForce, FavouredAll, StateAfter;
  }

  lemma {:induction false} KidsAreFavoured(g: Grammar, p: Precedence, an: Analysis, b: Build, k: nat, tree: Tree, j: nat, a: nat)
    requires Ready(g, p, an, b) && Derivation(g, tree) && tree.Node? && j <= |tree.kids| && a < g.nterminal
    requires IsConfig(b.states, (k, Item(tree.rule, j))) && MayFollow(b, k, Item(tree.rule, j), a)
    ensures FavouredAll(g, b, k, tree.kids[j..], a)
    ensures var k' := StateAfter(g, b, k, tree.kids[j..]);
      IsConfig(b.states, (k', Item(tree.rule, |tree.kids|))) && MayFollow(b, k', Item(tree.rule, |tree.kids|), a)
    decreases tree, 0, |tree.kids| - j
  {
    hide *;
    ReadyFacts(g, p, an, b);
    NoneFavoured(g, b, k, a);
    if j < |tree.kids| {
      var kid, it := tree.kids[j], Item(tree.rule, j);
      KidRoot(g, tree, j);
      FirstIsToken(g, tree, j + 1, a);
      if kid.Node? { KidMayFollow(g, p, an, b, k, tree, j, a); }
      TreeIsFavoured(g, p, an, b, k, it, kid, FirstOf(tree.kids[j + 1..], a));
      FollowsOver(g, p, an, b, k, it);
      KidsAreFavoured(g, p, an, b, Target(b, k, Root(g, kid)), tree, j + 1, a);
      OneMoreFavoured(g, b, k, tree, j, a);
    } else {
      assert tree.kids[j..] == [];
    }
  }

  lemma NoneFavoured(g: Grammar, b: Build, k: nat, a: nat)
    ensures FavouredAll(g, b, k, [], a) && StateAfter(g, b, k, []) == k
  {
  }

  lemma OneMoreFavoured(g: Grammar, b: Build, k: nat, tree: Tree, j: nat, a: nat)
    requires tree.Node? && j < |tree.kids| && Favoured(g, b, k, tree.kids[j], FirstOf(tree.kids[j + 1..], a))
    requires FavouredAll(g, b, Target(b, k, Root(g, tree.kids[j])), tree.kids[j + 1..], a)
    ensures FavouredAll(g, b, k, tree.kids[j..], a)
    ensures StateAfter(g, b, k, tree.kids[j..]) == StateAfter(g, b, Target(b, k, Root(g, tree.kids[j])), tree.kids[j + 1..])
  {
    hide Favoured, Target, Root, FirstOf;
    assert tree.kids[j..][1..] == tree.kids[j + 1..];
  }

  lemma FirstIsToken(g: Grammar, tree: Tree, j: nat, a: nat)
    requires Derivation(g, tree) && tree.Node? && j <= |tree.kids| && a < g.nterminal
    ensures FirstOf(tree.kids[j..], a) < g.nterminal
  {
    YieldIsTokens(g, tree, j);
  }

  // Without conflicts, and with lambda flags that cover nullability, no action of any tree is lost.
  lemma CleanTreesAreFavoured(g: Grammar, p: Precedence, an: Analysis, b: Build, tree: Tree, w: seq<nat>)
    requires Ready(g, p, an, b) && Parses(g, tree, w)
    ensures Favoured(g, b, 0, tree, 0)
  {
    hide *;
    ParsesFacts(g, tree, w);
    ReadyFacts(g, p, an, b);
    NodeFacts(g, tree);
    EndIsToken(g);
    StartConfig(g, an, b, tree.rule);
    StartMayFollow(g, an, b, tree.rule);
    NodeIsFavoured(g, p, an, b, 0, tree, 0);
  }

  lemma EndIsToken(g: Grammar)
    requires WellFormed(g)
    ensures 0 < g.nterminal
  {
  }

  // The first state has all rules of the start symbol,
  lemma StartConfig(g: Grammar, an: Analysis, b: Build, rule: nat)
    requires Inv(g, an, b.states, {}) && StartsRight(g, b) && rule < |g.rules| && g.rules[rule].lhs == g.start
    ensures b.states != [] && IsConfig(b.states, (0, Item(rule, 0))) && Item(rule, 0) in b.states[0].basis
  {
    var x := Item(rule, 0);
    ExpansionMembers(g, g.start, |g.rules|);
    assert x in b.states[0].basis;
    assert GoodState(g, an, true, b.states[0]);
    assert x in Elements(b.states[0].basis) && x in Elements(b.states[0].items);
  }

  // and the end of the input follows them.
  lemma StartMayFollow(g: Grammar, an: Analysis, b: Build, rule: nat)
    requires Inv(g, an, b.states, {}) && FollowSolution(b.states, b.fws) && IsConfig(b.states, (0, Item(rule, 0)))
    requires Item(rule, 0) in b.states[0].basis
    ensures MayFollow(b, 0, Item(rule, 0), 0)
  {
    hide FollowSolution, MayFollow;
    assert GoodState(g, an, true, b.states[0]);
    assert 0 in Base(b.states[0].fws, Item(rule, 0));
    BaseMayFollow(b, 0, Item(rule, 0), 0);
  }

  // ---------- A generated parser at work ----------

  // What the engine makes of a tree whose actions are in force
  lemma TreeIsFed(g: Grammar, an: Analysis, b: Build, noErrorRecovery: bool, depth: nat, tree: Tree, w: seq<nat>, fuel: nat)
    requires Sure(g, an, b) && b.t.Shaped() && depth > 0 && Parses(g, tree, w) && Favoured(g, b, 0, tree, 0)
    requires IsConfig(b.states, (0, Item(tree.rule, 0))) && Size(tree) <= fuel
    ensures if Room(tree) <= depth then Fed(b.t, noErrorRecovery, depth, [], w + [0], fuel) == Result(Accepted, [])
                                     && Dropped(b.t, noErrorRecovery, depth, [], w + [0], fuel) == 0
            else Dropped(b.t, noErrorRecovery, depth, [], w + [0], fuel) > 0
  {
    hide *;
    var st := [StackEntry(0, 0)];
    SentenceIsAccepted(g, an, b, depth, tree, w);
    FromScratch(b.t, noErrorRecovery, depth, w + [0], fuel);
    if Room(tree) <= depth {
      AcceptsIsFed(b.t, noErrorRecovery, depth, st, w + [0], Size(tree), fuel);
    } else {
      BurstsIsDropped(b.t, noErrorRecovery, depth, st, w + [0], Size(tree), fuel);
    }
  }

  lemma FromScratch(t: Tables, noErrorRecovery: bool, depth: nat, w: seq<nat>, fuel: nat)
    requires t.Shaped() && w != []
    ensures Fed(t, noErrorRecovery, depth, [], w, fuel) == Fed(t, noErrorRecovery, depth, [StackEntry(0, 0)], w, fuel)
    ensures Dropped(t, noErrorRecovery, depth, [], w, fuel)
         == Dropped(t, noErrorRecovery, depth, [StackEntry(0, 0)], w, fuel)
  {
    hide Driven, Tables.Shaped;
  }

  // A tree of the whole statement that the generated parser is bound to find
  ghost predicate Bound(g: Grammar, b: Build, tree: Tree, w: seq<nat>) {
    Parses(g, tree, w) && (Favoured(g, b, 0, tree, 0) || (AllEffective(b.full) && NullableByRule(g)))
  }

  lemma BoundIsFed(g: Grammar, p: Precedence, an: Analysis, b: Build, noErrorRecovery: bool, depth: nat, tree: Tree,
                   w: seq<nat>, fuel: nat)
    requires Finished(g, an, b) && TablesAnswer(g, b) && Analysed(g, p, an, b) && b.t.Shaped() && depth > 0
    requires Bound(g, b, tree, w) && Size(tree) <= fuel
    ensures if Room(tree) <= depth then Fed(b.t, noErrorRecovery, depth, [], w + [0], fuel) == Result(Accepted, [])
                                     && Dropped(b.t, noErrorRecovery, depth, [], w + [0], fuel) == 0
            else Dropped(b.t, noErrorRecovery, depth, [], w + [0], fuel) > 0
  {
    hide *;
    BoundFacts(g, p, an, b, tree, w);
    ParsesFacts(g, tree, w);
    SureFacts(g, an, b);
    NodeFacts(g, tree);
    AnalysedStart(g, p, an, b);
    if !Favoured(g, b, 0, tree, 0) { CleanTreesAreFavoured(g, p, an, b, tree, w); }
    StartConfig(g, an, b, tree.rule);
    TreeIsFed(g, an, b, noErrorRecovery, depth, tree, w, fuel);
  }

  lemma BoundFacts(g: Grammar, p: Precedence, an: Analysis, b: Build, tree: Tree, w: seq<nat>)
    requires Finished(g, an, b) && TablesAnswer(g, b) && Analysed(g, p, an, b) && Bound(g, b, tree, w)
    ensures Sure(g, an, b) && Parses(g, tree, w) && (Favoured(g, b, 0, tree, 0) || Ready(g, p, an, b))
  {
    hide Finished, TablesAnswer, Analysed, Parses, Favoured, AllEffective, NullableByRule;
  }

  lemma AnalysedStart(g: Grammar, p: Precedence, an: Analysis, b: Build)
    requires Analysed(g, p, an, b)
    ensures StartsRight(g, b)
  {
    hide LeastFirst, Reachable, FollowSolution, Resolved, Expansion, HasEmptyRule;
  }

  // Without conflicts the whole statement is accepted exactly if it has a tree that the stack has room for.
  lemma AcceptedTrees(g: Grammar, p: Precedence, an: Analysis, b: Build, noErrorRecovery: bool, depth: nat, w: seq<nat>,
                      fuel: nat)
    requires Finished(g, an, b) && TablesAnswer(g, b) && Analysed(g, p, an, b) && b.t.Shaped() && depth > 0
    requires AllEffective(b.full) && NullableByRule(g) && NoCycles(g) && fuel >= Rounds(g, depth, |w|)
    ensures (exists tree :: Parses(g, tree, w) && Room(tree) <= depth) ==>
              && Fed(b.t, noErrorRecovery, depth, [], w + [0], fuel) == Result(Accepted, [])
              && Dropped(b.t, noErrorRecovery, depth, [], w + [0], fuel) == 0
    ensures Sentence(g, w) && Dropped(b.t, noErrorRecovery, depth, [], w + [0], fuel) == 0 ==>
              exists tree :: Parses(g, tree, w) && Room(tree) <= depth
  {
    hide *;
    GrammarIsWellFormed(g, an, b);
    if tree :| Parses(g, tree, w) && Room(tree) <= depth {
      CleanIsBound(g, b, tree, w);
      ParsesFacts(g, tree, w);
      TreeIsSmall(g, tree, depth);
      BoundIsFed(g, p, an, b, noErrorRecovery, depth, tree, w, fuel);
    }
    if Sentence(g, w) {
      var tree := SomeTree(g, w);
      CleanIsBound(g, b, tree, w);
      ParsesFacts(g, tree, w);
      TreeIsSmall(g, tree, depth);
      BoundIsFed(g, p, an, b, noErrorRecovery, depth, tree, w, fuel);
    }
  }

  lemma GrammarIsWellFormed(g: Grammar, an: Analysis, b: Build)
    requires Finished(g, an, b)
    ensures WellFormed(g)
  {
  }

  lemma CleanIsBound(g: Grammar, b: Build, tree: Tree, w: seq<nat>)
    requires Parses(g, tree, w) && AllEffective(b.full) && NullableByRule(g)
    ensures Bound(g, b, tree, w)
  {
    hide Parses, AllEffective, NullableByRule, Favoured;
  }

  lemma SomeTree(g: Grammar, w: seq<nat>) returns (tree: Tree)
    requires WellFormed(g) && Sentence(g, w)
    ensures Parses(g, tree, w)
  {
    tree :| Derivation(g, tree) && Root(g, tree) == g.start && Yield(tree) == w;
    assert tree.Node?;
  }

  // A parser generated for the grammar, run on a list of tokens.  The tokens up to the last one that
  // overflows the stack are lost; what it accepts is the rest, which is a sentence.  A tree of the whole
  // statement is found if conflict resolution has left its actions alone, or if there were no conflicts
  // and the lambda flags are right: then the statement is accepted if and only if the stack has room for
  // the tree.
  method GenerateAndParse(g: Grammar, p: Precedence, noErrorRecovery: bool, depth: nat,
                          tokens: seq<nat>, semi: nat, fuel: nat)
    returns (t: Tables, errors: nat, clean: bool, checked: bool, outcome: Outcome,
             ghost lost: nat, ghost found: Analysis, ghost b: Build)
    requires WellFormed(g) && 0 < depth && 0 < semi < g.nterminal
    requires forall i :: 0 <= i < |tokens| ==> 0 < tokens[i] < g.nterminal
    ensures (errors == 0 <==> StartNotOnRhs(g)) && (checked ==> errors == 0)
    ensures errors == 0 ==> Analysed(g, p, found, b) && b.t == t && (clean <==> AllEffective(b.full))
    ensures checked ==> (outcome == NoInput <==> tokens == [])
    ensures checked ==>
              t.Shaped() && lost == Dropped(t, noErrorRecovery, depth, [], Statement(tokens, semi) + [0], fuel)
    ensures checked && outcome == Accepted ==>
              lost <= |Statement(tokens, semi)| && Sentence(g, Statement(tokens, semi)[lost..])
    ensures checked ==> (outcome == Overflow <==> tokens != [] && lost == |Statement(tokens, semi)| + 1)
    ensures checked && tokens != [] ==>
              forall tree :: Bound(g, b, tree, Statement(tokens, semi)) && Size(tree) <= fuel ==>
                if Room(tree) <= depth then outcome == Accepted && lost == 0 else lost > 0
    ensures var enough := NoCycles(g) && fuel >= Rounds(g, depth, |Statement(tokens, semi)|);
      && (checked && enough ==> outcome != OutOfFuel)
      && (checked && enough && tokens != [] && clean && NullableByRule(g) ==>
            (outcome == Accepted && lost == 0 <==>
               exists tree :: Parses(g, tree, Statement(tokens, semi)) && Room(tree) <= depth))
  {
    hide *;
    ghost var A;
    outcome, lost := NoInput, 0;
    t, errors, clean, checked, A, found, b := Generate(g, p);
    if checked {
      var parser := new Parser(t, noErrorRecovery, depth, g, A);
      outcome := parser.Run(tokens, semi, fuel);
      ghost var w := Statement(tokens, semi);
      lost := Dropped(t, noErrorRecovery, depth, [], w + [0], fuel);
      if tokens != [] {
        forall tree | Bound(g, b, tree, w) && Size(tree) <= fuel
          ensures if Room(tree) <= depth then outcome == Accepted && lost == 0 else lost > 0
        {
          BoundIsFed(g, p, found, b, noErrorRecovery, depth, tree, w, fuel);
        }
        if clean && NullableByRule(g) && NoCycles(g) && fuel >= Rounds(g, depth, |w|) {
          AcceptedTrees(g, p, found, b, noErrorRecovery, depth, w, fuel);
          if outcome == Accepted && lost == 0 { assert w[0..] == w; }
        }
      }
    }
  }
}
