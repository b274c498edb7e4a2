/** LEMON's main pipeline, from a grammar to packed parser tables, and the soundness of the result. */
module LemonMain {
  import opened Grammars
  import opened Automata
  import opened ParserTables
  import opened TableSoundness
  import opened LemonClosure
  import opened LemonConfigList
  import opened LemonAutomaton
  import opened LemonFirst
  import opened LemonFollow
  import opened LemonLinks
  import opened LemonActions
  import opened LemonFindActions
  import opened LemonCompress
  import opened LemonResort
  import opened LemonReport
  import AT = ActionTable

  lemma InitIsTerminals(g: Grammar, an: Analysis, states: seq<State>, init: Sets<Config>)
    requires Inv(g, an, states, {}) && Terminals(g, an.first)
    requires forall c: Config :: c in init ==> IsConfig(states, c) && init[c] == Base(states[c.0].fws, c.1)
    ensures forall c: Config, a :: c in init && a in init[c] ==> a < g.nterminal
  {
    forall c: Config, a | c in init && a in init[c] ensures a < g.nterminal {
      var s := states[c.0];
      assert GoodState(g, an, c.0 == 0, s);
      if it :| it in s.items && a in Contribution(g, an, it, c.1) {
        ExpansionIsExpands(g, it);
        TailInRange(g, it);
        TailIsTerminals(g, an, Tail(g, it));
      }
    }
  }

  // The follow sets of rules of the start symbol only have "$".
  ghost predicate StartFollowsEnd(g: Grammar, fws: FollowSets) {
    forall c: Config, a :: c in fws && StartRule(g, c) && a in fws[c] ==> a == 0
  }

  // FindLinks and FindFollowSets on the finished automaton
  method FollowOfAutomaton(g: Grammar, an: Analysis, states: seq<State>) returns (fws: FollowSets)
    requires Inv(g, an, states, {}) && Terminals(g, an.first) && StartNotOnRhs(g)
    ensures FollowSolution(states, fws) && StartFollowsEnd(g, fws)
  {
    var order, links, init := FindLinks(g, an, states);
    InitIsTerminals(g, an, states, init);
    EdgesStayInside(g, an, states);
    LinksAreWellFormed(states, order, links, init, g.nterminal);
    fws := FindFollowSets(order, links, init, g.nterminal);
    forall c: Config, a | c in fws ensures a in fws[c] <==> FollowReason(states, c, a) {
      ComesFromIsReason(states, links, init, c, a);
    }
    forall c: Config, a | c in fws && StartRule(g, c) && a in fws[c] ensures a == 0 {
      StartRulesEndInput(g, an, states, links, init, c, a);
    }
  }

  lemma LinksAreWellFormed(states: seq<State>, order: seq<Config>, links: LinkMap<Config>, init: Sets<Config>, size: nat)
    requires forall c: Config :: c in order <==> IsConfig(states, c)
    requires forall c: Config :: c in links <==> IsConfig(states, c)
    requires forall c: Config, d: Config :: Linked(links, c, d) <==> Edge(states, c, d)
    requires forall c: Config, d: Config :: Edge(states, c, d) ==> IsConfig(states, c) && IsConfig(states, d)
    requires init.Keys == links.Keys && forall c: Config, a :: c in init && a in init[c] ==> a < size
    ensures WellLinked(order, links, init, size)
  {
    forall c: Config, j | c in links && 0 <= j < |links[c]| ensures links[c][j] in links {
      assert Linked(links, c, links[c][j]);
    }
  }

  // CompressTables
  method CompressTables(g: Grammar, ap: seq<seq<Action>>) returns (ap': seq<seq<Action>>)
    requires forall k :: 0 <= k < |ap| ==> OnePerSymbol(ap[k]) && InRange(g, |ap|, ap[k])
    ensures |ap'| == |ap| && forall k :: 0 <= k < |ap| ==> CompressedFrom(g, ap[k], ap'[k])
  {
    ap' := [];
    for k := 0 to |ap|
      invariant |ap'| == k && forall j :: 0 <= j < k ==> CompressedFrom(g, ap[j], ap'[j])
    {
      var l := Compress(g, ap[k]);
      ap' := ap' + [l];
    }
  }

  lemma CompressedIsGood(g: Grammar, l: seq<Action>, l': seq<Action>, num: seq<nat>, z: Sizes)
    requires CompressedFrom(g, l, l') && OnePerSymbol(l) && InRange(g, |num|, l) && z.nsymbol == g.nsymbol
    ensures GoodList(l', num, z) && forall i :: 0 <= i < |l'| ==> l'[i].sp <= g.nsymbol
  {
    forall i | 0 <= i < |l'|
      ensures l'[i].sp <= g.nsymbol && l'[i].kind != ERROR && (l'[i].kind == SHIFT ==> l'[i].x < |num|)
    {
      assert l'[i] in l';
    }
  }

  // ---------- Everything main computes, and what it means together ----------

  datatype Build = Build(
    states: seq<State>, fws: FollowSets, full: seq<seq<Action>>, lists: seq<seq<Action>>,
    order: seq<nat>, num: seq<nat>, offsets: Offsets,
    slots: seq<AT.Entry>, used: nat, placed: seq<AT.Placed>, t: Tables)

  function SizesOf(g: Grammar, n: nat): Sizes {
    Sizes(n, |g.rules|, g.nterminal, g.nsymbol)
  }

  ghost predicate GoodLists(g: Grammar, an: Analysis, b: Build) {
    && Inv(g, an, b.states, {}) && b.states != [] && StartNotOnRhs(g) && StartFollowsEnd(g, b.fws)
    && |b.full| == |b.lists| == |b.states|
    && (forall k :: 0 <= k < |b.states| ==>
          && GoodActions(g, b.states, b.fws, k, b.full[k]) && InRange(g, |b.states|, b.full[k])
          && CompressedFrom(g, b.full[k], b.lists[k]))
  }

  ghost predicate GoodTables(g: Grammar, b: Build) {
    var z := SizesOf(g, |b.states|);
    && TablesFrom(b.t, b.slots, b.used, b.lists, b.order, b.num, z, b.offsets)
    && b.t.nrule == |g.rules| == |b.t.ruleLhs| == |b.t.ruleSize|
    && (forall r :: 0 <= r < |g.rules| ==> b.t.ruleLhs[r] == g.rules[r].lhs && b.t.ruleSize[r] == |g.rules[r].rhs|)
    && AT.UsedSlots(b.slots, b.used)
    && (forall r :: 0 <= r < |b.placed| ==> AT.ValidRow(b.placed[r].row))
    && AllRecorded(b.placed, b.lists, 0, z.nterminal, b.num, z, b.offsets.tkn, b.offsets.mnTkn)
    && AllRecorded(b.placed, b.lists, z.nterminal, z.nsymbol, b.num, z, b.offsets.nt, b.offsets.mnNt)
    && (forall k :: 0 <= k < |b.lists| && CountEffective(b.lists[k], 0, z.nterminal) > 0 ==> k in b.offsets.tkn)
    && (forall k :: 0 <= k < |b.lists| && CountEffective(b.lists[k], z.nterminal, z.nsymbol) > 0 ==> k in b.offsets.nt)
  }

  ghost predicate Finished(g: Grammar, an: Analysis, b: Build) {
    GoodLists(g, an, b) && GoodTables(g, b) && |b.states| == |b.lists| && AT.AllHold(b.slots, b.placed)
  }

  // yy_find_shift_action on the packed tables, against the actions before compression: an effective
  // action is found under its code, whether it was stored or became the default.
  lemma ActionSurvivesPacking(g: Grammar, an: Analysis, b: Build, k: nat, x: Action)
    requires Finished(g, an, b) && k < |b.states| && x in b.full[k] && Effective(x) && x.sp < g.nterminal
    ensures b.num[k] < b.t.nstate && (x.kind == SHIFT ==> x.x < |b.num|)
    ensures b.t.FindShiftAction(b.num[k], x.sp) == Code(x, b.num, SizesOf(g, |b.states|))
  {
    hide *;
    StateFacts(g, an, b, k);
    TokenCode(g, an, b, k, x.sp);
    SurvivesCompression(g, b.full[k], b.lists[k], b.num, SizesOf(g, |b.states|), x, b.t.FindShiftAction(b.num[k], x.sp));
  }

  lemma StateFacts(g: Grammar, an: Analysis, b: Build, k: nat)
    requires Finished(g, an, b) && k < |b.states|
    ensures |b.full| == |b.lists| == |b.states| == |b.num| && b.t.Shaped() && b.num[k] < b.t.nstate
    ensures Inv(g, an, b.states, {}) && StartNotOnRhs(g) && GoodLists(g, an, b)
    ensures forall r :: 0 <= r < |g.rules| ==> g.rules[r].lhs >= g.nterminal
    ensures GoodActions(g, b.states, b.fws, k, b.full[k]) && OnePerSymbol(b.full[k])
    ensures InRange(g, |b.num|, b.full[k]) && CompressedFrom(g, b.full[k], b.lists[k])
    ensures GoodList(b.lists[k], b.num, SizesOf(g, |b.states|)) && SizesOf(g, |b.states|).nsymbol == g.nsymbol
    ensures SizesOf(g, |b.states|).nterminal == g.nterminal <= g.nsymbol
    ensures SizesOf(g, |b.states|).nstate == |b.states| && SizesOf(g, |b.states|).nrule == |g.rules|
  {
    hide CompressedFrom, InRange, AT.AllHold, AllRecorded, AT.UsedSlots;
  }

  // The packed tables give the code of a state's listed action on a token, or the default.
  lemma TokenCode(g: Grammar, an: Analysis, b: Build, k: nat, token: nat)
    requires Finished(g, an, b) && k < |b.states| && k < |b.num| && k < |b.lists| && token < g.nterminal <= g.nsymbol
    requires GoodList(b.lists[k], b.num, SizesOf(g, |b.states|)) && b.t.Shaped() && b.num[k] < b.t.nstate
    ensures IsCode(b.lists[k], b.num, SizesOf(g, |b.states|), token, b.t.FindShiftAction(b.num[k], token))
  {
    hide CompressedFrom, InRange, AT.AllHold, AllRecorded, AT.UsedSlots, GoodList, GoodLists, TablesFrom, IsDefault,
      Tables.FindShiftAction, Code, Effective;
    var z := SizesOf(g, |b.states|);
    TokenLookup(b.t, b.slots, b.used, b.placed, b.lists, b.order, b.num, z, b.offsets, k, token);
  }

  // The code of the action that a list has on a token, or of its default if it has none
  ghost predicate IsCode(l: seq<Action>, num: seq<nat>, z: Sizes, token: nat, code: int)
    requires GoodList(l, num, z)
  {
    && (forall i :: 0 <= i < |l| && l[i].sp == token && Effective(l[i]) ==> code == Code(l[i], num, z))
    && (!HasEffective(l, token) ==> IsDefault(l, num, z, code))
  }

  lemma SurvivesCompression(g: Grammar, l: seq<Action>, l': seq<Action>, num: seq<nat>, z: Sizes, x: Action, code: int)
    requires OnePerSymbol(l) && InRange(g, |num|, l) && CompressedFrom(g, l, l') && GoodList(l', num, z)
    requires z.nsymbol == g.nsymbol && x in l && Effective(x) && IsCode(l', num, z, x.sp, code)
    ensures code == Code(x, num, z) && (x.kind == SHIFT ==> x.x < |num|)
  {
    if r :| MostFrequent(g, l, r) && Defaulted(l, l', g.nsymbol, r) && IsReduce(x, r) {
      NoOtherOnSymbol(g, l, l', r, x);
      DefaultIsRule(l', num, z, r, code);
    } else {
      assert x in l';
      var i :| 0 <= i < |l'| && l'[i] == x;
    }
  }

  lemma NoneBecomesDefault(g: Grammar, l: seq<Action>, l': seq<Action>, num: seq<nat>, z: Sizes, token: nat, code: int)
    requires InRange(g, |num|, l) && CompressedFrom(g, l, l') && GoodList(l', num, z)
    requires z.nsymbol == g.nsymbol && token < g.nsymbol && !HasEffective(l, token) && IsCode(l', num, z, token, code)
    ensures code == z.nstate + z.nrule || (code >= z.nstate && MostFrequent(g, l, code - z.nstate))
  {
    hide MostFrequent;
    NoneIsAdded(g, l, l', token);
    if r :| MostFrequent(g, l, r) && Defaulted(l, l', g.nsymbol, r) {
      DefaultIsRule(l', num, z, r, code);
    } else {
      NothingAtDefault(g, l, num);
    }
  }

  lemma EffectiveMember(l: seq<Action>, symbol: nat)
    ensures HasEffective(l, symbol) <==> exists a :: a in l && a.sp == symbol && Effective(a)
  {
    if a :| a in l && a.sp == symbol && Effective(a) {
      var i :| 0 <= i < |l| && l[i] == a;
      assert HasEffective(l, symbol);
    }
    if HasEffective(l, symbol) {
      var i :| 0 <= i < |l| && l[i].sp == symbol && Effective(l[i]);
      assert l[i] in l;
    }
  }

  lemma NothingAtDefault(g: Grammar, l: seq<Action>, num: seq<nat>)
    requires InRange(g, |num|, l)
    ensures !HasEffective(l, g.nsymbol)
  {
    EffectiveMember(l, g.nsymbol);
  }

  // Compression gives no new action to a symbol of the grammar.
  lemma NoneIsAdded(g: Grammar, l: seq<Action>, l': seq<Action>, token: nat)
    requires CompressedFrom(g, l, l') && token < g.nsymbol && !HasEffective(l, token)
    ensures !HasEffective(l', token)
  {
    hide MostFrequent;
    EffectiveMember(l, token);
    EffectiveMember(l', token);
  }

  lemma NoOtherOnSymbol(g: Grammar, l: seq<Action>, l': seq<Action>, r: nat, x: Action)
    requires Defaulted(l, l', g.nsymbol, r) && OnePerSymbol(l) && x in l && IsReduce(x, r) && x.sp < g.nsymbol
    ensures !HasEffective(l', x.sp)
  {
    EffectiveMember(l', x.sp);
    if a :| a in l' && a.sp == x.sp && Effective(a) {
      OnlyOne(l, a, x);
    }
  }

  lemma OnlyOne(l: seq<Action>, a: Action, b: Action)
    requires OnePerSymbol(l) && b in l && Effective(b)
    ensures a in l && Effective(a) && a.sp == b.sp ==> a == b
  {
    if a in l && Effective(a) && a.sp == b.sp {
      var p :| 0 <= p < |l| && l[p] == a;
      var q :| 0 <= q < |l| && l[q] == b;
    }
  }

  lemma DefaultIsRule(l': seq<Action>, num: seq<nat>, z: Sizes, r: nat, d: int)
    requires GoodList(l', num, z) && Action(z.nsymbol, REDUCE, r) in l' && IsDefault(l', num, z, d)
    ensures d == r + z.nstate
  {
    var i :| 0 <= i < |l'| && l'[i] == Action(z.nsymbol, REDUCE, r);
    assert HasEffective(l', z.nsymbol);
  }

  // Where a state has no action on a token, the packed tables give the error action, or the reduce by
  // a most frequent rule that is not a start rule.
  lemma NoActionBecomesDefault(g: Grammar, an: Analysis, b: Build, k: nat, token: nat)
    requires Finished(g, an, b) && k < |b.states| && token < g.nterminal && !HasEffective(b.full[k], token)
    ensures b.num[k] < b.t.nstate
    ensures var code := b.t.FindShiftAction(b.num[k], token);
      || code == |b.states| + |g.rules|
      || (code >= |b.states| && MostFrequent(g, b.full[k], code - |b.states|))
  {
    hide *;
    StateFacts(g, an, b, k);
    TokenCode(g, an, b, k, token);
    NoneBecomesDefault(g, b.full[k], b.lists[k], b.num, SizesOf(g, |b.states|), token, b.t.FindShiftAction(b.num[k], token));
  }

  // The automaton under its final numbering
  ghost function FinalItemSets(b: Build): seq<set<Item>>
    requires |b.order| == |b.states| && forall i :: 0 <= i < |b.order| ==> b.order[i] < |b.states|
  {
    seq(|b.states|, i requires 0 <= i < |b.states| => Elements(b.states[b.order[i]].items))
  }

  lemma FinishedStates(g: Grammar, an: Analysis, b: Build)
    requires Finished(g, an, b)
    ensures Inv(g, an, b.states, {}) && Renumbering(|b.states|, b.order, b.num)
  {
    hide Inv;
  }

  // A shift of the automaton, under the final numbers, is a good move.
  lemma ShiftCodeIsGood(g: Grammar, an: Analysis, b: Build, k: nat, x: Action)
    requires Finished(g, an, b) && k < |b.states| && x.kind == SHIFT && (x.sp, x.x) in b.states[k].shifts
    ensures Renumbering(|b.states|, b.order, b.num) && x.x < |b.num|
    ensures GoodMove(g, FinalItemSets(b), b.num[k], x.sp, b.num[x.x])
    ensures x.sp != 0
  {
    hide Finished, Inv;
    FinishedStates(g, an, b);
    var j :| 0 <= j < |b.states[k].shifts| && b.states[k].shifts[j] == (x.sp, x.x);
    ShiftIsLink(g, an, b.states, k, j);
    ShiftIsNotOnEnd(g, an, b.states, k, j);
    assert b.order[b.num[k]] == k && b.order[b.num[x.x]] == x.x;
    assert b.order[0] == 0;
  }

  lemma ShiftIsNotOnEnd(g: Grammar, an: Analysis, states: seq<State>, k: nat, j: nat)
    requires Inv(g, an, states, {}) && k < |states| && j < |states[k].shifts|
    ensures states[k].shifts[j].0 != 0
  {
    var (symbol, target) := states[k].shifts[j];
    assert GoodShifts(g, states, k) && GoodShift(g, states, k, symbol, target);
    var it := states[target].basis[0];
    assert it in Elements(states[target].basis);
  }

  lemma EffectiveTokenAction(g: Grammar, an: Analysis, b: Build, k: nat, x: Action)
    requires Finished(g, an, b) && k < |b.states| && x in b.full[k] && Effective(x) && x.sp < g.nterminal
    ensures Renumbering(|b.states|, b.order, b.num) && b.num[k] < |b.states| && (x.kind == SHIFT ==> x.x < |b.num|)
    ensures GoodTokenAction(g, FinalItemSets(b), b.num[k], x.sp, Code(x, b.num, SizesOf(g, |b.states|)))
  {
    hide *;
    TokenActionKind(g, an, b, k, x);
    FinalItems(g, an, b, k);
    var z := SizesOf(g, |b.states|);
    if x.kind == SHIFT {
      ShiftCodeIsGood(g, an, b, k, x);
      MoveIsGood(g, FinalItemSets(b), b.num[k], x.sp, b.num[x.x]);
      ShiftCode(x, b.num, z);
    } else {
      ReduceIsGood(g, FinalItemSets(b), b.num[k], x.sp, x.x);
      ReduceCode(x, b.num, z);
    }
  }

  lemma TokenActionKind(g: Grammar, an: Analysis, b: Build, k: nat, x: Action)
    requires Finished(g, an, b) && k < |b.states| && x in b.full[k] && Effective(x) && x.sp < g.nterminal
    ensures x.kind == SHIFT ==> (x.sp, x.x) in b.states[k].shifts
    ensures x.kind != SHIFT ==>
      && x.kind == REDUCE && x.x < |g.rules| && Item(x.x, |g.rules[x.x].rhs|) in b.states[k].items
      && (g.rules[x.x].lhs == g.start ==> x.sp == 0)
  {
    assert Candidate(g, b.states, b.fws, k, x);
    if x.kind == REDUCE { CompletedItem(g, b, k, x); }
  }

  lemma ShiftCode(x: Action, num: seq<nat>, z: Sizes)
    requires x.kind == SHIFT && x.x < |num|
    ensures Code(x, num, z) == num[x.x]
  {
  }

  lemma MoveIsGood(g: Grammar, A: seq<set<Item>>, s: nat, token: nat, code: int)
    requires s < |A| && token != 0 && GoodMove(g, A, s, token, code)
    ensures GoodTokenAction(g, A, s, token, code)
  {
  }

  lemma ReduceCode(x: Action, num: seq<nat>, z: Sizes)
    requires x.kind == REDUCE
    ensures Code(x, num, z) == x.x + z.nstate
  {
  }

  lemma FinalItems(g: Grammar, an: Analysis, b: Build, k: nat)
    requires Finished(g, an, b) && k < |b.states|
    ensures Renumbering(|b.states|, b.order, b.num) && b.num[k] < |b.states| == |FinalItemSets(b)|
    ensures forall it :: it in FinalItemSets(b)[b.num[k]] <==> it in b.states[k].items
    ensures SizesOf(g, |b.states|).nstate == |b.states|
  {
    assert b.order[b.num[k]] == k;
  }

  lemma ReduceIsGood(g: Grammar, A: seq<set<Item>>, s: nat, token: nat, rule: nat)
    requires s < |A| && rule < |g.rules| && Item(rule, |g.rules[rule].rhs|) in A[s]
    requires g.rules[rule].lhs == g.start ==> token == 0
    ensures GoodTokenAction(g, A, s, token, rule + |A|)
  {
  }

  lemma ErrorIsGood(g: Grammar, A: seq<set<Item>>, s: nat, token: nat)
    requires s < |A|
    ensures GoodTokenAction(g, A, s, token, |A| + |g.rules|)
  {
  }

  // A reduce action is on a completed item of its state, and only on "$" for a start rule.
  lemma CompletedItem(g: Grammar, b: Build, k: nat, x: Action)
    requires k < |b.states| && x.kind == REDUCE && Candidate(g, b.states, b.fws, k, x) && StartFollowsEnd(g, b.fws)
    ensures x.x < |g.rules| && Item(x.x, |g.rules[x.x].rhs|) in b.states[k].items
    ensures g.rules[x.x].lhs == g.start ==> x.sp == 0
  {
    var c: Config := (k, Item(x.x, |g.rules[x.x].rhs|));
    assert c in b.fws && x.sp in b.fws[c];
    if g.rules[x.x].lhs == g.start { assert StartRule(g, c); }
  }

  lemma FrequentRuleIsCompleted(g: Grammar, an: Analysis, b: Build, k: nat, rule: nat)
    requires GoodLists(g, an, b) && k < |b.states| && MostFrequent(g, b.full[k], rule)
    ensures rule < |g.rules| && Item(rule, |g.rules[rule].rhs|) in b.states[k].items && g.rules[rule].lhs != g.start
  {
    var l := b.full[k];
    var i :| 0 <= i < |l| && MayDefault(g, l[i]) && l[i].x == rule;
    assert l[i] in l && Candidate(g, b.states, b.fws, k, l[i]);
  }

  lemma DefaultTokenAction(g: Grammar, an: Analysis, b: Build, k: nat, token: nat, code: int)
    requires Finished(g, an, b) && k < |b.states|
    requires code == |b.states| + |g.rules| || (code >= |b.states| && MostFrequent(g, b.full[k], code - |b.states|))
    ensures Renumbering(|b.states|, b.order, b.num) && b.num[k] < |b.states|
    ensures GoodTokenAction(g, FinalItemSets(b), b.num[k], token, code)
  {
    hide *;
    StateFacts(g, an, b, k);
    FinalItems(g, an, b, k);
    if code == |b.states| + |g.rules| {
      ErrorIsGood(g, FinalItemSets(b), b.num[k], token);
    } else {
      FrequentRuleIsCompleted(g, an, b, k, code - |b.states|);
      ReduceIsGood(g, FinalItemSets(b), b.num[k], token, code - |b.states|);
    }
  }

  lemma TokenActionIsGood(g: Grammar, an: Analysis, b: Build, k: nat, token: nat)
    requires Finished(g, an, b) && k < |b.states| && token < g.nterminal
    ensures Renumbering(|b.states|, b.order, b.num) && b.t.Shaped() && b.num[k] < b.t.nstate
    ensures GoodTokenAction(g, FinalItemSets(b), b.num[k], token, b.t.FindShiftAction(b.num[k], token))
  {
    hide *;
    StateFacts(g, an, b, k);
    EffectiveMember(b.full[k], token);
    if a :| a in b.full[k] && a.sp == token && Effective(a) {
      ActionSurvivesPacking(g, an, b, k, a);
      EffectiveTokenAction(g, an, b, k, a);
    } else {
      FinalItems(g, an, b, k);
      NoActionBecomesDefault(g, an, b, k, token);
      DefaultTokenAction(g, an, b, k, token, b.t.FindShiftAction(b.num[k], token));
    }
  }

  // The action of a state on the symbol of an item with its dot at the left end
  lemma GotoAction(g: Grammar, an: Analysis, b: Build, k: nat, it: Item) returns (a: Action)
    requires Finished(g, an, b) && k < |b.states| && it in b.states[k].items && it.dot == 0
    ensures ValidItem(g, it) && k < |b.full| && a in b.full[k] && Effective(a)
    ensures g.nterminal <= a.sp == g.rules[it.rule].lhs
    ensures if a.kind == SHIFT then (a.sp, a.x) in b.states[k].shifts else a.kind == ACCEPT && k == 0 && a.sp == g.start
  {
    hide *;
    StateFacts(g, an, b, k);
    StartedItemHasShift(g, an, b.states, k, it);
    a := GotoCandidate(g, b, k, g.rules[it.rule].lhs);
    StartedRule(g, it);
    GotosSurvive(g, an, b.states, b.fws, k, b.full[k], a);
  }

  lemma StartedRule(g: Grammar, it: Item)
    requires ValidItem(g, it) && forall r :: 0 <= r < |g.rules| ==> g.rules[r].lhs >= g.nterminal
    ensures it.rule < |g.rules| && g.rules[it.rule].lhs >= g.nterminal
  {
  }

  // The move of a state over a nonterminal
  lemma GotoCandidate(g: Grammar, b: Build, k: nat, x: nat) returns (a: Action)
    requires k < |b.states| && (HasShift(b.states[k], x) || (k == 0 && x == g.start))
    ensures Candidate(g, b.states, b.fws, k, a) && a.sp == x
    ensures if a.kind == SHIFT then (a.sp, a.x) in b.states[k].shifts else a.kind == ACCEPT && k == 0 && a.sp == g.start
  {
    if j :| 0 <= j < |b.states[k].shifts| && b.states[k].shifts[j].0 == x {
      a := Action(x, SHIFT, b.states[k].shifts[j].1);
      assert b.states[k].shifts[j] == (a.sp, a.x);
    } else {
      a := Action(x, ACCEPT, 0);
    }
  }

  lemma StaysInList(g: Grammar, l: seq<Action>, l': seq<Action>, a: Action)
    requires CompressedFrom(g, l, l') && a in l && a.kind != REDUCE
    ensures a in l'
  {
    hide MostFrequent;
  }

  // yy_find_reduce_action on the packed tables: every move over a nonterminal is found under its code.
  lemma GotoSurvivesPacking(g: Grammar, an: Analysis, b: Build, k: nat, a: Action)
    requires Finished(g, an, b) && k < |b.states| && a in b.full[k] && Effective(a) && g.nterminal <= a.sp
    ensures b.t.Shaped() && b.num[k] < b.t.nstate && (a.kind == SHIFT ==> a.x < |b.num|)
    ensures b.t.ReduceDefined(b.num[k], a.sp)
    ensures b.t.FindReduceAction(b.num[k], a.sp) == Code(a, b.num, SizesOf(g, |b.states|))
  {
    hide *;
    StateFacts(g, an, b, k);
    NonterminalAction(g, b, k, a);
    StaysInList(g, b.full[k], b.lists[k], a);
    GotoCode(g, an, b, k, a);
  }

  lemma NonterminalAction(g: Grammar, b: Build, k: nat, a: Action)
    requires k < |b.states| == |b.full| && GoodActions(g, b.states, b.fws, k, b.full[k]) && InRange(g, |b.num|, b.full[k])
    requires a in b.full[k] && Effective(a) && g.nterminal <= a.sp
    ensures a.kind != REDUCE && a.sp < g.nsymbol && (a.kind == SHIFT ==> a.x < |b.num|)
  {
  }

  // The packed tables give the code of a state's listed action on a nonterminal.
  lemma GotoCode(g: Grammar, an: Analysis, b: Build, k: nat, a: Action)
    requires Finished(g, an, b) && k < |b.states| && k < |b.num| && k < |b.lists| && b.t.Shaped() && b.num[k] < b.t.nstate
    requires a in b.lists[k] && Effective(a) && g.nterminal <= a.sp < g.nsymbol && (a.kind == SHIFT ==> a.x < |b.num|)
    ensures b.t.ReduceDefined(b.num[k], a.sp)
    ensures b.t.FindReduceAction(b.num[k], a.sp) == Code(a, b.num, SizesOf(g, |b.states|))
  {
    hide CompressedFrom, InRange, AT.AllHold, AllRecorded, AT.UsedSlots, GoodList, GoodLists, TablesFrom,
      Tables.FindReduceAction, Tables.ReduceDefined, Code, Effective;
    var i :| 0 <= i < |b.lists[k]| && b.lists[k][i] == a;
    var z := SizesOf(g, |b.states|);
    GotoLookup(b.t, b.slots, b.used, b.placed, b.lists, b.order, b.num, z, b.offsets, k, i);
  }

  lemma GotoIsGood(g: Grammar, an: Analysis, b: Build, k: nat, it: Item)
    requires Finished(g, an, b) && k < |b.states| && it in b.states[k].items && it.dot == 0
    ensures Renumbering(|b.states|, b.order, b.num) && b.t.Shaped() && ValidItem(g, it)
    ensures b.t.ReduceDefined(b.num[k], g.rules[it.rule].lhs)
    ensures var lhs := g.rules[it.rule].lhs;
      GoodGoto(g, FinalItemSets(b), b.num[k], lhs, b.t.FindReduceAction(b.num[k], lhs))
  {
    hide *;
    var a := GotoAction(g, an, b, k, it);
    GotoSurvivesPacking(g, an, b, k, a);
    FinishedStates(g, an, b);
    FinalItems(g, an, b, k);
    var z := SizesOf(g, |b.states|);
    if a.kind == SHIFT {
      ShiftCodeIsGood(g, an, b, k, a);
      ShiftCode(a, b.num, z);
      MoveIsGoto(g, FinalItemSets(b), b.num[k], a.sp, b.num[a.x]);
    } else {
      AcceptCode(g, b, a);
    }
  }

  lemma MoveIsGoto(g: Grammar, A: seq<set<Item>>, s: nat, lhs: nat, code: int)
    requires GoodMove(g, A, s, lhs, code)
    ensures GoodGoto(g, A, s, lhs, code)
  {
  }

  lemma AcceptCode(g: Grammar, b: Build, a: Action)
    requires a.kind == ACCEPT && a.sp == g.start && Renumbering(|b.states|, b.order, b.num) && |b.states| > 0
    ensures b.num[0] == 0
    ensures GoodGoto(g, FinalItemSets(b), 0, g.start, Code(a, b.num, SizesOf(g, |b.states|)))
  {
    assert b.order[0] == 0 && b.order[b.num[0]] == 0;
  }

  // ---------- The packed tables against the action lists of all states ----------

  // The tables answer the symbol of an action with its code.
  ghost predicate Gives(g: Grammar, t: Tables, num: seq<nat>, z: Sizes, s: nat, a: Action)
    requires t.Shaped() && s < t.nstate
  {
    && (a.kind == SHIFT ==> a.x < |num|)
    && if a.sp < g.nterminal then t.FindShiftAction(s, a.sp) == Code(a, num, z)
       else t.ReduceDefined(s, a.sp) && t.FindReduceAction(s, a.sp) == Code(a, num, z)
  }

  // What they answer a token that has no action: an error, or the reduce by a most frequent rule that
  // is not a start rule
  ghost predicate GivesDefault(g: Grammar, t: Tables, l: seq<Action>, s: nat, token: nat)
    requires t.Shaped() && s < t.nstate
  {
    var code := t.FindShiftAction(s, token);
    code == t.ErrorAction() || (t.nstate <= code < t.ErrorAction() && MostFrequent(g, l, code - t.nstate))
  }

  ghost predicate StateAnswers(g: Grammar, t: Tables, l: seq<Action>, num: seq<nat>, z: Sizes, s: nat)
    requires t.Shaped() && s < t.nstate
  {
    && (forall a :: a in l && Effective(a) ==> Gives(g, t, num, z, s, a))
    && (forall token :: 0 <= token < g.nterminal && !HasEffective(l, token) ==> GivesDefault(g, t, l, s, token))
  }

  // Every state, under its new number, answers with the actions FindActions left it.
  ghost predicate TablesAnswer(g: Grammar, b: Build) {
    && |b.full| == |b.num| == |b.states| == b.t.nstate && b.t.Shaped()
    && forall k :: 0 <= k < |b.states| ==>
         b.num[k] < b.t.nstate && StateAnswers(g, b.t, b.full[k], b.num, SizesOf(g, |b.states|), b.num[k])
  }

  lemma TablesDoAnswer(g: Grammar, an: Analysis, b: Build)
    requires Finished(g, an, b)
    ensures TablesAnswer(g, b)
  {
    hide *;
    AllSizes(g, an, b);
    forall k | 0 <= k < |b.states|
      ensures b.num[k] < b.t.nstate && StateAnswers(g, b.t, b.full[k], b.num, SizesOf(g, |b.states|), b.num[k])
    {
      StateDoesAnswer(g, an, b, k);
    }
    AllAnswer(g, b);
  }

  lemma AllSizes(g: Grammar, an: Analysis, b: Build)
    requires Finished(g, an, b)
    ensures |b.full| == |b.num| == |b.states| == b.t.nstate && b.t.Shaped() && b.t.nrule == |g.rules|
  {
  }

  lemma AllAnswer(g: Grammar, b: Build)
    requires |b.full| == |b.num| == |b.states| == b.t.nstate && b.t.Shaped()
    requires forall k :: 0 <= k < |b.states| ==>
      b.num[k] < b.t.nstate && StateAnswers(g, b.t, b.full[k], b.num, SizesOf(g, |b.states|), b.num[k])
    ensures TablesAnswer(g, b)
  {
    hide StateAnswers, Tables.Shaped;
  }

  lemma StateDoesAnswer(g: Grammar, an: Analysis, b: Build, k: nat)
    requires Finished(g, an, b) && k < |b.states|
    ensures |b.full| == |b.num| == |b.states| && b.t.Shaped() && b.num[k] < b.t.nstate
    ensures StateAnswers(g, b.t, b.full[k], b.num, SizesOf(g, |b.states|), b.num[k])
  {
    hide Finished, Tables.Shaped, Effective, MostFrequent, SizesOf, Gives, GivesDefault;
    AllSizes(g, an, b);
    StateFacts(g, an, b, k);
    forall a | a in b.full[k] && Effective(a)
      ensures Gives(g, b.t, b.num, SizesOf(g, |b.states|), b.num[k], a)
    {
      ActionAnswered(g, an, b, k, a);
    }
    forall token | 0 <= token < g.nterminal && !HasEffective(b.full[k], token)
      ensures GivesDefault(g, b.t, b.full[k], b.num[k], token)
    {
      DefaultAnswered(g, an, b, k, token);
    }
  }

  lemma ActionAnswered(g: Grammar, an: Analysis, b: Build, k: nat, a: Action)
    requires Finished(g, an, b) && k < |b.states| && a in b.full[k] && Effective(a)
    ensures b.t.Shaped() && b.num[k] < b.t.nstate
    ensures Gives(g, b.t, b.num, SizesOf(g, |b.states|), b.num[k], a)
  {
    hide Finished, Effective, SizesOf, Code, Tables.Shaped, Tables.FindShiftAction, Tables.FindReduceAction,
      Tables.ReduceDefined;
    StateFacts(g, an, b, k);
    if a.sp < g.nterminal { ActionSurvivesPacking(g, an, b, k, a); } else { GotoSurvivesPacking(g, an, b, k, a); }
  }

  lemma DefaultAnswered(g: Grammar, an: Analysis, b: Build, k: nat, token: nat)
    requires Finished(g, an, b) && k < |b.states| && token < g.nterminal && !HasEffective(b.full[k], token)
    ensures b.t.Shaped() && b.num[k] < b.t.nstate && GivesDefault(g, b.t, b.full[k], b.num[k], token)
  {
    hide Finished, Tables.Shaped, MostFrequent, Tables.FindShiftAction;
    AllSizes(g, an, b);
    StateFacts(g, an, b, k);
    NoActionBecomesDefault(g, an, b, k, token);
    if b.t.FindShiftAction(b.num[k], token) != b.t.ErrorAction() {
      FrequentRuleIsCompleted(g, an, b, k, b.t.FindShiftAction(b.num[k], token) - |b.states|);
    }
  }

  // The tables LEMON writes are sound for the automaton it built.
  lemma TablesAreSound(g: Grammar, an: Analysis, b: Build)
    requires Finished(g, an, b)
    ensures Renumbering(|b.states|, b.order, b.num)
    ensures Sound(g, FinalItemSets(b), b.t)
  {
    var A: seq<set<Item>> := FinalItemSets(b);
    ItemSetsAreGood(g, an, b.states);
    assert b.order[0] == 0;
    assert GoodAutomaton(g, A) by {
      forall s, it: Item | 0 <= s < |A| && it in A[s] ensures ValidItem(g, it) {
        assert it in ItemSets(b.states)[b.order[s]];
      }
      forall it: Item | it in A[0] ensures it.dot == 0 {
        assert it in ItemSets(b.states)[0];
      }
    }
    forall s, token | 0 <= s < |A| && 0 <= token < g.nterminal
      ensures GoodTokenAction(g, A, s, token, b.t.FindShiftAction(s, token))
    {
      TokenActionIsGood(g, an, b, b.order[s], token);
    }
    forall s, it: Item | 0 <= s < |A| && it in A[s] && it.dot == 0 && ValidItem(g, it)
      ensures b.t.ReduceDefined(s, g.rules[it.rule].lhs)
      ensures GoodGoto(g, A, s, g.rules[it.rule].lhs, b.t.FindReduceAction(s, g.rules[it.rule].lhs))
    {
      GotoIsGood(g, an, b, b.order[s], it);
    }
  }

  // What main computes before it packs: lambda flags, least FIRST sets, states that start from the start
  // symbol and are all reached, exact follow sets, and lists in which exactly the winner of every
  // conflict has an effect.
  ghost predicate Analysed(g: Grammar, p: Precedence, an: Analysis, b: Build) {
    && AnalysisFor(g, an) && LeastFirst(g, an)
    && (forall x :: 0 <= x < g.nsymbol ==> (an.lambda[x] <==> HasEmptyRule(g, x)))
    && b.states != [] && (forall it :: it in b.states[0].basis <==> it in Expansion(g, g.start, |g.rules|))
    && (forall k: nat :: k < |b.states| ==> Reachable(b.states, k))
    && FollowSolution(b.states, b.fws)
    && |b.full| == |b.states|
    && forall k :: 0 <= k < |b.states| ==> Resolved(g, b.states, b.fws, k, p, b.full[k])
  }

  // No action met another one on its symbol, so none was marked as the loser of a conflict.
  predicate AllEffective(full: seq<seq<Action>>) {
    forall k, i :: 0 <= k < |full| && 0 <= i < |full[k]| ==> Effective(full[k][i])
  }

  // How often the symbol occurs on right-hand sides
  function OnRhs(rules: seq<Rule>, symbol: nat): nat {
    if |rules| == 0 then 0 else OnRhs(rules[..|rules| - 1], symbol) + multiset(rules[|rules| - 1].rhs)[symbol]
  }

  lemma {:induction false} NotOnRhs(rules: seq<Rule>, symbol: nat)
    ensures OnRhs(rules, symbol) == 0 <==>
            forall r, j :: 0 <= r < |rules| && 0 <= j < |rules[r].rhs| ==> rules[r].rhs[j] != symbol
  {
    if |rules| > 0 {
      var rest, rhs := rules[..|rules| - 1], rules[|rules| - 1].rhs;
      NotOnRhs(rest, symbol);
      assert multiset(rhs)[symbol] == 0 <==> symbol !in rhs;
      if symbol !in rhs {
        assert forall r :: 0 <= r < |rest| ==> rest[r] == rules[r];
      } else {
        var j :| 0 <= j < |rhs| && rhs[j] == symbol;
        assert rules[|rules| - 1].rhs[j] == symbol;
      }
    }
  }

  // What FindStates checks first: an error for every place in which the start symbol is on a right-hand
  // side
  method CheckStart(g: Grammar) returns (errors: nat)
    ensures errors == OnRhs(g.rules, g.start) && (errors == 0 <==> StartNotOnRhs(g))
  {
    errors := 0;
    for r := 0 to |g.rules|
      invariant errors == OnRhs(g.rules[..r], g.start)
    {
      var rhs := g.rules[r].rhs;
      for i := 0 to |rhs|
        invariant errors == OnRhs(g.rules[..r], g.start) + multiset(rhs[..i])[g.start]
      {
        assert rhs[..i + 1] == rhs[..i] + [rhs[i]];
        if rhs[i] == g.start { errors := errors + 1; }
      }
      assert rhs[..|rhs|] == rhs && g.rules[..r + 1][..r] == g.rules[..r];
    }
    assert g.rules[..|g.rules|] == g.rules;
    NotOnRhs(g.rules, g.start);
  }

  // main: if the start symbol is on a right-hand side, errors are reported and the tables, which the code
  // still writes, are not modelled.  Otherwise, if every scan of the packing found an index, then no row
  // is lost; and then the tables answer for every state what its list of actions says, and they are sound
  // for the automaton.
  method Generate(g: Grammar, p: Precedence)
    returns (t: Tables, errors: nat, clean: bool, checked: bool,
             ghost A: seq<set<Item>>, ghost found: Analysis, ghost b: Build)
    requires WellFormed(g)
    ensures errors == OnRhs(g.rules, g.start) && (errors == 0 <==> StartNotOnRhs(g)) && (checked ==> errors == 0)
    ensures errors == 0 ==> Analysed(g, p, found, b) && GoodLists(g, found, b) && b.t == t
    ensures errors == 0 ==> (clean <==> AllEffective(b.full))
    ensures checked ==> AT.AllHold(b.slots, b.placed)
    ensures errors == 0 && AT.AllHold(b.slots, b.placed) ==> Finished(g, found, b) && TablesAnswer(g, b) && Sound(g, A, t)
  {
    var an := FindFirstSets(g);
    found := an;
    errors := CheckStart(g);
    if errors > 0 {
      t := Tables(0, 0, [], [], [], 0, [], 0, [], [], []);
      clean, checked, A := false, false, [];
      b := Build([], map[], [], [], [], [], Offsets(map[], 0, map[], 0), [], 0, [], t);
      return;
    }
    var builder := new Builder(g, an);
    builder.FindStates();
    var states := builder.states;
    var fws := FollowOfAutomaton(g, an, states);
    var full := FindActions(g, an, states, fws, p);
    A := [];
    clean := AllEffective(full);
    t, checked, b := Report(g, p, an, states, fws, full);
    if AT.AllHold(b.slots, b.placed) {
      TablesAreSound(g, an, b);
      TablesDoAnswer(g, an, b);
      A := FinalItemSets(b);
    }
  }

  // CompressTables, ResortStates and the table-writing part of ReportTable
  method Report(g: Grammar, p: Precedence, ghost an: Analysis, states: seq<State>, fws: FollowSets, full: seq<seq<Action>>)
    returns (t: Tables, checked: bool, ghost b: Build)
    requires Inv(g, an, states, {}) && states != [] && StartNotOnRhs(g) && StartFollowsEnd(g, fws)
    requires |full| == |states| && forall k :: 0 <= k < |states| ==> GoodActions(g, states, fws, k, full[k])
    ensures b.states == states && b.fws == fws && b.full == full && b.t == t
    ensures GoodLists(g, an, b)
    ensures checked ==> AT.AllHold(b.slots, b.placed)
    ensures AT.AllHold(b.slots, b.placed) ==> Finished(g, an, b)
  {
    forall k | 0 <= k < |states|
      ensures InRange(g, |states|, full[k])
    {
      GoodActionsInRange(g, an, states, fws, k, full[k]);
    }
    var lists := CompressTables(g, full);
    var z := SizesOf(g, |states|);
    var order, num := Resort(lists, g.nterminal, g.nsymbol);
    forall k | 0 <= k < |lists|
      ensures GoodList(lists[k], num, z) && forall i :: 0 <= i < |lists[k]| ==> lists[k][i].sp <= g.nsymbol
    {
      CompressedIsGood(g, full[k], lists[k], num, z);
    }
    var tab, offsets;
    tab, offsets, checked := PackAll(lists, num, z);
    var ruleLhs := seq(|g.rules|, r requires 0 <= r < |g.rules| => g.rules[r].lhs);
    var ruleSize := seq(|g.rules|, r requires 0 <= r < |g.rules| => |g.rules[r].rhs|);
    t := WriteTables(tab, lists, order, num, z, offsets, ruleLhs, ruleSize);
    b := Build(states, fws, full, lists, order, num, offsets, tab.aAction, tab.nAction, tab.placed, t);
  }
}
