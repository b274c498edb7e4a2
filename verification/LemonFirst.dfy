/** FindFirstSets: the lambda flags and FIRST sets, by iteration to a fixpoint. */
module LemonFirst {
  import opened Grammars
  import opened LemonClosure

  // ---------- Lambda flags ----------

  ghost predicate HasEmptyRule(g: Grammar, symbol: nat) {
    exists r :: 0 <= r < |g.rules| && g.rules[r].lhs == symbol && g.rules[r].rhs == []
  }

  // The loop marks a rule's left-hand side when every right-hand symbol is a terminal that is marked.
  // Terminals are never marked, so only rules without right-hand symbols ever count.
  method FindLambdas(g: Grammar) returns (lambda: seq<bool>)
    requires WellFormed(g)
    ensures |lambda| == g.nsymbol
    ensures forall x :: 0 <= x < g.nsymbol ==> (lambda[x] <==> HasEmptyRule(g, x))
  {
    lambda := seq(g.nsymbol, _ => false);
    var progress := true;
    while progress
      invariant |lambda| == g.nsymbol
      invariant forall x :: 0 <= x < g.nsymbol && lambda[x] ==> x >= g.nterminal && HasEmptyRule(g, x)
      invariant !progress ==> forall r :: 0 <= r < |g.rules| && g.rules[r].rhs == [] ==> lambda[g.rules[r].lhs]
      decreases Unmarked(lambda), progress
    {
      progress := false;
      ghost var before := lambda;
      for q := 0 to |g.rules|
        invariant |lambda| == g.nsymbol
        invariant forall x :: 0 <= x < g.nsymbol && lambda[x] ==> x >= g.nterminal && HasEmptyRule(g, x)
        invariant forall r :: 0 <= r < q && g.rules[r].rhs == [] ==> lambda[g.rules[r].lhs]
        invariant if progress then Unmarked(lambda) < Unmarked(before) else lambda == before
      {
        var lhs, rhs := g.rules[q].lhs, g.rules[q].rhs;
        if lambda[lhs] { continue; }
        var i := MarkedTerminals(g, rhs, lambda);
        if i == |rhs| {
          assert rhs != [] ==> lambda[rhs[0]] && rhs[0] < g.nterminal;
          MarkOne(lambda, lhs);
          lambda, progress := lambda[lhs := true], true;
        }
      }
    }
  }

  // How many marked terminals the right-hand side begins with
  method MarkedTerminals(g: Grammar, rhs: seq<nat>, lambda: seq<bool>) returns (i: nat)
    requires forall j :: 0 <= j < |rhs| ==> rhs[j] < |lambda|
    ensures i <= |rhs| && forall j :: 0 <= j < i ==> rhs[j] < g.nterminal && lambda[rhs[j]]
    ensures i < |rhs| ==> !(rhs[i] < g.nterminal && lambda[rhs[i]])
  {
    i := 0;
    while i < |rhs| && rhs[i] < g.nterminal && lambda[rhs[i]]
      invariant i <= |rhs| && forall j :: 0 <= j < i ==> rhs[j] < g.nterminal && lambda[rhs[j]]
    {
      i := i + 1;
    }
  }

  ghost function Unmarked(lambda: seq<bool>): nat {
    if |lambda| == 0 then 0 else Unmarked(lambda[..|lambda| - 1]) + if lambda[|lambda| - 1] then 0 else 1
  }

  lemma {:induction false} MarkOne(lambda: seq<bool>, x: nat)
    requires x < |lambda| && !lambda[x]
    ensures Unmarked(lambda[x := true]) == Unmarked(lambda) - 1
  {
    var n := |lambda| - 1;
    var lambda' := lambda[x := true];
    if x == n {
      assert lambda'[..n] == lambda[..n];
    } else {
      MarkOne(lambda[..n], x);
      assert lambda'[..n] == lambda[..n][x := true];
    }
  }

  // A rule whose right-hand side is not empty but consists of marked nonterminals only, while its
  // left-hand side is not marked.
  ghost predicate HidesEmpty(g: Grammar, lambda: seq<bool>, r: nat)
    requires WellFormed(g) && |lambda| == g.nsymbol && r < |g.rules|
  {
    && !lambda[g.rules[r].lhs]
    && forall j :: 0 <= j < |g.rules[r].rhs| ==> lambda[g.rules[r].rhs[j]]
  }

  // The flags are exactly nullability if and only if no rule hides an empty derivation.
  lemma LambdaIsNullable(g: Grammar, lambda: seq<bool>)
    requires WellFormed(g) && |lambda| == g.nsymbol
    requires forall x :: 0 <= x < g.nsymbol ==> (lambda[x] <==> HasEmptyRule(g, x))
    ensures (forall x :: g.nterminal <= x < g.nsymbol ==> (lambda[x] <==> Nullable(g, x))) <==>
            (forall r :: 0 <= r < |g.rules| ==> !HidesEmpty(g, lambda, r))
  {
    forall x | 0 <= x < g.nsymbol && lambda[x] ensures Nullable(g, x) {
      EmptyRuleIsNullable(g, x);
    }
    if forall r :: 0 <= r < |g.rules| ==> !HidesEmpty(g, lambda, r) {
      forall x | g.nterminal <= x < g.nsymbol && Nullable(g, x) ensures lambda[x] {
        var t :| Derivation(g, t) && Root(g, t) == x && Yield(t) == [];
        EmptyTreeIsMarked(g, lambda, t);
      }
    }
    if r :| 0 <= r < |g.rules| && HidesEmpty(g, lambda, r) {
      HiddenIsNullable(g, lambda, r);
      assert !lambda[g.rules[r].lhs] && Nullable(g, g.rules[r].lhs);
    }
  }

  lemma EmptyRuleIsNullable(g: Grammar, x: nat)
    requires HasEmptyRule(g, x)
    ensures Nullable(g, x)
  {
    var r :| 0 <= r < |g.rules| && g.rules[r].lhs == x && g.rules[r].rhs == [];
    var t := Node(r, []);
    assert Derivation(g, t) && Root(g, t) == x && Yield(t) == [];
  }

  lemma {:induction false} EmptyYields(ts: seq<Tree>, j: nat)
    requires YieldAll(ts) == [] && j < |ts|
    ensures Yield(ts[j]) == []
  {
    if j < |ts| - 1 { EmptyYields(ts[..|ts| - 1], j); }
  }

  lemma {:induction false} EmptyTreeIsMarked(g: Grammar, lambda: seq<bool>, t: Tree)
    requires WellFormed(g) && |lambda| == g.nsymbol
    requires forall x :: 0 <= x < g.nsymbol ==> (lambda[x] <==> HasEmptyRule(g, x))
    requires forall r :: 0 <= r < |g.rules| ==> !HidesEmpty(g, lambda, r)
    requires Derivation(g, t) && Yield(t) == []
    ensures Root(g, t) < g.nsymbol && lambda[Root(g, t)]
  {
    var Node(rule, kids) := t;
    forall j | 0 <= j < |kids| ensures lambda[g.rules[rule].rhs[j]] {
      EmptyYields(kids, j);
      EmptyTreeIsMarked(g, lambda, kids[j]);
    }
    assert !HidesEmpty(g, lambda, rule);
  }

  lemma HiddenIsNullable(g: Grammar, lambda: seq<bool>, r: nat)
    requires WellFormed(g) && |lambda| == g.nsymbol && r < |g.rules| && HidesEmpty(g, lambda, r)
    requires forall x :: 0 <= x < g.nsymbol ==> (lambda[x] <==> HasEmptyRule(g, x))
    ensures Nullable(g, g.rules[r].lhs)
  {
    var kids := EmptyTrees(g, g.rules[r].rhs);
    var t := Node(r, kids);
    assert Derivation(g, t) && Yield(t) == [];
  }

  lemma {:induction false} EmptyTrees(g: Grammar, symbols: seq<nat>) returns (ts: seq<Tree>)
    requires forall j :: 0 <= j < |symbols| ==> HasEmptyRule(g, symbols[j])
    ensures |ts| == |symbols| && YieldAll(ts) == []
    ensures forall j :: 0 <= j < |ts| ==> Derivation(g, ts[j]) && Root(g, ts[j]) == symbols[j]
  {
    if |symbols| == 0 {
      ts := [];
    } else {
      var n := |symbols| - 1;
      var init := EmptyTrees(g, symbols[..n]);
      EmptyRuleIsNullable(g, symbols[n]);
      var t :| Derivation(g, t) && Root(g, t) == symbols[n] && Yield(t) == [];
      ts := init + [t];
      assert ts[..n] == init;
    }
  }

  // ---------- FIRST sets ----------

  // The sets satisfy the equation of every rule.
  ghost predicate FirstClosed(g: Grammar, an: Analysis) {
    && WellFormed(g) && AnalysisFor(g, an)
    && forall r :: 0 <= r < |g.rules| ==> FirstOfTail(g, an, g.rules[r].rhs) <= an.first[g.rules[r].lhs]
  }

  ghost predicate Below(g: Grammar, a: seq<set<nat>>, b: seq<set<nat>>) {
    |a| == |b| == g.nsymbol && forall x :: 0 <= x < g.nsymbol ==> a[x] <= b[x]
  }

  // Least among the closed assignments with the same flags: every terminal is there for a reason.
  ghost predicate LeastFirst(g: Grammar, an: Analysis) {
    && FirstClosed(g, an)
    && forall first' :: FirstClosed(g, Analysis(first', an.lambda)) ==> Below(g, an.first, first')
  }

  ghost predicate Terminals(g: Grammar, first: seq<set<nat>>) {
    forall x, a :: 0 <= x < |first| && a in first[x] ==> a < g.nterminal
  }

  ghost function UpTo(n: nat): (s: set<nat>)
    ensures forall a :: a in s <==> 0 <= a < n
  {
    if n == 0 then {} else UpTo(n - 1) + {n - 1}
  }

  // What is not in the sets yet; every round that makes progress leaves less.
  ghost function Missing(g: Grammar, first: seq<set<nat>>): nat {
    if |first| == 0 then 0
    else Missing(g, first[..|first| - 1]) + |UpTo(g.nterminal) - first[|first| - 1]|
  }

  lemma SmallerDifference(all: set<nat>, s: set<nat>, more: set<nat>)
    requires more <= all
    ensures |all - (s + more)| <= |all - s|
    ensures !(more <= s) ==> |all - (s + more)| < |all - s|
  {
    assert all - s == (all - (s + more)) + (more - s);
    if !(more <= s) {
      var a :| a in more && a !in s;
      assert a in more - s;
    }
  }

  lemma {:induction false} MissingShrinks(g: Grammar, first: seq<set<nat>>, x: nat, more: set<nat>)
    requires x < |first| && forall a :: a in more ==> a < g.nterminal
    ensures Missing(g, first[x := first[x] + more]) <= Missing(g, first)
    ensures !(more <= first[x]) ==> Missing(g, first[x := first[x] + more]) < Missing(g, first)
  {
    var n := |first| - 1;
    var first' := first[x := first[x] + more];
    if x == n {
      assert first'[..n] == first[..n];
      SmallerDifference(UpTo(g.nterminal), first[n], more);
    } else {
      MissingShrinks(g, first[..n], x, more);
      assert first'[..n] == first[..n][x := first[x] + more];
    }
  }

  lemma {:induction false} TailIsTerminals(g: Grammar, an: Analysis, tail: seq<nat>)
    requires AnalysisFor(g, an) && Terminals(g, an.first)
    requires forall j :: 0 <= j < |tail| ==> tail[j] < g.nsymbol
    ensures forall a :: a in FirstOfTail(g, an, tail) ==> a < g.nterminal
  {
    if |tail| > 0 { TailIsTerminals(g, an, tail[1..]); }
  }

  lemma {:induction false} TailIsMonotone(g: Grammar, an: Analysis, first': seq<set<nat>>, tail: seq<nat>)
    requires AnalysisFor(g, an) && Below(g, an.first, first')
    requires forall j :: 0 <= j < |tail| ==> tail[j] < g.nsymbol
    ensures FirstOfTail(g, an, tail) <= FirstOfTail(g, Analysis(first', an.lambda), tail)
  {
    if |tail| > 0 { TailIsMonotone(g, an, first', tail[1..]); }
  }

  // The scan of one rule adds what can start its right-hand side to the set of its left-hand side,
  // although that set may itself be read during the scan.
  method ScanRule(g: Grammar, an: Analysis, r: nat) returns (first: seq<set<nat>>, change: bool)
    requires WellFormed(g) && AnalysisFor(g, an) && r < |g.rules|
    ensures var lhs := g.rules[r].lhs; var more := FirstOfTail(g, an, g.rules[r].rhs);
      && first == an.first[lhs := an.first[lhs] + more]
      && (change <==> !(more <= an.first[lhs]))
    ensures !change ==> first == an.first
  {
    var s1, rhs := g.rules[r].lhs, g.rules[r].rhs;
    first, change := an.first, false;
    var i := 0;
    ghost var seen: set<nat> := {};
    while i < |rhs|
      invariant i <= |rhs|
      invariant FirstOfTail(g, an, rhs) == seen + FirstOfTail(g, an, rhs[i..])
      invariant |first| == |an.first| && first[s1] == an.first[s1] + seen
      invariant forall x :: 0 <= x < |first| && x != s1 ==> first[x] == an.first[x]
      invariant change <==> !(seen <= an.first[s1])
    {
      var s2 := rhs[i];
      assert rhs[i..][1..] == rhs[i + 1..];
      if s2 < g.nterminal {
        change := change || s2 !in first[s1];
        first, seen := first[s1 := first[s1] + {s2}], seen + {s2};
        break;
      } else if s1 == s2 {
        seen := seen + an.first[s2];
        if !an.lambda[s1] { break; }
      } else {
        change := change || !(first[s2] <= first[s1]);
        first, seen := first[s1 := first[s1] + first[s2]], seen + an.first[s2];
        if !an.lambda[s2] { break; }
      }
      i := i + 1;
    }
    assert seen == FirstOfTail(g, an, rhs);
    assert first[s1] == an.first[s1] + seen;
    assert first == an.first[s1 := an.first[s1] + seen];
    if !change { assert an.first[s1] + seen == an.first[s1]; }
  }

  // FindFirstSets
  method FindFirstSets(g: Grammar) returns (an: Analysis)
    requires WellFormed(g)
    ensures AnalysisFor(g, an) && LeastFirst(g, an) && Terminals(g, an.first)
    ensures forall x :: 0 <= x < g.nsymbol ==> (an.lambda[x] <==> HasEmptyRule(g, x))
  {
    var lambda := FindLambdas(g);
    var first: seq<set<nat>> := seq(g.nsymbol, _ => {});
    var progress := true;
    while progress
      invariant Growing(g, first, lambda)
      invariant !progress ==> FirstClosed(g, Analysis(first, lambda))
      decreases Missing(g, first), progress
    {
      ghost var before := first;
      first, progress := ScanRules(g, first, lambda);
    }
    an := Analysis(first, lambda);
  }

  // First sets of terminals that no closed family of sets leaves out anything of
  ghost predicate Growing(g: Grammar, first: seq<set<nat>>, lambda: seq<bool>)
    requires WellFormed(g)
  {
    && |first| == |lambda| == g.nsymbol && Terminals(g, first)
    && forall first' :: FirstClosed(g, Analysis(first', lambda)) ==> Below(g, first, first')
  }

  // One pass of FindFirstSets over all rules
  method ScanRules(g: Grammar, first0: seq<set<nat>>, lambda: seq<bool>) returns (first: seq<set<nat>>, progress: bool)
    requires WellFormed(g) && AnalysisFor(g, Analysis(first0, lambda)) && Growing(g, first0, lambda)
    ensures Growing(g, first, lambda) && AnalysisFor(g, Analysis(first, lambda))
    ensures if progress then Missing(g, first) < Missing(g, first0)
            else first == first0 && FirstClosed(g, Analysis(first, lambda))
  {
    hide Missing, FirstOfTail, Below, FirstClosed, Terminals;
    first, progress := first0, false;
    for r := 0 to |g.rules|
      invariant Growing(g, first, lambda) && AnalysisFor(g, Analysis(first, lambda))
      invariant if progress then Missing(g, first) < Missing(g, first0) else first == first0
      invariant !progress ==> forall q :: 0 <= q < r ==>
                  FirstOfTail(g, Analysis(first0, lambda), g.rules[q].rhs) <= first0[g.rules[q].lhs]
    {
      var an := Analysis(first, lambda);
      var change;
      TailIsTerminals(g, an, g.rules[r].rhs);
      MissingShrinks(g, first, g.rules[r].lhs, FirstOfTail(g, an, g.rules[r].rhs));
      StepStaysBelow(g, an, r);
      StepKeepsTerminals(g, first, g.rules[r].lhs, FirstOfTail(g, an, g.rules[r].rhs));
      first, change := ScanRule(g, an, r);
      progress := progress || change;
    }
    PassIsClosed(g, Analysis(first0, lambda));
  }

  lemma StepKeepsTerminals(g: Grammar, first: seq<set<nat>>, x: nat, more: set<nat>)
    requires Terminals(g, first) && x < |first| && forall a :: a in more ==> a < g.nterminal
    ensures Terminals(g, first[x := first[x] + more])
  {
  }

  // A pass that changes nothing has found closed sets.
  lemma PassIsClosed(g: Grammar, an: Analysis)
    requires WellFormed(g) && AnalysisFor(g, an)
    ensures (forall q :: 0 <= q < |g.rules| ==> FirstOfTail(g, an, g.rules[q].rhs) <= an.first[g.rules[q].lhs])
      ==> FirstClosed(g, an)
  {
  }

  lemma StepStaysBelow(g: Grammar, an: Analysis, r: nat)
    requires WellFormed(g) && AnalysisFor(g, an) && r < |g.rules|
    requires forall first' :: FirstClosed(g, Analysis(first', an.lambda)) ==> Below(g, an.first, first')
    ensures forall first' :: FirstClosed(g, Analysis(first', an.lambda)) ==>
              Below(g, an.first[g.rules[r].lhs := an.first[g.rules[r].lhs] + FirstOfTail(g, an, g.rules[r].rhs)], first')
  {
    forall first' | FirstClosed(g, Analysis(first', an.lambda))
      ensures Below(g, an.first[g.rules[r].lhs := an.first[g.rules[r].lhs] + FirstOfTail(g, an, g.rules[r].rhs)], first')
    {
      TailIsMonotone(g, an, first', g.rules[r].rhs);
    }
  }

  // ---------- What the sets mean ----------

  lemma {:induction false} YieldStart(ts: seq<Tree>)
    requires |ts| > 0
    ensures YieldAll(ts) == Yield(ts[0]) + YieldAll(ts[1..])
  {
    assert ts == [ts[0]] + ts[1..];
    YieldAllConcat([ts[0]], ts[1..]);
    assert YieldAll([ts[0]]) == Yield(ts[0]) by { assert [ts[0]][..0] == []; }
  }

  // When the flags are exact, the FIRST set of a symbol has the first token of everything the symbol
  // derives.
  lemma {:induction false} FirstCoversTrees(g: Grammar, an: Analysis, t: Tree)
    requires FirstClosed(g, an) && Derivation(g, t) && t.Node? && Yield(t) != []
    requires forall x :: g.nterminal <= x < g.nsymbol && Nullable(g, x) ==> an.lambda[x]
    ensures Yield(t)[0] in an.first[Root(g, t)]
    decreases t, 1
  {
    FirstCoversKids(g, an, t, 0);
  }

  lemma {:induction false} FirstCoversKids(g: Grammar, an: Analysis, t: Tree, i: nat)
    requires FirstClosed(g, an) && Derivation(g, t) && t.Node? && i <= |t.kids| && YieldAll(t.kids[i..]) != []
    requires forall x :: g.nterminal <= x < g.nsymbol && Nullable(g, x) ==> an.lambda[x]
    ensures YieldAll(t.kids[i..])[0] in FirstOfTail(g, an, g.rules[t.rule].rhs[i..])
    ensures i == 0 ==> YieldAll(t.kids)[0] in an.first[Root(g, t)]
    decreases t, 0, |t.kids| - i
  {
    var rhs := g.rules[t.rule].rhs;
    assert t.kids[0..] == t.kids && rhs[0..] == rhs;
    var kid := t.kids[i];
    YieldStart(t.kids[i..]);
    assert t.kids[i..][1..] == t.kids[i + 1..] && rhs[i..][1..] == rhs[i + 1..];
    if kid.Leaf? {
      assert Yield(kid) == [rhs[i]];
    } else if Yield(kid) != [] {
      FirstCoversTrees(g, an, kid);
    } else {
      assert Nullable(g, rhs[i]);
      FirstCoversKids(g, an, t, i + 1);
    }
  }

  // S ::= A x, A ::= B, B ::= .  The flag of A stays clear, so FIRST of S misses the terminal x.
  const HIDING := Grammar(2, 5, [Rule(2, [3, 1]), Rule(3, [4]), Rule(4, [])], 2)

  lemma FirstMissesHiddenStart(an: Analysis)
    requires LeastFirst(HIDING, an)
    requires forall x :: 0 <= x < 5 ==> (an.lambda[x] <==> HasEmptyRule(HIDING, x))
    ensures var t := Node(0, [Node(1, [Node(2, [])]), Leaf(1)]);
      && Derivation(HIDING, t) && Root(HIDING, t) == 2 && Yield(t) == [1]
      && 1 !in an.first[2]
      && HidesEmpty(HIDING, an.lambda, 1)
  {
    var none: seq<set<nat>> := [{}, {}, {}, {}, {}];
    var an' := Analysis(none, an.lambda);
    assert HIDING.rules[2] == Rule(4, []);
    assert !an.lambda[3] by { assert HIDING.rules[1].lhs == 3; }
    assert FirstOfTail(HIDING, an', [3, 1]) == {} && FirstOfTail(HIDING, an', [4]) == {} by {
      assert [4][1..] == [];
    }
    assert FirstClosed(HIDING, an');
    assert Below(HIDING, an.first, none);
    HidingTree();
  }

  lemma HidingTree()
    ensures var t := Node(0, [Node(1, [Node(2, [])]), Leaf(1)]);
      Derivation(HIDING, t) && Yield(t) == [1]
  {
    var b := Node(2, []);
    var a := Node(1, [b]);
    assert Derivation(HIDING, b) && Derivation(HIDING, a);
    YieldStart([b]);
    assert [b][1..] == [];
    YieldStart([a, Leaf(1)]);
    YieldStart([Leaf(1)]);
    assert [a, Leaf(1)][1..] == [Leaf(1)] && [Leaf(1)][1..] == [];
  }
}
