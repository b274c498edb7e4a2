/**
 Context-free grammars and the meaning of a sentence, independent of any parser.

 Symbols are numbers: terminals first, then nonterminals.  Terminal 0 is the end-of-input token "$",
 which no rule mentions.
 */
module Grammars {

  datatype Rule = Rule(lhs: nat, rhs: seq<nat>)

  datatype Grammar = Grammar(nterminal: nat, nsymbol: nat, rules: seq<Rule>, start: nat)

  ghost predicate WellFormed(g: Grammar) {
    && 0 < g.nterminal <= g.start < g.nsymbol
    && (forall r :: 0 <= r < |g.rules| ==>
          && g.nterminal <= g.rules[r].lhs < g.nsymbol
          && forall j :: 0 <= j < |g.rules[r].rhs| ==> 0 < g.rules[r].rhs[j] < g.nsymbol)
  }

  // A derivation tree: every node is a rule applied to its children.
  datatype Tree = Leaf(token: nat) | Node(rule: nat, kids: seq<Tree>)

  ghost predicate Derivation(g: Grammar, t: Tree) {
    match t
    case Leaf(token) => token < g.nterminal
    case Node(rule, kids) =>
      && rule < |g.rules|
      && |kids| == |g.rules[rule].rhs|
      && (forall j :: 0 <= j < |kids| ==> Derivation(g, kids[j]) && Root(g, kids[j]) == g.rules[rule].rhs[j])
  }

  // The symbol a tree derives from
  ghost function Root(g: Grammar, t: Tree): nat {
    match t
    case Leaf(token) => token
    case Node(rule, _) => if rule < |g.rules| then g.rules[rule].lhs else 0
  }

  ghost function Yield(t: Tree): seq<nat> {
    match t
    case Leaf(token) => [token]
    case Node(_, kids) => YieldAll(kids)
  }

  ghost function YieldAll(ts: seq<Tree>): seq<nat> {
    if |ts| == 0 then [] else YieldAll(ts[..|ts| - 1]) + Yield(ts[|ts| - 1])
  }

  // The token string can be derived from the start symbol.
  ghost predicate Sentence(g: Grammar, w: seq<nat>) {
    exists t :: Derivation(g, t) && Root(g, t) == g.start && Yield(t) == w
  }

  // The symbol derives the empty string.
  ghost predicate Nullable(g: Grammar, symbol: nat) {
    exists t :: Derivation(g, t) && Root(g, t) == symbol && Yield(t) == []
  }

  lemma YieldOfOne(t: Tree)
    ensures YieldAll([t]) == Yield(t)
  {
    assert [t][..0] == [];
  }

  lemma {:induction false} YieldAllConcat(a: seq<Tree>, b: seq<Tree>)
    ensures YieldAll(a + b) == YieldAll(a) + YieldAll(b)
  {
    if |b| == 0 {
      assert a + b == a;
    } else {
      YieldAllConcat(a, b[..|b| - 1]);
      assert (a + b)[..|a + b| - 1] == a + b[..|b| - 1];
    }
  }
}

/** LR(0) items and automata: what a parser's state numbers stand for. */
module Automata {
  import opened Grammars

  // A rule with a mark (dot) showing how much of it has been recognised
  datatype Item = Item(rule: nat, dot: nat)

  ghost predicate ValidItem(g: Grammar, it: Item) {
    it.rule < |g.rules| && it.dot <= |g.rules[it.rule].rhs|
  }

  // Moving from one state to the other over the symbol advances every item whose dot is not at the
  // left end of its rule.
  ghost predicate Link(g: Grammar, from: set<Item>, symbol: nat, to: set<Item>) {
    forall it :: it in to && it.dot > 0 ==>
      && ValidItem(g, it)
      && g.rules[it.rule].rhs[it.dot - 1] == symbol
      && Item(it.rule, it.dot - 1) in from
  }
}
