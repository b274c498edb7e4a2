/** How large a derivation tree can be, if no symbol derives itself. */
module TreeBounds {
  import opened Grammars

  // The number of nodes of a tree
  ghost function Size(tree: Tree): (n: nat)
    ensures n > 0
  {
    match tree
    case Leaf(_) => 1
    case Node(_, kids) => 1 + SizeAll(kids)
  }

  ghost function SizeAll(trees: seq<Tree>): (n: nat)
    ensures n >= |trees|
  {
    if |trees| == 0 then 0 else Size(trees[0]) + SizeAll(trees[1..])
  }

  ghost function Height(tree: Tree): nat {
    match tree
    case Leaf(_) => 0
    case Node(_, kids) => 1 + HeightAll(kids)
  }

  ghost function HeightAll(trees: seq<Tree>): nat {
    if |trees| == 0 then 0
    else if Height(trees[0]) >= HeightAll(trees[1..]) then Height(trees[0]) else HeightAll(trees[1..])
  }

  lemma {:induction false} SizeOfConcat(a: seq<Tree>, b: seq<Tree>)
    ensures SizeAll(a + b) == SizeAll(a) + SizeAll(b)
  {
    if |a| == 0 {
      assert a + b == b;
    } else {
      assert (a + b)[1..] == a[1..] + b;
      SizeOfConcat(a[1..], b);
    }
  }

  // ---------- Grammars in which no symbol derives itself ----------

  // A rule turns the symbol x into y, when everything else on its right-hand side derives nothing.
  ghost predicate Becomes(g: Grammar, x: nat, y: nat) {
    exists r, j :: BecomesBy(g, x, y, r, j)
  }

  ghost predicate BecomesBy(g: Grammar, x: nat, y: nat, r: nat, j: nat) {
    && r < |g.rules| && g.rules[r].lhs == x && j < |g.rules[r].rhs| && g.rules[r].rhs[j] == y
    && forall i :: 0 <= i < |g.rules[r].rhs| && i != j ==> Nullable(g, g.rules[r].rhs[i])
  }

  ghost predicate Chain(g: Grammar, p: seq<nat>) {
    forall i :: 0 <= i < |p| - 1 ==> Becomes(g, p[i], p[i + 1])
  }

  // No symbol derives itself in one or more steps.
  ghost predicate NoCycles(g: Grammar) {
    forall p :: Chain(g, p) && |p| > 1 ==> p[0] != p[|p| - 1]
  }

  lemma PartOfChain(g: Grammar, p: seq<nat>, i: nat, j: nat)
    requires Chain(g, p) && i <= j <= |p|
    ensures Chain(g, p[i..j])
  {
    var q := p[i..j];
    forall k | 0 <= k < |q| - 1
      ensures Becomes(g, q[k], q[k + 1])
    {
      assert Becomes(g, p[i + k], p[i + k + 1]);
    }
  }

  lemma ChainIsShort(g: Grammar, p: seq<nat>)
    requires NoCycles(g) && Chain(g, p) && forall i :: 0 <= i < |p| ==> p[i] < g.nsymbol
    ensures |p| <= g.nsymbol
  {
    forall i, j | 0 <= i < j < |p|
      ensures p[i] != p[j]
    {
      PartOfChain(g, p, i, j + 1);
      var q := p[i..j + 1];
      assert q[0] == p[i] && q[|q| - 1] == p[j];
    }
    Pigeonhole(p, g.nsymbol);
  }

  lemma {:induction false} Pigeonhole(p: seq<nat>, n: nat)
    requires forall i :: 0 <= i < |p| ==> p[i] < n
    requires forall i, j :: 0 <= i < j < |p| ==> p[i] != p[j]
    ensures |p| <= n
  {
    if |p| == 0 {
    } else if k :| 0 <= k < |p| && p[k] == n - 1 {
      var q := p[..k] + p[k + 1..];
      Pigeonhole(q, n - 1);
    } else {
      assert p[0] < n;
      Pigeonhole(p, n - 1);
    }
  }

  // ---------- Height ----------

  lemma {:induction false} KidIsInYield(kids: seq<Tree>, j: nat)
    requires j < |kids|
    ensures |Yield(kids[j])| <= |YieldAll(kids)|
    ensures |Yield(kids[j])| == |YieldAll(kids)| ==> forall i :: 0 <= i < |kids| && i != j ==> Yield(kids[i]) == []
  {
    var a, b := kids[..j], kids[j + 1..];
    assert kids == a + [kids[j]] + b;
    YieldAllConcat(a + [kids[j]], b);
    YieldAllConcat(a, [kids[j]]);
    assert [kids[j]][..0] == [] && YieldAll([kids[j]]) == Yield(kids[j]);
    if |Yield(kids[j])| == |YieldAll(kids)| {
      forall i | 0 <= i < |kids| && i != j
        ensures Yield(kids[i]) == []
      {
        if i < j { NothingYielded(a, i); } else { NothingYielded(b, i - j - 1); }
      }
    }
  }

  lemma {:induction false} NothingYielded(ts: seq<Tree>, j: nat)
    requires YieldAll(ts) == [] && j < |ts|
    ensures Yield(ts[j]) == []
  {
    if j < |ts| - 1 { NothingYielded(ts[..|ts| - 1], j); }
  }

  // A child with the whole yield of its node
  lemma OnlyChild(g: Grammar, tree: Tree, j: nat)
    requires Derivation(g, tree) && tree.Node? && j < |tree.kids| && |Yield(tree.kids[j])| == |Yield(tree)|
    ensures Becomes(g, Root(g, tree), Root(g, tree.kids[j]))
  {
    var rhs := g.rules[tree.rule].rhs;
    KidIsInYield(tree.kids, j);
    forall i | 0 <= i < |rhs| && i != j
      ensures Nullable(g, rhs[i])
    {
      assert Derivation(g, tree.kids[i]) && Root(g, tree.kids[i]) == rhs[i] && Yield(tree.kids[i]) == [];
    }
    assert BecomesBy(g, Root(g, tree), Root(g, tree.kids[j]), tree.rule, j);
  }

  // The height of a tree, from a chain of symbols that leads to its root
  lemma {:induction false} HeightIsBounded(g: Grammar, tree: Tree, p: seq<nat>)
    requires WellFormed(g) && NoCycles(g) && Derivation(g, tree) && tree.Node?
    requires |p| > 0 && Chain(g, p) && p[|p| - 1] == Root(g, tree) && forall i :: 0 <= i < |p| ==> p[i] < g.nsymbol
    ensures |p| <= g.nsymbol && Height(tree) <= |Yield(tree)| * g.nsymbol + g.nsymbol - |p| + 1
    decreases tree
  {
    ChainIsShort(g, p);
    var n := g.nsymbol;
    forall j | 0 <= j < |tree.kids|
      ensures Height(tree.kids[j]) <= |Yield(tree)| * n + n - |p|
    {
      var kid := tree.kids[j];
      assert Derivation(g, kid) && Root(g, kid) == g.rules[tree.rule].rhs[j];
      KidIsInYield(tree.kids, j);
      Multiples(|Yield(kid)|, |Yield(tree)|, n);
      if kid.Node? {
        if |Yield(kid)| == |Yield(tree)| {
          OnlyChild(g, tree, j);
          LongerChain(g, p, Root(g, kid));
          HeightIsBounded(g, kid, p + [Root(g, kid)]);
        } else {
          HeightIsBounded(g, kid, [Root(g, kid)]);
        }
      }
    }
    HighestKid(tree.kids, |Yield(tree)| * n + n - |p|);
  }

  lemma LongerChain(g: Grammar, p: seq<nat>, x: nat)
    requires |p| > 0 && Chain(g, p) && Becomes(g, p[|p| - 1], x)
    ensures Chain(g, p + [x])
  {
    forall i | 0 <= i < |p|
      ensures Becomes(g, (p + [x])[i], (p + [x])[i + 1])
    {
      if i < |p| - 1 { assert Becomes(g, p[i], p[i + 1]); }
    }
  }

  lemma Multiples(a: nat, b: nat, n: nat)
    ensures b * n >= 0 && (a < b ==> a * n + n <= b * n)
  {
    if a < b {
      Product(a + 1, n, b, n);
      assert (a + 1) * n == a * n + n;
    }
  }

  lemma {:induction false} HighestKid(trees: seq<Tree>, h: nat)
    requires forall j :: 0 <= j < |trees| ==> Height(trees[j]) <= h
    ensures HeightAll(trees) <= h
  {
    if |trees| > 0 { HighestKid(trees[1..], h); }
  }

  // ---------- Size ----------

  function Longest(rules: seq<Rule>): (n: nat)
    ensures forall r :: 0 <= r < |rules| ==> |rules[r].rhs| <= n
  {
    if |rules| == 0 then 0
    else
      assert rules == [rules[0]] + rules[1..];
      if |rules[0].rhs| >= Longest(rules[1..]) then |rules[0].rhs| else Longest(rules[1..])
  }

  // The size of a tree of the given height in which every node has as many children as possible
  function Most(b: nat, h: nat): (n: nat)
    ensures n > 0
  {
    if h == 0 then 1 else 1 + b * Most(b, h - 1)
  }

  lemma {:induction false} MostGrows(b: nat, h: nat, h': nat)
    requires h <= h'
    ensures Most(b, h) <= Most(b, h')
  {
    if h > 0 {
      MostGrows(b, h - 1, h' - 1);
      Product(b, Most(b, h - 1), b, Most(b, h' - 1));
    }
  }

  lemma Product(a: nat, b: nat, c: nat, d: nat)
    requires a <= c && b <= d
    ensures a * b <= c * d
  {
    assert c * d - a * b == (c - a) * d + a * (d - b);
  }

  lemma {:induction false} SizeByHeight(g: Grammar, tree: Tree)
    requires Derivation(g, tree)
    ensures Size(tree) <= Most(Longest(g.rules), Height(tree))
    decreases tree
  {
    if tree.Node? {
      var b, h := Longest(g.rules), HeightAll(tree.kids);
      HighKids(tree.kids);
      forall j | 0 <= j < |tree.kids|
        ensures Size(tree.kids[j]) <= Most(b, h)
      {
        SizeByHeight(g, tree.kids[j]);
        MostGrows(b, Height(tree.kids[j]), h);
      }
      SizeOfAll(tree.kids, Most(b, h));
      Product(|tree.kids|, Most(b, h), b, Most(b, h));
    }
  }

  lemma {:induction false} HighKids(trees: seq<Tree>)
    ensures forall j :: 0 <= j < |trees| ==> Height(trees[j]) <= HeightAll(trees)
  {
    if |trees| > 0 {
      HighKids(trees[1..]);
      forall j | 0 <= j < |trees|
        ensures Height(trees[j]) <= HeightAll(trees)
      {
        if j > 0 { assert trees[j] == trees[1..][j - 1]; }
      }
    }
  }

  lemma {:induction false} SizeOfAll(trees: seq<Tree>, m: nat)
    requires forall j :: 0 <= j < |trees| ==> Size(trees[j]) <= m
    ensures SizeAll(trees) <= |trees| * m
  {
    if |trees| > 0 { SizeOfAll(trees[1..], m); }
  }

  // More nodes than fewer than `depth` trees with `n` tokens between them can have
  function Rounds(g: Grammar, depth: nat, n: nat): nat {
    depth * Most(Longest(g.rules), (n + 1) * g.nsymbol)
  }

  lemma RoundsGrow(g: Grammar, depth: nat, n: nat, n': nat)
    requires n <= n'
    ensures Rounds(g, depth, n) <= Rounds(g, depth, n')
  {
    var b := Longest(g.rules);
    Product(n + 1, g.nsymbol, n' + 1, g.nsymbol);
    MostGrows(b, (n + 1) * g.nsymbol, (n' + 1) * g.nsymbol);
    Product(depth, Most(b, (n + 1) * g.nsymbol), depth, Most(b, (n' + 1) * g.nsymbol));
  }

  lemma ForestIsBounded(g: Grammar, trees: seq<Tree>, depth: nat)
    requires WellFormed(g) && NoCycles(g) && |trees| < depth
    requires forall j :: 0 <= j < |trees| ==> Derivation(g, trees[j])
    ensures SizeAll(trees) < Rounds(g, depth, |YieldAll(trees)|)
  {
    var b, h := Longest(g.rules), (|YieldAll(trees)| + 1) * g.nsymbol;
    forall j | 0 <= j < |trees|
      ensures Size(trees[j]) <= Most(b, h)
    {
      TreeIsBounded(g, trees, j);
      SizeByHeight(g, trees[j]);
      MostGrows(b, Height(trees[j]), h);
    }
    SizeOfAll(trees, Most(b, h));
    Product(|trees|, Most(b, h), depth - 1, Most(b, h));
    assert depth * Most(b, h) == (depth - 1) * Most(b, h) + Most(b, h);
  }

  lemma TreeIsBounded(g: Grammar, trees: seq<Tree>, j: nat)
    requires WellFormed(g) && NoCycles(g) && j < |trees| && Derivation(g, trees[j])
    ensures Height(trees[j]) <= (|YieldAll(trees)| + 1) * g.nsymbol
  {
    var tree, n := trees[j], g.nsymbol;
    KidIsInYield(trees, j);
    Product(|Yield(tree)|, n, |YieldAll(trees)|, n);
    assert (|YieldAll(trees)| + 1) * n == |YieldAll(trees)| * n + n;
    if tree.Node? { HeightIsBounded(g, tree, [Root(g, tree)]); }
  }

  lemma TreeIsSmall(g: Grammar, tree: Tree, depth: nat)
    requires WellFormed(g) && NoCycles(g) && depth > 0 && Derivation(g, tree)
    ensures Size(tree) <= Rounds(g, depth, |Yield(tree)|)
  {
    var b, h := Longest(g.rules), (|Yield(tree)| + 1) * g.nsymbol;
    assert YieldAll([tree]) == Yield(tree);
    TreeIsBounded(g, [tree], 0);
    SizeByHeight(g, tree);
    MostGrows(b, Height(tree), h);
    Product(1, Most(b, h), depth, Most(b, h));
  }
}
