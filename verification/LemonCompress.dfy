/** CompressTables: the most frequent reduce of a state becomes its default. */
module LemonCompress {
  import opened Grammars
  import opened LemonActions

  predicate IsReduce(a: Action, rule: nat) {
    a.kind == REDUCE && a.x == rule
  }

  // How many entries from index i on reduce by the rule
  ghost function CountReduces(l: seq<Action>, rule: nat, i: nat): nat
    requires i <= |l|
    decreases |l| - i
  {
    if i == |l| then 0 else CountReduces(l, rule, i + 1) + if IsReduce(l[i], rule) then 1 else 0
  }

  lemma {:induction false} NoneBefore(l: seq<Action>, rule: nat, i: nat, j: nat)
    requires i <= j <= |l|
    ensures CountReduces(l, rule, i) >= CountReduces(l, rule, j)
    ensures (forall k :: i <= k < j ==> !IsReduce(l[k], rule)) <==> CountReduces(l, rule, i) == CountReduces(l, rule, j)
    decreases j - i
  {
    if i < j { NoneBefore(l, rule, i + 1, j); }
  }

  // Reducing by a start rule is never made a default, so that parsing ends only on "$".
  predicate MayDefault(g: Grammar, a: Action) {
    a.kind == REDUCE && a.x < |g.rules| && g.rules[a.x].lhs != g.start
  }

  // The rule is a most frequent one among the rules that may become the default.
  ghost predicate MostFrequent(g: Grammar, l: seq<Action>, rule: nat) {
    && (exists i :: 0 <= i < |l| && MayDefault(g, l[i]) && l[i].x == rule)
    && forall i :: 0 <= i < |l| && MayDefault(g, l[i]) ==> CountReduces(l, l[i].x, 0) <= CountReduces(l, rule, 0)
  }

  method FindBest(g: Grammar, l: seq<Action>) returns (rbest: Opt)
    requires forall i :: 0 <= i < |l| && l[i].kind == REDUCE ==> l[i].x < |g.rules|
    ensures match rbest
            case No => forall i :: 0 <= i < |l| ==> !MayDefault(g, l[i])
            case Yes(r) => MostFrequent(g, l, r)
  {
    rbest := No;
    var nbest := 0;
    for i := 0 to |l|
      invariant match rbest
                case No => nbest == 0 && forall k :: 0 <= k < i ==> !MayDefault(g, l[k])
                case Yes(r) => nbest == CountReduces(l, r, 0) > 0 &&
                               exists k :: 0 <= k < i && MayDefault(g, l[k]) && l[k].x == r
      invariant forall k :: 0 <= k < i && MayDefault(g, l[k]) ==> CountReduces(l, l[k].x, 0) <= nbest
    {
      if l[i].kind != REDUCE || g.rules[l[i].x].lhs == g.start || rbest == Yes(l[i].x) { continue; }
      var rule := l[i].x;
      var n := 1;
      for k := i + 1 to |l|
        invariant n + CountReduces(l, rule, k) == CountReduces(l, rule, i)
      {
        if l[k].kind == REDUCE && rbest != Yes(l[k].x) && l[k].x == rule { n := n + 1; }
      }
      NoneBefore(l, rule, 0, i);
      if n > nbest { nbest, rbest := n, Yes(rule); }
    }
  }

  // What a list becomes when the rule is made its default: the first reduce moves to the {default}
  // symbol, the others are dropped, everything else stays.
  ghost predicate Defaulted(l: seq<Action>, l': seq<Action>, dflt: nat, rule: nat) {
    && Action(dflt, REDUCE, rule) in l'
    && (forall a :: a in l' ==>
          || a == Action(dflt, REDUCE, rule)
          || (a in l && !IsReduce(a, rule))
          || (a.kind == NOT_USED && Action(a.sp, REDUCE, rule) in l))
    && (forall a :: a in l && !IsReduce(a, rule) ==> a in l')
    && OnePerSymbol(l')
  }

  method MoveToDefault(l: seq<Action>, dflt: nat, rule: nat) returns (l': seq<Action>)
    requires OnePerSymbol(l) && forall i :: 0 <= i < |l| ==> l[i].sp < dflt
    requires exists i :: 0 <= i < |l| && IsReduce(l[i], rule)
    ensures Defaulted(l, l', dflt, rule)
  {
    var i := FirstReduce(l, rule);
    l' := l[i := l[i].(sp := dflt)];
    for k := i + 1 to |l|
      invariant |l'| == |l| && l'[i] == Action(dflt, REDUCE, rule)
      invariant forall q :: 0 <= q < |l| && q != i ==>
                  l'[q] == if i < q < k && IsReduce(l[q], rule) then l[q].(kind := NOT_USED) else l[q]
    {
      if IsReduce(l'[k], rule) { l' := l'[k := l'[k].(kind := NOT_USED)]; }
    }
    MovedIsDefaulted(l, l', dflt, rule, i);
  }

  method FirstReduce(l: seq<Action>, rule: nat) returns (i: nat)
    requires exists i :: 0 <= i < |l| && IsReduce(l[i], rule)
    ensures i < |l| && IsReduce(l[i], rule) && forall k :: 0 <= k < i ==> !IsReduce(l[k], rule)
  {
    i := 0;
    while !IsReduce(l[i], rule)
      invariant i <= |l| && forall k :: 0 <= k < i ==> !IsReduce(l[k], rule)
      invariant exists k :: i <= k < |l| && IsReduce(l[k], rule)
      decreases |l| - i
    {
      i := i + 1;
    }
  }

  lemma MovedIsDefaulted(l: seq<Action>, l': seq<Action>, dflt: nat, rule: nat, i: nat)
    requires OnePerSymbol(l) && forall q :: 0 <= q < |l| ==> l[q].sp < dflt
    requires i < |l| == |l'| && l'[i] == Action(dflt, REDUCE, rule) && IsReduce(l[i], rule)
    requires forall q :: 0 <= q < i ==> !IsReduce(l[q], rule)
    requires forall q :: 0 <= q < |l| && q != i ==>
               l'[q] == if i < q && IsReduce(l[q], rule) then l[q].(kind := NOT_USED) else l[q]
    ensures Defaulted(l, l', dflt, rule)
  {
    forall a | a in l'
      ensures a == Action(dflt, REDUCE, rule) || (a in l && !IsReduce(a, rule))
        || (a.kind == NOT_USED && Action(a.sp, REDUCE, rule) in l)
    {
      var q :| 0 <= q < |l'| && l'[q] == a;
      assert l[q] in l;
    }
    forall a | a in l && !IsReduce(a, rule) ensures a in l' {
      var q :| 0 <= q < |l| && l[q] == a;
      assert l'[q] == a;
    }
  }

  // Sorting does not change which entries there are, so it keeps what matters of a list.
  lemma SortKeepsDefaulted(l: seq<Action>, l': seq<Action>, dflt: nat, rule: nat)
    requires Defaulted(l, l', dflt, rule)
    ensures Defaulted(l, SortActions(l'), dflt, rule)
  {
    var r := SortActions(l');
    SortedOnePerSymbol(l');
    forall a ensures a in r <==> a in l' {
      assert a in multiset(r) <==> a in r;
      assert a in multiset(l') <==> a in l';
    }
  }

  lemma CountTwice(l: seq<Action>, i: nat, j: nat)
    requires i < j < |l| && l[i] == l[j]
    ensures multiset(l)[l[i]] >= 2
  {
    assert l == l[..j] + [l[j]] + l[j + 1..];
    assert l[..j][i] == l[i];
  }

  lemma {:induction false} CountOnce(l: seq<Action>, a: Action)
    requires OnePerSymbol(l) && Effective(a)
    ensures multiset(l)[a] <= 1
  {
    if |l| > 0 {
      CountOnce(l[1..], a);
      assert l == [l[0]] + l[1..];
      if l[0] == a { assert a !in l[1..]; }
    }
  }

  lemma SortedOnePerSymbol(l: seq<Action>)
    requires OnePerSymbol(l)
    ensures OnePerSymbol(SortActions(l))
  {
    var r := SortActions(l);
    forall i, j | 0 <= i < j < |r| && r[i].sp == r[j].sp && Effective(r[i]) && Effective(r[j])
      ensures false
    {
      assert r[i] in multiset(l) && r[j] in multiset(l);
      var p :| 0 <= p < |l| && l[p] == r[i];
      var q :| 0 <= q < |l| && l[q] == r[j];
      assert p == q;
      CountTwice(r, i, j);
      CountOnce(l, r[i]);
    }
  }

  // What CompressTables makes of a list: nothing new where no reduce may become the default, else the
  // list with a most frequent reduce as its default
  ghost predicate CompressedFrom(g: Grammar, l: seq<Action>, l': seq<Action>) {
    || (l' == l && forall i :: 0 <= i < |l| ==> !MayDefault(g, l[i]))
    || exists r :: MostFrequent(g, l, r) && Defaulted(l, l', g.nsymbol, r)
  }

  // CompressTables for one state
  method Compress(g: Grammar, l: seq<Action>) returns (l': seq<Action>)
    requires OnePerSymbol(l) && forall a :: a in l ==> a.sp < g.nsymbol
    requires forall a :: a in l && a.kind == REDUCE ==> a.x < |g.rules|
    ensures CompressedFrom(g, l, l')
  {
    var rbest := FindBest(g, l);
    match rbest
    case No => l' := l;
    case Yes(r) =>
      var moved := MoveToDefault(l, g.nsymbol, r);
      SortKeepsDefaulted(l, moved, g.nsymbol, r);
      l' := SortActions(moved);
  }
}
