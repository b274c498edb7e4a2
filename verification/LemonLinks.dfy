/** FindLinks: the propagation graph of the finished automaton, and what it means for start rules. */
module LemonLinks {
  import opened Grammars
  import opened Automata
  import opened LemonClosure
  import opened LemonConfigList
  import opened LemonAutomaton
  import opened LemonFindActions
  import opened LemonFollow

  // A configuration: a state and one of its items
  type Config = (nat, Item)

  ghost predicate IsConfig(states: seq<State>, c: Config) {
    c.0 < |states| && c.1 in states[c.0].items
  }

  ghost predicate Edge(states: seq<State>, c: Config, d: Config) {
    || (c.0 == d.0 < |states| && (c.1, d.1) in states[c.0].fplp)
    || (d.0 < |states| && c in states[d.0].bplp && d.1 == Item(c.1.rule, c.1.dot + 1))
  }

  // The part of the edges that the links of the first n states give
  ghost predicate EdgeBefore(states: seq<State>, n: nat, c: Config, d: Config) {
    d.0 < n && Edge(states, c, d)
  }

  ghost predicate Linked(links: LinkMap<Config>, c: Config, d: Config) {
    c in links && d in links[c]
  }

  lemma EdgesStayInside(g: Grammar, an: Analysis, states: seq<State>)
    requires Inv(g, an, states, {})
    ensures forall c: Config, d: Config :: Edge(states, c, d) ==> IsConfig(states, c) && IsConfig(states, d)
  {
    forall c: Config, d: Config | Edge(states, c, d) ensures IsConfig(states, c) && IsConfig(states, d) {
      var k := d.0;
      assert GoodState(g, an, k == 0, states[k]) && BackLinksGood(g, states, k);
      var basis, items := Elements(states[k].basis), Elements(states[k].items);
      assert IsClosure(g, basis, items);
      if c.0 == k && (c.1, d.1) in states[k].fplp {
        assert (c.1, d.1) in ForwardPairs(g, an, c.1);
        PairsAreExpansions(g, c.1, Next(g, c.1), |g.rules|);
        ExpansionIsExpands(g, c.1);
        assert Expands(g, c.1, d.1);
        assert d.1 in items;
      } else {
        assert (c.0, c.1) in states[k].bplp;
        assert d.1 in basis;
        assert d.1 in items;
      }
    }
  }

  lemma {:induction false} PairsAreExpansions(g: Grammar, it: Item, sym: nat, n: nat)
    requires n <= |g.rules|
    ensures forall a, b :: (a, b) in PairsWith(g, it, sym, n) <==> a == it && b in Expansion(g, sym, n)
  {
    if n > 0 { PairsAreExpansions(g, it, sym, n - 1); }
  }

  // Plink_add, as a function of the whole link table
  function AddLink(links: LinkMap<Config>, c: Config, d: Config): LinkMap<Config>
    requires c in links
  {
    links[c := [d] + links[c]]
  }

  lemma AddLinkLinks(links: LinkMap<Config>, c: Config, d: Config)
    requires c in links
    ensures AddLink(links, c, d).Keys == links.Keys
    ensures forall x: Config, y: Config :: Linked(AddLink(links, c, d), x, y) <==> Linked(links, x, y) || (x == c && y == d)
  {
  }

  // All links into configurations of state k
  method LinkState(states: seq<State>, k: nat, links: LinkMap<Config>) returns (links': LinkMap<Config>)
    requires k < |states|
    requires forall c: Config, d: Config :: Edge(states, c, d) ==> c in links
    ensures links'.Keys == links.Keys
    ensures forall c: Config, d: Config :: Linked(links', c, d) <==> Linked(links, c, d) || (d.0 == k && Edge(states, c, d))
  {
    links' := links;
    var inner := states[k].fplp;
    while inner != {}
      invariant inner <= states[k].fplp && links'.Keys == links.Keys
      invariant forall c: Config, d: Config :: Linked(links', c, d) <==>
        || Linked(links, c, d)
        || (c.0 == d.0 == k && (c.1, d.1) in states[k].fplp - inner)
      decreases |inner|
    {
      var p :| p in inner;
      assert Edge(states, (k, p.0), (k, p.1));
      AddLinkLinks(links', (k, p.0), (k, p.1));
      links', inner := AddLink(links', (k, p.0), (k, p.1)), inner - {p};
    }
    var back := states[k].bplp;
    while back != {}
      invariant back <= states[k].bplp && links'.Keys == links.Keys
      invariant forall c: Config, d: Config :: Linked(links', c, d) <==>
        || Linked(links, c, d)
        || (c.0 == d.0 == k && (c.1, d.1) in states[k].fplp)
        || (d.0 == k && c in states[k].bplp - back && d.1 == Item(c.1.rule, c.1.dot + 1))
      decreases |back|
    {
      var c :| c in back;
      var d := (k, Item(c.1.rule, c.1.dot + 1));
      assert Edge(states, c, d);
      AddLinkLinks(links', c, d);
      links', back := AddLink(links', c, d), back - {c};
    }
  }

  // All configurations in the order of the loops
  method Configs(states: seq<State>) returns (order: seq<Config>)
    ensures forall c: Config :: c in order <==> IsConfig(states, c)
  {
    order := [];
    for k := 0 to |states|
      invariant forall c: Config :: c in order <==> IsConfig(states, c) && c.0 < k
    {
      var items := states[k].items;
      for i := 0 to |items|
        invariant forall c: Config :: c in order <==> (IsConfig(states, c) && c.0 < k) || (c.0 == k && c.1 in items[..i])
      {
        order := order + [(k, items[i])];
      }
      assert items[..|items|] == items;
    }
  }

  method FindLinks(g: Grammar, ghost an: Analysis, states: seq<State>)
    returns (order: seq<Config>, links: LinkMap<Config>, init: Sets<Config>)
    requires Inv(g, an, states, {})
    ensures forall c: Config :: c in order <==> IsConfig(states, c)
    ensures forall c: Config :: c in links <==> IsConfig(states, c)
    ensures forall c: Config, d: Config :: Linked(links, c, d) <==> Edge(states, c, d)
    ensures init.Keys == links.Keys
    ensures forall c: Config :: c in init ==> IsConfig(states, c) && init[c] == Base(states[c.0].fws, c.1)
  {
    hide *;
    EdgesStayInside(g, an, states);
    order := Configs(states);
    ConfigsInRange(states, order);
    init := BaseSets(states, order);
    links := NoLinks(order);
    NoneLinked(states, links);
    for k := 0 to |states|
      invariant forall c: Config :: c in links <==> c in order
      invariant LinkedBefore(states, k, links)
    {
      ghost var before := links;
      links := LinkState(states, k, links);
      OneMoreState(states, k, before, links);
    }
    AllStatesLinked(states, links);
  }

  function NoLinks(order: seq<Config>): (links: LinkMap<Config>)
    ensures forall c: Config :: c in links <==> c in order
    ensures forall c: Config :: c in links ==> links[c] == []
  {
    map c: Config | c in order :: []
  }

  lemma NoneLinked(states: seq<State>, links: LinkMap<Config>)
    requires forall c: Config :: c in links ==> links[c] == []
    ensures LinkedBefore(states, 0, links)
  {
  }

  function BaseSets(states: seq<State>, order: seq<Config>): (init: Sets<Config>)
    requires forall c: Config :: c in order ==> c.0 < |states|
    ensures forall c: Config :: c in init <==> c in order
    ensures forall c: Config :: c in init ==> c.0 < |states| && init[c] == Base(states[c.0].fws, c.1)
  {
    map c: Config | c in order && c.0 < |states| :: Base(states[c.0].fws, c.1)
  }

  lemma ConfigsInRange(states: seq<State>, order: seq<Config>)
    requires forall c: Config :: c in order ==> IsConfig(states, c)
    ensures forall c: Config :: c in order ==> c.0 < |states|
  {
  }

  // The links are the edges into the first n states.
  ghost predicate LinkedBefore(states: seq<State>, n: nat, links: LinkMap<Config>) {
    forall c: Config, d: Config :: Linked(links, c, d) <==> EdgeBefore(states, n, c, d)
  }

  lemma OneMoreState(states: seq<State>, k: nat, links: LinkMap<Config>, links': LinkMap<Config>)
    requires LinkedBefore(states, k, links)
    requires forall c: Config, d: Config :: Linked(links', c, d) <==> Linked(links, c, d) || (d.0 == k && Edge(states, c, d))
    ensures LinkedBefore(states, k + 1, links')
  {
    hide Edge;
  }

  lemma AllStatesLinked(states: seq<State>, links: LinkMap<Config>)
    requires LinkedBefore(states, |states|, links)
    ensures forall c: Config, d: Config :: Linked(links, c, d) <==> Edge(states, c, d)
  {
    forall c: Config, d: Config ensures Linked(links, c, d) <==> Edge(states, c, d) {
      assert Linked(links, c, d) <==> EdgeBefore(states, |states|, c, d);
    }
  }

  // ---------- Start rules are followed by "$" only ----------

  ghost predicate StartRule(g: Grammar, c: Config) {
    c.1.rule < |g.rules| && g.rules[c.1.rule].lhs == g.start
  }

  lemma ExpansionNotIntoStart(g: Grammar, it: Item, x: Item)
    requires StartNotOnRhs(g) && ValidItem(g, it) && x in ExpansionOf(g, it)
    ensures x.rule < |g.rules| && g.rules[x.rule].lhs != g.start
  {
    ExpansionIsExpands(g, it);
    assert Expands(g, it, x);
  }

  lemma PairNotIntoStart(g: Grammar, an: Analysis, it: Item, x: Item)
    requires WellFormed(g) && AnalysisFor(g, an) && StartNotOnRhs(g) && ValidItem(g, it)
    requires (it, x) in ForwardPairs(g, an, it)
    ensures x.rule < |g.rules| && g.rules[x.rule].lhs != g.start
  {
    PairsAreExpansions(g, it, Next(g, it), |g.rules|);
    ExpansionNotIntoStart(g, it, x);
  }

  // Links into a configuration of a start rule come from the same rule.
  lemma LinkIntoStartRule(g: Grammar, an: Analysis, states: seq<State>, c: Config, d: Config)
    requires Inv(g, an, states, {}) && StartNotOnRhs(g) && Edge(states, c, d) && StartRule(g, d)
    ensures StartRule(g, c)
  {
    assert GoodState(g, an, d.0 == 0, states[d.0]);
    if c.0 == d.0 && (c.1, d.1) in states[c.0].fplp {
      assert (c.1, d.1) in ForwardPairs(g, an, c.1);
      PairNotIntoStart(g, an, c.1, d.1);
    }
  }

  lemma {:induction false} PathIntoStartRule(g: Grammar, an: Analysis, states: seq<State>, links: LinkMap<Config>, p: seq<Config>)
    requires Inv(g, an, states, {}) && StartNotOnRhs(g) && Path(links, p) && StartRule(g, p[|p| - 1])
    requires forall c: Config, d: Config :: Linked(links, c, d) <==> Edge(states, c, d)
    ensures StartRule(g, p[0])
    decreases |p|
  {
    if |p| > 1 {
      var q := p[..|p| - 1];
      assert Linked(links, p[|p| - 2], p[|p| - 1]);
      LinkIntoStartRule(g, an, states, p[|p| - 2], p[|p| - 1]);
      PathIntoStartRule(g, an, states, links, q);
    }
  }

  // ---------- Follow sets in terms of the automaton ----------

  ghost predicate EdgePath(states: seq<State>, p: seq<Config>) {
    && |p| > 0 && IsConfig(states, p[0])
    && forall i :: 0 <= i < |p| - 1 ==> Edge(states, p[i], p[i + 1])
  }

  // Some configuration that reaches c was given the lookahead by its closure.
  ghost predicate FollowReason(states: seq<State>, c: Config, a: nat) {
    exists p: seq<Config> :: EdgePath(states, p) && p[|p| - 1] == c && a in Base(states[p[0].0].fws, p[0].1)
  }

  // The follow sets are exactly what propagation along the links of the automaton justifies.
  ghost predicate FollowSolution(states: seq<State>, fws: FollowSets) {
    && (forall c: Config :: c in fws <==> IsConfig(states, c))
    && (forall c: Config, a :: c in fws ==> (a in fws[c] <==> FollowReason(states, c, a)))
  }

  lemma ComesFromIsReason(states: seq<State>, links: LinkMap<Config>, init: Sets<Config>, c: Config, a: nat)
    requires forall c: Config, d: Config :: Linked(links, c, d) <==> Edge(states, c, d)
    requires forall c: Config :: c in links <==> IsConfig(states, c)
    requires init.Keys == links.Keys && forall c: Config :: c in init ==> IsConfig(states, c) && init[c] == Base(states[c.0].fws, c.1)
    ensures ComesFrom(links, init, c, a) <==> FollowReason(states, c, a)
  {
    if ComesFrom(links, init, c, a) {
      var p: seq<Config> :| Path(links, p) && p[|p| - 1] == c && p[0] in init && a in init[p[0]];
      forall i | 0 <= i < |p| - 1 ensures Edge(states, p[i], p[i + 1]) {
        assert Linked(links, p[i], p[i + 1]);
      }
      assert EdgePath(states, p);
    }
    if FollowReason(states, c, a) {
      var p: seq<Config> :| EdgePath(states, p) && p[|p| - 1] == c && a in Base(states[p[0].0].fws, p[0].1);
      forall i | 0 <= i < |p| - 1 ensures p[i] in links && p[i + 1] in links[p[i]] {
        assert Linked(links, p[i], p[i + 1]);
      }
      assert Path(links, p);
    }
  }

  lemma StartRulesEndInput(g: Grammar, an: Analysis, states: seq<State>, links: LinkMap<Config>, init: Sets<Config>, c: Config, a: nat)
    requires Inv(g, an, states, {}) && StartNotOnRhs(g) && StartRule(g, c)
    requires forall c: Config, d: Config :: Linked(links, c, d) <==> Edge(states, c, d)
    requires forall c: Config :: c in init ==> IsConfig(states, c) && init[c] == Base(states[c.0].fws, c.1)
    requires ComesFrom(links, init, c, a)
    ensures a == 0
  {
    var p: seq<Config> :| Path(links, p) && p[|p| - 1] == c && p[0] in init && a in init[p[0]];
    PathIntoStartRule(g, an, states, links, p);
    BaseOfStartRule(g, an, states, p[0], a);
  }

  lemma BaseOfStartRule(g: Grammar, an: Analysis, states: seq<State>, d: Config, a: nat)
    requires Inv(g, an, states, {}) && StartNotOnRhs(g) && StartRule(g, d)
    requires IsConfig(states, d) && a in Base(states[d.0].fws, d.1)
    ensures a == 0
  {
    assert GoodState(g, an, d.0 == 0, states[d.0]);
    hide Inv;
    StateBaseOfStart(g, an, d.0 == 0, states[d.0], d.1, a);
  }

  lemma StateBaseOfStart(g: Grammar, an: Analysis, initial: bool, s: State, x: Item, a: nat)
    requires GoodState(g, an, initial, s) && StartNotOnRhs(g) && x.rule < |g.rules| && g.rules[x.rule].lhs == g.start
    requires a in Base(s.fws, x)
    ensures a == 0
  {
    if it :| it in s.items && a in Contribution(g, an, it, x) {
      hide GoodState;
      ExpansionNotIntoStart(g, it, x);
    }
  }
}
