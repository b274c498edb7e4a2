/**
 FindFollowSets: follow sets are pushed along forward links until nothing changes.

 Configurations are of any type C; `order` is the order in which the loops visit them.
 */
module LemonFollow {
  import opened LemonFirst

  type Sets<C(==)> = map<C, set<nat>>

  type LinkMap<C(==)> = map<C, seq<C>>

  ghost predicate WellLinked<C(!new)>(order: seq<C>, links: LinkMap<C>, init: Sets<C>, size: nat) {
    && (forall c :: c in order <==> c in links.Keys)
    && links.Keys == init.Keys
    && (forall c, j :: c in links && 0 <= j < |links[c]| ==> links[c][j] in links)
    && (forall c, a :: c in init && a in init[c] ==> a < size)
  }

  // A chain of forward links
  ghost predicate Path<C>(links: LinkMap<C>, p: seq<C>) {
    && |p| > 0 && p[0] in links
    && forall i :: 0 <= i < |p| - 1 ==> p[i] in links && p[i + 1] in links[p[i]]
  }

  // The lookahead comes from a configuration that reaches c.
  ghost predicate ComesFrom<C(!new)>(links: LinkMap<C>, init: Sets<C>, c: C, a: nat) {
    exists p :: Path(links, p) && p[|p| - 1] == c && p[0] in init && a in init[p[0]]
  }

  // All links out of c are satisfied.
  ghost predicate Satisfied<C>(links: LinkMap<C>, fws: Sets<C>, c: C) {
    && c in links && c in fws
    && forall t :: t in links[c] ==> t in fws && fws[c] <= fws[t]
  }

  // What every step of the iteration keeps
  ghost predicate Between<C(!new)>(links: LinkMap<C>, init: Sets<C>, fws: Sets<C>, size: nat) {
    && fws.Keys == init.Keys
    && (forall c :: c in init ==> init[c] <= fws[c])
    && (forall c, a :: c in fws && a in fws[c] ==> a < size && ComesFrom(links, init, c, a))
  }

  ghost function MissingFrom<C>(order: seq<C>, fws: Sets<C>, size: nat): nat {
    if |order| == 0 then 0
    else MissingFrom(order[..|order| - 1], fws, size) +
         if order[|order| - 1] in fws then |UpTo(size) - fws[order[|order| - 1]]| else 0
  }

  lemma {:induction false} MissingDrops<C>(order: seq<C>, fws: Sets<C>, size: nat, t: C, more: set<nat>)
    requires t in fws && more <= UpTo(size)
    ensures MissingFrom(order, fws[t := fws[t] + more], size) <= MissingFrom(order, fws, size)
    ensures t in order && !(more <= fws[t]) ==>
              MissingFrom(order, fws[t := fws[t] + more], size) < MissingFrom(order, fws, size)
  {
    if |order| > 0 {
      MissingDrops(order[..|order| - 1], fws, size, t, more);
      if order[|order| - 1] == t { SmallerDifference(UpTo(size), fws[t], more); }
    }
  }

  lemma ExtendPath<C(!new)>(links: LinkMap<C>, init: Sets<C>, c: C, t: C, a: nat)
    requires ComesFrom(links, init, c, a) && c in links && t in links[c]
    ensures ComesFrom(links, init, t, a)
  {
    var p :| Path(links, p) && p[|p| - 1] == c && p[0] in init && a in init[p[0]];
    var p' := p + [t];
    assert Path(links, p') by {
      assert forall i :: 0 <= i < |p| ==> p'[i] == p[i];
    }
    assert p'[|p'| - 1] == t;
  }

  // One union along a link
  lemma UnionKeepsBetween<C(!new)>(links: LinkMap<C>, init: Sets<C>, fws: Sets<C>, size: nat, c: C, t: C)
    requires Between(links, init, fws, size) && c in fws && t in fws && c in links && t in links[c]
    ensures Between(links, init, fws[t := fws[t] + fws[c]], size)
    ensures fws[c] <= UpTo(size)
  {
    forall a | a in fws[c] ensures ComesFrom(links, init, t, a) {
      ExtendPath(links, init, c, t, a);
    }
  }

  ghost predicate AllSatisfied<C>(links: LinkMap<C>, fws: Sets<C>, complete: set<C>) {
    forall c :: c in complete ==> Satisfied(links, fws, c)
  }

  lemma UnionKeepsSatisfied<C>(links: LinkMap<C>, fws: Sets<C>, complete: set<C>, t: C, more: set<nat>)
    requires t in fws && AllSatisfied(links, fws, complete)
    ensures AllSatisfied(links, fws[t := fws[t] + more], complete - {t})
  {
  }

  lemma CompleteOne<C>(links: LinkMap<C>, fws: Sets<C>, complete: set<C>, c: C)
    requires AllSatisfied(links, fws, complete) && c in links && c in fws
    requires forall i :: 0 <= i < |links[c]| ==> links[c][i] in fws && fws[c] <= fws[links[c][i]]
    ensures AllSatisfied(links, fws, complete + {c})
  {
  }

  lemma SameKeys<C(!new)>(links: LinkMap<C>, init: Sets<C>, fws: Sets<C>, size: nat)
    requires Between(links, init, fws, size)
    ensures fws.Keys == init.Keys
  {
  }

  lemma {:induction false} PathCarries<C(!new)>(links: LinkMap<C>, init: Sets<C>, fws: Sets<C>, p: seq<C>, a: nat)
    requires forall c :: c in links ==> Satisfied(links, fws, c)
    requires forall c :: c in init ==> c in fws && init[c] <= fws[c]
    requires Path(links, p) && p[0] in init && a in init[p[0]]
    ensures p[|p| - 1] in fws && a in fws[p[|p| - 1]]
  {
    if |p| > 1 {
      var q := p[..|p| - 1];
      assert Path(links, q);
      PathCarries(links, init, fws, q, a);
      var c := p[|p| - 2];
      assert Satisfied(links, fws, c);
    }
  }

  // Push the set of c along all its links.
  method Push<C(==,!new)>(order: seq<C>, links: LinkMap<C>, ghost init: Sets<C>, size: nat, c: C, fws: Sets<C>, complete: set<C>)
    returns (fws': Sets<C>, complete': set<C>, change: bool)
    requires WellLinked(order, links, init, size) && Between(links, init, fws, size) && c in order
    requires AllSatisfied(links, fws, complete)
    ensures Between(links, init, fws', size) && AllSatisfied(links, fws', complete')
    ensures c in complete' && MissingFrom(order, fws', size) <= MissingFrom(order, fws, size)
    ensures if change then MissingFrom(order, fws', size) < MissingFrom(order, fws, size)
            else fws' == fws && complete' == complete + {c}
  {
    hide Between, AllSatisfied, ComesFrom, MissingFrom;
    fws', complete', change := fws, complete, false;
    SameKeys(links, init, fws, size);
    for j := 0 to |links[c]|
      invariant Between(links, init, fws', size) && AllSatisfied(links, fws', complete')
      invariant fws'.Keys == init.Keys
      invariant forall i :: 0 <= i < j ==> links[c][i] in fws' && fws'[c] <= fws'[links[c][i]]
      invariant MissingFrom(order, fws', size) <= MissingFrom(order, fws, size)
      invariant if change then MissingFrom(order, fws', size) < MissingFrom(order, fws, size)
                else fws' == fws && complete' == complete
    {
      var t := links[c][j];
      SameKeys(links, init, fws', size);
      UnionKeepsBetween(links, init, fws', size, c, t);
      MissingDrops(order, fws', size, t, fws'[c]);
      if !(fws'[c] <= fws'[t]) {
        UnionKeepsSatisfied(links, fws', complete', t, fws'[c]);
        complete', change := complete' - {t}, true;
        fws' := fws'[t := fws'[t] + fws'[c]];
      }
    }
    CompleteOne(links, fws', complete', c);
    complete' := complete' + {c};
  }

  // One round over all configurations
  method Round<C(==,!new)>(order: seq<C>, links: LinkMap<C>, ghost init: Sets<C>, size: nat, fws: Sets<C>, complete: set<C>)
    returns (fws': Sets<C>, complete': set<C>, progress: bool)
    requires WellLinked(order, links, init, size) && Between(links, init, fws, size)
    requires AllSatisfied(links, fws, complete)
    ensures Between(links, init, fws', size) && AllSatisfied(links, fws', complete')
    ensures if progress then MissingFrom(order, fws', size) < MissingFrom(order, fws, size)
            else fws' == fws && forall j :: 0 <= j < |order| ==> order[j] in complete'
  {
    hide Between, ComesFrom, MissingFrom, AllSatisfied, WellLinked;
    fws', complete', progress := fws, complete, false;
    for i := 0 to |order|
      invariant Between(links, init, fws', size) && AllSatisfied(links, fws', complete')
      invariant if progress then MissingFrom(order, fws', size) < MissingFrom(order, fws, size)
                else fws' == fws && forall j :: 0 <= j < i ==> order[j] in complete'
    {
      if order[i] !in complete' {
        var change;
        fws', complete', change := Push(order, links, init, size, order[i], fws', complete');
        progress := progress || change;
      }
    }
  }

  // FindFollowSets.  The final set of every configuration is exactly the union of the initial sets
  // of the configurations that reach it.
  method FindFollowSets<C(==,!new)>(order: seq<C>, links: LinkMap<C>, init: Sets<C>, size: nat) returns (fws: Sets<C>)
    requires WellLinked(order, links, init, size)
    ensures fws.Keys == init.Keys
    ensures forall c, a :: c in init ==> (a in fws[c] <==> ComesFrom(links, init, c, a))
  {
    InitIsBetween(links, init, size);
    fws := init;
    var complete: set<C> := {};
    var progress := true;
    while progress
      invariant Between(links, init, fws, size) && AllSatisfied(links, fws, complete)
      invariant !progress ==> forall j :: 0 <= j < |order| ==> order[j] in complete
      decreases MissingFrom(order, fws, size), progress
    {
      fws, complete, progress := Round(order, links, init, size, fws, complete);
    }
    FixpointIsExact(order, links, init, fws, size, complete);
  }

  lemma FixpointIsExact<C(!new)>(order: seq<C>, links: LinkMap<C>, init: Sets<C>, fws: Sets<C>, size: nat, complete: set<C>)
    requires WellLinked(order, links, init, size) && Between(links, init, fws, size)
    requires AllSatisfied(links, fws, complete) && forall c :: c in order ==> c in complete
    ensures fws.Keys == init.Keys
    ensures forall c, a :: c in init ==> (a in fws[c] <==> ComesFrom(links, init, c, a))
  {
    forall c, a | c in init && ComesFrom(links, init, c, a) ensures a in fws[c] {
      var p :| Path(links, p) && p[|p| - 1] == c && p[0] in init && a in init[p[0]];
      PathCarries(links, init, fws, p, a);
    }
  }

  lemma InitIsBetween<C(!new)>(links: LinkMap<C>, init: Sets<C>, size: nat)
    requires links.Keys == init.Keys && forall c, a :: c in init && a in init[c] ==> a < size
    ensures Between(links, init, init, size)
  {
    forall c, a | c in init && a in init[c] ensures ComesFrom(links, init, c, a) {
      assert Path(links, [c]);
    }
  }
}
