/** UNION, INTERSECT and EXCEPT on sorted lists without duplicates, and what they mean as sets. */
module SetOperations {
  import opened JsonValues
  import opened JsonOrder
  import opened ResultLists

  /** A list of one-document rows. */
  predicate Singles(s: seq<Item>) {
    forall i :: 0 <= i < |s| ==> |s[i]| == 1
  }

  /** A list that stands for a set: one-document rows in strictly ascending order. */
  predicate SetList(s: seq<Item>) {
    Singles(s) && Keyed(First, s) && StrictlySorted(First, s)
  }

  function Union(p: seq<Item>, q: seq<Item>): seq<Item>
    requires Keyed(First, p) && Keyed(First, q)
  {
    if p == [] then q
    else if q == [] then p
    else
      var c := CompareItems(First, p[0], q[0]);
      if c < 0 then [p[0]] + Union(p[1..], q)
      else if c > 0 then [q[0]] + Union(p, q[1..])
      else [q[0]] + Union(p[1..], q[1..])
  }

  function Intersect(p: seq<Item>, q: seq<Item>): seq<Item>
    requires Keyed(First, p) && Keyed(First, q)
  {
    if p == [] || q == [] then []
    else
      var c := CompareItems(First, p[0], q[0]);
      if c < 0 then Intersect(p[1..], q)
      else if c > 0 then Intersect(p, q[1..])
      else [p[0]] + Intersect(p[1..], q[1..])
  }

  function Except(p: seq<Item>, q: seq<Item>): seq<Item>
    requires Keyed(First, p) && Keyed(First, q)
  {
    if p == [] || q == [] then p
    else
      var c := CompareItems(First, p[0], q[0]);
      if c < 0 then [p[0]] + Except(p[1..], q)
      else if c > 0 then Except(p, q[1..])
      else Except(p[1..], q)
  }

  /** `x` sorts before everything in `s`. */
  predicate Below(x: Item, s: seq<Item>)
    requires HasKeys(First, x) && Keyed(First, s)
  {
    forall i :: 0 <= i < |s| ==> CompareItems(First, x, s[i]) < 0
  }

  lemma BelowTail(s: seq<Item>)
    requires SetList(s) && s != []
    ensures SetList(s[1..]) && Below(s[0], s[1..]) && s[0] !in s[1..]
  {
    ItemsZeroIffEqualKeys(First, s[0], s[0]);
  }

  lemma BelowStep(x: Item, y: Item, z: Item)
    requires HasKeys(First, x) && HasKeys(First, y) && HasKeys(First, z)
    requires CompareItems(First, x, y) < 0 && CompareItems(First, y, z) < 0
    ensures CompareItems(First, x, z) < 0
  {
    hide CompareItems;
    ItemsTransitive(First, x, y, z);
    if CompareItems(First, x, z) == 0 {
      ItemsNegate(First, x, z);
      ItemsTransitive(First, y, z, x);
      ItemsNegate(First, x, y);
    }
  }

  lemma ConsSetList(x: Item, s: seq<Item>)
    requires |x| == 1 && SetList(s) && Below(x, s)
    ensures SetList([x] + s)
  {
    hide CompareItems;
  }

  lemma EqualSingles(x: Item, y: Item)
    requires |x| == |y| == 1
    ensures CompareItems(First, x, y) == 0 <==> x == y
  {
    ItemsZeroIffEqualKeys(First, x, y);
    assert x[..1] == x && y[..1] == y;
  }

  lemma BelowFrom(x: Item, s: seq<Item>)
    requires SetList(s) && |x| == 1 && (s == [] || CompareItems(First, x, s[0]) < 0)
    ensures Below(x, s) && x !in s
  {
    hide CompareItems;
    forall i | 0 <= i < |s|
      ensures CompareItems(First, x, s[i]) < 0 && x != s[i]
    {
      if i > 0 {
        BelowStep(x, s[0], s[i]);
      }
      EqualSingles(x, s[i]);
    }
  }

  lemma BelowOnly(x: Item, s: seq<Item>, t: seq<Item>, u: seq<Item>)
    requires |x| == 1 && Keyed(First, s) && Keyed(First, t) && Keyed(First, u) && Below(x, s) && Below(x, t)
    requires forall y :: y in u ==> y in s || y in t
    ensures Below(x, u)
  {
    hide CompareItems;
    forall i | 0 <= i < |u|
      ensures CompareItems(First, x, u[i]) < 0
    {
      assert u[i] in u;
    }
  }

  /** The union holds exactly the documents of either side, still in strictly ascending order. */
  lemma {:induction false} UnionIsUnion(p: seq<Item>, q: seq<Item>)
    requires SetList(p) && SetList(q)
    ensures SetList(Union(p, q))
    ensures forall x: Item :: x in Union(p, q) <==> x in p || x in q
    decreases |p| + |q|
  {
    hide CompareItems, StrictlySorted, Below;
    if p != [] && q != [] {
      var c := CompareItems(First, p[0], q[0]);
      Heads(p, q);
      if c < 0 {
        UnionIsUnion(p[1..], q);
        Settle(p[0], p[1..], q, Union(p[1..], q));
      } else if c > 0 {
        UnionIsUnion(p, q[1..]);
        Settle(q[0], p, q[1..], Union(p, q[1..]));
      } else {
        UnionIsUnion(p[1..], q[1..]);
        Settle(q[0], p[1..], q[1..], Union(p[1..], q[1..]));
      }
    }
  }

  /** What the comparison of the heads says about the rest of two lists. */
  lemma Heads(p: seq<Item>, q: seq<Item>)
    requires SetList(p) && SetList(q) && p != [] && q != []
    ensures SetList(p[1..]) && SetList(q[1..]) && |p[0]| == |q[0]| == 1
    ensures Below(p[0], p[1..]) && Below(q[0], q[1..])
    ensures p[0] !in p[1..] && q[0] !in q[1..]
    ensures CompareItems(First, p[0], q[0]) < 0 ==> Below(p[0], q) && p[0] !in q
    ensures CompareItems(First, p[0], q[0]) > 0 ==> Below(q[0], p) && q[0] !in p
    ensures CompareItems(First, p[0], q[0]) == 0 ==> p[0] == q[0]
  {
    hide CompareItems;
    BelowTail(p);
    BelowTail(q);
    ItemsNegate(First, p[0], q[0]);
    EqualSingles(p[0], q[0]);
    if CompareItems(First, p[0], q[0]) < 0 {
      BelowFrom(p[0], q);
    } else if CompareItems(First, p[0], q[0]) > 0 {
      BelowFrom(q[0], p);
    }
  }

  lemma Settle(x: Item, s: seq<Item>, t: seq<Item>, u: seq<Item>)
    requires |x| == 1 && SetList(s) && SetList(t) && SetList(u)
    requires Below(x, s) && Below(x, t)
    requires forall y: Item :: y in u ==> y in s || y in t
    ensures SetList([x] + u)
  {
    hide CompareItems;
    BelowOnly(x, s, t, u);
    ConsSetList(x, u);
  }

  /** The intersection holds exactly the documents of both sides. */
  lemma {:induction false} IntersectIsIntersection(p: seq<Item>, q: seq<Item>)
    requires SetList(p) && SetList(q)
    ensures SetList(Intersect(p, q))
    ensures forall x: Item :: x in Intersect(p, q) <==> x in p && x in q
    decreases |p| + |q|
  {
    hide CompareItems, StrictlySorted, Below;
    if p == [] || q == [] {
      NothingIsSet();
    } else {
      var c := CompareItems(First, p[0], q[0]);
      Heads(p, q);
      if c < 0 {
        IntersectIsIntersection(p[1..], q);
      } else if c > 0 {
        IntersectIsIntersection(p, q[1..]);
      } else {
        IntersectIsIntersection(p[1..], q[1..]);
        Settle(p[0], p[1..], q[1..], Intersect(p[1..], q[1..]));
      }
    }
  }

  lemma NothingIsSet()
    ensures SetList([])
  {
  }

  /** The difference holds exactly the documents of the left side that are not on the right. */
  lemma {:induction false} ExceptIsDifference(p: seq<Item>, q: seq<Item>)
    requires SetList(p) && SetList(q)
    ensures SetList(Except(p, q))
    ensures forall x: Item :: x in Except(p, q) <==> x in p && x !in q
    decreases |p| + |q|
  {
    hide CompareItems, StrictlySorted, Below;
    if p != [] && q != [] {
      var c := CompareItems(First, p[0], q[0]);
      Heads(p, q);
      if c < 0 {
        ExceptIsDifference(p[1..], q);
        Settle(p[0], p[1..], p[1..], Except(p[1..], q));
      } else if c > 0 {
        ExceptIsDifference(p, q[1..]);
      } else {
        ExceptIsDifference(p[1..], q);
      }
    }
  }

  /** Sorting one-document rows without duplicates gives the list that stands for the set of them. */
  lemma SortMakesSetList(s: seq<Item>)
    requires Singles(s) && Keyed(First, s)
    ensures SetList(SortedList(First, s, true))
    ensures forall x: Item :: x in SortedList(First, s, true) <==> x in s
  {
    hide CompareItems;
    var t := StableSort(First, s);
    var u := Uniq(First, t);
    StableSortSorts(First, s);
    UniqFacts(First, t);
    forall x | x in t
      ensures x in s
    {
      assert x in multiset(t);
    }
    assert Singles(u) by {
      forall i | 0 <= i < |u|
        ensures |u[i]| == 1
      {
        assert u[i] in t;
      }
    }
    forall x | x in s
      ensures x in u
    {
      assert x in multiset(s);
      assert x in t;
      var i :| 0 <= i < |t| && t[i] == x;
      EqualSingles(x, x);
      ClassMembers(First, t, x, i);
      UniqKeepsFirst(First, t, x);
      var j := NonEmptyClass(First, u, x);
      EqualSingles(x, u[j]);
    }
  }
}
