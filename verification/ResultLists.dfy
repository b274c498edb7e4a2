/** The row lists of the executor: merging, the bottom-up merge sort with its forty slots, and the uniq pass. */
module ResultLists {
  import opened JsonValues
  import opened JsonOrder

  predicate Keyed(keys: Keys, s: seq<Item>) {
    forall i :: 0 <= i < |s| ==> HasKeys(keys, s[i])
  }

  function Reverse<T>(s: seq<T>): (r: seq<T>)
    ensures |r| == |s|
  {
    if s == [] then [] else Reverse(s[1..]) + [s[0]]
  }

  // ---------------------------------------------------------------- what sorting means

  predicate Sorted(keys: Keys, s: seq<Item>)
    requires Keyed(keys, s)
  {
    forall i, j :: 0 <= i < j < |s| ==> CompareItems(keys, s[i], s[j]) <= 0
  }

  predicate StrictlySorted(keys: Keys, s: seq<Item>)
    requires Keyed(keys, s)
  {
    forall i, j :: 0 <= i < j < |s| ==> CompareItems(keys, s[i], s[j]) < 0
  }

  /** The rows of `s` that compare equal to `x`, in the order they have in `s`. */
  function Class(keys: Keys, s: seq<Item>, x: Item): (c: seq<Item>)
    requires Keyed(keys, s) && HasKeys(keys, x)
  {
    if s == [] then []
    else (if CompareItems(keys, x, s[0]) == 0 then [s[0]] else []) + Class(keys, s[1..], x)
  }

  /** Puts a row before the first one it does not follow. */
  function Insert(keys: Keys, x: Item, s: seq<Item>): (r: seq<Item>)
    requires HasKeys(keys, x) && Keyed(keys, s)
    ensures Keyed(keys, r)
  {
    if s == [] || CompareItems(keys, x, s[0]) <= 0 then [x] + s
    else [s[0]] + Insert(keys, x, s[1..])
  }

  /** The reference sort: rows inserted one by one, the earliest last, so that it precedes its equals. */
  function StableSort(keys: Keys, s: seq<Item>): (r: seq<Item>)
    requires Keyed(keys, s)
    ensures Keyed(keys, r)
  {
    if s == [] then [] else Insert(keys, s[0], StableSort(keys, s[1..]))
  }

  lemma {:induction false} InsertFacts(keys: Keys, x: Item, s: seq<Item>)
    requires HasKeys(keys, x) && Keyed(keys, s) && Sorted(keys, s)
    ensures multiset(Insert(keys, x, s)) == multiset([x] + s)
    ensures Sorted(keys, Insert(keys, x, s))
  {
    hide CompareItems;
    assert s != [] ==> HasKeys(keys, s[0]);
    hide *;
    if s == [] || CompareItems(keys, x, s[0]) <= 0 {
      InsertHere(keys, x, s);
    } else {
      SortedTail(keys, s);
      InsertFacts(keys, x, s[1..]);
      InsertStep(keys, x, s);
      ItemsNegate(keys, x, s[0]);
      HeadBelow(keys, s[0], [x] + s[1..], Insert(keys, x, s[1..]));
      SortedCons(keys, s[0], Insert(keys, x, s[1..]));
    }
  }

  lemma InsertStep(keys: Keys, x: Item, s: seq<Item>)
    requires HasKeys(keys, x) && Keyed(keys, s) && s != [] && CompareItems(keys, x, s[0]) > 0
    requires Keyed(keys, s[1..]) && multiset(Insert(keys, x, s[1..])) == multiset([x] + s[1..])
    ensures Insert(keys, x, s) == [s[0]] + Insert(keys, x, s[1..])
    ensures multiset(Insert(keys, x, s)) == multiset([x] + s)
  {
    hide CompareItems, Keyed, HasKeys;
    assert s == [s[0]] + s[1..];
  }

  lemma SortedTail(keys: Keys, s: seq<Item>)
    requires Keyed(keys, s) && Sorted(keys, s) && s != []
    ensures HasKeys(keys, s[0]) && Keyed(keys, s[1..]) && Sorted(keys, s[1..])
    ensures forall j :: 0 <= j < |s[1..]| ==> CompareItems(keys, s[0], s[1..][j]) <= 0
  {
    hide CompareItems;
  }

  lemma SortedCons(keys: Keys, x: Item, s: seq<Item>)
    requires HasKeys(keys, x) && Keyed(keys, s) && Sorted(keys, s)
    requires forall j :: 0 <= j < |s| ==> CompareItems(keys, x, s[j]) <= 0
    ensures Keyed(keys, [x] + s) && Sorted(keys, [x] + s)
  {
    hide CompareItems;
  }

  lemma HeadBelow(keys: Keys, x: Item, s: seq<Item>, t: seq<Item>)
    requires HasKeys(keys, x) && s != [] && HasKeys(keys, s[0]) && Keyed(keys, s[1..])
    requires Keyed(keys, t) && multiset(s) == multiset(t)
    requires CompareItems(keys, x, s[0]) <= 0
    requires forall j :: 0 <= j < |s[1..]| ==> CompareItems(keys, x, s[1..][j]) <= 0
    ensures forall j :: 0 <= j < |t| ==> CompareItems(keys, x, t[j]) <= 0
  {
    hide CompareItems;
    forall j | 0 <= j < |t|
      ensures CompareItems(keys, x, t[j]) <= 0
    {
      assert t[j] in multiset(t);
      assert t[j] in s;
      var k :| 0 <= k < |s| && s[k] == t[j];
      assert k > 0 ==> s[1..][k - 1] == t[j];
    }
  }

  lemma InsertHere(keys: Keys, x: Item, s: seq<Item>)
    requires HasKeys(keys, x) && Keyed(keys, s) && Sorted(keys, s)
    requires s == [] || CompareItems(keys, x, s[0]) <= 0
    ensures Insert(keys, x, s) == [x] + s && Sorted(keys, [x] + s)
  {
    hide CompareItems;
    forall j | 0 <= j < |s|
      ensures CompareItems(keys, x, s[j]) <= 0
    {
      if j > 0 {
        ItemsTransitive(keys, x, s[0], s[j]);
      }
    }
  }

  /** The reference sort returns its rows, sorted. */
  lemma {:induction false} StableSortSorts(keys: Keys, s: seq<Item>)
    requires Keyed(keys, s)
    ensures multiset(StableSort(keys, s)) == multiset(s)
    ensures |StableSort(keys, s)| == |s|
    ensures Sorted(keys, StableSort(keys, s))
  {
    if s != [] {
      StableSortSorts(keys, s[1..]);
      InsertFacts(keys, s[0], StableSort(keys, s[1..]));
      assert s == [s[0]] + s[1..];
    }
    assert |multiset(StableSort(keys, s))| == |multiset(s)|;
  }

  lemma {:induction false} InsertKeepsClasses(keys: Keys, x: Item, s: seq<Item>, y: Item)
    requires HasKeys(keys, x) && Keyed(keys, s) && HasKeys(keys, y)
    ensures Class(keys, Insert(keys, x, s), y) == Class(keys, [x] + s, y)
  {
    hide CompareItems;
    assert ([x] + s)[1..] == s;
    if s != [] && CompareItems(keys, x, s[0]) > 0 {
      InsertKeepsClasses(keys, x, s[1..], y);
      assert ([x] + s[1..])[1..] == s[1..];
      assert Insert(keys, x, s)[1..] == Insert(keys, x, s[1..]);
      ItemsNegate(keys, y, x);
      ItemsNegate(keys, y, s[0]);
      if CompareItems(keys, y, x) == 0 && CompareItems(keys, y, s[0]) == 0 {
        ItemsTransitive(keys, x, y, s[0]);
      }
    }
  }

  /** Rows that compare equal keep the order in which they were added. */
  lemma {:induction false} StableSortKeepsClasses(keys: Keys, s: seq<Item>, y: Item)
    requires Keyed(keys, s) && HasKeys(keys, y)
    ensures Class(keys, StableSort(keys, s), y) == Class(keys, s, y)
  {
    if s != [] {
      StableSortKeepsClasses(keys, s[1..], y);
      var rest := StableSort(keys, s[1..]);
      InsertKeepsClasses(keys, s[0], rest, y);
      assert ([s[0]] + rest)[1..] == rest;
    }
  }

  lemma {:induction false} ClassMembers(keys: Keys, s: seq<Item>, x: Item, i: nat)
    requires Keyed(keys, s) && HasKeys(keys, x) && i < |s| && CompareItems(keys, x, s[i]) == 0
    ensures Class(keys, s, x) != []
    ensures exists j :: 0 <= j < |s| && s[j] == Class(keys, s, x)[0]
  {
    hide CompareItems;
    if CompareItems(keys, x, s[0]) != 0 {
      ClassMembers(keys, s[1..], x, i - 1);
      var j :| 0 <= j < |s[1..]| && s[1..][j] == Class(keys, s[1..], x)[0];
      assert s[j + 1] == Class(keys, s, x)[0];
    } else {
      assert s[0] == Class(keys, s, x)[0];
    }
  }

  lemma {:induction false} NonEmptyClass(keys: Keys, s: seq<Item>, x: Item) returns (i: nat)
    requires Keyed(keys, s) && HasKeys(keys, x) && Class(keys, s, x) != []
    ensures i < |s| && CompareItems(keys, x, s[i]) == 0
  {
    if CompareItems(keys, x, s[0]) == 0 {
      i := 0;
    } else {
      i := NonEmptyClass(keys, s[1..], x);
      i := i + 1;
    }
  }

  lemma HeadOfClass(keys: Keys, s: seq<Item>, t: seq<Item>)
    requires Keyed(keys, s) && Keyed(keys, t) && Sorted(keys, s) && Sorted(keys, t)
    requires s != [] && forall y :: HasKeys(keys, y) ==> Class(keys, s, y) == Class(keys, t, y)
    ensures t != [] && CompareItems(keys, t[0], s[0]) <= 0
  {
    ItemsZeroIffEqualKeys(keys, s[0], s[0]);
    ClassMembers(keys, s, s[0], 0);
    var i := NonEmptyClass(keys, t, s[0]);
    ItemsNegate(keys, s[0], t[i]);
    if i > 0 {
      ItemsTransitive(keys, t[0], t[i], s[0]);
    }
  }

  lemma ClassTail(keys: Keys, s: seq<Item>, x: Item)
    requires Keyed(keys, s) && HasKeys(keys, x) && s != []
    ensures CompareItems(keys, x, s[0]) == 0 ==> Class(keys, s, x) != [] && Class(keys, s[1..], x) == Class(keys, s, x)[1..]
    ensures CompareItems(keys, x, s[0]) != 0 ==> Class(keys, s[1..], x) == Class(keys, s, x)
  {
  }

  /** Being sorted and keeping every class in order leaves no choice: the stable sort is unique. */
  lemma {:induction false} SortedAndStableIsUnique(keys: Keys, s: seq<Item>, t: seq<Item>)
    requires Keyed(keys, s) && Keyed(keys, t) && Sorted(keys, s) && Sorted(keys, t)
    requires forall y :: HasKeys(keys, y) ==> Class(keys, s, y) == Class(keys, t, y)
    ensures s == t
  {
    hide CompareItems;
    if s == [] {
      if t != [] {
        HeadOfClass(keys, t, s);
      }
    } else {
      HeadOfClass(keys, s, t);
      HeadOfClass(keys, t, s);
      ItemsNegate(keys, s[0], t[0]);
      ItemsZeroIffEqualKeys(keys, s[0], s[0]);
      assert Class(keys, s, s[0])[0] == Class(keys, t, s[0])[0];
      assert s[0] == t[0];
      forall y | HasKeys(keys, y)
        ensures Class(keys, s[1..], y) == Class(keys, t[1..], y)
      {
        ClassTail(keys, s, y);
        ClassTail(keys, t, y);
      }
      SortedAndStableIsUnique(keys, s[1..], t[1..]);
      assert s == [s[0]] + s[1..] && t == [t[0]] + t[1..];
    }
  }

  // ---------------------------------------------------------------- merging

  /** Two lists merged, the first winning ties. */
  function Merge(keys: Keys, p: seq<Item>, q: seq<Item>): (r: seq<Item>)
    requires Keyed(keys, p) && Keyed(keys, q)
    ensures Keyed(keys, r)
  {
    if p == [] then q
    else if q == [] then p
    else if CompareItems(keys, p[0], q[0]) <= 0 then [p[0]] + Merge(keys, p[1..], q)
    else [q[0]] + Merge(keys, p, q[1..])
  }

  lemma AboveBoth(keys: Keys, x: Item, y: Item, z: Item)
    requires HasKeys(keys, x) && HasKeys(keys, y) && HasKeys(keys, z)
    requires CompareItems(keys, x, y) > 0 && CompareItems(keys, y, z) > 0
    ensures CompareItems(keys, x, z) > 0
  {
    hide CompareItems;
    ItemsNegate(keys, x, y);
    ItemsNegate(keys, y, z);
    ItemsNegate(keys, x, z);
    ItemsTransitive(keys, z, y, x);
    ItemsZeroIffEqualKeys(keys, x, y);
    ItemsZeroIffEqualKeys(keys, y, z);
    ItemsZeroIffEqualKeys(keys, x, z);
    if CompareItems(keys, x, z) == 0 {
      ItemsTransitive(keys, y, x, z);
    }
  }

  lemma {:induction false} MergeInsert(keys: Keys, x: Item, p: seq<Item>, q: seq<Item>)
    requires HasKeys(keys, x) && Keyed(keys, p) && Keyed(keys, q)
    requires Sorted(keys, p) && Sorted(keys, q)
    ensures Merge(keys, Insert(keys, x, p), q) == Insert(keys, x, Merge(keys, p, q))
    decreases |p| + |q|
  {
    hide CompareItems;
    var ip := Insert(keys, x, p);
    if q == [] {
    } else if p == [] || CompareItems(keys, x, p[0]) <= 0 {
      assert ip == [x] + p && ip[1..] == p;
      if CompareItems(keys, x, q[0]) > 0 {
        if p != [] {
          ItemsNegate(keys, x, q[0]);
          if CompareItems(keys, p[0], q[0]) <= 0 {
            ItemsTransitive(keys, x, p[0], q[0]);
          }
        }
        MergeInsert(keys, x, p, q[1..]);
      }
    } else {
      assert ip[0] == p[0] && ip[1..] == Insert(keys, x, p[1..]);
      if CompareItems(keys, p[0], q[0]) <= 0 {
        MergeInsert(keys, x, p[1..], q);
      } else {
        AboveBoth(keys, x, p[0], q[0]);
        MergeInsert(keys, x, p, q[1..]);
      }
    }
  }

  /** Merging two sorted lists sorts the first list's rows followed by the second's. */
  lemma {:induction false} MergeSorts(keys: Keys, a: seq<Item>, b: seq<Item>)
    requires Keyed(keys, a) && Keyed(keys, b)
    ensures Merge(keys, StableSort(keys, a), StableSort(keys, b)) == StableSort(keys, a + b)
  {
    hide CompareItems, HasKeys, Sorted, Insert;
    if a == [] {
      assert a + b == b;
    } else {
      MergeSorts(keys, a[1..], b);
      StableSortSorts(keys, a[1..]);
      StableSortSorts(keys, b);
      MergeInsert(keys, a[0], StableSort(keys, a[1..]), StableSort(keys, b));
      assert (a + b)[0] == a[0] && (a + b)[1..] == a[1..] + b;
    }
  }

  /** The merge as the executor runs it, moving the smaller head to the end of the result. */
  method MergeResultItems(keys: Keys, p1: seq<Item>, p2: seq<Item>) returns (r: seq<Item>)
    requires Keyed(keys, p1) && Keyed(keys, p2)
    ensures r == Merge(keys, p1, p2)
  {
    hide *;
    r := [];
    var p, q := p1, p2;
    while p != [] || q != []
      invariant Keyed(keys, p) && Keyed(keys, q)
      invariant r + Merge(keys, p, q) == Merge(keys, p1, p2)
      decreases |p| + |q|
    {
      MergeStep(keys, p, q);
      MergeEnds(keys);
      if p == [] {
        r, q := r + q, [];
      } else if q == [] {
        r, p := r + p, [];
      } else {
        var c := CmpResultItem(keys, p[0], q[0]);
        if c <= 0 {
          Regroup(r, p[0], Merge(keys, p[1..], q));
          r, p := r + [p[0]], p[1..];
        } else {
          Regroup(r, q[0], Merge(keys, p, q[1..]));
          r, q := r + [q[0]], q[1..];
        }
      }
    }
    MergeEnds(keys);
  }

  lemma Regroup(r: seq<Item>, x: Item, s: seq<Item>)
    ensures r + ([x] + s) == r + [x] + s
  {
  }

  lemma MergeEnds(keys: Keys)
    ensures Keyed(keys, []) && Merge(keys, [], []) == []
  {
  }

  /** One step of a merge. */
  lemma MergeStep(keys: Keys, p: seq<Item>, q: seq<Item>)
    requires Keyed(keys, p) && Keyed(keys, q)
    ensures p == [] ==> Merge(keys, p, q) == q
    ensures q == [] ==> Merge(keys, p, q) == p
    ensures p != [] ==> HasKeys(keys, p[0]) && Keyed(keys, p[1..])
    ensures q != [] ==> HasKeys(keys, q[0]) && Keyed(keys, q[1..])
    ensures p != [] && q != [] ==>
      Merge(keys, p, q) == if CompareItems(keys, p[0], q[0]) <= 0 then [p[0]] + Merge(keys, p[1..], q)
                           else [q[0]] + Merge(keys, p, q[1..])
  {
    hide CompareItems;
  }

  // ---------------------------------------------------------------- the bottom-up sort

  const SLOTS := 40

  function Pow2(i: nat): (r: nat)
    ensures r > 0
  {
    if i == 0 then 1 else 2 * Pow2(i - 1)
  }

  /** The segments from the `i`-th on, one after the other. */
  function Joined(segs: seq<seq<Item>>, i: nat): (r: seq<Item>)
    requires i <= |segs|
    decreases |segs| - i
  {
    if i == |segs| then [] else segs[i] + Joined(segs, i + 1)
  }

  /**
   * Slot `i` is empty or holds the sort of exactly 2^i rows; `segs` are those rows as they were added,
   * the later segments holding the rows added later.
   */
  ghost predicate SlotsHold(keys: Keys, slots: seq<seq<Item>>, segs: seq<seq<Item>>)
  {
    && |slots| == |segs| == SLOTS
    && (forall i :: 0 <= i < SLOTS ==> SlotHolds(keys, slots[i], segs[i], i))
  }

  ghost predicate SlotHolds(keys: Keys, slot: seq<Item>, seg: seq<Item>, i: nat) {
    && Keyed(keys, seg)
    && slot == StableSort(keys, seg)
    && (|seg| == 0 || |seg| == Pow2(i))
  }

  lemma {:induction false} EmptyPrefix(segs: seq<seq<Item>>, i: nat)
    requires i <= |segs| && forall j :: 0 <= j < i ==> segs[j] == []
    ensures Joined(segs, 0) == Joined(segs, i)
  {
    if i > 0 {
      EmptyPrefix(segs, i - 1);
    }
  }

  lemma {:induction false} SameSuffix(s: seq<seq<Item>>, t: seq<seq<Item>>, i: nat)
    requires i <= |s| == |t| && s[i..] == t[i..]
    ensures Joined(s, i) == Joined(t, i)
    decreases |s| - i
  {
    if i < |s| {
      assert s[i] == s[i..][0] && t[i] == t[i..][0];
      assert s[i + 1..] == s[i..][1..] && t[i + 1..] == t[i..][1..];
      SameSuffix(s, t, i + 1);
    }
  }

  /** Puts one more row into the slots, merging full slots on the way up like a binary counter. */
  method AddToSlots(keys: Keys, slots: array<seq<Item>>, x: Item, ghost segs: seq<seq<Item>>)
    returns (ghost segs': seq<seq<Item>>)
    requires slots.Length == SLOTS && SlotsHold(keys, slots[..], segs) && HasKeys(keys, x)
    requires |Joined(segs, 0)| + 1 < Pow2(SLOTS)
    modifies slots
    ensures SlotsHold(keys, slots[..], segs')
    ensures Joined(segs', 0) == [x] + Joined(segs, 0)
  {
    hide *;
    OneRow(keys, x, segs);
    SlotsShape(keys, slots[..], segs);
    segs' := segs;
    ghost var h := [x];
    var head := [x];
    var i := 0;
    while i < SLOTS && slots[i] != []
      invariant i <= SLOTS && SlotsHold(keys, slots[..], segs') && |segs'| == SLOTS
      invariant Keyed(keys, h) && head == StableSort(keys, h) && |h| == Pow2(i)
      invariant forall j :: 0 <= j < i ==> segs'[j] == []
      invariant h + Joined(segs', i) == [x] + Joined(segs, 0)
    {
      ghost var was := slots[..];
      SlotFacts(keys, was, segs', i);
      StepUp(keys, h, segs', i);
      head := MergeResultItems(keys, head, slots[i]);
      SetSlot(slots, i, []);
      SlotChanged(keys, was, segs', i, [], []);
      h, segs' := h + segs'[i], segs'[i := []];
      i := i + 1;
    }
    FullSlots(h, segs', i, x, segs);
    ghost var was := slots[..];
    SlotFacts(keys, was, segs', i);
    SetSlot(slots, i, head);
    SlotChanged(keys, was, segs', i, head, h);
    Settle(h, segs', i);
    segs' := segs'[i := h];
  }

  method SetSlot(slots: array<seq<Item>>, i: nat, slot: seq<Item>)
    requires i < slots.Length
    modifies slots
    ensures slots[..] == old(slots[..])[i := slot]
  {
    slots[i] := slot;
  }

  lemma OneRow(keys: Keys, x: Item, segs: seq<seq<Item>>)
    requires HasKeys(keys, x)
    ensures Keyed(keys, [x]) && StableSort(keys, [x]) == [x] && Pow2(0) == 1
    ensures Keyed(keys, []) && StableSort(keys, []) == []
  {
  }

  lemma SlotFacts(keys: Keys, slots: seq<seq<Item>>, segs: seq<seq<Item>>, i: nat)
    requires SlotsHold(keys, slots, segs) && i < SLOTS
    ensures |slots| == |segs| == SLOTS && Keyed(keys, segs[i]) && slots[i] == StableSort(keys, segs[i])
    ensures slots[i] != [] ==> |segs[i]| == Pow2(i)
    ensures slots[i] == [] ==> segs[i] == []
  {
    assert SlotHolds(keys, slots[i], segs[i], i);
    StableSortSorts(keys, segs[i]);
  }

  lemma SlotChanged(keys: Keys, slots: seq<seq<Item>>, segs: seq<seq<Item>>, i: nat, slot: seq<Item>, seg: seq<Item>)
    requires SlotsHold(keys, slots, segs) && i < SLOTS
    requires Keyed(keys, seg) && slot == StableSort(keys, seg) && (|seg| == 0 || |seg| == Pow2(i))
    ensures SlotsHold(keys, slots[i := slot], segs[i := seg])
  {
    hide StableSort, Keyed, Pow2;
  }

  lemma StepUp(keys: Keys, h: seq<Item>, segs: seq<seq<Item>>, i: nat)
    requires i < |segs| && Keyed(keys, h) && Keyed(keys, segs[i])
    ensures Merge(keys, StableSort(keys, h), StableSort(keys, segs[i])) == StableSort(keys, h + segs[i])
    ensures h + Joined(segs, i) == (h + segs[i]) + Joined(segs[i := []], i + 1)
    ensures Keyed(keys, h + segs[i])
    ensures |h| == |segs[i]| == Pow2(i) ==> |h + segs[i]| == Pow2(i + 1)
  {
    hide CompareItems, HasKeys, Merge, StableSort;
    MergeSorts(keys, h, segs[i]);
    SameSuffix(segs, segs[i := []], i + 1);
  }

  lemma SlotsShape(keys: Keys, slots: seq<seq<Item>>, segs: seq<seq<Item>>)
    requires SlotsHold(keys, slots, segs)
    ensures |slots| == |segs| == SLOTS
  {
    hide SlotHolds;
  }

  lemma FullSlots(h: seq<Item>, segs': seq<seq<Item>>, i: nat, x: Item, segs: seq<seq<Item>>)
    requires i <= SLOTS == |segs'| == |segs| && |h| == Pow2(i)
    requires h + Joined(segs', i) == [x] + Joined(segs, 0) && |Joined(segs, 0)| + 1 < Pow2(SLOTS)
    ensures i < SLOTS
  {
    hide Pow2;
    assert |h + Joined(segs', i)| == |[x] + Joined(segs, 0)|;
  }

  lemma Settle(h: seq<Item>, segs: seq<seq<Item>>, i: nat)
    requires i < |segs| && segs[i] == [] && forall j :: 0 <= j < i ==> segs[j] == []
    ensures Joined(segs[i := h], 0) == h + Joined(segs, i)
  {
    EmptyPrefix(segs[i := h], i);
    SameSuffix(segs, segs[i := h], i + 1);
  }

  /** Merges all slots, the lower ones first; the result is the sort of every row they hold. */
  method MergeSlots(keys: Keys, slots: array<seq<Item>>, ghost segs: seq<seq<Item>>) returns (r: seq<Item>)
    requires slots.Length == SLOTS && SlotsHold(keys, slots[..], segs)
    ensures Keyed(keys, Joined(segs, 0)) && r == StableSort(keys, Joined(segs, 0))
  {
    assert SLOTS > 1;
    hide *;
    SlotFacts(keys, slots[..], segs, 0);
    JoinedStep(segs, 0);
    r := slots[0];
    ghost var h := segs[0];
    for i := 1 to SLOTS
      invariant |segs| == SLOTS && Keyed(keys, h) && r == StableSort(keys, h)
      invariant h + Joined(segs, i) == Joined(segs, 0)
    {
      SlotMerged(keys, slots[..], segs, h, i);
      r := MergeResultItems(keys, r, slots[i]);
      h := h + segs[i];
    }
    NothingBehind(segs, h);
  }

  lemma JoinedStep(segs: seq<seq<Item>>, i: nat)
    requires i < |segs|
    ensures Joined(segs, i) == segs[i] + Joined(segs, i + 1)
  {
  }

  lemma SlotMerged(keys: Keys, slots: seq<seq<Item>>, segs: seq<seq<Item>>, h: seq<Item>, i: nat)
    requires SlotsHold(keys, slots, segs) && i < SLOTS && Keyed(keys, h)
    ensures |slots| == |segs| == SLOTS && Keyed(keys, StableSort(keys, h)) && Keyed(keys, slots[i])
    ensures Keyed(keys, h + segs[i]) && Merge(keys, StableSort(keys, h), slots[i]) == StableSort(keys, h + segs[i])
    ensures h + Joined(segs, i) == h + segs[i] + Joined(segs, i + 1)
  {
    hide *;
    SlotFacts(keys, slots, segs, i);
    JoinedStep(segs, i);
    KeyedAppend(keys, h, segs[i]);
    MergeSorts(keys, h, segs[i]);
    RegroupAll(h, segs[i], Joined(segs, i + 1));
  }

  lemma RegroupAll(h: seq<Item>, seg: seq<Item>, rest: seq<Item>)
    ensures h + (seg + rest) == h + seg + rest
  {
  }

  lemma KeyedAppend(keys: Keys, s: seq<Item>, t: seq<Item>)
    requires Keyed(keys, s) && Keyed(keys, t)
    ensures Keyed(keys, s + t)
  {
    hide HasKeys;
  }

  lemma NothingBehind(segs: seq<seq<Item>>, h: seq<Item>)
    ensures h + Joined(segs, |segs|) == h
  {
  }

  // ---------------------------------------------------------------- dropping duplicates

  /** Of every run of rows that compare equal, the first. */
  function Uniq(keys: Keys, s: seq<Item>): (r: seq<Item>)
    requires Keyed(keys, s)
    ensures Keyed(keys, r)
    ensures s != [] ==> r != [] && r[0] == s[0]
    decreases |s|
  {
    if |s| <= 1 then s
    else if CompareItems(keys, s[0], s[1]) == 0 then Uniq(keys, [s[0]] + s[2..])
    else [s[0]] + Uniq(keys, s[1..])
  }

  predicate SubClasses(keys: Keys, r: seq<Item>, s: seq<Item>) {
    forall x :: x in r ==> x in s
  }

  lemma StrictStep(keys: Keys, s: seq<Item>, j: nat)
    requires Keyed(keys, s) && Sorted(keys, s) && 1 <= j < |s| && CompareItems(keys, s[0], s[1]) != 0
    ensures CompareItems(keys, s[0], s[j]) < 0
  {
    hide CompareItems;
    if CompareItems(keys, s[0], s[j]) == 0 && j > 1 {
      ItemsNegate(keys, s[0], s[j]);
      ItemsTransitive(keys, s[1], s[j], s[0]);
      ItemsNegate(keys, s[0], s[1]);
    }
  }

  lemma {:induction false} NoClass(keys: Keys, s: seq<Item>, x: Item)
    requires Keyed(keys, s) && HasKeys(keys, x)
    requires forall j :: 0 <= j < |s| ==> CompareItems(keys, x, s[j]) != 0
    ensures Class(keys, s, x) == []
  {
    hide CompareItems;
    if s != [] {
      NoClass(keys, s[1..], x);
    }
  }

  /** After the uniq pass the rows ascend strictly, and each class is left with its first row. */
  lemma {:induction false} UniqFacts(keys: Keys, s: seq<Item>)
    requires Keyed(keys, s) && Sorted(keys, s)
    ensures StrictlySorted(keys, Uniq(keys, s))
    ensures SubClasses(keys, Uniq(keys, s), s)
    decreases |s|
  {
    hide CompareItems;
    if |s| > 1 {
      if CompareItems(keys, s[0], s[1]) == 0 {
        UniqFacts(keys, [s[0]] + s[2..]);
      } else {
        UniqFacts(keys, s[1..]);
        var rest := Uniq(keys, s[1..]);
        forall j | 0 <= j < |rest|
          ensures CompareItems(keys, s[0], rest[j]) < 0
        {
          assert rest[j] in s[1..];
          var k :| 0 <= k < |s[1..]| && s[1..][k] == rest[j];
          StrictStep(keys, s, k + 1);
        }
      }
    }
  }

  lemma {:induction false} UniqKeepsFirst(keys: Keys, s: seq<Item>, x: Item)
    requires Keyed(keys, s) && Sorted(keys, s) && HasKeys(keys, x)
    ensures Class(keys, Uniq(keys, s), x) == if Class(keys, s, x) == [] then [] else [Class(keys, s, x)[0]]
    decreases |s|
  {
    hide CompareItems;
    if |s| == 1 {
      assert s[1..] == [];
    } else if |s| > 1 {
      var c := CompareItems(keys, x, s[0]);
      ItemsNegate(keys, x, s[0]);
      if CompareItems(keys, s[0], s[1]) == 0 {
        var t := [s[0]] + s[2..];
        UniqKeepsFirst(keys, t, x);
        assert t[1..] == s[1..][1..] == s[2..];
        if c != 0 && CompareItems(keys, x, s[1]) == 0 {
          ItemsZeroIffEqualKeys(keys, x, s[1]);
          ItemsZeroIffEqualKeys(keys, s[0], s[1]);
          ItemsZeroIffEqualKeys(keys, x, s[0]);
        }
      } else {
        UniqKeepsFirst(keys, s[1..], x);
        var u := Uniq(keys, s);
        assert u[1..] == Uniq(keys, s[1..]);
        if c == 0 {
          forall j | 0 <= j < |s[1..]|
            ensures CompareItems(keys, x, s[1..][j]) != 0
          {
            StrictStep(keys, s, j + 1);
            ItemsZeroIffEqualKeys(keys, x, s[0]);
            ItemsZeroIffEqualKeys(keys, x, s[j + 1]);
            ItemsZeroIffEqualKeys(keys, s[0], s[j + 1]);
          }
          NoClass(keys, s[1..], x);
        }
      }
    }
  }

  /** The uniq pass as the executor runs it, unlinking every row equal to the last one kept. */
  method UniqPass(keys: Keys, s: seq<Item>) returns (r: seq<Item>)
    requires Keyed(keys, s)
    ensures r == Uniq(keys, s)
  {
    hide CompareItems, HasKeys;
    if s == [] {
      return [];
    }
    r := [];
    var prev := s[0];
    var p := 1;
    assert [prev] + s[p..] == s;
    while p < |s|
      invariant 1 <= p <= |s| && HasKeys(keys, prev)
      invariant Uniq(keys, s) == r + Uniq(keys, [prev] + s[p..])
    {
      ghost var rest := [prev] + s[p..];
      assert rest[1..] == s[p..] == [s[p]] + s[p + 1..] && rest[2..] == s[p + 1..];
      var c := CmpResultItem(keys, prev, s[p]);
      if c != 0 {
        r, prev := r + [prev], s[p];
      }
      p := p + 1;
    }
    r := r + [prev];
    assert [prev] + s[p..] == [prev];
  }

  // ---------------------------------------------------------------- the sort

  /** What a list holds after sorting, given its rows in the order they were added. */
  function SortedList(keys: Keys, added: seq<Item>, uniq: bool): (r: seq<Item>)
    requires Keyed(keys, added)
    ensures Keyed(keys, r)
  {
    var r := StableSort(keys, added);
    if uniq then Uniq(keys, r) else r
  }

  /** The check that closes the sort: neighbours ascend, strictly when duplicates were dropped. */
  lemma SortedListAscends(keys: Keys, added: seq<Item>, uniq: bool)
    requires Keyed(keys, added)
    ensures Sorted(keys, SortedList(keys, added, uniq))
    ensures uniq ==> StrictlySorted(keys, SortedList(keys, added, uniq))
  {
    hide CompareItems;
    StableSortSorts(keys, added);
    UniqFacts(keys, StableSort(keys, added));
  }

  lemma {:induction false} ReverseKeyed(keys: Keys, s: seq<Item>)
    requires Keyed(keys, s)
    ensures Keyed(keys, Reverse(s))
  {
    if s != [] {
      ReverseKeyed(keys, s[1..]);
    }
  }

  lemma {:induction false} ReverseAppend<T>(s: seq<T>, x: T)
    ensures Reverse(s + [x]) == [x] + Reverse(s)
  {
    if s != [] {
      assert (s + [x])[1..] == s[1..] + [x];
      ReverseAppend(s[1..], x);
    }
  }

  lemma {:induction false} ReverseTwice<T>(s: seq<T>)
    ensures Reverse(Reverse(s)) == s
  {
    if s != [] {
      ReverseAppend(Reverse(s[1..]), s[0]);
      ReverseTwice(s[1..]);
    }
  }

  lemma {:induction false} NothingJoined(segs: seq<seq<Item>>, i: nat)
    requires i <= |segs| && forall j :: 0 <= j < |segs| ==> segs[j] == []
    ensures Joined(segs, i) == []
    decreases |segs| - i
  {
    if i < |segs| {
      NothingJoined(segs, i + 1);
    }
  }

  /**
   * Sorts a list, whose head is the row added last. Forty slots are enough below 2^40 rows, and the
   * result is the stable sort of the rows in the order they were added.
   */
  method SortResultList(keys: Keys, items: seq<Item>, uniq: bool) returns (r: seq<Item>)
    requires Keyed(keys, items) && |items| < Pow2(SLOTS)
    ensures Keyed(keys, Reverse(items)) && r == SortedList(keys, Reverse(items), uniq)
  {
    hide CompareItems, HasKeys, StableSort, Pow2;
    var slots := new seq<Item>[SLOTS](_ => []);
    ghost var segs: seq<seq<Item>> := seq(SLOTS, _ => []);
    NothingJoined(segs, 0);
    EmptySlots(keys, slots[..], segs);
    for k := 0 to |items|
      invariant SlotsHold(keys, slots[..], segs)
      invariant Joined(segs, 0) == Reverse(items[..k])
    {
      segs := AddToSlots(keys, slots, items[k], segs);
      ReverseAppend(items[..k], items[k]);
      assert items[..k + 1] == items[..k] + [items[k]];
    }
    assert items[..|items|] == items;
    r := MergeSlots(keys, slots, segs);
    if uniq {
      r := UniqPass(keys, r);
    }
  }

  lemma EmptySlots(keys: Keys, slots: seq<seq<Item>>, segs: seq<seq<Item>>)
    requires |slots| == |segs| == SLOTS
    requires forall i :: 0 <= i < SLOTS ==> slots[i] == segs[i] == []
    ensures SlotsHold(keys, slots, segs)
  {
  }
}
