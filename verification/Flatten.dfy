/** The depth-first iterator behind EACH and FLATTEN, and the objects those operators build. */
module Flattening {
  import opened JsonValues
  import opened JsonOrder

  predicate IsContainer(v: Value) {
    v.Struct? || v.Array?
  }

  function Count(v: Value): nat
    requires IsContainer(v)
  {
    if v.Struct? then |v.members| else |v.elems|
  }

  function Child(v: Value, i: nat): (c: Value)
    requires IsContainer(v) && i < Count(v)
    ensures v decreases to c
  {
    if v.Struct? then v.members[i].value else v.elems[i]
  }

  /** The label of a struct member, or the index of an array element as a number. */
  function Key(v: Value, i: nat): Value
    requires IsContainer(v) && i < Count(v)
  {
    if v.Struct? then String(v.members[i].name) else Real(i as real)
  }

  /** A value found by the traversal and the keys that lead to it. */
  datatype Entry = Entry(path: seq<Value>, value: Value)

  function Under(path: seq<Value>, es: seq<Entry>): (r: seq<Entry>)
    ensures |r| == |es|
  {
    if es == [] then [] else [Entry(path + es[0].path, es[0].value)] + Under(path, es[1..])
  }

  /**
   * The traversal by recursion, from the `i`-th child on: EACH stops at the children, FLATTEN goes
   * through nested containers to the leaves, in document order.
   */
  function Entries(v: Value, i: nat, recursive: bool): seq<Entry>
    requires IsContainer(v) && i <= Count(v)
    decreases v, Count(v) - i
  {
    if i == Count(v) then []
    else
      var c := Child(v, i);
      (if recursive && IsContainer(c) then Under([Key(v, i)], Entries(c, 0, recursive))
       else [Entry([Key(v, i)], c)])
      + Entries(v, i + 1, recursive)
  }

  /** The path leads to `x` by way of one of the children from the `i`-th on. */
  ghost predicate Leads(v: Value, i: nat, path: seq<Value>, x: Value, recursive: bool)
    requires IsContainer(v)
    decreases |path|, 1
  {
    exists j :: i <= j < Count(v) && LeadsBy(v, j, path, x, recursive)
  }

  /** The first key of the path is that of the `j`-th child, and the rest of it leads on from there. */
  ghost predicate LeadsBy(v: Value, j: nat, path: seq<Value>, x: Value, recursive: bool)
    requires IsContainer(v) && j < Count(v)
    decreases |path|, 0
  {
    && path != []
    && Key(v, j) == path[0]
    && (if recursive && IsContainer(Child(v, j)) then Leads(Child(v, j), 0, path[1..], x, recursive)
        else |path| == 1 && x == Child(v, j))
  }

  lemma {:induction false} UnderMembers(key: Value, es: seq<Entry>, path: seq<Value>, x: Value)
    ensures Entry(path, x) in Under([key], es) <==> path != [] && path[0] == key && Entry(path[1..], x) in es
  {
    if es != [] {
      UnderMembers(key, es[1..], path, x);
      var e := es[0];
      assert ([key] + e.path)[1..] == e.path;
      if path != [] && path[0] == key && path[1..] == e.path {
        assert path == [key] + e.path;
      }
    }
  }

  lemma EntriesStep(v: Value, i: nat, recursive: bool)
    requires IsContainer(v) && i < Count(v)
    ensures var c := Child(v, i);
      Entries(v, i, recursive) ==
        (if recursive && IsContainer(c) then Under([Key(v, i)], Entries(c, 0, recursive)) else [Entry([Key(v, i)], c)])
        + Entries(v, i + 1, recursive)
  {
  }

  lemma ByContainer(v: Value, i: nat, path: seq<Value>, x: Value)
    requires IsContainer(v) && i < Count(v) && IsContainer(Child(v, i))
    ensures LeadsBy(v, i, path, x, true)
       <==> path != [] && path[0] == Key(v, i) && Leads(Child(v, i), 0, path[1..], x, true)
  {
    hide Leads, Key;
  }

  lemma ByItself(v: Value, i: nat, path: seq<Value>, x: Value, recursive: bool)
    requires IsContainer(v) && i < Count(v) && !(recursive && IsContainer(Child(v, i)))
    ensures LeadsBy(v, i, path, x, recursive) <==> Entry(path, x) == Entry([Key(v, i)], Child(v, i))
  {
    assert |path| == 1 && path[0] == Key(v, i) <==> path == [Key(v, i)];
    hide Leads, Key;
  }

  lemma LeadsStep(v: Value, i: nat, path: seq<Value>, x: Value, recursive: bool)
    requires IsContainer(v) && i < Count(v)
    ensures Leads(v, i, path, x, recursive)
       <==> LeadsBy(v, i, path, x, recursive) || Leads(v, i + 1, path, x, recursive)
  {
    hide LeadsBy;
  }

  /**
   * What the traversal finds: EACH the direct children, FLATTEN every value below that is neither a
   * struct nor an array, both under exactly the keys that lead to them. Empty containers yield nothing.
   */
  lemma {:induction false} EntriesAreTheLeaves(v: Value, i: nat, recursive: bool, path: seq<Value>, x: Value)
    requires IsContainer(v) && i <= Count(v)
    ensures Entry(path, x) in Entries(v, i, recursive) <==> Leads(v, i, path, x, recursive)
    decreases v, Count(v) - i
  {
    hide *;
    if i == Count(v) {
      NothingLeads(v, path, x, recursive);
    } else {
      EntriesAreTheLeaves(v, i + 1, recursive, path, x);
      var c := Child(v, i);
      if recursive && IsContainer(c) {
        UnderMembers(Key(v, i), Entries(c, 0, recursive), path, x);
        if path != [] {
          EntriesAreTheLeaves(c, 0, recursive, path[1..], x);
        }
        ByContainer(v, i, path, x);
      } else {
        ByItself(v, i, path, x, recursive);
      }
      EntriesStep(v, i, recursive);
      LeadsStep(v, i, path, x, recursive);
    }
  }

  lemma NothingLeads(v: Value, path: seq<Value>, x: Value, recursive: bool)
    requires IsContainer(v)
    ensures Entries(v, Count(v), recursive) == [] && !Leads(v, Count(v), path, x, recursive)
  {
  }

  // ---------------------------------------------------------------- member paths

  /** An expression such as `a.b.c`. */
  datatype Path = Id(name: CString) | Dot(left: Path, name: CString)

  datatype Option<T> = None | Some(value: T)

  /** The first member of that name, or the number of members. */
  function IndexOf(members: seq<Member<real>>, name: CString): (i: nat)
    ensures i <= |members|
    ensures i < |members| ==> members[i].name == name
    ensures forall j :: 0 <= j < i ==> members[j].name != name
  {
    if members == [] || members[0].name == name then 0 else 1 + IndexOf(members[1..], name)
  }

  /** The value of a struct's first member of that name. */
  function Lookup(v: Value, name: CString): Option<Value> {
    if v.Struct? && IndexOf(v.members, name) < |v.members| then Some(v.members[IndexOf(v.members, name)].value)
    else None
  }

  /** The member a path leads to. */
  function Find(v: Value, path: Path): Option<Value> {
    if path.Id? then Lookup(v, path.name)
    else match Find(v, path.left)
      case None => None
      case Some(p) => Lookup(p, path.name)
  }

  /** Gives a struct's member a value; the member is added at the end if it is missing. */
  function SetMember(v: Value, name: CString, x: Value): (r: Value)
    requires v.Struct?
    ensures r.Struct? && Lookup(r, name) == Some(x)
    ensures forall other: CString :: other != name ==> Lookup(r, other) == Lookup(v, other)
  {
    var i := IndexOf(v.members, name);
    var r := Struct(if i < |v.members| then v.members[i := Member(name, x)] else v.members + [Member(name, x)]);
    SetMemberLooksUp(v.members, r.members, i);
    r
  }

  lemma SetMemberLooksUp(s: seq<Member<real>>, t: seq<Member<real>>, i: nat)
    requires i <= |s| <= |t| && i < |t| && |t| <= |s| + 1 && (i < |s| ==> |t| == |s|)
    requires forall j :: 0 <= j < |s| && j != i ==> t[j] == s[j]
    requires i < |s| ==> t[i].name == s[i].name
    requires i == IndexOf(s, t[i].name)
    ensures IndexOf(t, t[i].name) == i
    ensures forall other: CString :: other != t[i].name ==> Lookup(Struct(t), other) == Lookup(Struct(s), other)
  {
    forall other: CString | other != t[i].name
      ensures Lookup(Struct(t), other) == Lookup(Struct(s), other)
    {
      var j, k := IndexOf(s, other), IndexOf(t, other);
      if j < |s| {
        assert t[j].name == other;
      }
      if k < |t| {
        assert k != i && s[k].name == other;
      }
    }
  }

  /** Whether the path with its last name cut off leads to a struct that can take a member of that name. */
  predicate CanPut(v: Value, path: Path) {
    if path.Id? then v.Struct?
    else Find(v, path.left).Some? && Find(v, path.left).value.Struct?
  }

  /** The value with the member a path leads to replaced, or added. */
  function Put(v: Value, path: Path, x: Value): (r: Value)
    requires CanPut(v, path)
    ensures r.Struct? && Find(r, path) == Some(x)
  {
    if path.Id? then SetMember(v, path.name, x)
    else
      FoundCanPut(v, path.left);
      Put(v, path.left, SetMember(Find(v, path.left).value, path.name, x))
  }

  /** A path that leads to a member can be assigned through, so an operator without AS never fails. */
  lemma {:induction false} FoundCanPut(v: Value, path: Path)
    requires Find(v, path).Some?
    ensures v.Struct? && CanPut(v, path)
  {
    if path.Dot? {
      FoundCanPut(v, path.left);
    }
  }

  /** The names along a path, outermost first. */
  function Names(path: Path): (ns: seq<CString>)
    ensures ns != []
  {
    if path.Id? then [path.name] else Names(path.left) + [path.name]
  }

  /** Neither path leads through the other. */
  predicate Separate(p: Path, q: Path) {
    !(Names(p) <= Names(q)) && !(Names(q) <= Names(p))
  }

  /** The value that names lead to, one member after the other. */
  function Walk(v: Option<Value>, ns: seq<CString>): Option<Value> {
    if ns == [] then v
    else match Walk(v, ns[..|ns| - 1])
      case None => None
      case Some(p) => Lookup(p, ns[|ns| - 1])
  }

  lemma {:induction false} FindWalks(v: Value, path: Path)
    ensures Find(v, path) == Walk(Some(v), Names(path))
  {
    if path.Dot? {
      FindWalks(v, path.left);
      assert Names(path)[..|Names(path)| - 1] == Names(path.left);
    }
  }

  lemma {:induction false} WalkOn(v: Option<Value>, a: seq<CString>, b: seq<CString>)
    ensures Walk(v, a + b) == Walk(Walk(v, a), b)
  {
    if b == [] {
      assert a + b == a;
    } else {
      WalkOn(v, a, b[..|b| - 1]);
      assert (a + b)[..|a + b| - 1] == a + b[..|b| - 1];
    }
  }

  /** Setting a member changes nothing that is reached by another name. */
  lemma SetMemberKeeps(v: Value, name: CString, x: Value, ns: seq<CString>)
    requires v.Struct? && ns != [] && ns[0] != name
    ensures Walk(Some(SetMember(v, name, x)), ns) == Walk(Some(v), ns)
  {
    assert ns == [ns[0]] + ns[1..];
    WalkOn(Some(v), [ns[0]], ns[1..]);
    WalkOn(Some(SetMember(v, name, x)), [ns[0]], ns[1..]);
    FirstStep(v, ns[0]);
    FirstStep(SetMember(v, name, x), ns[0]);
  }

  lemma FirstStep(v: Value, name: CString)
    ensures Walk(Some(v), [name]) == Lookup(v, name)
  {
    assert [name][..0] == [];
  }

  /** Every member that no part of the path leads to keeps its value. */
  lemma {:induction false} PutKeepsOthers(v: Value, path: Path, x: Value, other: Path)
    requires CanPut(v, path) && Separate(path, other)
    ensures Find(Put(v, path, x), other) == Find(v, other)
    decreases path
  {
    var ns := Names(other);
    if path.Id? {
      FindWalks(v, other);
      FindWalks(Put(v, path, x), other);
      SetMemberKeeps(v, path.name, x, ns);
    } else {
      var l := Names(path.left);
      FoundCanPut(v, path.left);
      var y := SetMember(Find(v, path.left).value, path.name, x);
      if Separate(path.left, other) {
        PutKeepsOthers(v, path.left, y, other);
      } else {
        BelowLeft(path, other);
        PutKeepsBelow(v, path.left, Find(v, path.left).value, y, other);
        SetMemberKeeps(Find(v, path.left).value, path.name, x, ns[|l|..]);
      }
    }
  }

  lemma BelowLeft(path: Path, other: Path)
    requires path.Dot? && Separate(path, other) && !Separate(path.left, other)
    ensures Names(path.left) <= Names(other) && |Names(path.left)| < |Names(other)|
    ensures Names(other)[|Names(path.left)|] != path.name
  {
    var l, ns := Names(path.left), Names(other);
    assert l <= Names(path);
    assert |ns| > |l| ==> ns[..|l| + 1] == ns[..|l|] + [ns[|l|]];
  }

  /** What lies below a path after a value is put there. */
  lemma PutKeepsBelow(v: Value, path: Path, was: Value, y: Value, other: Path)
    requires CanPut(v, path) && Find(v, path) == Some(was) && Names(path) <= Names(other)
    ensures Find(Put(v, path, y), other) == Walk(Some(y), Names(other)[|Names(path)|..])
    ensures Find(v, other) == Walk(Some(was), Names(other)[|Names(path)|..])
  {
    hide *;
    var l, rest := Names(path), Names(other)[|Names(path)|..];
    var r := Put(v, path, y);
    assert Names(other) == l + rest;
    FindWalks(v, other);
    FindWalks(r, other);
    FindWalks(v, path);
    FindWalks(r, path);
    WalkOn(Some(v), l, rest);
    WalkOn(Some(r), l, rest);
  }

  /** The object a row of EACH or FLATTEN delivers: the base with the key and the value put at a path. */
  function FlattenedObject(base: Value, key: Value, val: Value, path: Path): (r: Value)
    requires CanPut(base, path)
    ensures Find(r, path) == Some(Struct([Member("k", key), Member("v", val)]))
  {
    Put(base, path, Struct([Member("k", key), Member("v", val)]))
  }

  /** What EACH or FLATTEN on a path goes through: nothing unless the path leads to a container. */
  function EntriesAt(base: Value, path: Path, recursive: bool): seq<Entry> {
    match Find(base, path)
    case Some(v) => if IsContainer(v) then Entries(v, 0, recursive) else []
    case None => []
  }

  // ---------------------------------------------------------------- the iterator

  /** A container being walked and how many of its children have been reached. */
  datatype Frame = Frame(val: Value, current: nat)

  predicate Walks(f: Frame) {
    IsContainer(f.val) && f.current <= Count(f.val)
  }

  /** Every container on the stack but the innermost stands on one of its children. */
  predicate GoodStack(stack: seq<Frame>) {
    forall k :: 0 <= k < |stack| ==> Walks(stack[k]) && (k + 1 < |stack| ==> stack[k].current > 0)
  }

  /** The keys of the children that the containers stand on, outermost first. */
  function KeyPath(stack: seq<Frame>): (r: seq<Value>)
    requires GoodStack(stack) && (stack != [] ==> stack[|stack| - 1].current > 0)
    ensures |r| == |stack|
  {
    if stack == [] then []
    else
      var top := stack[|stack| - 1];
      KeyPath(stack[..|stack| - 1]) + [Key(top.val, top.current - 1)]
  }

  /** What the iterator has still to deliver. */
  function Remaining(stack: seq<Frame>, recursive: bool): seq<Entry>
    requires GoodStack(stack)
  {
    if stack == [] then []
    else
      var below, top := stack[..|stack| - 1], stack[|stack| - 1];
      Under(KeyPath(below), Entries(top.val, top.current, recursive)) + Remaining(below, recursive)
  }

  /** Nodes still to be visited below `v` from its `i`-th child on, one more for leaving `v`. */
  function Weight(v: Value, i: nat): (w: nat)
    requires IsContainer(v) && i <= Count(v)
    ensures w > 0
    decreases v, Count(v) - i
  {
    if i == Count(v) then 1
    else
      var c := Child(v, i);
      1 + (if IsContainer(c) then Weight(c, 0) else 0) + Weight(v, i + 1)
  }

  function StackWeight(stack: seq<Frame>): nat
    requires GoodStack(stack)
  {
    if stack == [] then 0
    else
      var top := stack[|stack| - 1];
      Weight(top.val, top.current) + StackWeight(stack[..|stack| - 1])
  }

  lemma {:induction false} UnderAppend(path: seq<Value>, es: seq<Entry>, fs: seq<Entry>)
    ensures Under(path, es + fs) == Under(path, es) + Under(path, fs)
  {
    if es == [] {
      assert es + fs == fs;
    } else {
      assert es + fs == [es[0]] + (es[1..] + fs);
      UnderStep(path, es[0], es[1..] + fs);
      UnderAppend(path, es[1..], fs);
      hide Under;
      assert [es[0]] + es[1..] == es;
      UnderStep(path, es[0], es[1..]);
    }
  }

  lemma UnderStep(path: seq<Value>, e: Entry, es: seq<Entry>)
    ensures Under(path, [e] + es) == [Entry(path + e.path, e.value)] + Under(path, es)
  {
    assert ([e] + es)[1..] == es;
  }

  lemma {:induction false} UnderUnder(path: seq<Value>, key: Value, es: seq<Entry>)
    ensures Under(path, Under([key], es)) == Under(path + [key], es)
  {
    if es != [] {
      UnderUnder(path, key, es[1..]);
      assert path + ([key] + es[0].path) == path + [key] + es[0].path;
    }
  }

  lemma {:induction false} UnderNothing(es: seq<Entry>)
    ensures Under([], es) == es
  {
    if es != [] {
      UnderNothing(es[1..]);
      assert [] + es[0].path == es[0].path;
    }
  }

  /** The key an entry is delivered with: its whole path for FLATTEN, the child's own key for EACH. */
  function KeyOf(e: Entry, recursive: bool): Value {
    if recursive then Array(e.path) else if e.path == [] then Absent else e.path[0]
  }

  /** What the iterator stands on. */
  function Here(stack: seq<Frame>): Entry
    requires GoodStack(stack) && stack != [] && stack[|stack| - 1].current > 0
  {
    var top := stack[|stack| - 1];
    Entry(KeyPath(stack), Child(top.val, top.current - 1))
  }

  /** The stack with its innermost container on the next child. */
  function Advanced(stack: seq<Frame>): (r: seq<Frame>)
    requires GoodStack(stack) && stack != []
    requires stack[|stack| - 1].current < Count(stack[|stack| - 1].val)
    ensures GoodStack(r) && |r| == |stack| && r[|r| - 1].current > 0
    ensures r[..|r| - 1] == stack[..|stack| - 1]
  {
    var n := |stack| - 1;
    stack[n := stack[n].(current := stack[n].current + 1)]
  }

  lemma NothingRemains(recursive: bool)
    ensures Remaining([], recursive) == []
  {
  }

  lemma LeaveContainer(stack: seq<Frame>, recursive: bool)
    requires GoodStack(stack) && stack != []
    requires stack[|stack| - 1].current == Count(stack[|stack| - 1].val)
    ensures Remaining(stack, recursive) == Remaining(stack[..|stack| - 1], recursive)
    ensures StackWeight(stack[..|stack| - 1]) < StackWeight(stack)
  {
  }

  lemma RemainingStep(below: seq<Frame>, top: Frame, recursive: bool)
    requires GoodStack(below + [top]) && GoodStack(below) && Walks(top) && (below != [] ==> below[|below| - 1].current > 0)
    ensures Remaining(below + [top], recursive)
         == Under(KeyPath(below), Entries(top.val, top.current, recursive)) + Remaining(below, recursive)
    ensures StackWeight(below + [top]) == Weight(top.val, top.current) + StackWeight(below)
  {
    hide KeyPath, Entries, Weight;
    assert (below + [top])[..|below|] == below;
  }

  lemma KeyPathStep(below: seq<Frame>, top: Frame)
    requires GoodStack(below + [top]) && GoodStack(below) && Walks(top) && (below != [] ==> below[|below| - 1].current > 0)
    requires top.current > 0
    ensures KeyPath(below + [top]) == KeyPath(below) + [Key(top.val, top.current - 1)]
  {
    assert (below + [top])[..|below|] == below;
  }

  /** A stack seen as its innermost container on top of the others. */
  lemma StackSplit(stack: seq<Frame>)
    requires GoodStack(stack) && stack != []
    requires stack[|stack| - 1].current < Count(stack[|stack| - 1].val)
    ensures var below, top := stack[..|stack| - 1], stack[|stack| - 1];
      && stack == below + [top] && Walks(top) && Walks(top.(current := top.current + 1)) && IsContainer(top.val)
      && GoodStack(below) && (below != [] ==> below[|below| - 1].current > 0)
      && Advanced(stack) == below + [top.(current := top.current + 1)]
  {
  }

  lemma DeliverChild(stack: seq<Frame>, recursive: bool)
    requires GoodStack(stack) && stack != []
    requires stack[|stack| - 1].current < Count(stack[|stack| - 1].val)
    requires recursive ==> !IsContainer(Child(stack[|stack| - 1].val, stack[|stack| - 1].current))
    ensures Remaining(stack, recursive) == [Here(Advanced(stack))] + Remaining(Advanced(stack), recursive)
  {
    hide *;
    StackSplit(stack);
    var below, top := stack[..|stack| - 1], stack[|stack| - 1];
    var next := top.(current := top.current + 1);
    RemainingStep(below, top, recursive);
    RemainingStep(below, next, recursive);
    EntriesStep(top.val, top.current, recursive);
    var first := Entry([Key(top.val, top.current)], Child(top.val, top.current));
    UnderAppend(KeyPath(below), [first], Entries(top.val, top.current + 1, recursive));
    DeliveredFirst(below, next);
  }

  lemma DeliveredFirst(below: seq<Frame>, top: Frame)
    requires GoodStack(below + [top]) && GoodStack(below) && Walks(top) && (below != [] ==> below[|below| - 1].current > 0)
    requires top.current > 0
    ensures Under(KeyPath(below), [Entry([Key(top.val, top.current - 1)], Child(top.val, top.current - 1))])
         == [Here(below + [top])]
  {
    KeyPathStep(below, top);
  }

  lemma EnteredStack(stack: seq<Frame>, c: Value)
    requires GoodStack(stack) && stack != [] && stack[|stack| - 1].current < Count(stack[|stack| - 1].val)
    requires IsContainer(c)
    ensures Walks(Frame(c, 0)) && GoodStack(Advanced(stack) + [Frame(c, 0)])
  {
  }

  lemma WeightStep(v: Value, i: nat)
    requires IsContainer(v) && i < Count(v) && IsContainer(Child(v, i))
    ensures Weight(v, i) == 1 + Weight(Child(v, i), 0) + Weight(v, i + 1)
  {
  }

  lemma EnterChild(stack: seq<Frame>)
    requires GoodStack(stack) && stack != []
    requires stack[|stack| - 1].current < Count(stack[|stack| - 1].val)
    requires IsContainer(Child(stack[|stack| - 1].val, stack[|stack| - 1].current))
    ensures var inner := Advanced(stack) + [Frame(Child(stack[|stack| - 1].val, stack[|stack| - 1].current), 0)];
      && GoodStack(inner)
      && Remaining(inner, true) == Remaining(stack, true)
      && StackWeight(inner) < StackWeight(stack)
  {
    hide *;
    StackSplit(stack);
    var below, top := stack[..|stack| - 1], stack[|stack| - 1];
    var next := top.(current := top.current + 1);
    var c := Child(top.val, top.current);
    EnteredStack(stack, c);
    WeightStep(top.val, top.current);
    RemainingStep(below, top, true);
    RemainingStep(below, next, true);
    RemainingStep(Advanced(stack), Frame(c, 0), true);
    KeyPathStep(below, next);
    EntriesStep(top.val, top.current, true);
    var key, deeper := Key(top.val, top.current), Entries(c, 0, true);
    UnderAppend(KeyPath(below), Under([key], deeper), Entries(top.val, top.current + 1, true));
    UnderUnder(KeyPath(below), key, deeper);
  }

  /** Collects the keys of the containers, outermost first, from the innermost one up. */
  method PathKeys(frames: seq<Frame>) returns (list: seq<Value>)
    requires GoodStack(frames) && (frames != [] ==> frames[|frames| - 1].current > 0)
    ensures list == KeyPath(frames)
  {
    list := [];
    assert frames[..|frames|] == frames;
    for i := |frames| downto 0
      invariant GoodStack(frames[..i]) && (i > 0 ==> frames[i - 1].current > 0)
      invariant KeyPath(frames) == KeyPath(frames[..i]) + list
    {
      list := [Key(frames[i].val, frames[i].current - 1)] + list;
      assert frames[..i + 1][..i] == frames[..i];
    }
  }

  class FlattenIter {
    const recursive: bool
    var stack: seq<Frame>

    ghost predicate Valid()
      reads this
    {
      GoodStack(stack) && (recursive || |stack| <= 1)
    }

    /** Everything still to come. */
    ghost function Rest(): seq<Entry>
      requires Valid()
      reads this
    {
      Remaining(stack, recursive)
    }

    /** The iterator stands on a child that it delivers. */
    ghost predicate OnEntry()
      reads this
    {
      stack != [] && stack[|stack| - 1].current > 0
    }

    /** An iterator over nothing, the model of a null iterator. */
    constructor (recursive: bool)
      ensures Valid() && this.recursive == recursive && Rest() == []
    {
      this.recursive := recursive;
      stack := [];
    }

    /** Gives the iterator up. */
    method Clear()
      modifies this
      ensures Valid() && Rest() == []
    {
      stack := [];
    }

    /** Starts over on the member a path leads to, if that is a struct or an array. */
    method Begin(base: Value, path: Path)
      modifies this
      ensures Valid() && Rest() == EntriesAt(base, path, recursive)
    {
      stack := [];
      var v := Find(base, path);
      if v.Some? && IsContainer(v.value) {
        stack := [Frame(v.value, 0)];
        UnderNothing(Entries(v.value, 0, recursive));
        assert stack[..0] == [] && KeyPath([]) == [] && Remaining([], recursive) == [];
      }
    }

    /** The value the iterator stands on, and its key: the whole path for FLATTEN, the last key for EACH. */
    method EntryAt() returns (key: Value, val: Value)
      requires Valid() && OnEntry()
      ensures key == KeyOf(Here(stack), recursive) && val == Here(stack).value
    {
      var top := stack[|stack| - 1];
      val := Child(top.val, top.current - 1);
      if recursive {
        var path := PathKeys(stack);
        key := Array(path);
      } else {
        assert stack == [top] && stack[..0] == [];
        key := Key(top.val, top.current - 1);
      }
    }

    /**
     * Moves to the next entry of the traversal, entering containers on the way when FLATTEN does and
     * leaving those that are exhausted.
     */
    method Next() returns (row: bool)
      requires Valid()
      modifies this
      ensures Valid()
      ensures row ==> OnEntry() && old(Rest()) == [Here(stack)] + Rest()
      ensures !row ==> old(Rest()) == Rest() == []
    {
      hide Remaining, StackWeight, Here, Advanced, KeyPath, Entries;
      NothingRemains(recursive);
      row := false;
      while !row && stack != []
        invariant Valid()
        invariant row ==> OnEntry() && old(Rest()) == [Here(stack)] + Rest()
        invariant !row ==> Rest() == old(Rest())
        decreases !row, StackWeight(stack)
      {
        var top := stack[|stack| - 1];
        if top.current == Count(top.val) {
          LeaveContainer(stack, recursive);
          stack := stack[..|stack| - 1];
        } else {
          var c := Child(top.val, top.current);
          if recursive && IsContainer(c) {
            EnterChild(stack);
            stack := Advanced(stack) + [Frame(c, 0)];
          } else {
            DeliverChild(stack, recursive);
            stack := Advanced(stack);
            row := true;
          }
        }
      }
    }
  }
}
