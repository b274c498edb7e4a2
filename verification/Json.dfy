/** JSON values as src/json.c builds them, and the total order every sort in src/query.c relies on. */
module JsonValues {

  /** A C string: no byte of it is the terminator. */
  type CString = s: string | NulFree(s)

  predicate NulFree(s: string) {
    forall i :: 0 <= i < |s| ==> s[i] != '\0'
  }

  /** One label and value of a struct. */
  datatype Member<N> = Member(name: CString, value: Json<N>)

  /**
   * A JsonNode. `Absent` is the null pointer, which the parser stores for a missing element
   * (`[,]` is an array of two of them). Numbers are `N`: reals where values are compared,
   * lexemes where text is read and written.
   */
  datatype Json<N> =
    | Absent
    | False
    | True
    | Real(r: N)
    | Null
    | String(z: CString)
    | Array(elems: seq<Json<N>>)
    | Struct(members: seq<Member<N>>)
  {
    /** The rank eJType gives to a node; a null pointer has none. */
    function JType(): (t: int)
    {
      match this
      case Absent => -1
      case False => 0
      case True => 1
      case Real(_) => 2
      case Null => 3
      case String(_) => 4
      case Array(_) => 5
      case Struct(_) => 6
    }
  }
}

/** The order on JSON values and on the sort keys built from them. */
module JsonOrder {
  import opened JsonValues

  type Value = Json<real>

  /** The library's string comparison: the difference of the first bytes that differ. */
  function Strcmp(a: CString, b: CString): int {
    if a == "" && b == "" then 0
    else if a == "" then -(b[0] as int)
    else if b == "" then a[0] as int
    else if a[0] != b[0] then a[0] as int - b[0] as int
    else Strcmp(a[1..], b[1..])
  }

  /** Negative, zero or positive as `l` sorts before, with or after `r`. */
  function Compare(l: Value, r: Value): int
    decreases l, 1
  {
    if l.Absent? then (if r.Absent? then 0 else -1)
    else if r.Absent? then 1
    else if l.JType() != r.JType() then l.JType() - r.JType()
    else match l
      case Real(x) => if x < r.r then -1 else if x > r.r then 1 else 0
      case String(z) => Strcmp(z, r.z)
      case Array(elems) => CompareElems(elems, r.elems)
      case Struct(members) => CompareMembers(members, r.members)
      case _ => 0
  }

  /** The common prefix decides; after it the array with more elements is the greater one. */
  function CompareElems(ls: seq<Value>, rs: seq<Value>): int
    decreases ls, 0
  {
    if ls == [] || rs == [] then |ls| - |rs|
    else
      var c := Compare(ls[0], rs[0]);
      if c != 0 then c else CompareElems(ls[1..], rs[1..])
  }

  /** Label before value, member by member; a proper prefix sorts first. */
  function CompareMembers(ls: seq<Member<real>>, rs: seq<Member<real>>): int
    decreases ls, 0
  {
    if ls == [] then (if rs == [] then 0 else -1)
    else if rs == [] then 1
    else
      var c := Strcmp(ls[0].name, rs[0].name);
      if c != 0 then c
      else
        var d := Compare(ls[0].value, rs[0].value);
        if d != 0 then d else CompareMembers(ls[1..], rs[1..])
  }

  /** The comparison as the executor runs it, a cursor moving along both arrays or both member lists. */
  method JsonCompare(l: Value, r: Value) returns (c: int)
    ensures c == Compare(l, r)
    decreases l
  {
    if l.Absent? {
      return if r.Absent? then 0 else -1;
    }
    if r.Absent? {
      return 1;
    }
    if l.JType() != r.JType() {
      return l.JType() - r.JType();
    }
    match l {
      case Real(x) =>
        c := if x < r.r then -1 else if x > r.r then 1 else 0;
      case String(z) =>
        c := Strcmp(z, r.z);
      case Array(ls) =>
        var mx := if |ls| > |r.elems| then |r.elems| else |ls|;
        for i := 0 to mx
          invariant Compare(l, r) == CompareElems(ls[i..], r.elems[i..])
        {
          c := JsonCompare(ls[i], r.elems[i]);
          if c != 0 {
            return;
          }
        }
        c := |ls| - |r.elems|;
      case Struct(ls) =>
        var a := 0;
        while a < |ls| && a < |r.members|
          invariant a <= |ls| && a <= |r.members|
          invariant Compare(l, r) == CompareMembers(ls[a..], r.members[a..])
        {
          c := Strcmp(ls[a].name, r.members[a].name);
          if c != 0 {
            return;
          }
          c := JsonCompare(ls[a].value, r.members[a].value);
          if c != 0 {
            return;
          }
          a := a + 1;
        }
        c := if a < |ls| then 1 else if a < |r.members| then -1 else 0;
      case _ =>
        c := 0;
    }
  }

  lemma {:induction false} StrcmpLaws(a: CString, b: CString, c: CString)
    ensures Strcmp(a, b) == -Strcmp(b, a)
    ensures Strcmp(a, b) == 0 <==> a == b
    ensures Strcmp(a, b) <= 0 && Strcmp(b, c) <= 0 ==> Strcmp(a, c) <= 0
  {
    if a != "" && b != "" {
      StrcmpLaws(a[1..], b[1..], if c == "" then c else c[1..]);
      assert a[0] == b[0] && a[1..] == b[1..] ==> a == [a[0]] + a[1..] == b;
    }
  }

  /** Swapping the operands negates the answer, so in particular every value equals itself. */
  lemma {:induction false} CompareNegates(l: Value, r: Value)
    ensures Compare(l, r) == -Compare(r, l)
    decreases l, 1
  {
    if l.String? && r.String? {
      StrcmpLaws(l.z, r.z, l.z);
    } else if l.Array? && r.Array? {
      ElemsNegate(l.elems, r.elems);
    } else if l.Struct? && r.Struct? {
      MembersNegate(l.members, r.members);
    }
  }

  lemma {:induction false} ElemsNegate(ls: seq<Value>, rs: seq<Value>)
    ensures CompareElems(ls, rs) == -CompareElems(rs, ls)
    decreases ls, 0
  {
    if ls != [] && rs != [] {
      CompareNegates(ls[0], rs[0]);
      ElemsNegate(ls[1..], rs[1..]);
    }
  }

  lemma {:induction false} MembersNegate(ls: seq<Member<real>>, rs: seq<Member<real>>)
    ensures CompareMembers(ls, rs) == -CompareMembers(rs, ls)
    decreases ls, 0
  {
    if ls != [] && rs != [] {
      StrcmpLaws(ls[0].name, rs[0].name, "");
      CompareNegates(ls[0].value, rs[0].value);
      MembersNegate(ls[1..], rs[1..]);
    }
  }

  /** Zero means structurally equal, and nothing else does. */
  lemma {:induction false} ZeroIffEqual(l: Value, r: Value)
    ensures Compare(l, r) == 0 <==> l == r
    decreases l, 1
  {
    if l.String? && r.String? {
      StrcmpLaws(l.z, r.z, "");
    } else if l.Array? && r.Array? {
      ElemsZeroIffEqual(l.elems, r.elems);
    } else if l.Struct? && r.Struct? {
      MembersZeroIffEqual(l.members, r.members);
    }
  }

  lemma {:induction false} ElemsZeroIffEqual(ls: seq<Value>, rs: seq<Value>)
    ensures CompareElems(ls, rs) == 0 <==> ls == rs
    decreases ls, 0
  {
    if ls != [] && rs != [] {
      ZeroIffEqual(ls[0], rs[0]);
      ElemsZeroIffEqual(ls[1..], rs[1..]);
      assert ls == [ls[0]] + ls[1..] && rs == [rs[0]] + rs[1..];
    }
  }

  lemma {:induction false} MembersZeroIffEqual(ls: seq<Member<real>>, rs: seq<Member<real>>)
    ensures CompareMembers(ls, rs) == 0 <==> ls == rs
    decreases ls, 0
  {
    if ls != [] && rs != [] {
      StrcmpLaws(ls[0].name, rs[0].name, "");
      ZeroIffEqual(ls[0].value, rs[0].value);
      MembersZeroIffEqual(ls[1..], rs[1..]);
      assert ls == [ls[0]] + ls[1..] && rs == [rs[0]] + rs[1..];
    }
  }

  lemma {:induction false} CompareTransitive(a: Value, b: Value, c: Value)
    requires Compare(a, b) <= 0 && Compare(b, c) <= 0
    ensures Compare(a, c) <= 0
    decreases a, 1
  {
    if a.String? && b.String? && c.String? {
      StrcmpLaws(a.z, b.z, c.z);
    } else if a.Array? && b.Array? && c.Array? {
      ElemsTransitive(a.elems, b.elems, c.elems);
    } else if a.Struct? && b.Struct? && c.Struct? {
      MembersTransitive(a.members, b.members, c.members);
    }
  }

  /** Equal neighbours may be replaced by each other on either side of a comparison. */
  lemma HeadsDecide(a: Value, b: Value, c: Value)
    requires Compare(a, b) <= 0 && Compare(b, c) <= 0
    ensures Compare(a, c) == 0 ==> Compare(a, b) == 0 && Compare(b, c) == 0
  {
    ZeroIffEqual(a, c);
    CompareNegates(a, b);
  }

  lemma {:induction false} ElemsTransitive(s: seq<Value>, t: seq<Value>, u: seq<Value>)
    requires CompareElems(s, t) <= 0 && CompareElems(t, u) <= 0
    ensures CompareElems(s, u) <= 0
    decreases s, 0
  {
    if s != [] && t != [] && u != [] {
      CompareTransitive(s[0], t[0], u[0]);
      HeadsDecide(s[0], t[0], u[0]);
      if Compare(s[0], t[0]) == 0 && Compare(t[0], u[0]) == 0 {
        ElemsTransitive(s[1..], t[1..], u[1..]);
      }
    }
  }

  lemma {:induction false} MembersTransitive(s: seq<Member<real>>, t: seq<Member<real>>, u: seq<Member<real>>)
    requires CompareMembers(s, t) <= 0 && CompareMembers(t, u) <= 0
    ensures CompareMembers(s, u) <= 0
    decreases s, 0
  {
    if s != [] && t != [] && u != [] {
      var x, y, z := s[0].name, t[0].name, u[0].name;
      StrcmpLaws(x, y, z);
      StrcmpLaws(y, z, x);
      StrcmpLaws(x, z, y);
      if x == y == z {
        CompareTransitive(s[0].value, t[0].value, u[0].value);
        HeadsDecide(s[0].value, t[0].value, u[0].value);
        if Compare(s[0].value, t[0].value) == 0 && Compare(t[0].value, u[0].value) == 0 {
          MembersTransitive(s[1..], t[1..], u[1..]);
        }
      }
    }
  }

  // ---------------------------------------------------------------- sort keys

  /** The keys of one row waiting to be sorted; what follows the keys rides along. */
  type Item = seq<Value>

  /** How rows are compared: by the first value alone, or by a list of keys, each possibly descending. */
  datatype Keys = First | By(descending: seq<bool>)
  {
    function Count(): nat {
      if First? then 1 else |descending|
    }
  }

  /** The index of the first of `n` keys on which two rows differ, or `n`. */
  function FirstDifference(p: Item, q: Item, n: nat, i: nat): (k: nat)
    requires i <= n <= |p| && n <= |q|
    ensures i <= k <= n
    ensures forall j :: i <= j < k ==> Compare(p[j], q[j]) == 0
    ensures k < n ==> Compare(p[k], q[k]) != 0
    decreases n - i
  {
    if i == n || Compare(p[i], q[i]) != 0 then i else FirstDifference(p, q, n, i + 1)
  }

  predicate HasKeys(keys: Keys, p: Item) {
    keys.Count() <= |p|
  }

  /** The comparison of rows: the first key that differs decides, and is negated when descending. */
  function CompareItems(keys: Keys, p: Item, q: Item): int
    requires HasKeys(keys, p) && HasKeys(keys, q)
  {
    var k := FirstDifference(p, q, keys.Count(), 0);
    if k == keys.Count() then 0
    else if keys.By? && keys.descending[k] then -Compare(p[k], q[k])
    else Compare(p[k], q[k])
  }

  /** The comparison of rows as the executor runs it. */
  method CmpResultItem(keys: Keys, p: Item, q: Item) returns (c: int)
    requires HasKeys(keys, p) && HasKeys(keys, q)
    ensures c == CompareItems(keys, p, q)
  {
    c := 0;
    var i := 0;
    while i < keys.Count()
      invariant i <= keys.Count() && c == 0
      invariant FirstDifference(p, q, keys.Count(), 0) == FirstDifference(p, q, keys.Count(), i)
    {
      c := JsonCompare(p[i], q[i]);
      if c != 0 {
        break;
      }
      i := i + 1;
    }
    if c != 0 && keys.By? && keys.descending[i] {
      c := -c;
    }
  }

  /** Rows compare equal exactly when all their keys are equal. */
  lemma ItemsZeroIffEqualKeys(keys: Keys, p: Item, q: Item)
    requires HasKeys(keys, p) && HasKeys(keys, q)
    ensures CompareItems(keys, p, q) == 0 <==> p[..keys.Count()] == q[..keys.Count()]
  {
    var n := keys.Count();
    var k := FirstDifference(p, q, n, 0);
    forall j | 0 <= j < n
      ensures Compare(p[j], q[j]) == 0 <==> p[j] == q[j]
    {
      ZeroIffEqual(p[j], q[j]);
    }
    if k < n {
      assert p[..n][k] != q[..n][k];
    }
  }

  lemma ItemsNegate(keys: Keys, p: Item, q: Item)
    requires HasKeys(keys, p) && HasKeys(keys, q)
    ensures CompareItems(keys, p, q) == -CompareItems(keys, q, p)
  {
    var n := keys.Count();
    forall j | 0 <= j < n
      ensures Compare(p[j], q[j]) == -Compare(q[j], p[j])
    {
      CompareNegates(p[j], q[j]);
    }
    assert FirstDifference(p, q, n, 0) == FirstDifference(q, p, n, 0);
  }

  lemma ItemsTransitive(keys: Keys, p: Item, q: Item, r: Item)
    requires HasKeys(keys, p) && HasKeys(keys, q) && HasKeys(keys, r)
    requires CompareItems(keys, p, q) <= 0 && CompareItems(keys, q, r) <= 0
    ensures CompareItems(keys, p, r) <= 0
  {
    var n := keys.Count();
    var i, j := FirstDifference(p, q, n, 0), FirstDifference(q, r, n, 0);
    forall k | 0 <= k < n
      ensures Compare(p[k], q[k]) == 0 <==> p[k] == q[k]
      ensures Compare(q[k], r[k]) == 0 <==> q[k] == r[k]
      ensures Compare(p[k], r[k]) == 0 <==> p[k] == r[k]
    {
      ZeroIffEqual(p[k], q[k]);
      ZeroIffEqual(q[k], r[k]);
      ZeroIffEqual(p[k], r[k]);
    }
    if i == j < n {
      var descending := keys.By? && keys.descending[i];
      CompareNegates(p[i], q[i]);
      CompareNegates(q[i], r[i]);
      CompareNegates(p[i], r[i]);
      if descending {
        CompareTransitive(r[i], q[i], p[i]);
        HeadsDecide(r[i], q[i], p[i]);
      } else {
        CompareTransitive(p[i], q[i], r[i]);
        HeadsDecide(p[i], q[i], r[i]);
      }
      assert FirstDifference(p, r, n, 0) == i;
    } else {
      assert FirstDifference(p, r, n, 0) == if i < j then i else j;
    }
  }
}
