/** Chains of equal hash over a growing table: the interning tables of tool/lemon.c. */
module HashTables {

  datatype Option<T> = None | Some(value: T)

  /** One record: its key, its data, and the index of the next record with the same hash, or -1. */
  datatype Node<K, V> = Vacant | Node(key: K, data: V, next: int)

  /** The slot of a hash value: the low bits of it, `size` being a power of two. */
  function Slot(h: int, size: nat): (s: nat)
    requires size > 0
    ensures s < size
  {
    h % size
  }

  predicate PowerOfTwo(n: nat) {
    n == 1 || (n > 1 && n % 2 == 0 && PowerOfTwo(n / 2))
  }

  // ---------------------------------------------------------------- records and the map they stand for

  predicate NoTwice<K(==), V>(records: seq<(K, V)>) {
    forall i, j :: 0 <= i < j < |records| ==> records[i].0 != records[j].0
  }

  lemma NoTwiceMore<K, V>(records: seq<(K, V)>, k: K, v: V)
    requires NoTwice(records) && forall i :: 0 <= i < |records| ==> records[i].0 != k
    ensures NoTwice(records + [(k, v)])
  {
  }

  function MapOf<K(==), V>(records: seq<(K, V)>): map<K, V> {
    if records == [] then map[] else MapOf(records[..|records| - 1])[records[|records| - 1].0 := records[|records| - 1].1]
  }

  lemma {:induction false} MapOfHas<K, V>(records: seq<(K, V)>, i: nat)
    requires NoTwice(records) && i < |records|
    ensures records[i].0 in MapOf(records) && MapOf(records)[records[i].0] == records[i].1
  {
    if i < |records| - 1 {
      MapOfHas(records[..|records| - 1], i);
    }
  }

  lemma {:induction false} MapOfHasOnly<K, V>(records: seq<(K, V)>, k: K)
    requires k in MapOf(records)
    ensures exists i :: 0 <= i < |records| && records[i].0 == k
  {
    var n := |records| - 1;
    if records[n].0 != k {
      MapOfHasOnly(records[..n], k);
      var i :| 0 <= i < n && records[..n][i].0 == k;
      assert records[i].0 == k;
    }
  }

  lemma MapOfMore<K, V>(records: seq<(K, V)>, k: K, v: V)
    ensures MapOf(records + [(k, v)]) == MapOf(records)[k := v]
  {
    assert (records + [(k, v)])[..|records|] == records;
  }

  // ---------------------------------------------------------------- chains

  /** The last of the first `m` records whose hash falls into a slot, or -1. */
  function LastIn<K, V>(hash: K -> int, size: nat, records: seq<(K, V)>, s: nat, m: nat): (i: int)
    requires size > 0 && m <= |records|
    ensures -1 <= i < m && (i >= 0 ==> Slot(hash(records[i].0), size) == s)
    ensures forall j :: i < j < m ==> Slot(hash(records[j].0), size) != s
  {
    if m == 0 then -1
    else if Slot(hash(records[m - 1].0), size) == s then m - 1
    else LastIn(hash, size, records, s, m - 1)
  }

  lemma {:induction false} LastInPrefix<K, V>(hash: K -> int, size: nat, records: seq<(K, V)>, more: seq<(K, V)>, s: nat, m: nat)
    requires size > 0 && m <= |records|
    ensures LastIn(hash, size, records + more, s, m) == LastIn(hash, size, records, s, m)
  {
    if m > 0 {
      LastInPrefix(hash, size, records, more, s, m - 1);
    }
  }

  /** The first `m` records are in place, each linked to the one before it in its slot. */
  predicate Linked<K(==), V(==)>(hash: K -> int, tbl: seq<Node<K, V>>, ht: seq<int>, records: seq<(K, V)>, m: nat) {
    && m <= |records| && m <= |tbl| && |ht| > 0
    && (forall i :: 0 <= i < m ==>
          tbl[i] == Node(records[i].0, records[i].1,
                         LastIn(hash, |ht|, records, Slot(hash(records[i].0), |ht|), i)))
    && (forall s :: 0 <= s < |ht| ==> ht[s] == LastIn(hash, |ht|, records, s, m))
  }

  lemma LinkStep<K, V>(hash: K -> int, tbl: seq<Node<K, V>>, ht: seq<int>, records: seq<(K, V)>, m: nat, s: nat)
    requires Linked(hash, tbl, ht, records, m) && m < |records| && m < |tbl|
    requires s < |ht| && s == Slot(hash(records[m].0), |ht|)
    ensures Linked(hash, tbl[m := Node(records[m].0, records[m].1, ht[s])], ht[s := m], records, m + 1)
  {
    hide Slot;
  }

  lemma LinkedMore<K, V>(hash: K -> int, tbl: seq<Node<K, V>>, ht: seq<int>, records: seq<(K, V)>, more: seq<(K, V)>, m: nat)
    requires Linked(hash, tbl, ht, records, m)
    ensures Linked(hash, tbl, ht, records + more, m)
  {
    hide Slot, LastIn;
    forall s, i: nat | i <= m
      ensures LastIn(hash, |ht|, records + more, s, i) == LastIn(hash, |ht|, records, s, i)
    {
      LastInPrefix(hash, |ht|, records, more, s, i);
    }
  }

  lemma NothingLinked<K, V>(hash: K -> int, tbl: seq<Node<K, V>>, ht: seq<int>, records: seq<(K, V)>)
    requires |ht| > 0 && forall s :: 0 <= s < |ht| ==> ht[s] == -1
    ensures Linked(hash, tbl, ht, records, 0)
  {
  }

  /** A chain holds every record of its slot before `m`, from the last to the first. */
  lemma ChainFacts<K, V>(hash: K -> int, tbl: seq<Node<K, V>>, ht: seq<int>, records: seq<(K, V)>, m: nat, key: K)
    requires Linked(hash, tbl, ht, records, m)
    ensures Slot(hash(key), |ht|) < |ht|
    ensures var np := ht[Slot(hash(key), |ht|)];
      && -1 <= np < m && (np >= 0 ==> Slot(hash(records[np].0), |ht|) == Slot(hash(key), |ht|))
      && forall i :: np < i < m ==> records[i].0 != key
  {
    hide Slot;
  }

  lemma LinkFacts<K, V>(hash: K -> int, tbl: seq<Node<K, V>>, ht: seq<int>, records: seq<(K, V)>, m: nat, key: K, np: nat)
    requires Linked(hash, tbl, ht, records, m) && np < m
    requires Slot(hash(records[np].0), |ht|) == Slot(hash(key), |ht|)
    ensures tbl[np].Node? && tbl[np].key == records[np].0 && tbl[np].data == records[np].1
    ensures var next := tbl[np].next;
      && -1 <= next < np && (next >= 0 ==> Slot(hash(records[next].0), |ht|) == Slot(hash(key), |ht|))
      && forall i :: next < i < np ==> records[i].0 != key
  {
    hide Slot;
  }

  lemma RecordAt<K, V>(hash: K -> int, tbl: seq<Node<K, V>>, ht: seq<int>, records: seq<(K, V)>, m: nat, i: nat)
    requires Linked(hash, tbl, ht, records, m) && i < m
    ensures tbl[i].Node? && tbl[i].key == records[i].0 && tbl[i].data == records[i].1
  {
    hide Slot, LastIn;
  }

  class HashTable<K(==), V(==)> {
    const hash: K -> int
    var size: nat
    var count: nat
    var tbl: array<Node<K, V>>
    var ht: array<int>
    /** The records in the order they were inserted. */
    ghost var records: seq<(K, V)>

    ghost predicate Valid()
      reads this, tbl, ht
    {
      && PowerOfTwo(size) && tbl.Length == ht.Length == size
      && count == |records| <= size
      && NoTwice(records)
      && Linked(hash, tbl[..], ht[..], records, count)
    }

    ghost function Contents(): map<K, V>
      reads this
    {
      MapOf(records)
    }

    constructor (hash: K -> int, size: nat)
      requires PowerOfTwo(size)
      ensures Valid() && fresh(tbl) && fresh(ht) && this.hash == hash && Contents() == map[]
    {
      this.hash := hash;
      this.size := size;
      count := 0;
      tbl := new Node<K, V>[size](_ => Vacant);
      ht := new int[size](_ => -1);
      records := [];
    }

    lemma Tables()
      requires Valid()
      ensures size > 0 && tbl.Length == ht.Length == size && count == |records| <= size
      ensures Linked(hash, tbl[..], ht[..], records, count)
    {
      hide Linked, NoTwice;
    }

    /** The index of the record with a key, or -1. */
    method Search(key: K) returns (np: int)
      requires Valid()
      ensures np >= 0 ==> np < count && records[np].0 == key
      ensures np < 0 ==> forall i :: 0 <= i < count ==> records[i].0 != key
    {
      hide *;
      Tables();
      ChainFacts(hash, tbl[..], ht[..], records, count, key);
      np := ht[Slot(hash(key), size)];
      while np >= 0
        invariant -1 <= np < count
        invariant np >= 0 ==> Slot(hash(records[np].0), size) == Slot(hash(key), size)
        invariant forall i :: np < i < count ==> records[i].0 != key
      {
        LinkFacts(hash, tbl[..], ht[..], records, count, key, np);
        if tbl[np].key == key {
          return;
        }
        np := tbl[np].next;
      }
    }

    /** The data stored for a key. */
    method Find(key: K) returns (r: Option<V>)
      requires Valid()
      ensures r == if key in Contents() then Some(Contents()[key]) else None
    {
      var np := Search(key);
      if np >= 0 {
        RecordAt(hash, tbl[..], ht[..], records, count, np);
        MapOfHas(records, np);
        r := Some(tbl[np].data);
      } else {
        r := None;
        if key in Contents() {
          MapOfHasOnly(records, key);
        }
      }
    }

    /** Twice the room, every record linked into its new slot in the old order. */
    method Grow()
      requires Valid() && count == size
      modifies this
      ensures Valid() && fresh(tbl) && fresh(ht)
      ensures count < size && records == old(records)
    {
      hide *;
      Tables();
      var size2 := size * 2;
      var tbl2 := new Node<K, V>[size2](_ => Vacant);
      var ht2 := new int[size2](_ => -1);
      NothingLinked(hash, tbl2[..], ht2[..], records);
      for i := 0 to count
        invariant Linked(hash, tbl2[..], ht2[..], records, i)
        modifies tbl2, ht2
      {
        RecordAt(hash, tbl[..], ht[..], records, count, i);
        var s := Slot(hash(tbl[i].key), size2);
        LinkStep(hash, tbl2[..], ht2[..], records, i, s);
        ghost var t, h := tbl2[..], ht2[..];
        tbl2[i] := Node(tbl[i].key, tbl[i].data, ht2[s]);
        ht2[s] := i;
        assert tbl2[..] == t[i := tbl2[i]] && ht2[..] == h[s := i];
      }
      Doubled();
      size, tbl, ht := size2, tbl2, ht2;
      Rebuilt();
    }

    lemma Doubled()
      requires Valid()
      ensures PowerOfTwo(size * 2) && NoTwice(records)
    {
      hide Linked, NoTwice;
    }

    lemma Rebuilt()
      requires PowerOfTwo(size) && tbl.Length == ht.Length == size && count == |records| <= size && NoTwice(records)
      requires Linked(hash, tbl[..], ht[..], records, count)
      ensures Valid()
    {
      hide Linked, NoTwice, PowerOfTwo;
    }

    /** Adds a record unless there is one with its key; says whether it did. */
    method Insert(data: V, key: K) returns (ok: bool)
      requires Valid()
      modifies this, tbl, ht
      ensures Valid()
      ensures ok == (key !in old(Contents()))
      ensures Contents() == if ok then old(Contents())[key := data] else old(Contents())
    {
      hide Linked, Slot, PowerOfTwo, MapOf;
      var np := Search(key);
      if np >= 0 {
        MapOfHas(records, np);
        return false;
      }
      if key in Contents() {
        MapOfHasOnly(records, key);
      }
      if count >= size {
        Grow();
      }
      MapOfMore(records, key, data);
      Append(key, data, Slot(hash(key), size));
      ok := true;
    }

    method Append(key: K, data: V, s: nat)
      requires Valid() && count < size && s == Slot(hash(key), size)
      requires forall i :: 0 <= i < count ==> records[i].0 != key
      modifies this, tbl, ht
      ensures Valid() && records == old(records) + [(key, data)]
      ensures tbl == old(tbl) && ht == old(ht)
    {
      hide Linked, Slot, PowerOfTwo, NoTwice, LastIn, MapOf;
      ghost var all := records + [(key, data)];
      LinkedMore(hash, tbl[..], ht[..], records, [(key, data)], count);
      LinkStep(hash, tbl[..], ht[..], all, count, s);
      NoTwiceMore(records, key, data);
      ghost var t, h := tbl[..], ht[..];
      tbl[count] := Node(key, data, ht[s]);
      ht[s] := count;
      assert tbl[..] == t[count := tbl[count]] && ht[..] == h[s := count];
      count := count + 1;
      records := all;
    }
  }
}
