/** The keyword table generator of tool/mkkeywordhash.c and the lookup of src/tokenize.c that reads its tables. */
module Keywords {

  /**
   * A row of the keyword table. `offset` is where the name starts in the common text, `prefix` how much of
   * it an earlier name has already written there; a name embedded in another carries that one's id.
   */
  datatype Keyword = Keyword(
    name: string,
    code: int,
    id: nat,
    substrId: nat,
    substrOffset: nat,
    offset: nat,
    prefix: nat)
  {
    /** What is left of the name to write. */
    function Remainder(): string {
      if prefix <= |name| then name[prefix..] else ""
    }
  }

  /** `s` stands in `text` at `k`. */
  predicate Occurs(text: string, k: nat, s: string) {
    k + |s| <= |text| && text[k..k + |s|] == s
  }

  /** The table as it starts: distinct names of at least two characters, numbered from one. */
  predicate Fresh(table: seq<Keyword>) {
    && (forall i :: 0 <= i < |table| ==>
          && |table[i].name| >= 2 && table[i].id == i + 1
          && table[i].substrId == 0 && table[i].offset == 0 && table[i].prefix == 0)
    && (forall i, j :: 0 <= i < j < |table| ==> table[i].name != table[j].name)
  }

  /** Names and ids tell the rows apart, and no id is zero. */
  predicate Distinct(table: seq<Keyword>) {
    && (forall i :: 0 <= i < |table| ==> |table[i].name| >= 2 && table[i].id > 0)
    && (forall i, j :: 0 <= i < j < |table| ==> table[i].name != table[j].name && table[i].id != table[j].id)
  }

  /** Row `j` holds the name of `e` as a part of its own. */
  predicate Embeds(table: seq<Keyword>, e: Keyword, j: int) {
    && 0 <= j < |table|
    && table[j].id == e.substrId && table[j].substrId == 0
    && Occurs(table[j].name, e.substrOffset, e.name)
  }

  /** Whatever row `m` says it is embedded in comes later, does embed it, and is not embedded itself. */
  ghost predicate Settled(table: seq<Keyword>, m: nat) {
    m < |table| && (table[m].substrId == 0 || exists j :: m < j && Embeds(table, table[m], j))
  }

  // ---------------------------------------------------------------- names inside other names

  /** The first place where one name stands in another, if there is one. */
  method FindIn(s: string, name: string) returns (found: bool, k: nat)
    requires |name| < |s|
    ensures found ==> Occurs(s, k, name)
    ensures !found ==> forall m: nat :: !Occurs(s, m, name)
  {
    k := 0;
    found := false;
    while k <= |s| - |name|
      invariant k <= |s| - |name| + 1
      invariant forall m: nat :: m < k ==> !Occurs(s, m, name)
    {
      if s[k..k + |name|] == name {
        found := true;
        return;
      }
      k := k + 1;
    }
  }

  /** The table with some rows marked as embedded; nothing else about a row changes. */
  predicate SameNames(t: seq<Keyword>, u: seq<Keyword>) {
    |t| == |u| && forall i :: 0 <= i < |t| ==> t[i].name == u[i].name && t[i].id == u[i].id && t[i].code == u[i].code
  }

  predicate Unplaced(t: seq<Keyword>) {
    forall i :: 0 <= i < |t| ==> t[i].offset == 0 && t[i].prefix == 0
  }

  /** Marks every name that stands in a longer one which is not marked itself, the later rows first. */
  method Eliminate(a: array<Keyword>)
    requires Distinct(a[..]) && Unplaced(a[..]) && forall i :: 0 <= i < a.Length ==> a[i].substrId == 0
    modifies a
    ensures SameNames(a[..], old(a[..])) && Unplaced(a[..])
    ensures forall i: nat :: i < a.Length ==> Settled(a[..], i)
  {
    var i := a.Length - 2;
    while i >= 0
      invariant i < a.Length && -2 <= i
      invariant SameNames(a[..], old(a[..])) && Unplaced(a[..])
      invariant forall m :: 0 <= m <= i ==> a[m].substrId == 0
      invariant forall m: nat :: i < m < a.Length ==> Settled(a[..], m)
    {
      EliminateOne(a, i);
      i := i - 1;
    }
  }

  /** Looks for a later, longer and unmarked name that holds the name of row `i`. */
  method EliminateOne(a: array<Keyword>, i: nat)
    requires i < a.Length && a[i].substrId == 0
    requires forall m: nat :: i < m < a.Length ==> Settled(a[..], m)
    modifies a
    ensures forall m :: 0 <= m < a.Length && m != i ==> a[m] == old(a[m])
    ensures a[i] == old(a[i]).(substrId := a[i].substrId, substrOffset := a[i].substrOffset)
    ensures forall m: nat :: i <= m < a.Length ==> Settled(a[..], m)
  {
    var j := a.Length - 1;
    while j > i && a[i].substrId == 0
      invariant i <= j < a.Length
      invariant forall m :: 0 <= m < a.Length && m != i ==> a[m] == old(a[m])
      invariant a[i] == old(a[i]).(substrId := a[i].substrId, substrOffset := a[i].substrOffset)
      invariant a[i].substrId == 0 || exists k :: i < k && Embeds(a[..], a[i], k)
    {
      if a[j].substrId == 0 && |a[j].name| > |a[i].name| {
        var found, k := FindIn(a[j].name, a[i].name);
        if found {
          a[i] := a[i].(substrId := a[j].id, substrOffset := k);
          assert Embeds(a[..], a[i], j);
        }
      }
      j := j - 1;
    }
    KeepSettled(old(a[..]), a[..], i);
  }

  lemma KeepSettled(t: seq<Keyword>, u: seq<Keyword>, i: nat)
    requires i < |t| == |u| && forall m :: 0 <= m < |t| && m != i ==> u[m] == t[m]
    ensures forall m: nat :: i < m < |t| && Settled(t, m) ==> Settled(u, m)
  {
    forall m: nat | i < m < |t| && Settled(t, m)
      ensures Settled(u, m)
    {
      if t[m].substrId != 0 {
        var j :| m < j && Embeds(t, t[m], j);
        assert Embeds(u, u[m], j);
      }
    }
  }

  // ---------------------------------------------------------------- overlapping the names in one text

  function Start(e: Keyword): nat {
    e.offset + e.prefix
  }

  function End(e: Keyword): nat {
    e.offset + |e.name|
  }

  /** Where the text ends after some rows. */
  function TextEnd(placed: seq<Keyword>): nat {
    if placed == [] then 0 else End(placed[|placed| - 1])
  }

  /** A placed row: its name stands in the text, the new part of it right behind the row placed before. */
  predicate PlacedAt(placed: seq<Keyword>, t: int, text: string) {
    && 0 <= t < |placed|
    && placed[t].substrId == 0 && placed[t].prefix < |placed[t].name|
    && Occurs(text, placed[t].offset, placed[t].name)
    && Start(placed[t]) == TextEnd(placed[..t])
    && (t > 0 ==> placed[t - 1].offset < placed[t].offset)
  }

  /** The rows placed so far, in the order of their offsets, and the text they make up. */
  predicate PackState(s: seq<Keyword>, placed: seq<Keyword>, text: string) {
    && Distinct(s)
    && (forall e :: e in placed ==> e in s)
    && (forall t :: 0 <= t < |placed| ==> PlacedAt(placed, t, text))
    && |text| == TextEnd(placed)
    && (forall m :: 0 <= m < |s| ==> s[m] in placed || (s[m].offset == 0 && s[m].prefix == 0))
  }

  function Grown(e: Keyword, text: string, k: nat): Keyword
    requires k <= |text|
  {
    e.(offset := |text| - k, prefix := k)
  }

  lemma ExtendedText(text: string, k: nat, name: string, tail: string)
    requires Occurs(text, k, name)
    ensures Occurs(text + tail, k, name)
  {
    assert (text + tail)[k..k + |name|] == text[k..k + |name|];
  }

  lemma NewName(text: string, name: string, k: nat)
    requires k <= |name| && k <= |text| && text[|text| - k..] == name[..k]
    ensures Occurs(text + name[k..], |text| - k, name)
  {
    assert (text + name[k..])[|text| - k..|text| - k + |name|] == text[|text| - k..] + name[k..];
    assert name == name[..k] + name[k..];
  }

  lemma OldRow(placed: seq<Keyword>, t: nat, text: string, e: Keyword, tail: string)
    requires t < |placed| && PlacedAt(placed, t, text)
    ensures PlacedAt(placed + [e], t, text + tail)
  {
    ExtendedText(text, placed[t].offset, placed[t].name, tail);
    assert (placed + [e])[..t] == placed[..t];
  }

  lemma Replaced(s: seq<Keyword>, j: nat, e: Keyword)
    requires Distinct(s) && j < |s| && e.name == s[j].name && e.id == s[j].id
    ensures Distinct(s[j := e])
  {
  }

  /** One more row, its first `k` characters being the last ones of the text. */
  lemma AddRow(s: seq<Keyword>, placed: seq<Keyword>, text: string, j: nat, k: nat)
    requires PackState(s, placed, text) && j < |s| && s[j] !in placed && s[j].substrId == 0
    requires k < |s[j].name| && k <= |text| && text[|text| - k..] == s[j].name[..k]
    requires if placed == [] then k == 0 else k < |placed[|placed| - 1].name|
    ensures var e := Grown(s[j], text, k); PackState(s[j := e], placed + [e], text + s[j].name[k..])
  {
    hide Distinct, PlacedAt;
    var e := Grown(s[j], text, k);
    var s', placed', text' := s[j := e], placed + [e], text + s[j].name[k..];
    Replaced(s, j, e);
    forall t | 0 <= t < |placed'|
      ensures PlacedAt(placed', t, text')
    {
      if t < |placed| {
        OldRow(placed, t, text, e, s[j].name[k..]);
      } else {
        NewRow(placed, e, text, k);
      }
    }
    forall x | x in placed'
      ensures x in s'
    {
      if x in placed {
        var m :| 0 <= m < |s| && s[m] == x;
        assert s'[m] == x;
      } else {
        assert s'[j] == e;
      }
    }
    forall m | 0 <= m < |s'|
      ensures s'[m] in placed' || (s'[m].offset == 0 && s'[m].prefix == 0)
    {
      if m == j {
        assert placed'[|placed|] == e;
      } else if s[m] in placed {
        var t :| 0 <= t < |placed| && placed[t] == s[m];
        assert placed'[t] == s'[m];
      }
    }
  }

  lemma NewRow(placed: seq<Keyword>, e: Keyword, text: string, k: nat)
    requires e.substrId == 0 && e.prefix == k < |e.name| && k <= |text| && e.offset == |text| - k
    requires |text| == TextEnd(placed) && text[|text| - k..] == e.name[..k]
    requires if placed == [] then k == 0 else k < |placed[|placed| - 1].name|
    ensures PlacedAt(placed + [e], |placed|, text + e.name[k..])
  {
    hide Occurs, TextEnd;
    NewName(text, e.name, k);
    assert (placed + [e])[..|placed|] == placed;
    if placed != [] {
      TextEndsWith(placed);
    }
  }

  lemma TextEndsWith(placed: seq<Keyword>)
    requires placed != []
    ensures TextEnd(placed) == End(placed[|placed| - 1])
  {
  }

  function Waiting(s: seq<Keyword>): nat {
    if s == [] then 0 else (if s[0].offset == 0 then 1 else 0) + Waiting(s[1..])
  }

  lemma {:induction false} OneLessWaiting(s: seq<Keyword>, j: nat, e: Keyword)
    requires j < |s| && s[j].offset == 0 && e.offset > 0
    ensures Waiting(s[j := e]) == Waiting(s) - 1
  {
    if j == 0 {
      assert s[0 := e][1..] == s[1..];
    } else {
      assert s[j := e][1..] == s[1..][j - 1 := e];
      OneLessWaiting(s[1..], j - 1, e);
    }
  }

  /** Row `f` was placed first, so it is the one placed row whose offset is zero. */
  predicate FirstPlaced(s: seq<Keyword>, placed: seq<Keyword>, f: nat) {
    f < |s| && placed != [] && placed[0] == s[f]
  }

  lemma OnlyFirstAtZero(s: seq<Keyword>, placed: seq<Keyword>, text: string, f: nat, j: nat)
    requires PackState(s, placed, text) && FirstPlaced(s, placed, f) && f < j < |s|
    ensures s[j].offset == 0 ==> s[j] !in placed
  {
    if s[j] in placed {
      var t :| 0 <= t < |placed| && placed[t] == s[j];
      assert t > 0;
      assert PlacedAt(placed, t, text);
    }
  }

  /** Only the place of a row changes. */
  predicate SameRows(s: seq<Keyword>, t: seq<Keyword>) {
    |s| == |t| && forall m :: 0 <= m < |s| ==> s[m] == t[m].(offset := s[m].offset, prefix := s[m].prefix)
  }

  lemma SameRowsStep(s: seq<Keyword>, t: seq<Keyword>, j: nat, text: string, k: nat)
    requires SameRows(s, t) && j < |s| && k <= |text|
    ensures SameRows(s[j := Grown(s[j], text, k)], t)
  {
  }

  lemma SameRowsTransitive(s: seq<Keyword>, t: seq<Keyword>, u: seq<Keyword>)
    requires SameRows(s, t) && SameRows(t, u)
    ensures SameRows(s, u)
  {
  }

  lemma SameRowsSelf(s: seq<Keyword>)
    ensures SameRows(s, s)
  {
  }

  /** Places a row so that its first `k` characters are the last ones of the text. */
  method Place(a: array<Keyword>, j: nat, k: nat, nChar: nat, ghost placed0: seq<Keyword>, ghost text0: string)
    returns (ghost placed: seq<Keyword>, ghost text: string)
    requires j < a.Length && PackState(a[..], placed0, text0) && nChar == |text0|
    requires a[j] !in placed0 && a[j].substrId == 0
    requires k < |a[j].name| && k <= |text0| && text0[|text0| - k..] == a[j].name[..k]
    requires if placed0 == [] then k == 0 else k < |placed0[|placed0| - 1].name|
    modifies a
    ensures a[..] == old(a[..])[j := Grown(old(a[j]), text0, k)]
    ensures placed == placed0 + [a[j]] && text == text0 + a[j].name[k..]
    ensures PackState(a[..], placed, text)
  {
    AddRow(a[..], placed0, text0, j, k);
    hide PackState;
    ghost var s := a[..];
    a[j] := a[j].(offset := nChar - k, prefix := k);
    assert a[..] == s[j := Grown(s[j], text0, k)];
    placed, text := placed0 + [a[j]], text0 + a[j].name[k..];
  }

  /** While rows are placed behind row `i`: row `p` is the last one placed, and rows up to `i` stay put. */
  ghost predicate Following(s: seq<Keyword>, s0: seq<Keyword>, i: nat, f: nat, p: nat,
                            placed: seq<Keyword>, text: string)
  {
    && i < |s| == |s0| && p < |s| && f <= i
    && SameRows(s, s0) && s[..i + 1] == s0[..i + 1]
    && PackState(s, placed, text) && FirstPlaced(s, placed, f)
    && placed[|placed| - 1] == s[p]
  }

  lemma FollowStep(s: seq<Keyword>, s0: seq<Keyword>, i: nat, f: nat, p: nat, placed: seq<Keyword>, text: string,
                   j: nat, k: nat)
    requires Following(s, s0, i, f, p, placed, text) && i < j < |s| && k <= |text| && k <= |s[j].name|
    requires var e := Grown(s[j], text, k); PackState(s[j := e], placed + [e], text + s[j].name[k..])
    ensures var e := Grown(s[j], text, k); Following(s[j := e], s0, i, f, j, placed + [e], text + s[j].name[k..])
  {
    hide PackState;
    var e := Grown(s[j], text, k);
    assert s[j := e][..i + 1] == s[..i + 1];
    assert (placed + [e])[0] == placed[0];
    SameRowsStep(s, s0, j, text, k);
    assert s[j := e][f] == s[..i + 1][f];
  }

  /** Places row `j`, which overlaps the row placed last by `k` characters. */
  method Follow(a: array<Keyword>, ghost s0: seq<Keyword>, i: nat, ghost f: nat, p: nat, j: nat, k: nat, nChar: nat,
                ghost placed0: seq<Keyword>, ghost text0: string)
    returns (ghost placed: seq<Keyword>, ghost text: string)
    requires Following(a[..], s0, i, f, p, placed0, text0) && nChar == |text0|
    requires i < j < a.Length && a[j].offset == 0 && a[j].substrId == 0
    requires k < |a[j].name| && k < |a[p].name| && Overlaps(a[p].name, a[j].name, k)
    modifies a
    ensures Following(a[..], s0, i, f, j, placed, text) && placed0 < placed && |placed| == |placed0| + 1
    ensures placed[|placed0|] == a[j] && a[j].name == old(a[j].name)
    ensures a[j].prefix == k && |text| == End(a[j])
    ensures Waiting(a[..]) < Waiting(old(a[..]))
  {
    OnlyFirstAtZero(a[..], placed0, text0, f, j);
    AtEnd(a[..], placed0, text0, a[p], a[j].name, k);
    OneLessWaiting(a[..], j, Grown(a[j], text0, k));
    AddRow(a[..], placed0, text0, j, k);
    FollowStep(a[..], s0, i, f, p, placed0, text0, j, k);
    LastRow(a[..], placed0, text0);
    hide *;
    placed, text := Place(a, j, k, nChar, placed0, text0);
    LastRow(a[..], placed, text);
  }

  /**
   * How many characters the next row may share with a row: all but one with the first row of a chain, and
   * all that were new with the others.
   */
  function Room(e: Keyword): int {
    if e.prefix == 0 then |e.name| - 1 else |e.name| - e.prefix
  }

  predicate CanFollow(e: Keyword, name: string, k: nat) {
    k < |name| && Overlaps(e.name, name, k)
  }

  /** Row `m` lies behind row `i`, is not embedded, and is not among the first `n` rows placed. */
  predicate StillWaits(s: seq<Keyword>, i: nat, placed: seq<Keyword>, n: nat, m: nat)
    requires n <= |placed|
  {
    i < m < |s| && s[m].substrId == 0 && forall u :: 0 <= u < n ==> placed[u].name != s[m].name
  }

  /** No row that still waits shares more than `k` characters with the end of the `t`-th row placed. */
  ghost predicate NoneShares(s: seq<Keyword>, i: nat, placed: seq<Keyword>, t: nat, k: int)
    requires t < |placed|
  {
    forall m: nat, q: nat :: k < q <= Room(placed[t]) && StillWaits(s, i, placed, t + 1, m) ==>
      !CanFollow(placed[t], s[m].name, q)
  }

  /** The row placed after the `t`-th one shares with it, and no other that waited shares more. */
  ghost predicate BestFollows(s: seq<Keyword>, i: nat, placed: seq<Keyword>, t: nat)
    requires t + 1 < |placed|
  {
    && 1 <= placed[t + 1].prefix <= Room(placed[t])
    && CanFollow(placed[t], placed[t + 1].name, placed[t + 1].prefix)
    && NoneShares(s, i, placed, t, placed[t + 1].prefix)
  }

  ghost predicate Greedy(s: seq<Keyword>, i: nat, placed: seq<Keyword>, n: nat) {
    forall t :: n <= t < |placed| - 1 ==> BestFollows(s, i, placed, t)
  }

  /** The rows from `i + 1` up to `j` have been tried with `k` characters. */
  ghost predicate Tried(s: seq<Keyword>, i: nat, placed: seq<Keyword>, k: nat, j: nat)
    requires placed != []
  {
    && NoneShares(s, i, placed, |placed| - 1, k)
    && forall m: nat :: i < m < j && StillWaits(s, i, placed, |placed|, m) ==>
         !CanFollow(placed[|placed| - 1], s[m].name, k)
  }

  /** While the rows behind row `i` are being tried with `k` characters of row `p`, the last one placed */
  ghost predicate Trying(s: seq<Keyword>, s0: seq<Keyword>, i: nat, f: nat, p: nat, placed: seq<Keyword>, text: string,
                         n: nat, k: nat, j: nat)
  {
    && Following(s, s0, i, f, p, placed, text) && n < |placed|
    && i < j <= |s| && k <= Room(s[p]) && Tried(s0, i, placed, k, j) && Greedy(s0, i, placed, n)
  }

  lemma TryingFacts(s: seq<Keyword>, s0: seq<Keyword>, i: nat, f: nat, p: nat, placed: seq<Keyword>, text: string,
                    n: nat, k: nat, j: nat)
    requires Trying(s, s0, i, f, p, placed, text, n, k, j)
    ensures p < |s| && i < j <= |s| && k < |s[p].name| && Following(s, s0, i, f, p, placed, text)
  {
    hide Tried, Greedy, SameRows, FirstPlaced;
    LastRow(s, placed, text);
  }

  lemma NextLength(s: seq<Keyword>, s0: seq<Keyword>, i: nat, f: nat, p: nat, placed: seq<Keyword>, text: string,
                   n: nat, k: nat)
    requires k >= 1 && Trying(s, s0, i, f, p, placed, text, n, k, |s|)
    ensures Trying(s, s0, i, f, p, placed, text, n, k - 1, i + 1)
  {
    hide Room, CanFollow, Greedy, PackState, SameRows, FirstPlaced;
  }

  lemma NextRow(s: seq<Keyword>, s0: seq<Keyword>, i: nat, f: nat, p: nat, placed: seq<Keyword>, text: string,
                n: nat, k: nat, j: nat)
    requires Trying(s, s0, i, f, p, placed, text, n, k, j) && j < |s|
    requires s[j].offset > 0 || s[j].substrId != 0 || |s[j].name| <= k || !Overlaps(s[p].name, s[j].name, k)
    ensures Trying(s, s0, i, f, p, placed, text, n, k, j + 1)
  {
    hide NoneShares, Overlaps, FirstPlaced, Greedy, PackState, Room;
    if s[j].offset > 0 { PlacedName(s, placed, text, j); }
  }

  lemma PlacedName(s: seq<Keyword>, placed: seq<Keyword>, text: string, j: nat)
    requires PackState(s, placed, text) && j < |s| && s[j].offset > 0
    ensures exists u :: 0 <= u < |placed| && placed[u].name == s[j].name
  {
    hide Distinct;
    var u :| 0 <= u < |placed| && placed[u] == s[j];
  }

  lemma StartTrying(s: seq<Keyword>, i: nat, placed: seq<Keyword>)
    requires placed != [] && Room(placed[|placed| - 1]) >= 0
    ensures Tried(s, i, placed, Room(placed[|placed| - 1]), i + 1)
    ensures Greedy(s, i, placed, |placed| - 1)
  {
  }

  lemma OneMoreFollows(s: seq<Keyword>, i: nat, placed: seq<Keyword>, placed': seq<Keyword>, n: nat, k: nat, j: nat)
    requires placed != [] && |placed'| == |placed| + 1 && placed < placed' && Greedy(s, i, placed, n) && n < |placed|
    requires Tried(s, i, placed, k, j) && 1 <= k <= Room(placed[|placed| - 1])
    requires placed'[|placed|].prefix == k && CanFollow(placed[|placed| - 1], placed'[|placed|].name, k)
    ensures Greedy(s, i, placed', n)
  {
    hide Room, CanFollow;
    forall t | n <= t < |placed'| - 1
      ensures BestFollows(s, i, placed', t)
    {
      var last := if t < |placed| - 1 then placed[t + 1].prefix else k;
      if t < |placed| - 1 { assert BestFollows(s, i, placed, t); }
      SameShares(s, i, placed, placed', t, last);
    }
  }

  lemma SameShares(s: seq<Keyword>, i: nat, placed: seq<Keyword>, placed': seq<Keyword>, t: nat, k: int)
    requires t < |placed| && placed <= placed' && NoneShares(s, i, placed, t, k)
    ensures NoneShares(s, i, placed', t, k)
  {
    hide CanFollow;
    forall m: nat, q: nat | k < q <= Room(placed'[t]) && StillWaits(s, i, placed', t + 1, m)
      ensures !CanFollow(placed'[t], s[m].name, q)
    {
      assert StillWaits(s, i, placed, t + 1, m);
    }
  }

  lemma Ended(s: seq<Keyword>, s0: seq<Keyword>, i: nat, f: nat, p: nat, placed: seq<Keyword>, text: string, n: nat, j: nat)
    requires Trying(s, s0, i, f, p, placed, text, n, 0, j)
    ensures placed != [] && Greedy(s0, i, placed, n) && NoneShares(s0, i, placed, |placed| - 1, 0)
  {
    hide NoneShares, Greedy, PackState, SameRows, FirstPlaced;
  }

  lemma Starts(s: seq<Keyword>, i: nat, f: nat, placed: seq<Keyword>, text: string)
    requires Following(s, s, i, f, i, placed, text) && placed != [] && s[i].prefix == 0
    ensures i < |s| && |s[i].name| >= 1 && s[i].offset + |s[i].name| == |text|
    ensures Trying(s, s, i, f, i, placed, text, |placed| - 1, |s[i].name| - 1, i + 1)
  {
    hide Tried, Greedy, SameRows, FirstPlaced;
    LastRow(s, placed, text);
    StartTrying(s, i, placed);
  }

  /** The first waiting row behind row `i` that shares `k` characters with row `p`. */
  method FindFollower(a: array<Keyword>, ghost s0: seq<Keyword>, i: nat, ghost f: nat, p: nat, k: nat,
                      ghost placed: seq<Keyword>, ghost text: string, ghost n: nat)
    returns (j: nat)
    requires Trying(a[..], s0, i, f, p, placed, text, n, k, i + 1) && p < a.Length
    ensures i < j <= a.Length && Trying(a[..], s0, i, f, p, placed, text, n, k, j)
    ensures j < a.Length ==>
      a[j].offset == 0 && a[j].substrId == 0 && k < |a[j].name| && Overlaps(a[p].name, a[j].name, k)
  {
    hide *;
    TryingFacts(a[..], s0, i, f, p, placed, text, n, k, i + 1);
    for l := i + 1 to a.Length
      invariant Trying(a[..], s0, i, f, p, placed, text, n, k, l)
    {
      if a[l].offset == 0 && a[l].substrId == 0 && k < |a[l].name| && Overlaps(a[p].name, a[l].name, k) {
        return l;
      }
      NextRow(a[..], s0, i, f, p, placed, text, n, k, l);
    }
    j := a.Length;
  }

  /** Places the row found behind row `p` and starts over with it. */
  method FollowBest(a: array<Keyword>, ghost s0: seq<Keyword>, i: nat, ghost f: nat, p: nat, j: nat, k: nat, nChar: nat,
                    ghost placed0: seq<Keyword>, ghost text0: string, ghost n: nat)
    returns (ghost placed: seq<Keyword>, ghost text: string)
    requires Trying(a[..], s0, i, f, p, placed0, text0, n, k, j) && nChar == |text0| && p < a.Length && k >= 1
    requires j < a.Length && a[j].offset == 0 && a[j].substrId == 0 && k < |a[j].name|
    requires k < |a[p].name| && Overlaps(a[p].name, a[j].name, k)
    modifies a
    ensures placed0 < placed && |text| == a[j].offset + |a[j].name| && 1 <= a[j].prefix <= |a[j].name|
    ensures Trying(a[..], s0, i, f, j, placed, text, n, |a[j].name| - a[j].prefix, i + 1)
    ensures Waiting(a[..]) < Waiting(old(a[..]))
  {
    ghost var e := a[p];
    FollowsOn(a[..], s0, i, f, p, placed0, text0, n, k, j);
    hide *;
    placed, text := Follow(a, s0, i, f, p, j, k, nChar, placed0, text0);
    GoesOn(a[..], s0, i, f, j, placed0, placed, text, n, k, j);
  }

  lemma FollowsOn(s: seq<Keyword>, s0: seq<Keyword>, i: nat, f: nat, p: nat, placed: seq<Keyword>, text: string,
                  n: nat, k: nat, j: nat)
    requires Trying(s, s0, i, f, p, placed, text, n, k, j) && j < |s| && k < |s[j].name| && Overlaps(s[p].name, s[j].name, k)
    ensures i < j && Following(s, s0, i, f, p, placed, text) && placed != [] && n < |placed|
    ensures Tried(s0, i, placed, k, j) && Greedy(s0, i, placed, n)
    ensures k <= Room(placed[|placed| - 1]) && CanFollow(placed[|placed| - 1], s[j].name, k)
  {
    hide Tried, Greedy, SameRows, FirstPlaced, PackState;
  }

  lemma GoesOn(s: seq<Keyword>, s0: seq<Keyword>, i: nat, f: nat, p: nat, before: seq<Keyword>, placed: seq<Keyword>,
               text: string, n: nat, k: nat, j: nat)
    requires before != [] && n < |before| && |placed| == |before| + 1 && before < placed && 1 <= k && p < |s|
    requires Tried(s0, i, before, k, j) && Greedy(s0, i, before, n)
    requires k <= Room(before[|before| - 1]) && CanFollow(before[|before| - 1], s[p].name, k)
    requires Following(s, s0, i, f, p, placed, text) && placed[|before|] == s[p] && s[p].prefix == k
    ensures k <= |s[p].name| && Trying(s, s0, i, f, p, placed, text, n, |s[p].name| - s[p].prefix, i + 1)
  {
    hide Tried, Greedy, SameRows, FirstPlaced, PackState, Overlaps;
    OneMoreFollows(s0, i, before, placed, n, k, j);
    StartTrying(s0, i, placed);
  }

  /**
   * From row `i`, just placed, follows the rows that overlap the end of the text, the longest overlap
   * first, starting over with every row placed.  Every row that follows shares as much as any row that
   * waited, and at the end no waiting row shares anything with the last one.
   */
  method PackFrom(a: array<Keyword>, i: nat, ghost f: nat, ghost placed0: seq<Keyword>, ghost text0: string)
    returns (nChar: nat, p: nat, ghost placed: seq<Keyword>, ghost text: string)
    requires Following(a[..], a[..], i, f, i, placed0, text0) && placed0 != [] && i < a.Length && a[i].prefix == 0
    modifies a
    ensures Following(a[..], old(a[..]), i, f, p, placed, text)
    ensures placed0 <= placed && nChar == |text|
    ensures Greedy(old(a[..]), i, placed, |placed0| - 1) && NoneShares(old(a[..]), i, placed, |placed| - 1, 0)
  {
    hide *;
    Starts(a[..], i, f, placed0, text0);
    ghost var s0, n := a[..], |placed0| - 1;
    placed, text := placed0, text0;
    p := i;
    nChar := a[i].offset + |a[i].name|;
    var k: nat := |a[i].name| - 1;
    while k >= 1
      invariant Trying(a[..], s0, i, f, p, placed, text, n, k, i + 1)
      invariant placed0 <= placed && nChar == |text|
      decreases Waiting(a[..]), k
    {
      TryingFacts(a[..], s0, i, f, p, placed, text, n, k, i + 1);
      var j := FindFollower(a, s0, i, f, p, k, placed, text, n);
      if j == a.Length {
        NextLength(a[..], s0, i, f, p, placed, text, n, k);
        k := k - 1;
      } else {
        placed, text := FollowBest(a, s0, i, f, p, j, k, nChar, placed, text, n);
        p, nChar, k := j, a[j].offset + |a[j].name|, |a[j].name| - a[j].prefix;
      }
    }
    TryingFacts(a[..], s0, i, f, p, placed, text, n, k, i + 1);
    Ended(a[..], s0, i, f, p, placed, text, n, i + 1);
  }

  /** The last `k` characters of one name are the first `k` of another. */
  predicate Overlaps(s: string, t: string, k: nat) {
    k <= |s| && k <= |t| && s[|s| - k..] == t[..k]
  }

  lemma LastRow(s: seq<Keyword>, placed: seq<Keyword>, text: string)
    requires PackState(s, placed, text) && placed != []
    ensures var e := placed[|placed| - 1]; e.prefix < |e.name| && End(e) == |text|
  {
    assert PlacedAt(placed, |placed| - 1, text);
  }

  lemma AtEnd(s: seq<Keyword>, placed: seq<Keyword>, text: string, e: Keyword, name: string, k: nat)
    requires PackState(s, placed, text) && placed != [] && placed[|placed| - 1] == e
    requires Overlaps(e.name, name, k)
    ensures k <= |text| && text[|text| - k..] == name[..k]
  {
    hide Distinct;
    assert PlacedAt(placed, |placed| - 1, text);
    EndsWith(text, e.offset, e.name, k);
  }

  lemma EndsWith(text: string, o: nat, name: string, k: nat)
    requires Occurs(text, o, name) && o + |name| == |text| && k <= |name|
    ensures text[|text| - k..] == name[|name| - k..]
  {
    assert text[o..] == name;
  }

  /** The rows before `i` all have their place, the first of them row `f`. */
  ghost predicate Packing(s: seq<Keyword>, s0: seq<Keyword>, i: nat, f: nat, placed: seq<Keyword>, text: string) {
    && i <= |s| && SameRows(s, s0) && PackState(s, placed, text)
    && (placed != [] ==> FirstPlaced(s, placed, f) && f < i)
    && (forall m :: 0 <= m < i ==> s[m].substrId != 0 || s[m] in placed)
  }

  lemma SkipRow(s: seq<Keyword>, s0: seq<Keyword>, i: nat, f: nat, placed: seq<Keyword>, text: string)
    requires Packing(s, s0, i, f, placed, text) && i < |s| && (s[i].offset > 0 || s[i].substrId != 0)
    ensures Packing(s, s0, i + 1, f, placed, text)
  {
  }

  lemma StartRow(s: seq<Keyword>, s0: seq<Keyword>, i: nat, f: nat, placed: seq<Keyword>, text: string)
    requires Packing(s, s0, i, f, placed, text) && i < |s| && s[i].offset == 0 && s[i].substrId == 0
    ensures s[i] !in placed && |s[i].name| > 0 && (placed != [] ==> |placed[|placed| - 1].name| > 0)
    ensures var e := Grown(s[i], text, 0);
      PackState(s[i := e], placed + [e], text + s[i].name[0..])
      ==> Following(s[i := e], s[i := e], i, if placed == [] then i else f, i, placed + [e], text + s[i].name[0..])
  {
    NamesNotEmpty(s, placed, text, i);
    if placed != [] {
      OnlyFirstAtZero(s, placed, text, f, i);
    }
    hide PackState;
    var e := Grown(s[i], text, 0);
    SameRowsSelf(s[i := e]);
    if placed != [] {
      assert (placed + [e])[0] == placed[0];
    }
  }

  lemma RowsDone(s: seq<Keyword>, s0: seq<Keyword>, i: nat, f: nat, placed: seq<Keyword>, text: string,
                 e: Keyword, f': nat, t: seq<Keyword>, p: nat, placed': seq<Keyword>, text': string)
    requires Packing(s, s0, i, f, placed, text) && i < |s|
    requires e == Grown(s[i], text, 0) && f' == if placed == [] then i else f
    requires Following(t, s[i := e], i, f', p, placed', text') && placed + [e] <= placed'
    ensures Packing(t, s0, i + 1, f', placed', text')
  {
    hide PackState;
    SameRowsStep(s, s0, i, text, 0);
    SameRowsTransitive(t, s[i := e], s0);
    forall m | 0 <= m < i + 1
      ensures t[m].substrId != 0 || t[m] in placed'
    {
      assert t[m] == t[..i + 1][m] == s[i := e][m];
      if m == i {
        assert placed'[|placed|] == e;
      } else if s[m] in placed {
        var u :| 0 <= u < |placed| && placed[u] == s[m];
        assert placed'[u] == s[m];
      }
    }
  }

  /** Gives every row that is not embedded a place in the text. */
  method Pack(a: array<Keyword>) returns (nChar: nat, ghost placed: seq<Keyword>, ghost text: string)
    requires Distinct(a[..]) && Unplaced(a[..])
    modifies a
    ensures SameRows(a[..], old(a[..]))
    ensures PackState(a[..], placed, text) && nChar == |text|
    ensures forall m :: 0 <= m < a.Length ==> a[m].substrId != 0 || a[m] in placed
  {
    NothingPlaced(a[..]);
    SameRowsSelf(a[..]);
    nChar, placed, text := 0, [], "";
    ghost var f: nat := 0;
    for i := 0 to a.Length
      invariant Packing(a[..], old(a[..]), i, f, placed, text) && nChar == |text|
    {
      hide *;
      if a[i].offset > 0 || a[i].substrId != 0 {
        SkipRow(a[..], old(a[..]), i, f, placed, text);
      } else {
        nChar, f, placed, text := PackRow(a, old(a[..]), i, f, nChar, placed, text);
      }
    }
  }

  /** Places row `i` at the end of the text, and behind it whatever overlaps. */
  method PackRow(a: array<Keyword>, ghost s0: seq<Keyword>, i: nat, ghost f0: nat, n: nat,
                 ghost placed0: seq<Keyword>, ghost text0: string)
    returns (nChar: nat, ghost f: nat, ghost placed: seq<Keyword>, ghost text: string)
    requires Packing(a[..], s0, i, f0, placed0, text0) && n == |text0|
    requires i < a.Length && a[i].offset == 0 && a[i].substrId == 0
    modifies a
    ensures Packing(a[..], s0, i + 1, f, placed, text) && nChar == |text|
  {
    StartRow(a[..], s0, i, f0, placed0, text0);
    f := if placed0 == [] then i else f0;
    ghost var s, e := a[..], Grown(a[i], text0, 0);
    AddRow(s, placed0, text0, i, 0);
    placed, text := Place(a, i, 0, n, placed0, text0);
    hide *;
    ghost var before := placed;
    var p: nat;
    nChar, p, placed, text := PackFrom(a, i, f, placed, text);
    RowsDone(s, s0, i, f0, placed0, text0, e, f, a[..], p, placed, text);
  }

  lemma NothingPlaced(s: seq<Keyword>)
    requires Distinct(s) && Unplaced(s)
    ensures PackState(s, [], "")
  {
  }

  lemma NamesNotEmpty(s: seq<Keyword>, placed: seq<Keyword>, text: string, i: nat)
    requires PackState(s, placed, text) && i < |s|
    ensures |s[i].name| > 0 && (placed != [] ==> |placed[|placed| - 1].name| > 0)
  {
    if placed != [] {
      assert PlacedAt(placed, |placed| - 1, text);
    }
  }

  // ---------------------------------------------------------------- sorting the table

  function InsertBy(before: (Keyword, Keyword) -> bool, x: Keyword, s: seq<Keyword>): seq<Keyword> {
    if s == [] || before(x, s[0]) then [x] + s else [s[0]] + InsertBy(before, x, s[1..])
  }

  function SortBy(before: (Keyword, Keyword) -> bool, s: seq<Keyword>): seq<Keyword> {
    if s == [] then [] else InsertBy(before, s[0], SortBy(before, s[1..]))
  }

  lemma {:induction false} InsertByPermutes(before: (Keyword, Keyword) -> bool, x: Keyword, s: seq<Keyword>)
    ensures multiset(InsertBy(before, x, s)) == multiset([x] + s)
  {
    if s != [] && !before(x, s[0]) {
      InsertByPermutes(before, x, s[1..]);
      assert s == [s[0]] + s[1..];
    }
  }

  lemma {:induction false} SortByPermutes(before: (Keyword, Keyword) -> bool, s: seq<Keyword>)
    ensures multiset(SortBy(before, s)) == multiset(s) && |SortBy(before, s)| == |s|
  {
    if s != [] {
      SortByPermutes(before, s[1..]);
      InsertByPermutes(before, s[0], SortBy(before, s[1..]));
      assert s == [s[0]] + s[1..];
    }
    assert |multiset(SortBy(before, s))| == |multiset(s)|;
  }

  /** By offset; of two rows with one offset the later id first. */
  function ByOffset(): (Keyword, Keyword) -> bool {
    (p: Keyword, q: Keyword) => p.offset < q.offset || (p.offset == q.offset && q.id <= p.id)
  }

  predicate SortedByOffset(s: seq<Keyword>) {
    forall i, j :: 0 <= i < j < |s| ==> s[i].offset <= s[j].offset
  }

  lemma {:induction false} InsertByOffset(x: Keyword, s: seq<Keyword>)
    requires SortedByOffset(s)
    ensures SortedByOffset(InsertBy(ByOffset(), x, s))
  {
    if s != [] && !ByOffset()(x, s[0]) {
      InsertByOffset(x, s[1..]);
      InsertedIs(ByOffset(), x, s[1..]);
      var rest := InsertBy(ByOffset(), x, s[1..]);
      forall j | 0 <= j < |rest|
        ensures s[0].offset <= rest[j].offset
      {
        assert rest[j] in rest;
      }
    }
  }

  lemma InsertedIs(before: (Keyword, Keyword) -> bool, x: Keyword, s: seq<Keyword>)
    ensures forall y :: y in InsertBy(before, x, s) ==> y == x || y in s
  {
    hide InsertBy;
    InsertByPermutes(before, x, s);
    forall y | y in InsertBy(before, x, s)
      ensures y == x || y in s
    {
      assert y in multiset(InsertBy(before, x, s));
      assert y in [x] + s;
    }
  }

  lemma {:induction false} SortByOffsetSorts(s: seq<Keyword>)
    ensures SortedByOffset(SortBy(ByOffset(), s))
  {
    if s != [] {
      SortByOffsetSorts(s[1..]);
      InsertByOffset(s[0], SortBy(ByOffset(), s[1..]));
    }
  }

  /** The library's sort, given here by its result. */
  method QSort(a: array<Keyword>, before: (Keyword, Keyword) -> bool)
    modifies a
    ensures a[..] == SortBy(before, old(a[..])) && multiset(a[..]) == multiset(old(a[..]))
  {
    var s := SortBy(before, a[..]);
    SortByPermutes(before, a[..]);
    forall i | 0 <= i < a.Length {
      a[i] := s[i];
    }
    assert a[..] == s;
  }

  /** The row is not embedded, or some row embeds it. */
  ghost predicate Embedded(s: seq<Keyword>, e: Keyword) {
    e.substrId == 0 || exists j :: Embeds(s, e, j)
  }

  /** A table after the elimination, in any order. */
  ghost predicate Eliminated(s: seq<Keyword>) {
    Distinct(s) && Unplaced(s) && forall m :: 0 <= m < |s| ==> Embedded(s, s[m])
  }

  lemma SamePlace(s: seq<Keyword>, t: seq<Keyword>, x: Keyword) returns (j: nat)
    requires multiset(s) == multiset(t) && x in s
    ensures j < |t| && t[j] == x
  {
    assert x in multiset(s);
    assert x in t;
    j :| 0 <= j < |t| && t[j] == x;
  }

  /** The order of the rows does not matter to what the elimination has found. */
  lemma AnyOrder(s: seq<Keyword>, t: seq<Keyword>)
    requires Eliminated(s) && multiset(s) == multiset(t)
    ensures Eliminated(t)
  {
    DistinctPermuted(s, t);
    forall m | 0 <= m < |t|
      ensures Embedded(t, t[m]) && t[m].offset == 0 && t[m].prefix == 0
    {
      var n := SamePlace(t, s, t[m]);
      assert Embedded(s, s[n]);
      if t[m].substrId != 0 {
        var j :| Embeds(s, s[n], j);
        var k := SamePlace(s, t, s[j]);
        assert Embeds(t, t[m], k);
      }
    }
  }

  lemma DistinctPermuted(s: seq<Keyword>, t: seq<Keyword>)
    requires Distinct(s) && multiset(s) == multiset(t)
    ensures Distinct(t)
  {
    forall m | 0 <= m < |t|
      ensures |t[m].name| >= 2 && t[m].id > 0
    {
      var n := SamePlace(t, s, t[m]);
    }
    forall i, j | 0 <= i < j < |t|
      ensures t[i].name != t[j].name && t[i].id != t[j].id
    {
      var m := SamePlace(t, s, t[i]);
      var n := SamePlace(t, s, t[j]);
      if m == n {
        OnceOnly(s, m);
        Twice(t, i, j);
      }
    }
  }

  lemma Twice(t: seq<Keyword>, i: nat, j: nat)
    requires i < j < |t| && t[i] == t[j]
    ensures multiset(t)[t[i]] >= 2
  {
    assert t == t[..i] + [t[i]] + t[i + 1..j] + [t[j]] + t[j + 1..];
  }

  lemma OnceOnly(s: seq<Keyword>, m: nat)
    requires Distinct(s) && m < |s|
    ensures multiset(s)[s[m]] == 1
  {
    assert s == s[..m] + [s[m]] + s[m + 1..];
    assert s[m] !in s[..m] && s[m] !in s[m + 1..];
  }

  // ---------------------------------------------------------------- the finished text

  /** Every row that is not embedded has its place. */
  ghost predicate Packed(s: seq<Keyword>, placed: seq<Keyword>, text: string) {
    && PackState(s, placed, text)
    && (forall m :: 0 <= m < |s| ==> s[m].substrId != 0 || s[m] in placed)
  }

  lemma PlacedOccurs(s: seq<Keyword>, placed: seq<Keyword>, text: string, m: nat)
    requires Packed(s, placed, text) && m < |s| && s[m].substrId == 0
    ensures Occurs(text, s[m].offset, s[m].name)
  {
    var t :| 0 <= t < |placed| && placed[t] == s[m];
    assert PlacedAt(placed, t, text);
  }

  lemma OccursInside(text: string, o: nat, name: string, k: nat, part: string)
    requires Occurs(text, o, name) && Occurs(name, k, part)
    ensures Occurs(text, o + k, part)
  {
    var whole := text[o..o + |name|];
    assert whole == name && k + |part| <= |whole|;
    forall x | 0 <= x < |part|
      ensures text[o + k + x] == part[x]
    {
      assert text[o + (k + x)] == whole[k + x];
      assert name[k..k + |part|][x] == name[k + x];
    }
  }

  method FindById(a: array<Keyword>, id: nat) returns (j: nat)
    requires exists k :: 0 <= k < a.Length && a[k].id == id
    ensures j < a.Length && a[j].id == id
  {
    j := 0;
    ghost var k :| 0 <= k < a.Length && a[k].id == id;
    while a[j].id != id
      invariant j <= k
      decreases k - j
    {
      j := j + 1;
    }
  }

  /** The rows with the offsets of the embedded names filled in. */
  ghost predicate Offsets(t: seq<Keyword>, s: seq<Keyword>) {
    |t| == |s| && forall m :: 0 <= m < |t| ==>
      t[m] == s[m].(offset := t[m].offset) && (s[m].substrId == 0 ==> t[m].offset == s[m].offset)
  }

  /** An embedded name stands where the name that embeds it stands, shifted by its place in it. */
  method SetOffsets(a: array<Keyword>, ghost placed: seq<Keyword>, ghost text: string)
    requires Packed(a[..], placed, text)
    requires forall m :: 0 <= m < a.Length ==> Embedded(a[..], a[m])
    modifies a
    ensures Offsets(a[..], old(a[..]))
    ensures forall m :: 0 <= m < a.Length ==> Occurs(text, a[m].offset, a[m].name)
  {
    hide PackState, Occurs;
    ghost var s := a[..];
    for i := 0 to a.Length
      invariant Offsets(a[..], s)
      invariant forall m :: 0 <= m < i ==> Occurs(text, a[m].offset, a[m].name)
    {
      if a[i].substrId != 0 {
        assert Embedded(s, s[i]);
        ghost var k :| Embeds(s, s[i], k);
        assert a[k].id == a[i].substrId;
        var j := FindById(a, a[i].substrId);
        SameId(s, placed, text, j, k);
        PlacedOccurs(s, placed, text, j);
        OccursInside(text, s[j].offset, s[j].name, s[i].substrOffset, s[i].name);
        a[i] := a[i].(offset := a[j].offset + a[i].substrOffset);
      } else {
        PlacedOccurs(s, placed, text, i);
      }
    }
  }

  lemma SameId(s: seq<Keyword>, placed: seq<Keyword>, text: string, j: nat, k: nat)
    requires PackState(s, placed, text) && j < |s| && k < |s| && s[j].id == s[k].id
    ensures j == k
  {
  }

  /** The rows that are not embedded, in the order of the table. */
  function Visible(s: seq<Keyword>): seq<Keyword> {
    if s == [] then [] else (if s[0].substrId == 0 then [s[0]] else []) + Visible(s[1..])
  }

  function Remainders(s: seq<Keyword>): string {
    if s == [] then "" else s[0].Remainder() + Remainders(s[1..])
  }

  lemma {:induction false} VisibleMembers(s: seq<Keyword>, e: Keyword)
    ensures e in Visible(s) <==> e in s && e.substrId == 0
  {
    if s != [] {
      VisibleMembers(s[1..], e);
      assert s == [s[0]] + s[1..];
    }
  }

  predicate Ascending(s: seq<Keyword>) {
    forall i, j :: 0 <= i < j < |s| ==> s[i].offset < s[j].offset
  }

  lemma {:induction false} VisibleAscends(s: seq<Keyword>)
    requires SortedByOffset(s) && Distinct(s)
    requires forall i, j :: 0 <= i < |s| && 0 <= j < |s| && s[i].substrId == s[j].substrId == 0 && s[i].offset == s[j].offset ==> s[i] == s[j]
    ensures Ascending(Visible(s))
  {
    if s != [] {
      VisibleAscends(s[1..]);
      var rest := Visible(s[1..]);
      forall j | 0 <= j < |rest|
        ensures s[0].substrId == 0 ==> s[0].offset < rest[j].offset
      {
        VisibleMembers(s[1..], rest[j]);
        var k :| 0 <= k < |s[1..]| && s[1..][k] == rest[j];
        assert s[k + 1] == rest[j];
      }
    }
  }

  lemma InOther(s: seq<Keyword>, t: seq<Keyword>)
    requires forall e :: e in s ==> e in t
    ensures s != [] ==> t != []
  {
    if s != [] {
      assert s[0] in t;
    }
  }

  lemma {:induction false} AscendingIsUnique(s: seq<Keyword>, t: seq<Keyword>)
    requires Ascending(s) && Ascending(t) && forall e :: e in s <==> e in t
    ensures s == t
  {
    if s == [] {
      InOther(t, s);
    } else {
      SameStart(s, t);
      hide Ascending;
      AscendingIsUnique(s[1..], t[1..]);
      assert s == [s[0]] + s[1..] && t == [t[0]] + t[1..];
    }
  }

  lemma SameStart(s: seq<Keyword>, t: seq<Keyword>)
    requires Ascending(s) && Ascending(t) && s != [] && forall e :: e in s <==> e in t
    ensures t != [] && s[0] == t[0] && Ascending(s[1..]) && Ascending(t[1..])
    ensures forall e :: e in s[1..] <==> e in t[1..]
  {
    assert s[0] in t;
    assert t[0] in s;
    var i :| 0 <= i < |t| && t[i] == s[0];
    var j :| 0 <= j < |s| && s[j] == t[0];
    assert s[0] == t[0];
    RestOf(s);
    RestOf(t);
  }

  lemma RestOf(s: seq<Keyword>)
    requires Ascending(s) && s != []
    ensures forall e :: e in s[1..] <==> e in s && e != s[0]
  {
    forall e | e in s && e != s[0]
      ensures e in s[1..]
    {
      var i :| 0 <= i < |s| && s[i] == e;
      assert s[1..][i - 1] == e;
    }
  }

  lemma PlacedRow(s: seq<Keyword>, placed: seq<Keyword>, text: string, t: nat)
    requires PackState(s, placed, text) && t < |placed|
    ensures PlacedAt(placed, t, text) && (t > 0 ==> placed[t - 1].offset < placed[t].offset)
  {
    hide Distinct;
  }

  lemma {:induction false} PlacedAscends(s: seq<Keyword>, placed: seq<Keyword>, text: string, i: nat, j: nat)
    requires PackState(s, placed, text) && i < j < |placed|
    ensures placed[i].offset < placed[j].offset
  {
    PlacedRow(s, placed, text, j);
    hide PackState;
    if i < j - 1 {
      PlacedAscends(s, placed, text, i, j - 1);
    }
  }

  lemma {:induction false} RemaindersAppend(s: seq<Keyword>, e: Keyword)
    ensures Remainders(s + [e]) == Remainders(s) + e.Remainder()
  {
    if s != [] {
      assert (s + [e])[1..] == s[1..] + [e];
      RemaindersAppend(s[1..], e);
    }
  }

  lemma {:induction false} RemaindersMakeText(s: seq<Keyword>, placed: seq<Keyword>, text: string, t: nat)
    requires PackState(s, placed, text) && t <= |placed|
    ensures TextEnd(placed[..t]) <= |text| && Remainders(placed[..t]) == text[..TextEnd(placed[..t])]
  {
    if t > 0 {
      PlacedRow(s, placed, text, t - 1);
      hide PackState, Remainders, Occurs;
      RemaindersMakeText(s, placed, text, t - 1);
      var e := placed[t - 1];
      assert placed[..t] == placed[..t - 1] + [e];
      RemaindersAppend(placed[..t - 1], e);
      NewPart(text, e, TextEnd(placed[..t - 1]));
    }
  }

  lemma NewPart(text: string, e: Keyword, n: nat)
    requires Occurs(text, e.offset, e.name) && e.prefix < |e.name| && Start(e) == n
    ensures n <= End(e) <= |text| && text[..n] + e.Remainder() == text[..End(e)]
  {
    assert text[e.offset..End(e)][e.prefix..] == text[n..End(e)];
  }

  /** Written out in the order of their offsets, the new parts of the names make up the text. */
  lemma SortedTextIsText(s: seq<Keyword>, placed: seq<Keyword>, text: string, t: seq<Keyword>, u: seq<Keyword>)
    requires Packed(s, placed, text) && Offsets(t, s) && multiset(u) == multiset(t) && SortedByOffset(u)
    ensures Remainders(Visible(u)) == text
  {
    assert Distinct(t);
    DistinctPermuted(t, u);
    forall e: Keyword
      ensures e in Visible(u) <==> e in placed
    {
      VisibleMembers(u, e);
      assert e in u <==> e in multiset(t);
      VisibleIsPlaced(s, placed, text, t, e);
    }
    assert Ascending(placed) by {
      forall i, j | 0 <= i < j < |placed|
        ensures placed[i].offset < placed[j].offset
      {
        PlacedAscends(s, placed, text, i, j);
      }
    }
    OffsetsTellApart(u, placed);
    VisibleAscends(u);
    AscendingIsUnique(Visible(u), placed);
    RemaindersMakeText(s, placed, text, |placed|);
    assert placed[..|placed|] == placed && text[..|text|] == text;
  }

  lemma OffsetsTellApart(u: seq<Keyword>, placed: seq<Keyword>)
    requires Ascending(placed) && forall e: Keyword :: e in Visible(u) <==> e in placed
    ensures forall i, j :: 0 <= i < |u| && 0 <= j < |u| && u[i].substrId == u[j].substrId == 0 && u[i].offset == u[j].offset ==> u[i] == u[j]
  {
    forall i, j | 0 <= i < |u| && 0 <= j < |u| && u[i].substrId == u[j].substrId == 0 && u[i].offset == u[j].offset
      ensures u[i] == u[j]
    {
      VisibleMembers(u, u[i]);
      VisibleMembers(u, u[j]);
      assert u[i] in placed && u[j] in placed;
    }
  }

  lemma VisibleIsPlaced(s: seq<Keyword>, placed: seq<Keyword>, text: string, t: seq<Keyword>, e: Keyword)
    requires Packed(s, placed, text) && Offsets(t, s)
    ensures e in t && e.substrId == 0 <==> e in placed
  {
    if e in t && e.substrId == 0 {
      var m :| 0 <= m < |t| && t[m] == e;
      assert s[m] == e;
    }
    if e in placed {
      var k :| 0 <= k < |placed| && placed[k] == e;
      assert PlacedAt(placed, k, text) && placed[k] in s;
      var m :| 0 <= m < |s| && s[m] == e;
      assert t[m] == e;
    }
  }

  /** Copies the new part of every name that is not embedded to the end of the text. */
  method WriteText(a: array<Keyword>) returns (zText: string)
    ensures zText == Remainders(Visible(a[..]))
  {
    zText := "";
    for i := 0 to a.Length
      invariant zText + Remainders(Visible(a[i..])) == Remainders(Visible(a[..]))
    {
      VisibleStep(a[..], i);
      if a[i].substrId == 0 {
        zText := zText + a[i].Remainder();
      }
    }
  }

  lemma VisibleStep(s: seq<Keyword>, i: nat)
    requires i < |s|
    ensures Remainders(Visible(s[i..]))
         == (if s[i].substrId == 0 then s[i].Remainder() else "") + Remainders(Visible(s[i + 1..]))
  {
    assert s[i..][1..] == s[i + 1..] && s[i..][0] == s[i];
    if s[i].substrId == 0 {
      assert Visible(s[i..]) == [s[i]] + Visible(s[i + 1..]);
      assert Visible(s[i..])[1..] == Visible(s[i + 1..]);
    } else {
      assert Visible(s[i..]) == Visible(s[i + 1..]);
    }
  }

  // ---------------------------------------------------------------- the hash chains and the lookup

  /** The tables that are written out. A link is one more than an index; zero ends a chain. */
  datatype Tables = Tables(
    zText: string,
    aHash: seq<nat>,
    aNext: seq<nat>,
    aLen: seq<nat>,
    aOffset: seq<nat>,
    aCode: seq<int>)

  const TK_ID := -1

  /** Bytes as C strings hold them. */
  type ByteString = s: string | forall i :: 0 <= i < |s| ==> s[i] as int < 256

  predicate Ascii(c: char) {
    c as int < 128
  }

  /** A byte as a signed char. */
  function SignedChar(c: char): int {
    if c as int % 256 < 128 then c as int % 256 else c as int % 256 - 256
  }

  /** The exclusive or of two integers in two's complement. */
  function Xor(a: int, b: int): (r: int)
    ensures r < 0 <==> (a < 0) != (b < 0)
    decreases if a < 0 then -a else a + 1, if b < 0 then -b else b + 1
  {
    if -1 <= a <= 0 && -1 <= b <= 0 then if a == b then 0 else -1
    else 2 * Xor(a / 2, b / 2) + if a % 2 == b % 2 then 0 else 1
  }

  function Hash(z: string): (h: int)
    requires |z| >= 2
    ensures h < 0 <==> (SignedChar(z[0]) < 0) != (SignedChar(z[|z| - 1]) < 0)
  {
    Xor(Xor(SignedChar(z[0]) * 4, SignedChar(z[|z| - 1]) * 3), |z|)
  }

  predicate AsciiNames(s: seq<Keyword>) {
    forall m :: 0 <= m < |s| ==>
      |s[m].name| >= 2 && Ascii(s[m].name[0]) && Ascii(s[m].name[|s[m].name| - 1])
  }

  /** The remainder as C has it: it takes the sign of the dividend. */
  function CMod(v: int, size: nat): (r: int)
    requires size > 0
    ensures 0 - size < r < size && (r >= 0 <==> v >= 0 || v % size == 0)
  {
    if v >= 0 || v % size == 0 then v % size else v % size - size
  }

  /** The index into the table of chains, which C may compute as a negative number. */
  function Bucket(z: string, size: nat): (h: int)
    requires |z| >= 2 && size > 0
    ensures 0 - size < h < size
  {
    CMod(Hash(z), size)
  }

  /** The first and the last byte are both ASCII or both not, or else the hash divides by the table size. */
  predicate IndexInRange(z: ByteString, size: nat)
    requires size > 0
  {
    |z| >= 2 ==> (Ascii(z[0]) <==> Ascii(z[|z| - 1])) || Hash(z) % size == 0
  }

  lemma BucketInRange(z: ByteString, size: nat)
    requires size > 0 && |z| >= 2
    ensures Bucket(z, size) >= 0 <==> IndexInRange(z, size)
  {
    hide Hash;
  }

  /** An identifier of three bytes, the letter e with an acute accent in UTF-8 and a plain a. */
  lemma OneEndNotAscii()
    ensures var z: ByteString := [0xc3 as char, 0xa9 as char, 'a'];
      Bucket(z, 97) == -80 && !IndexInRange(z, 97)
  {
    var z: ByteString := [0xc3 as char, 0xa9 as char, 'a'];
    assert SignedChar(z[0]) == -61 && SignedChar(z[2]) == 97;
    SomeXors();
    assert Hash(z) == -468;
  }

  lemma SomeXors()
    ensures Xor(-244, 291) == -465 && Xor(-465, 3) == -468
  {
    assert Xor(-1, 0) == -1; assert Xor(-1, 1) == -2; assert Xor(-2, 2) == -4; assert Xor(-4, 4) == -8;
    assert Xor(-8, 9) == -15; assert Xor(-16, 18) == -30; assert Xor(-31, 36) == -59; assert Xor(-61, 72) == -117;
    assert Xor(-122, 145) == -233; assert Xor(-244, 291) == -465;
    assert Xor(-1, 0) == -1; assert Xor(-2, 0) == -2; assert Xor(-4, 0) == -4; assert Xor(-8, 0) == -8;
    assert Xor(-15, 0) == -15; assert Xor(-30, 0) == -30; assert Xor(-59, 0) == -59; assert Xor(-117, 0) == -117;
    assert Xor(-233, 1) == -234; assert Xor(-465, 3) == -468;
  }

  /** One more than the last of the first `m` rows in a bucket, or zero. */
  function LastIn(s: seq<Keyword>, size: nat, h: int, m: nat): (c: nat)
    requires AsciiNames(s) && size > 0 && m <= |s|
    ensures c <= m && (c > 0 ==> Bucket(s[c - 1].name, size) == h)
    ensures forall j :: c <= j < m ==> Bucket(s[j].name, size) != h
  {
    if m == 0 then 0 else if Bucket(s[m - 1].name, size) == h then m else LastIn(s, size, h, m - 1)
  }

  /** The chain of a bucket starts at its last row, and every row links to the one before it. */
  predicate Chained(s: seq<Keyword>, aHash: seq<nat>, aNext: seq<nat>)
    requires AsciiNames(s) && |aHash| > 0
  {
    && |aNext| == |s|
    && (forall h :: 0 <= h < |aHash| ==> aHash[h] == LastIn(s, |aHash|, h, |s|))
    && (forall i :: 0 <= i < |s| ==> aNext[i] == LastIn(s, |aHash|, Bucket(s[i].name, |aHash|), i))
  }

  method BuildChains(s: seq<Keyword>, size: nat) returns (aHash: array<nat>, aNext: array<nat>)
    requires AsciiNames(s) && size > 0
    ensures fresh(aHash) && fresh(aNext) && aHash.Length == size
    ensures Chained(s, aHash[..], aNext[..])
  {
    hide *;
    aHash := new nat[size](_ => 0);
    aNext := new nat[|s|](_ => 0);
    NoRowYet(s, aHash[..], aNext[..]);
    for i := 0 to |s|
      invariant ChainedTo(s, aHash[..], aNext[..], i)
    {
      NameInRange(s, i, size);
      var h := Bucket(s[i].name, size);
      OneMoreRow(s, aHash[..], aNext[..], i);
      ghost var hashes, nexts := aHash[..], aNext[..];
      aNext[i] := aHash[h];
      aHash[h] := i + 1;
      assert aHash[..] == hashes[h := i + 1] && aNext[..] == nexts[i := hashes[h]];
    }
    AllRows(s, aHash[..], aNext[..]);
  }

  /** The chains of the first `i` rows */
  ghost predicate ChainedTo(s: seq<Keyword>, aHash: seq<nat>, aNext: seq<nat>, i: nat) {
    && AsciiNames(s) && |aHash| > 0 && |aNext| == |s| && i <= |s|
    && (forall h :: 0 <= h < |aHash| ==> aHash[h] == LastIn(s, |aHash|, h, i))
    && (forall j :: 0 <= j < i ==> aNext[j] == LastIn(s, |aHash|, Bucket(s[j].name, |aHash|), j))
  }

  lemma NoRowYet(s: seq<Keyword>, aHash: seq<nat>, aNext: seq<nat>)
    requires AsciiNames(s) && |aHash| > 0 && |aNext| == |s| && forall h :: 0 <= h < |aHash| ==> aHash[h] == 0
    ensures ChainedTo(s, aHash, aNext, 0)
  {
  }

  lemma OneMoreRow(s: seq<Keyword>, aHash: seq<nat>, aNext: seq<nat>, i: nat)
    requires ChainedTo(s, aHash, aNext, i) && i < |s| && |s[i].name| >= 2
    requires 0 <= Bucket(s[i].name, |aHash|) < |aHash|
    ensures var h := Bucket(s[i].name, |aHash|); ChainedTo(s, aHash[h := i + 1], aNext[i := aHash[h]], i + 1)
  {
    hide Bucket;
  }

  lemma AllRows(s: seq<Keyword>, aHash: seq<nat>, aNext: seq<nat>)
    requires ChainedTo(s, aHash, aNext, |s|)
    ensures AsciiNames(s) && |aHash| > 0 && Chained(s, aHash, aNext)
  {
    hide Bucket, LastIn;
  }

  lemma NameInRange(s: seq<Keyword>, i: nat, size: nat)
    requires AsciiNames(s) && i < |s| && size > 0
    ensures |s[i].name| >= 2 && 0 <= Bucket(s[i].name, size) < size
  {
    BucketBound(s[i].name, size);
  }

  lemma BucketBound(z: string, size: nat)
    requires |z| >= 2 && Ascii(z[0]) && Ascii(z[|z| - 1]) && size > 0
    ensures 0 <= Bucket(z, size) < size
  {
    hide Hash;
  }

  /** The tables describe the rows: every name is in the text at its offset, and the chains are right. */
  predicate Describes(t: Tables, s: seq<Keyword>) {
    && AsciiNames(s) && |t.aHash| > 0
    && |t.aLen| == |t.aOffset| == |t.aCode| == |s|
    && Chained(s, t.aHash, t.aNext)
    && (forall i :: 0 <= i < |s| ==>
          t.aLen[i] == |s[i].name| && t.aOffset[i] == s[i].offset && t.aCode[i] == s[i].code
          && Occurs(t.zText, s[i].offset, s[i].name))
  }

  datatype Option<T> = None | Some(value: T)

  /**
   * Looks a word up: the code of the keyword it is, or the code of identifiers. The answer is `None` if
   * the table of chains is read at a negative index.
   */
  method KeywordCode(t: Tables, ghost s: seq<Keyword>, z: ByteString) returns (code: Option<int>)
    requires Describes(t, s)
    ensures |t.aHash| > 0 && (code.Some? <==> IndexInRange(z, |t.aHash|))
    ensures code.Some? ==>
      || (exists i :: 0 <= i < |s| && s[i].name == z && code.value == s[i].code)
      || (code.value == TK_ID && forall i :: 0 <= i < |s| ==> s[i].name != z)
  {
    hide Bucket, Describes, LastIn, Chained, Occurs, AsciiNames, IndexInRange;
    Lengths(t, s);
    if |z| < 2 {
      ShortWord(z, |t.aHash|);
      return Some(TK_ID);
    }
    var h := Bucket(z, |t.aHash|);
    BucketInRange(z, |t.aHash|);
    if h < 0 {
      return None;
    }
    ChainStarts(t, s, z);
    var link: nat := t.aHash[h];
    while link > 0
      invariant link <= |s| && (link > 0 ==> InBucket(t, s, link - 1, z))
      invariant forall j :: link <= j < |s| ==> s[j].name != z
    {
      var i := link - 1;
      RowFacts(t, s, i);
      if t.aLen[i] == |z| && t.zText[t.aOffset[i]..t.aOffset[i] + |z|] == z {
        return Some(t.aCode[i]);
      }
      ChainGoesOn(t, s, i, z);
      link := t.aNext[i];
    }
    return Some(TK_ID);
  }

  lemma ShortWord(z: ByteString, size: nat)
    requires |z| < 2 && size > 0
    ensures IndexInRange(z, size)
  {
  }

  lemma Lengths(t: Tables, s: seq<Keyword>)
    requires Describes(t, s)
    ensures |t.aHash| > 0 && forall i :: 0 <= i < |s| ==> |s[i].name| >= 2
  {
  }

  /** Row `i` is in the bucket of a word. */
  predicate InBucket(t: Tables, s: seq<Keyword>, i: int, z: string)
    requires |z| >= 2 && |t.aHash| > 0
  {
    && 0 <= i < |s| && |s[i].name| >= 2
    && Bucket(s[i].name, |t.aHash|) == Bucket(z, |t.aHash|)
  }

  lemma RowFacts(t: Tables, s: seq<Keyword>, i: nat)
    requires Describes(t, s) && i < |s|
    ensures i < |t.aLen| && i < |t.aOffset| && i < |t.aCode| && i < |t.aNext|
    ensures t.aLen[i] == |s[i].name| && t.aCode[i] == s[i].code
    ensures t.aOffset[i] + t.aLen[i] <= |t.zText|
    ensures t.zText[t.aOffset[i]..t.aOffset[i] + t.aLen[i]] == s[i].name
  {
    hide Bucket, LastIn;
    assert Occurs(t.zText, s[i].offset, s[i].name);
  }

  lemma ChainStarts(t: Tables, s: seq<Keyword>, z: string)
    requires Describes(t, s) && |z| >= 2 && |t.aHash| > 0 && Bucket(z, |t.aHash|) >= 0
    ensures var link := t.aHash[Bucket(z, |t.aHash|)];
      && link <= |s| && (link > 0 ==> InBucket(t, s, link - 1, z))
      && (forall j :: link <= j < |s| ==> s[j].name != z)
  {
    hide Bucket;
  }

  lemma ChainGoesOn(t: Tables, s: seq<Keyword>, i: nat, z: string)
    requires Describes(t, s) && |z| >= 2
    requires |t.aHash| > 0 && InBucket(t, s, i, z)
    ensures i < |t.aNext|
    ensures var link := t.aNext[i];
      && link <= i && (link > 0 ==> InBucket(t, s, link - 1, z))
      && (forall j :: link <= j < i ==> s[j].name != z)
  {
    hide Bucket;
  }

  // ---------------------------------------------------------------- the generator from end to end

  predicate HasKeyword(s: seq<Keyword>, name: string, code: int) {
    exists i :: 0 <= i < |s| && s[i].name == name && s[i].code == code
  }

  /** The same names with the same codes. */
  ghost predicate SameKeywords(s: seq<Keyword>, t: seq<Keyword>) {
    forall name, code :: HasKeyword(s, name, code) <==> HasKeyword(t, name, code)
  }

  lemma NamesKeep(s: seq<Keyword>, t: seq<Keyword>)
    requires SameNames(s, t)
    ensures SameKeywords(s, t) && (AsciiNames(s) <==> AsciiNames(t))
  {
    forall name, code
      ensures HasKeyword(s, name, code) <==> HasKeyword(t, name, code)
    {
      if HasKeyword(s, name, code) {
        var i :| 0 <= i < |s| && s[i].name == name && s[i].code == code;
        assert t[i].name == name;
      }
      if HasKeyword(t, name, code) {
        var i :| 0 <= i < |t| && t[i].name == name && t[i].code == code;
        assert s[i].name == name;
      }
    }
  }

  lemma OrderKeeps(s: seq<Keyword>, t: seq<Keyword>)
    requires multiset(s) == multiset(t)
    ensures SameKeywords(s, t) && (AsciiNames(s) ==> AsciiNames(t))
  {
    forall name, code
      ensures HasKeyword(s, name, code) <==> HasKeyword(t, name, code)
    {
      if HasKeyword(s, name, code) {
        var i :| 0 <= i < |s| && s[i].name == name && s[i].code == code;
        var j := SamePlace(s, t, s[i]);
      }
      if HasKeyword(t, name, code) {
        var i :| 0 <= i < |t| && t[i].name == name && t[i].code == code;
        var j := SamePlace(t, s, t[i]);
      }
    }
    if AsciiNames(s) {
      forall m | 0 <= m < |t|
        ensures |t[m].name| >= 2 && Ascii(t[m].name[0]) && Ascii(t[m].name[|t[m].name| - 1])
      {
        var n := SamePlace(t, s, t[m]);
      }
    }
  }

  /** Marks embedded names, whatever order the first sort chooses. */
  method EliminateTable(a: array<Keyword>, byLength: (Keyword, Keyword) -> bool)
    requires Fresh(a[..]) && AsciiNames(a[..])
    modifies a
    ensures Eliminated(a[..]) && SameKeywords(a[..], old(a[..])) && AsciiNames(a[..])
  {
    ghost var s0 := a[..];
    FreshStarts(s0);
    hide *;
    QSort(a, byLength);
    ghost var s1 := a[..];
    Eliminate1(s0, s1);
    Eliminate(a);
    Eliminate2(s1, a[..]);
    OrderKeeps(s0, s1);
    NamesKeep(a[..], s1);
    KeywordsTransitive(a[..], s1, s0);
  }

  /** Marks embedded names and packs the others into one text, each sort being free to choose any order. */
  method PackTable(a: array<Keyword>, byLength: (Keyword, Keyword) -> bool, byOverlap: (Keyword, Keyword) -> bool)
    returns (ghost text: string)
    requires Fresh(a[..]) && AsciiNames(a[..])
    modifies a
    ensures SameKeywords(a[..], old(a[..])) && AsciiNames(a[..])
    ensures forall m :: 0 <= m < a.Length ==> Occurs(text, a[m].offset, a[m].name)
    ensures Remainders(Visible(SortBy(ByOffset(), a[..]))) == text
  {
    hide *;
    EliminateTable(a, byLength);
    ghost var s2 := a[..];
    QSort(a, byOverlap);
    ghost var s3 := a[..];
    AnyOrder(s2, s3);
    EliminatedFacts(s3);
    ghost var placed: seq<Keyword>;
    var nChar: nat;
    nChar, placed, text := Pack(a);
    ghost var s4 := a[..];
    PackKeeps(s3, s4, placed, text);
    SetOffsets(a, placed, text);
    ghost var s5 := a[..];
    ghost var s6 := SortBy(ByOffset(), s5);
    SortByPermutes(ByOffset(), s5);
    SortByOffsetSorts(s5);
    SortedTextIsText(s4, placed, text, s5, s6);
    AllKeep(s2, s3, s4, s5);
    KeywordsTransitive(s5, s2, old(a[..]));
  }

  lemma FreshStarts(s: seq<Keyword>)
    requires Fresh(s)
    ensures Distinct(s) && Unplaced(s) && forall i :: 0 <= i < |s| ==> s[i].substrId == 0
  {
  }

  lemma Eliminate1(s: seq<Keyword>, t: seq<Keyword>)
    requires Distinct(s) && Unplaced(s) && (forall i :: 0 <= i < |s| ==> s[i].substrId == 0)
    requires multiset(s) == multiset(t)
    ensures Distinct(t) && Unplaced(t) && forall i :: 0 <= i < |t| ==> t[i].substrId == 0
  {
    assert Eliminated(s);
    AnyOrder(s, t);
    forall i | 0 <= i < |t|
      ensures t[i].substrId == 0
    {
      var j := SamePlace(t, s, t[i]);
    }
  }

  lemma Eliminate2(s: seq<Keyword>, t: seq<Keyword>)
    requires Distinct(s) && SameNames(t, s) && Unplaced(t) && forall i: nat :: i < |t| ==> Settled(t, i)
    ensures Eliminated(t)
  {
    forall m | 0 <= m < |t|
      ensures Embedded(t, t[m])
    {
      assert Settled(t, m);
    }
  }

  lemma EliminatedFacts(s: seq<Keyword>)
    requires Eliminated(s)
    ensures Distinct(s) && Unplaced(s) && forall m :: 0 <= m < |s| ==> Embedded(s, s[m])
  {
  }

  lemma PackKeeps(s: seq<Keyword>, t: seq<Keyword>, placed: seq<Keyword>, text: string)
    requires (forall m :: 0 <= m < |s| ==> Embedded(s, s[m])) && SameRows(t, s)
    requires PackState(t, placed, text) && forall m :: 0 <= m < |t| ==> t[m].substrId != 0 || t[m] in placed
    ensures Packed(t, placed, text) && forall m :: 0 <= m < |t| ==> Embedded(t, t[m])
  {
    hide PackState, Occurs;
    forall m | 0 <= m < |t|
      ensures Embedded(t, t[m])
    {
      assert Embedded(s, s[m]);
      if s[m].substrId != 0 {
        var j :| Embeds(s, s[m], j);
        assert Embeds(t, t[m], j);
      }
    }
  }

  lemma AllKeep(s2: seq<Keyword>, s3: seq<Keyword>, s4: seq<Keyword>, s5: seq<Keyword>)
    requires AsciiNames(s2) && multiset(s3) == multiset(s2)
    requires SameRows(s4, s3) && Offsets(s5, s4)
    ensures SameKeywords(s2, s5) && SameKeywords(s5, s2) && AsciiNames(s5)
  {
    OrderKeeps(s2, s3);
    assert SameNames(s4, s3) && SameNames(s5, s4);
    NamesKeep(s4, s3);
    NamesKeep(s5, s4);
  }

  /** The generator: the tables describe a reordering of the keywords it was given, for any table size. */
  method Generate(a: array<Keyword>, byLength: (Keyword, Keyword) -> bool, byOverlap: (Keyword, Keyword) -> bool,
                  size: nat)
    returns (t: Tables)
    requires Fresh(a[..]) && AsciiNames(a[..]) && size > 0
    modifies a
    ensures Describes(t, a[..]) && |t.aHash| == size && SameKeywords(a[..], old(a[..]))
  {
    hide *;
    ghost var text := PackTable(a, byLength, byOverlap);
    ghost var s := a[..];
    QSort(a, ByOffset());
    OrderKeeps(s, a[..]);
    StillOccurs(s, a[..], text);
    var zText := WriteText(a);
    var rows := a[..];
    var aHash, aNext := BuildChains(rows, size);
    t := Tables(zText, aHash[..], aNext[..],
      seq(|rows|, i requires 0 <= i < |rows| => |rows[i].name|),
      seq(|rows|, i requires 0 <= i < |rows| => rows[i].offset),
      seq(|rows|, i requires 0 <= i < |rows| => rows[i].code));
    Tabulated(t, rows);
    KeywordsTransitive(rows, s, old(a[..]));
  }

  lemma KeywordsTransitive(s: seq<Keyword>, t: seq<Keyword>, u: seq<Keyword>)
    requires SameKeywords(t, s) && SameKeywords(t, u)
    ensures SameKeywords(s, u)
  {
    forall name, code
      ensures HasKeyword(s, name, code) <==> HasKeyword(u, name, code)
    {
      assert HasKeyword(t, name, code) <==> HasKeyword(s, name, code);
      assert HasKeyword(t, name, code) <==> HasKeyword(u, name, code);
    }
  }

  lemma StillOccurs(s: seq<Keyword>, t: seq<Keyword>, text: string)
    requires multiset(s) == multiset(t)
    requires forall m :: 0 <= m < |s| ==> Occurs(text, s[m].offset, s[m].name)
    ensures forall m :: 0 <= m < |t| ==> Occurs(text, t[m].offset, t[m].name)
  {
    forall m | 0 <= m < |t|
      ensures Occurs(text, t[m].offset, t[m].name)
    {
      var n := SamePlace(t, s, t[m]);
    }
  }

  lemma Tabulated(t: Tables, s: seq<Keyword>)
    requires AsciiNames(s) && |t.aHash| > 0 && Chained(s, t.aHash, t.aNext)
    requires |t.aLen| == |t.aOffset| == |t.aCode| == |s|
    requires forall i :: 0 <= i < |s| ==>
      t.aLen[i] == |s[i].name| && t.aOffset[i] == s[i].offset && t.aCode[i] == s[i].code
    requires forall i :: 0 <= i < |s| ==> Occurs(t.zText, s[i].offset, s[i].name)
    ensures Describes(t, s)
  {
  }

  /**
   * Generated and looked up: a word has a keyword's code exactly if it is that keyword. That is so for
   * every word for which the lookup stays inside its table.
   */
  method GenerateAndLookUp(a: array<Keyword>, byLength: (Keyword, Keyword) -> bool,
                           byOverlap: (Keyword, Keyword) -> bool, size: nat, z: ByteString)
    returns (code: Option<int>)
    requires Fresh(a[..]) && AsciiNames(a[..]) && size > 0
    modifies a
    ensures code.Some? <==> IndexInRange(z, size)
    ensures code.Some? ==>
      || HasKeyword(old(a[..]), z, code.value)
      || (code.value == TK_ID && forall c :: !HasKeyword(old(a[..]), z, c))
  {
    hide *;
    var t := Generate(a, byLength, byOverlap, size);
    code := KeywordCode(t, a[..], z);
    if code.Some? {
      LookUpMeans(a[..], old(a[..]), z, code.value);
    }
  }

  lemma LookUpMeans(s: seq<Keyword>, s0: seq<Keyword>, z: string, code: int)
    requires SameKeywords(s, s0)
    requires (exists i :: 0 <= i < |s| && s[i].name == z && code == s[i].code)
      || (code == TK_ID && forall i :: 0 <= i < |s| ==> s[i].name != z)
    ensures HasKeyword(s0, z, code) || (code == TK_ID && forall c :: !HasKeyword(s0, z, c))
  {
    if exists i :: 0 <= i < |s| && s[i].name == z && code == s[i].code {
      assert HasKeyword(s, z, code);
    } else {
      forall c
        ensures !HasKeyword(s0, z, c)
      {
        assert HasKeyword(s, z, c) <==> HasKeyword(s0, z, c);
      }
    }
  }
}
