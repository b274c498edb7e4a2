/** When the loop that handles one token goes on for ever: exactly if a stack comes back. */
module ParserLoops {
  import opened ParserTables
  import opened ParserSteps

  // The loop has not ended within n rounds; the stack is st' then.
  predicate Running(t: Tables, depth: nat, st: seq<StackEntry>, token: nat, n: nat, st': seq<StackEntry>)
    requires t.Shaped()
  {
    Driven(t, false, depth, st, token, n) == Result(OutOfFuel, st')
  }

  ghost predicate StillRunning(t: Tables, depth: nat, st: seq<StackEntry>, token: nat, n: nat)
    requires t.Shaped()
  {
    exists st' :: Running(t, depth, st, token, n, st')
  }

  // Whether there is error recovery plays no role for a loop that goes on.
  lemma {:induction false} RecoveryPlaysNoRole(t: Tables, noErrorRecovery: bool, depth: nat, st: seq<StackEntry>,
                                               token: nat, n: nat, st': seq<StackEntry>)
    requires t.Shaped()
    ensures Driven(t, noErrorRecovery, depth, st, token, n) == Result(OutOfFuel, st') <==>
            Running(t, depth, st, token, n, st')
    decreases n
  {
    hide Tables.FindShiftAction, Tables.Shaped;
    if n > 0 && st != [] && st[|st| - 1].stateno < t.nstate {
      var act := t.FindShiftAction(st[|st| - 1].stateno, token);
      if t.nstate <= act < t.nstate + t.nrule && Reduced(t, depth, st, act - t.nstate).At? {
        RecoveryPlaysNoRole(t, noErrorRecovery, depth, Reduced(t, depth, st, act - t.nstate).st, token, n - 1, st');
      }
    }
  }

  // One more round of a loop that goes on is a reduce.
  lemma {:induction false} LastRound(t: Tables, depth: nat, st: seq<StackEntry>, token: nat, n: nat, st': seq<StackEntry>)
    requires t.Shaped() && Running(t, depth, st, token, n + 1, st')
    ensures exists s, rule: nat ::
              Running(t, depth, st, token, n, s) && rule < t.nrule && Reduced(t, depth, s, rule) == At(st')
    decreases n
  {
    hide Reduced, Tables.FindShiftAction, Tables.Shaped;
    var rule := t.FindShiftAction(st[|st| - 1].stateno, token) - t.nstate;
    var s := Reduced(t, depth, st, rule).st;
    assert Running(t, depth, s, token, n, st');
    if n == 0 {
      assert Running(t, depth, st, token, 0, st);
    } else {
      LastRound(t, depth, s, token, n - 1, st');
      var s1, r1: nat :| Running(t, depth, s, token, n - 1, s1) && r1 < t.nrule && Reduced(t, depth, s1, r1) == At(st');
      assert Running(t, depth, st, token, n, s1);
    }
  }

  // The rounds after the first m are those of the stack that is there then.
  lemma {:induction false} GoesOn(t: Tables, depth: nat, st: seq<StackEntry>, token: nat, m: nat, st': seq<StackEntry>, n: nat)
    requires t.Shaped() && Running(t, depth, st, token, m, st')
    ensures Driven(t, false, depth, st, token, m + n) == Driven(t, false, depth, st', token, n)
    decreases m
  {
    hide Reduced, Tables.FindShiftAction, Tables.Shaped;
    if m > 0 {
      var rule := t.FindShiftAction(st[|st| - 1].stateno, token) - t.nstate;
      var s := Reduced(t, depth, st, rule).st;
      GoesOn(t, depth, s, token, m - 1, st', n);
    }
  }

  lemma {:induction false} RunningBefore(t: Tables, depth: nat, st: seq<StackEntry>, token: nat, m: nat, n: nat)
    requires t.Shaped() && StillRunning(t, depth, st, token, n) && m <= n
    ensures StillRunning(t, depth, st, token, m)
    decreases n
  {
    if m < n {
      var st' :| Running(t, depth, st, token, n, st');
      LastRound(t, depth, st, token, n - 1, st');
      RunningBefore(t, depth, st, token, m, n - 1);
    }
  }

  // A stack that has come back comes back again and again.
  lemma {:induction false} Repeats(t: Tables, depth: nat, st: seq<StackEntry>, token: nat, i: nat, j: nat,
                                   st': seq<StackEntry>, n: nat)
    requires t.Shaped() && i < j && Running(t, depth, st, token, i, st') && Running(t, depth, st, token, j, st')
    ensures StillRunning(t, depth, st, token, n)
    decreases n
  {
    hide Running;
    if n <= j {
      RunningBefore(t, depth, st, token, n, j);
    } else {
      var k := n - j;
      Repeats(t, depth, st, token, i, j, st', i + k);
      SameRounds(t, depth, st, token, i, j, st', k);
    }
  }

  lemma SameRounds(t: Tables, depth: nat, st: seq<StackEntry>, token: nat, i: nat, j: nat, st': seq<StackEntry>, k: nat)
    requires t.Shaped() && Running(t, depth, st, token, i, st') && Running(t, depth, st, token, j, st')
    requires StillRunning(t, depth, st, token, i + k)
    ensures StillRunning(t, depth, st, token, j + k)
  {
    GoesOn(t, depth, st, token, i, st', k);
    GoesOn(t, depth, st, token, j, st', k);
    hide Driven;
    var s :| Running(t, depth, st, token, i + k, s);
    assert Running(t, depth, st, token, j + k, s);
  }

  // ---------- There are finitely many stacks ----------

  // All stacks of at most h of the entries
  ghost function Stacks(entries: set<StackEntry>, h: nat): (s: set<seq<StackEntry>>)
    ensures [] in s
  {
    if h == 0 then {[]}
    else Stacks(entries, h - 1) + set st, e | st in Stacks(entries, h - 1) && e in entries :: st + [e]
  }

  lemma {:induction false} InStacks(entries: set<StackEntry>, h: nat, st: seq<StackEntry>)
    requires |st| <= h && forall i :: 0 <= i < |st| ==> st[i] in entries
    ensures st in Stacks(entries, h)
  {
    if |st| < h {
      InStacks(entries, h - 1, st);
    } else if h > 0 {
      InStacks(entries, h - 1, st[..h - 1]);
      assert st == st[..h - 1] + [st[h - 1]];
    }
  }

  // The entries that a stack has and those that a reduce can push
  ghost function Entries(t: Tables, st: seq<StackEntry>): set<StackEntry> {
    (set e | e in st) + set stateno, lhs | 0 <= stateno < t.nstate && lhs in t.ruleLhs :: StackEntry(stateno, lhs)
  }

  function Highest(depth: nat, st: seq<StackEntry>): nat {
    if |st| <= depth then depth else |st|
  }

  lemma {:induction false} StackIsOneOf(t: Tables, depth: nat, st: seq<StackEntry>, token: nat, n: nat, st': seq<StackEntry>)
    requires t.Shaped() && Running(t, depth, st, token, n, st')
    ensures |st'| <= Highest(depth, st) && forall i :: 0 <= i < |st'| ==> st'[i] in Entries(t, st)
    decreases n
  {
    if n > 0 {
      LastRound(t, depth, st, token, n - 1, st');
      var s, rule: nat :| Running(t, depth, st, token, n - 1, s) && rule < t.nrule && Reduced(t, depth, s, rule) == At(st');
      StackIsOneOf(t, depth, st, token, n - 1, s);
      ReducedEntries(t, depth, s, rule, Entries(t, st), st);
    }
  }

  lemma ReducedEntries(t: Tables, depth: nat, s: seq<StackEntry>, rule: nat, entries: set<StackEntry>, st: seq<StackEntry>)
    requires t.Shaped() && rule < t.nrule && Reduced(t, depth, s, rule).At? && entries == Entries(t, st)
    requires |s| <= Highest(depth, st) && forall i :: 0 <= i < |s| ==> s[i] in entries
    ensures var st' := Reduced(t, depth, s, rule).st;
      |st'| <= Highest(depth, st) && forall i :: 0 <= i < |st'| ==> st'[i] in entries
  {
    hide Tables.FindReduceAction, Tables.ReduceDefined;
    var st' := Reduced(t, depth, s, rule).st;
    assert t.ruleLhs[rule] in t.ruleLhs;
    assert st'[|st'| - 1] in entries;
  }

  lemma {:induction false} Pigeons<T>(p: seq<T>, s: set<T>)
    requires forall i :: 0 <= i < |p| ==> p[i] in s
    requires forall i, j :: 0 <= i < j < |p| ==> p[i] != p[j]
    ensures |p| <= |s|
  {
    if |p| > 0 {
      var n := |p| - 1;
      forall i | 0 <= i < n
        ensures p[..n][i] in s - {p[n]}
      {
        assert p[i] != p[n];
      }
      Pigeons(p[..n], s - {p[n]});
    }
  }

  // The stacks of the first n rounds
  lemma {:induction false} History(t: Tables, depth: nat, st: seq<StackEntry>, token: nat, n: nat)
    returns (p: seq<seq<StackEntry>>)
    requires t.Shaped() && StillRunning(t, depth, st, token, n)
    ensures |p| == n + 1 && forall i :: 0 <= i <= n ==> Running(t, depth, st, token, i, p[i])
    decreases n
  {
    hide Running;
    var st' :| Running(t, depth, st, token, n, st');
    if n == 0 {
      p := [st'];
    } else {
      RunningBefore(t, depth, st, token, n - 1, n);
      p := History(t, depth, st, token, n - 1);
      p := p + [st'];
    }
  }

  // More rounds than there are stacks: the loop never ends, and a stack has come back.
  lemma LoopsIfLong(t: Tables, depth: nat, st: seq<StackEntry>, token: nat)
    requires t.Shaped() && StillRunning(t, depth, st, token, |Stacks(Entries(t, st), Highest(depth, st))|)
    ensures exists i: nat, j: nat, st' :: i < j && Running(t, depth, st, token, i, st') && Running(t, depth, st, token, j, st')
  {
    hide *;
    var all := Stacks(Entries(t, st), Highest(depth, st));
    var p := History(t, depth, st, token, |all|);
    forall i | 0 <= i < |p|
      ensures p[i] in all
    {
      StackIsOneOf(t, depth, st, token, i, p[i]);
      InStacks(Entries(t, st), Highest(depth, st), p[i]);
    }
    if forall i, j :: 0 <= i < j < |p| ==> p[i] != p[j] {
      Pigeons(p, all);
      assert false;
    }
    var i, j :| 0 <= i < j < |p| && p[i] == p[j];
    assert Running(t, depth, st, token, i, p[i]) && Running(t, depth, st, token, j, p[i]);
  }

  // The loop goes on for ever if and only if a stack comes back, and that is known after as many rounds
  // as there are stacks.  Error recovery plays no role in this.
  lemma LoopsIffRepeats(t: Tables, depth: nat, st: seq<StackEntry>, token: nat)
    requires t.Shaped()
    ensures forall noErrorRecovery, n: nat, st' ::
              Driven(t, noErrorRecovery, depth, st, token, n) == Result(OutOfFuel, st') <==>
              Running(t, depth, st, token, n, st')
    ensures (forall n: nat :: StillRunning(t, depth, st, token, n)) <==>
            exists i: nat, j: nat, st' :: i < j && Running(t, depth, st, token, i, st') && Running(t, depth, st, token, j, st')
    ensures (forall n: nat :: StillRunning(t, depth, st, token, n)) <==>
            StillRunning(t, depth, st, token, |Stacks(Entries(t, st), Highest(depth, st))|)
  {
    hide *;
    forall noErrorRecovery, n: nat, st'
      ensures Driven(t, noErrorRecovery, depth, st, token, n) == Result(OutOfFuel, st') <==>
              Running(t, depth, st, token, n, st')
    {
      RecoveryPlaysNoRole(t, noErrorRecovery, depth, st, token, n, st');
    }
    if i: nat, j: nat, st' :| i < j && Running(t, depth, st, token, i, st') && Running(t, depth, st, token, j, st') {
      forall n: nat
        ensures StillRunning(t, depth, st, token, n)
      {
        Repeats(t, depth, st, token, i, j, st', n);
      }
    } else if StillRunning(t, depth, st, token, |Stacks(Entries(t, st), Highest(depth, st))|) {
      LoopsIfLong(t, depth, st, token);
      assert false;
    }
  }
}
