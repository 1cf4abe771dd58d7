/** Concurrent transactions that each lock a set of catalog names in sorted order and hold them until they commit. */
module NameLocks {
  import opened Text

  /** The names a transaction locks, in order, how many locks it has taken, and whether it has ended. */
  datatype Transaction = Transaction(plan: seq<string>, taken: nat, committed: bool)

  type State = seq<Transaction>

  predicate Sorted(plan: seq<string>) {
    forall i, j :: 0 <= i < j < |plan| ==> Less(plan[i], plan[j])
  }

  lemma LeastName(names: set<string>) returns (least: string)
    requires names != {}
    ensures least in names && forall n :: n in names && n != least ==> Less(least, n)
    decreases |names|
  {
    least :| least in names;
    if names != {least} {
      var others := names - {least};
      var other := LeastName(others);
      assert names == others + {least};
      LessIsTotal(least, other);
      if Less(other, least) {
        least := other;
      } else {
        forall n | n in others && n != other ensures Less(least, n) { LessIsTransitive(least, other, n); }
      }
    }
  }

  /** `lock_catalog_names`: the statements it sends, one lock for each name of the set, in sorted order. */
  method LockCatalogNames(names: set<string>) returns (plan: seq<string>)
    ensures Sorted(plan) && forall n :: n in plan <==> n in names
  {
    plan := [];
    var rest := names;
    while rest != {}
      invariant rest <= names && Sorted(plan) && forall n :: n in plan <==> n in names - rest
      invariant forall p, r :: p in plan && r in rest ==> Less(p, r)
    {
      ghost var least := LeastName(rest);
      var name :| name in rest && forall n :: n in rest && n != name ==> Less(name, n);
      plan, rest := plan + [name], rest - {name};
    }
  }

  predicate Waiting(t: Transaction) {
    !t.committed && t.taken < |t.plan|
  }

  function Next(t: Transaction): string
    requires t.taken < |t.plan|
  {
    t.plan[t.taken]
  }

  /** The lock key of a name is a hash, so that different names may share one. */
  predicate Holds(key: string -> int, t: Transaction, k: int) {
    !t.committed && exists i :: 0 <= i < t.taken && i < |t.plan| && key(t.plan[i]) == k
  }

  /** An advisory lock is exclusive between transactions; a transaction may take again what it holds. */
  predicate CanTake(key: string -> int, s: State, i: nat)
    requires i < |s|
  {
    Waiting(s[i]) && forall j :: 0 <= j < |s| && j != i ==> !Holds(key, s[j], key(Next(s[i])))
  }

  predicate CanCommit(s: State, i: nat)
    requires i < |s|
  {
    !s[i].committed && s[i].taken >= |s[i].plan|
  }

  function Taken(s: State, i: nat): State
    requires i < |s|
  {
    s[i := s[i].(taken := s[i].taken + 1)]
  }

  function Committed(s: State, i: nat): State
    requires i < |s|
  {
    s[i := s[i].(committed := true)]
  }

  predicate Step(key: string -> int, s: State, after: State) {
    exists i :: 0 <= i < |s| &&
      ((CanTake(key, s, i) && after == Taken(s, i)) || (CanCommit(s, i) && after == Committed(s, i)))
  }

  /** All transactions are about to start, and lock names of this collection only. */
  ghost predicate Initial(names: iset<string>, s: State) {
    forall i :: 0 <= i < |s| ==>
      Sorted(s[i].plan) && s[i].taken == 0 && !s[i].committed && forall n :: n in s[i].plan ==> n in names
  }

  ghost predicate Run(key: string -> int, names: iset<string>, run: seq<State>) {
    && run != [] && Initial(names, run[0])
    && forall i :: 0 < i < |run| ==> Step(key, run[i - 1], run[i])
  }

  predicate Finished(s: State) {
    forall i :: 0 <= i < |s| ==> s[i].committed
  }

  predicate Deadlocked(key: string -> int, s: State) {
    !Finished(s) && forall i :: 0 <= i < |s| ==> !CanTake(key, s, i) && !CanCommit(s, i)
  }

  /** No lock key is held by two transactions, and all transactions lock sorted names of the collection. */
  ghost predicate Exclusive(key: string -> int, names: iset<string>, s: State) {
    && (forall i :: 0 <= i < |s| ==>
         Sorted(s[i].plan) && s[i].taken <= |s[i].plan| && forall n :: n in s[i].plan ==> n in names)
    && (forall i, j, k :: 0 <= i < |s| && 0 <= j < |s| && i != j && Holds(key, s[i], k) ==> !Holds(key, s[j], k))
  }

  lemma ExclusiveStays(key: string -> int, names: iset<string>, s: State, after: State)
    requires Exclusive(key, names, s) && Step(key, s, after)
    ensures Exclusive(key, names, after)
  {
    var i :| 0 <= i < |s| &&
      ((CanTake(key, s, i) && after == Taken(s, i)) || (CanCommit(s, i) && after == Committed(s, i)));
    forall j | 0 <= j < |s| ensures
      Sorted(after[j].plan) && after[j].taken <= |after[j].plan| && forall n :: n in after[j].plan ==> n in names {}
    forall j, k | 0 <= j < |s| && Holds(key, after[j], k)
      ensures Holds(key, s[j], k) || (j == i && CanTake(key, s, i) && k == key(Next(s[i])))
    {}
  }

  /** Of two running transactions no lock taken by the one has the key of a lock taken by the other. */
  lemma ExclusiveMeans(key: string -> int, names: iset<string>, s: State, i: nat, j: nat)
    requires Exclusive(key, names, s) && i < |s| && j < |s| && i != j && !s[i].committed && !s[j].committed
    ensures s[i].taken <= |s[i].plan| && s[j].taken <= |s[j].plan|
    ensures forall p, q :: 0 <= p < s[i].taken && 0 <= q < s[j].taken ==> key(s[i].plan[p]) != key(s[j].plan[q])
  {
    forall p, q | 0 <= p < s[i].taken && 0 <= q < s[j].taken ensures key(s[i].plan[p]) != key(s[j].plan[q]) {
      assert Holds(key, s[i], key(s[i].plan[p]));
      assert !Holds(key, s[j], key(s[i].plan[p]));
    }
  }

  /** A deadlock: some transaction has not committed, and nothing can be done. */
  lemma DeadlockMeans(key: string -> int, s: State)
    ensures Deadlocked(key, s) <==>
            (exists i :: 0 <= i < |s| && !s[i].committed) && forall after :: !Step(key, s, after)
  {
    forall i | 0 <= i < |s| && (CanTake(key, s, i) || CanCommit(s, i)) ensures exists after :: Step(key, s, after) {
      assert Step(key, s, if CanTake(key, s, i) then Taken(s, i) else Committed(s, i));
    }
  }

  /** In every state of every run no key, and so no name, is held twice. */
  lemma {:induction false} NoNameIsHeldTwice(key: string -> int, names: iset<string>, run: seq<State>, k: nat)
    requires Run(key, names, run) && k < |run|
    ensures Exclusive(key, names, run[k])
  {
    if k > 0 {
      NoNameIsHeldTwice(key, names, run, k - 1);
      ExclusiveStays(key, names, run[k - 1], run[k]);
    }
  }

  /** Names with one key are neighbours in the order of the names: none with another key stands between two of them. */
  ghost predicate Convex(key: string -> int, names: iset<string>) {
    forall a, b, c :: a in names && b in names && c in names && Less(a, b) && Less(b, c) && key(a) == key(c) ==>
      key(a) == key(b)
  }

  /** Of the waiting transactions, one whose next name is last. */
  lemma {:induction false} LastWaiting(s: State, n: nat) returns (i: nat)
    requires n <= |s| && exists j :: 0 <= j < n && Waiting(s[j])
    ensures i < n && Waiting(s[i])
    ensures forall j :: 0 <= j < n && Waiting(s[j]) ==> !Less(Next(s[i]), Next(s[j]))
  {
    i := n - 1;
    if exists j :: 0 <= j < n - 1 && Waiting(s[j]) {
      var other := LastWaiting(s, n - 1);
      if !Waiting(s[i]) || Less(Next(s[i]), Next(s[other])) {
        if Waiting(s[i]) && Less(Next(s[other]), Next(s[i])) {
          LessIsTransitive(Next(s[i]), Next(s[other]), Next(s[i]));
          LessIsIrreflexive(Next(s[i]));
        }
        i := other;
      } else {
        forall j | 0 <= j < n && Waiting(s[j]) ensures !Less(Next(s[i]), Next(s[j])) {
          if Less(Next(s[i]), Next(s[j])) {
            if j == i {
              LessIsIrreflexive(Next(s[i]));
            } else {
              LessIsTotal(Next(s[i]), Next(s[other]));
              if Less(Next(s[other]), Next(s[i])) { LessIsTransitive(Next(s[other]), Next(s[i]), Next(s[j])); }
            }
          }
        }
      }
    } else {
      LessIsIrreflexive(Next(s[i]));
    }
  }

  /** In a deadlock, whoever holds the key a transaction waits for waits itself, for a name further on. */
  lemma BlockedByLater(key: string -> int, names: iset<string>, s: State, i: nat) returns (j: nat)
    requires Exclusive(key, names, s) && Convex(key, names) && Deadlocked(key, s) && i < |s| && Waiting(s[i])
    ensures j < |s| && Waiting(s[j]) && Less(Next(s[i]), Next(s[j]))
  {
    var k := key(Next(s[i]));
    assert !CanTake(key, s, i);
    j :| 0 <= j < |s| && j != i && Holds(key, s[j], k);
    assert !CanCommit(s, j) && !CanTake(key, s, j);
    var m :| 0 <= m < s[j].taken && key(s[j].plan[m]) == k;
    var held, wanted, next := s[j].plan[m], Next(s[i]), Next(s[j]);
    assert Less(held, next) && held in s[j].plan && next in s[j].plan && wanted in s[i].plan;
    var l :| 0 <= l < |s| && l != j && Holds(key, s[l], key(next));
    assert key(next) != k;
    LessIsTotal(wanted, next);
  }

  /** With convex keys there is always a step, until every transaction has committed. */
  lemma ConvexNeverDeadlocks(key: string -> int, names: iset<string>, s: State)
    requires Exclusive(key, names, s) && Convex(key, names)
    ensures !Deadlocked(key, s)
  {
    if Deadlocked(key, s) {
      hide Holds, Convex;
      var i :| 0 <= i < |s| && !s[i].committed;
      assert !CanCommit(s, i) && Waiting(s[i]);
      var last := LastWaiting(s, |s|);
      var j := BlockedByLater(key, names, s, last);
      assert false;
    }
  }

  /** Two transactions that lock `a` then `b`, and `b` then `c`, after one step each. */
  lemma NonConvexDeadlocks(key: string -> int, names: iset<string>, a: string, b: string, c: string)
    returns (run: seq<State>)
    requires a in names && b in names && c in names && Less(a, b) && Less(b, c) && key(a) == key(c) != key(b)
    ensures Run(key, names, run) && Deadlocked(key, run[|run| - 1])
  {
    var s := [Transaction([a, b], 0, false), Transaction([b, c], 0, false)];
    var one, two := Taken(s, 0), Taken(Taken(s, 0), 1);
    run := [s, one, two];
    TwoLocksTaken(key, a, b, c);
    hide CanTake, Deadlocked;
    assert Step(key, run[0], run[1]) && Step(key, run[1], run[2]);
  }

  lemma TwoLocksTaken(key: string -> int, a: string, b: string, c: string)
    requires key(a) == key(c) != key(b)
    ensures var s := [Transaction([a, b], 0, false), Transaction([b, c], 0, false)];
      && CanTake(key, s, 0) && CanTake(key, Taken(s, 0), 1) && Deadlocked(key, Taken(Taken(s, 0), 1))
  {
    var s := [Transaction([a, b], 0, false), Transaction([b, c], 0, false)];
    var two := Taken(Taken(s, 0), 1);
    assert s[0].plan[0] == a && s[0].plan[1] == b && s[1].plan[0] == b && s[1].plan[1] == c;
    assert Holds(key, two[0], key(a)) && Holds(key, two[1], key(b));
    assert !CanTake(key, two, 0) && !CanTake(key, two, 1);
  }

  /**
   * Sorted locking never deadlocks, for any number of transactions over these names, exactly when the names of each
   * key are neighbours. Distinct keys for distinct names are one such case.
   */
  lemma DeadlockFreeExactlyWhenConvex(key: string -> int, names: iset<string>)
    ensures (forall run :: Run(key, names, run) ==> !Deadlocked(key, run[|run| - 1])) <==> Convex(key, names)
  {
    if Convex(key, names) {
      forall run | Run(key, names, run) ensures !Deadlocked(key, run[|run| - 1]) {
        NoNameIsHeldTwice(key, names, run, |run| - 1);
        ConvexNeverDeadlocks(key, names, run[|run| - 1]);
      }
    } else {
      var a, b, c :| a in names && b in names && c in names && Less(a, b) && Less(b, c) && key(a) == key(c) != key(b);
      var run := NonConvexDeadlocks(key, names, a, b, c);
    }
  }

  lemma DistinctKeysAreConvex(key: string -> int, names: iset<string>)
    requires forall a, b :: a in names && b in names && key(a) == key(b) ==> a == b
    ensures Convex(key, names)
  {
    forall a, b, c | a in names && b in names && c in names && Less(a, b) && Less(b, c)
      ensures key(a) != key(c)
    {
      LessIsTransitive(a, b, c);
      LessIsIrreflexive(a);
    }
  }

  /** The locks and commits still to come. */
  function Remaining(s: State): int {
    if s == [] then 0
    else Remaining(s[1..]) + (|s[0].plan| - s[0].taken) + (if s[0].committed then 0 else 1)
  }

  lemma {:induction false} RemainingWithout(s: State, i: nat, t: Transaction)
    requires i < |s|
    ensures Remaining(s[i := t]) - Remaining(s) == Remaining([t]) - Remaining([s[i]])
  {
    if i > 0 {
      assert s[i := t][1..] == s[1..][i - 1 := t];
      RemainingWithout(s[1..], i - 1, t);
    } else {
      assert s[i := t][1..] == s[1..];
    }
  }

  /** Every step brings the end one step nearer, so with convex keys every run can only end with all committed. */
  lemma EveryStepCounts(key: string -> int, s: State, after: State)
    requires Step(key, s, after)
    ensures Remaining(after) == Remaining(s) - 1
  {
    var i :| 0 <= i < |s| &&
      ((CanTake(key, s, i) && after == Taken(s, i)) || (CanCommit(s, i) && after == Committed(s, i)));
    RemainingWithout(s, i, after[i]);
  }

  lemma {:induction false} AllWithinPlan(s: State)
    requires forall i :: 0 <= i < |s| ==> s[i].taken <= |s[i].plan|
    ensures Remaining(s) >= 0
  {
    if s != [] { AllWithinPlan(s[1..]); }
  }

  /** No run is longer than the locks and commits it started with. */
  lemma {:induction false} RunsAreBounded(key: string -> int, names: iset<string>, run: seq<State>, k: nat)
    requires Run(key, names, run) && k < |run|
    ensures k + Remaining(run[k]) == Remaining(run[0]) && Remaining(run[k]) >= 0
  {
    NoNameIsHeldTwice(key, names, run, k);
    AllWithinPlan(run[k]);
    if k > 0 {
      RunsAreBounded(key, names, run, k - 1);
      EveryStepCounts(key, run[k - 1], run[k]);
    }
  }
}
