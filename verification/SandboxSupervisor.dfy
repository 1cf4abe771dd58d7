/** The supervisor's main loop and its heartbeats (scripts/run_portfolio_sandbox.py:226-357 and 996-1123). */
module SandboxSupervisor {
  import opened Outcomes
  import opened SandboxDaemon
  import opened SandboxGenerations
  import opened SandboxNames
  import opened SandboxReconciliation
  import opened SandboxRemoval
  import opened Uuids

  const FAIL_STOP: nat := 78

  /** How `main` ended. `Running` only says that the bound on the rounds followed here was reached. */
  datatype Ending = Exited(status: nat) | Propagated | Running

  class SupervisorHeartbeat {
    const generation: Uuid
    var invalidated: bool

    constructor (generation: Uuid)
      ensures this.generation == generation && !invalidated
    {
      this.generation, invalidated := generation, false;
    }

    /** Sets the file's time, unless the heartbeat was invalidated. */
    method Refresh(d: Daemon) returns (ok: bool)
      requires d.Valid()
      modifies d`log
      ensures d.Valid() && (ok ==> !invalidated)
      ensures d.log == if ok then old(d.log) + [Refreshed(generation)] else old(d.log)
    {
      if invalidated { return false; }
      ok := *;
      if ok { d.Note(Refreshed(generation)); }
    }

    /** Succeeds without effect when already invalidated; otherwise only once the file is gone. */
    method Invalidate(d: Daemon) returns (ok: bool)
      requires d.Valid()
      modifies this`invalidated, d`log
      ensures d.Valid() && ok == invalidated
      ensures old(invalidated) ==> ok && d.log == old(d.log)
      ensures !old(invalidated) ==>
                d.log == old(d.log) + [if ok then Withdrawn(generation) else NotWithdrawn(generation)]
    {
      if invalidated { return true; }
      ok := *;
      invalidated := ok;
      d.Note(if ok then Withdrawn(generation) else NotWithdrawn(generation));
    }
  }

  /** Every generation begun since `start` had all its resources seen absent afterwards. */
  ghost predicate AllGone(log: seq<Event>, start: nat) {
    forall i :: start <= i < |log| && log[i].Begun? ==> Cleared(log, i, log[i].generation)
  }

  /** Every heartbeat created since `start` was withdrawn afterwards. */
  ghost predicate AllWithdrawn(log: seq<Event>, start: nat) {
    forall i :: start <= i < |log| && log[i].Beating? ==>
      exists j :: i < j < |log| && log[j] == Withdrawn(log[i].generation)
  }

  /** Every heartbeat that `create` returned since `start` was withdrawn afterwards. */
  ghost predicate KeptWithdrawn(log: seq<Event>, start: nat) {
    forall i :: start <= i < |log| && log[i].Kept? ==>
      exists j :: i < j < |log| && log[j] == Withdrawn(log[i].generation)
  }

  /** Everything found at start-up was accepted as a whole, and every generation found was then seen to be gone. */
  ghost predicate Settled(log: seq<Event>, start: nat) {
    exists s: nat, containers, networks :: start <= s && SettledAt(log, s, containers, networks)
  }

  ghost predicate SettledAt(log: seq<Event>, s: nat, containers: seq<Labelled>, networks: seq<Labelled>) {
    && Accepts(log, s, containers, networks)
    && AllCleared(log, s + 2, GenerationsOf(Container, containers) + GenerationsOf(Network, networks))
  }

  /** A further generation may begin. */
  ghost predicate Ready(log: seq<Event>, start: nat) {
    Settled(log, start) && AllGone(log, start) && AllWithdrawn(log, start)
  }

  /** Every generation began when one might. */
  ghost predicate Safe(log: seq<Event>, start: nat) {
    forall j :: start <= j < |log| && log[j].Begun? ==> Ready(log[..j], start)
  }

  lemma SettledStays(log: seq<Event>, more: seq<Event>, start: nat)
    requires Settled(log, start)
    ensures Settled(log + more, start)
  {
    hide AllCleared, GenerationsOf, Acceptable, NamesOf;
    var s, cs, ns :| start <= s && SettledAt(log, s, cs, ns);
    var found := GenerationsOf(Container, cs) + GenerationsOf(Network, ns);
    AllClearedStays(log, more, s + 2, found, 0, false);
    assert SettledAt(log + more, s, cs, ns);
  }

  lemma GoneStays(log: seq<Event>, more: seq<Event>, start: nat)
    requires AllGone(log, start)
    requires forall i :: 0 <= i < |more| && more[i].Begun? ==> i == 0 && Cleared(log + more, |log|, more[0].generation)
    ensures AllGone(log + more, start)
  {
    hide Cleared;
    forall i | start <= i < |log + more| && (log + more)[i].Begun?
      ensures Cleared(log + more, i, (log + more)[i].generation)
    {
      if i < |log| {
        ClearedStays(log, more, i, i, log[i].generation);
      } else {
        assert more[i - |log|].Begun?;
      }
    }
  }

  lemma WithdrawnSplits(log: seq<Event>, more: seq<Event>, start: nat)
    requires AllWithdrawn(log, start) && start <= |log|
    ensures AllWithdrawn(more, 0) <==> AllWithdrawn(log + more, start)
    ensures KeptWithdrawn(more, 0) <==> KeptWithdrawn(log + more, |log|)
  {
    var after := log + more;
    assert forall i :: 0 <= i < |more| ==> after[|log| + i] == more[i];
    assert forall i :: |log| <= i < |after| ==> after[i] == more[i - |log|];
    if AllWithdrawn(more, 0) {
      forall i | start <= i < |after| && after[i].Beating?
        ensures exists j :: i < j < |after| && after[j] == Withdrawn(after[i].generation)
      {
        if i < |log| {
          var j :| i < j < |log| && log[j] == Withdrawn(log[i].generation);
          assert after[j] == log[j];
        } else {
          var j :| i - |log| < j < |more| && more[j] == Withdrawn(more[i - |log|].generation);
          assert after[|log| + j] == more[j];
        }
      }
    }
  }

  lemma SafeStays(log: seq<Event>, more: seq<Event>, start: nat)
    requires Safe(log, start) && start <= |log|
    requires forall i :: 0 <= i < |more| && more[i].Begun? ==> i == 0 && Ready(log, start)
    ensures Safe(log + more, start)
  {
    hide Ready;
    forall j | start <= j < |log + more| && (log + more)[j].Begun? ensures Ready((log + more)[..j], start) {
      if j < |log| {
        assert (log + more)[..j] == log[..j];
      } else {
        assert more[j - |log|].Begun?;
        assert (log + more)[..j] == log;
      }
    }
  }

  function Beats(g: Uuid, beats: nat): seq<Event> {
    seq(beats, _ => Refreshed(g))
  }

  /**
   * How `create` ended: without a file; interrupted with a file left behind; with a file left behind, or removed,
   * after its first refresh failed; or with the heartbeat, then refreshed so many times.
   */
  datatype Creation = NoFile | Abandoned(refreshed: bool) | Stranded | Removed | Returned(beats: nat)
  {
    predicate Leaves() {
      Abandoned? || Stranded?
    }
  }

  /** The life of a heartbeat while its generation runs. */
  function Life(g: Uuid, creation: Creation): seq<Event> {
    match creation
    case NoFile => []
    case Abandoned(refreshed) => [Beating(g)] + Beats(g, if refreshed then 1 else 0)
    case Stranded => [Beating(g), NotWithdrawn(g)]
    case Removed => [Beating(g), Withdrawn(g)]
    case Returned(beats) => [Beating(g), Refreshed(g), Kept(g)] + Beats(g, beats)
  }

  /**
   * What a round did, from the log's length `begin` on: the life of the heartbeat, what was raised, whether a
   * heartbeat that `create` returned was withdrawn, the removals after that, and how they ended.
   */
  datatype Course = Course(generation: Uuid, begin: nat, creation: Creation, raised: Raised, withdrawn: bool,
                           cuts: seq<nat>, outcome: Outcome)
  {
    /** The heartbeat was withdrawn and every resource removed, as far as the main loop looks. */
    predicate Proven() {
      (creation.Returned? ==> withdrawn) && outcome == Done
    }

    /** No heartbeat file is left behind. */
    predicate Withdrew() {
      !creation.Leaves() && (creation.Returned? ==> withdrawn)
    }
  }

  /** The round up to the removals. */
  function Head(g: Uuid, creation: Creation, raised: Raised, withdrawn: bool): seq<Event> {
    [Begun(g)] + Life(g, creation) + [Ran(raised)] + Ends(g, creation, withdrawn)
  }

  /** The heartbeat that `create` returned is withdrawn, or cannot be. */
  function Ends(g: Uuid, creation: Creation, withdrawn: bool): seq<Event> {
    if !creation.Returned? then [] else if withdrawn then [Withdrawn(g)] else [NotWithdrawn(g)]
  }

  /** The events of a round are those of its course, and all that `create` did not return goes with an exception. */
  predicate Followed(log: seq<Event>, course: Course) {
    && Swept(log, course.generation, course.cuts, course.outcome)
    && course.begin <= course.cuts[0] && course.cuts[0] <= End(course) <= |log|
    && log[course.begin..course.cuts[0]]
       == Head(course.generation, course.creation, course.raised, course.withdrawn)
    && (forall i :: course.cuts[0] <= i < End(course) ==> Call(log[i]))
    && (!course.creation.Returned? ==> course.raised != Nothing)
  }

  function End(course: Course): nat {
    if course.cuts == [] then 0 else course.cuts[|course.cuts| - 1]
  }

  lemma HeadBegins(g: Uuid, creation: Creation, raised: Raised, withdrawn: bool)
    ensures var head := Head(g, creation, raised, withdrawn);
      head != [] && head[0] == Begun(g) && forall i :: 0 < i < |head| ==> !head[i].Begun?
  {}

  lemma HeadWithdraws(g: Uuid, creation: Creation, raised: Raised, withdrawn: bool)
    ensures (!creation.Leaves() && (creation.Returned? ==> withdrawn))
            <==> AllWithdrawn(Head(g, creation, raised, withdrawn), 0)
  {
    BeatingOnce(g, creation, raised, withdrawn);
    if creation.Returned? { ReturnedEnds(g, creation.beats, raised, withdrawn); }
    if !creation.Returned? && !creation.NoFile? { OthersEnd(g, creation, raised, withdrawn); }
    hide Head;
  }

  lemma BeatingOnce(g: Uuid, creation: Creation, raised: Raised, withdrawn: bool)
    ensures var head := Head(g, creation, raised, withdrawn);
      && (forall i :: 0 <= i < |head| && head[i].Beating? ==> !creation.NoFile? && i == 1)
      && (!creation.NoFile? ==> |head| > 2 && head[1] == Beating(g))
  {}

  lemma OthersEnd(g: Uuid, creation: Creation, raised: Raised, withdrawn: bool)
    requires creation.Leaves() || creation.Removed?
    ensures var head := Head(g, creation, raised, withdrawn);
      && (creation.Removed? ==> |head| > 2 && head[2] == Withdrawn(g))
      && (!creation.Removed? ==> forall j :: 0 <= j < |head| ==> !head[j].Withdrawn?)
  {}

  lemma HeadKeeps(g: Uuid, creation: Creation, raised: Raised, withdrawn: bool)
    ensures (creation.Returned? ==> withdrawn) <==> KeptWithdrawn(Head(g, creation, raised, withdrawn), 0)
  {
    KeptOnce(g, creation, raised, withdrawn);
    if creation.Returned? { ReturnedEnds(g, creation.beats, raised, withdrawn); }
    hide Head;
  }

  lemma KeptOnce(g: Uuid, creation: Creation, raised: Raised, withdrawn: bool)
    ensures var head := Head(g, creation, raised, withdrawn);
      && (forall i :: 0 <= i < |head| && head[i].Kept? ==> creation.Returned? && i == 3)
      && (creation.Returned? ==> |head| > 4 && head[3] == Kept(g))
  {}

  lemma ReturnedEnds(g: Uuid, beats: nat, raised: Raised, withdrawn: bool)
    ensures var head := Head(g, Returned(beats), raised, withdrawn);
      && (withdrawn ==> head[|head| - 1] == Withdrawn(g))
      && (!withdrawn ==> forall j :: 0 <= j < |head| ==> !head[j].Withdrawn?)
  {}

  /** The removals at the end of a round begin no generation and withdraw no heartbeat. */
  lemma CallsAddNothing(head: seq<Event>, run: seq<Event>)
    requires forall i :: 0 <= i < |run| ==> Call(run[i])
    ensures AllWithdrawn(head + run, 0) <==> AllWithdrawn(head, 0)
    ensures KeptWithdrawn(head + run, 0) <==> KeptWithdrawn(head, 0)
    ensures forall i :: |head| <= i < |head + run| ==> !(head + run)[i].Begun?
  {
    var more := head + run;
    assert forall i :: 0 <= i < |head| ==> more[i] == head[i];
    forall i | |head| <= i < |more|
      ensures !more[i].Begun? && !more[i].Beating? && !more[i].Kept? && !more[i].Withdrawn?
    {
      assert Call(more[i]) by { assert more[i] == run[i - |head|]; }
    }
    hide Call;
  }

  lemma RoundEnds(log: seq<Event>, n: nat, g: Uuid, creation: Creation, raised: Raised, withdrawn: bool,
      run: seq<Event>)
    requires n <= |log| && Ready(log, n) && Safe(log, n)
    requires forall i :: 0 <= i < |run| ==> Call(run[i])
    ensures var after := log + (Head(g, creation, raised, withdrawn) + run);
      && Safe(after, n) && Settled(after, n)
      && (Cleared(after, |log|, g) ==> AllGone(after, n))
      && ((!creation.Leaves() && (creation.Returned? ==> withdrawn)) <==> AllWithdrawn(after, n))
      && ((creation.Returned? ==> withdrawn) <==> KeptWithdrawn(after, |log|))
  {
    hide Cleared, Settled, Call, Head, AllWithdrawn, KeptWithdrawn;
    var head := Head(g, creation, raised, withdrawn);
    HeadBegins(g, creation, raised, withdrawn);
    HeadWithdraws(g, creation, raised, withdrawn);
    HeadKeeps(g, creation, raised, withdrawn);
    CallsAddNothing(head, run);
    var more := head + run;
    assert more[0] == head[0];
    SafeStays(log, more, n);
    SettledStays(log, more, n);
    WithdrawnSplits(log, more, n);
    if Cleared(log + more, |log|, g) { GoneStays(log, more, n); }
  }

  /** `SupervisorHeartbeat.create`: a file made and refreshed once; a failed refresh removes it if it can. */
  method CreateHeartbeat(d: Daemon, g: Uuid)
    returns (heartbeat: SupervisorHeartbeat?, raised: Raised, ghost creation: Creation)
    requires d.Valid()
    modifies d`log
    ensures d.Valid() && d.log == old(d.log) + Life(g, creation)
    ensures heartbeat == null <==> raised != Nothing
    ensures creation.Returned? <==> heartbeat != null
    ensures heartbeat != null ==>
              fresh(heartbeat) && heartbeat.generation == g && !heartbeat.invalidated && creation == Returned(0)
  {
    heartbeat, raised := null, *;
    var made: bool := *;
    if !made { return null, if raised.Nothing? then Error else raised, NoFile; }
    d.Note(Beating(g));
    if !raised.Nothing? { return null, raised, Abandoned(false); }
    heartbeat := new SupervisorHeartbeat(g);
    var ok := heartbeat.Refresh(d);
    raised := *;
    if !ok {
      ok := heartbeat.Invalidate(d);
      return null, if raised.Nothing? then Error else raised, if ok then Removed else Stranded;
    }
    if !raised.Nothing? { return null, raised, Abandoned(true); }
    d.Note(Kept(g));
    creation := Returned(0);
  }

  /** Refreshes while the generation runs; one that fails may or may not end it. */
  method RunGuarded(d: Daemon, heartbeat: SupervisorHeartbeat) returns (raised: Raised, ghost beats: nat)
    requires d.Valid() && !heartbeat.invalidated
    modifies d
    ensures d.Valid() && d.log == old(d.log) + Beats(heartbeat.generation, beats)
  {
    var g, refreshes: int := heartbeat.generation, *;
    beats := 0;
    for i := 0 to if refreshes < 0 then 0 else refreshes
      invariant d.Valid() && d.log == old(d.log) + Beats(g, beats)
    {
      d.Wait(60.0);
      var ok := heartbeat.Refresh(d);
      if ok {
        assert Beats(g, beats) + [Refreshed(g)] == Beats(g, beats + 1);
        beats := beats + 1;
      }
    }
    raised := *;
    d.Wait(86400.0);
  }

  lemma LifeGoesOn(g: Uuid, beats: nat)
    ensures Life(g, Returned(0)) + Beats(g, beats) == Life(g, Returned(beats))
  {}

  lemma HeadFollows(base: seq<Event>, g: Uuid, creation: Creation, raised: Raised, withdrawn: bool)
    ensures base + Head(g, creation, raised, withdrawn)
         == base + [Begun(g)] + Life(g, creation) + [Ran(raised)] + Ends(g, creation, withdrawn)
  {
    hide Life;
  }

  /** A generation runs until it expires or something is raised; a heartbeat that was returned is then withdrawn. */
  method RunAndWithdraw(d: Daemon, g: Uuid) returns (raised: Raised, withdrawn: bool, ghost creation: Creation)
    requires d.Valid()
    modifies d
    ensures d.Valid() && d.log == old(d.log) + Head(g, creation, raised, withdrawn)
    ensures !creation.Returned? ==> withdrawn && raised != Nothing
  {
    hide Head, Life, Beats, Honest;
    d.Note(Begun(g));
    var heartbeat;
    heartbeat, raised, creation := CreateHeartbeat(d, g);
    if heartbeat != null {
      ghost var beats;
      raised, beats := RunGuarded(d, heartbeat);
      LifeGoesOn(g, beats);
      creation := Returned(beats);
    }
    d.Note(Ran(raised));
    withdrawn := true;
    if heartbeat != null { withdrawn := heartbeat.Invalidate(d); }
    HeadFollows(old(d.log), g, creation, raised, withdrawn);
  }

  /**
   * One round of the main loop. The heartbeat is withdrawn before anything is removed, and removal is attempted
   * whatever was raised, also when the heartbeat could not be withdrawn.
   */
  method RunGeneration(d: Daemon, g: Uuid, ghost n: nat) returns (raised: Raised, proven: bool, ghost course: Course)
    requires d.Valid() && n <= |d.log| && Ready(d.log, n) && Safe(d.log, n)
    modifies d
    ensures d.Valid() && old(d.log) <= d.log && Safe(d.log, n) && Settled(d.log, n)
    ensures Followed(d.log, course) && course.begin == |old(d.log)| && End(course) == |d.log|
    ensures course.generation == g && raised == course.raised && proven == course.Proven()
    ensures raised.Nothing? && proven ==> course.Withdrew()
    ensures proven ==> AllGone(d.log, n) && KeptWithdrawn(d.log, course.begin)
    ensures !proven ==> Stuck(d.log, course.begin, g) || !KeptWithdrawn(d.log, course.begin)
    ensures AllWithdrawn(d.log, n) <==> course.Withdrew()
  {
    hide Cleared, Ready, Safe, AllWithdrawn, KeptWithdrawn, AllGone, Settled, Swept, Call, Honest, Head;
    ghost var before, creation := d.log, NoFile;
    var withdrawn;
    raised, withdrawn, creation := RunAndWithdraw(d, g);
    ghost var head := d.log;
    var outcome, cuts := DestroyGeneration(d, g);
    ghost var run := d.log[|head|..];
    assert d.log == before + (Head(g, creation, raised, withdrawn) + run);
    RoundEnds(before, n, g, creation, raised, withdrawn, run);
    proven := withdrawn && outcome == Done;
    course := Course(g, |before|, creation, raised, withdrawn, cuts, outcome);
    SweptHasStart(d.log, g, cuts, outcome);
    assert d.log[|before|..|head|] == Head(g, creation, raised, withdrawn);
    if proven {
      ClearedStays(d.log, [], |head|, |before|, g);
      assert d.log + [] == d.log;
    }
    if outcome != Done { StuckHere(d.log, |before|, g, cuts, outcome); }
  }

  lemma SweptHasStart(log: seq<Event>, g: Uuid, cuts: seq<nat>, outcome: Outcome)
    requires Removals(log, g, cuts, outcome) && (outcome == Done ==> |cuts| == 7)
    ensures Swept(log, g, cuts, outcome) && 1 <= |cuts| && cuts[|cuts| - 1] <= |log|
  {}

  /** The log ends with the destruction of this generation, begun after `start`, which did not return normally. */
  ghost predicate Stuck(log: seq<Event>, start: nat, g: Uuid) {
    exists cuts, outcome :: outcome != Done && Swept(log, g, cuts, outcome) && start <= cuts[0] && EndOf(cuts) == |log|
  }

  lemma StuckHere(log: seq<Event>, start: nat, g: Uuid, cuts: seq<nat>, outcome: Outcome)
    requires outcome != Done && Swept(log, g, cuts, outcome) && start <= cuts[0] && EndOf(cuts) == |log|
    ensures Stuck(log, start, g)
  {}

  /** The marker that keeps a later run from starting anything. */
  class FailStop {
    var marked: bool
    /** How often writing the marker was attempted. */
    ghost var attempts: nat

    /** `_mark_fail_stop`: writing the marker may fail silently, and never removes one. */
    method Mark()
      modifies this
      ensures (old(marked) ==> marked) && attempts == old(attempts) + 1
    {
      var written: bool := *;
      marked := marked || written;
      attempts := attempts + 1;
    }
  }

  /**
   * The directory could be listed, every name in it that begins like a heartbeat's is one (`Some` of its generation),
   * and every heartbeat was withdrawn, in the order of the names.
   */
  predicate Withdraws(log: seq<Event>, start: nat, entries: Option<seq<Option<Uuid>>>) {
    && entries.Some? && None !in entries.value && start + |entries.value| <= |log|
    && forall i :: 0 <= i < |entries.value| ==>
         entries.value[i].Some? && log[start + i] == Withdrawn(entries.value[i].value)
  }

  /** One heartbeat after another was withdrawn, up to one that could not be. */
  predicate LeavesOne(log: seq<Event>, start: nat, names: seq<Option<Uuid>>) {
    exists k :: 0 <= k < |names| && |log| == start + k + 1 && names[k].Some?
                && log[start + k] == NotWithdrawn(names[k].value)
                && forall i :: 0 <= i < k ==> names[i].Some? && log[start + i] == Withdrawn(names[i].value)
  }

  predicate Withdrawal(e: Event) {
    e.Withdrawn? || e.NotWithdrawn?
  }

  /** `invalidate_orphaned_heartbeats`: a name that is not a heartbeat's refuses all of them, before any is touched. */
  method InvalidateOrphanedHeartbeats(d: Daemon, entries: Option<seq<Option<Uuid>>>) returns (ok: bool)
    requires d.Valid()
    modifies d`log
    ensures d.Valid() && old(d.log) <= d.log
    ensures entries.None? || None in entries.value ==> d.log == old(d.log)
    ensures ok <==> Withdraws(d.log, |old(d.log)|, entries)
    ensures ok ==> |d.log| == |old(d.log)| + |entries.value|
    ensures !ok && entries.Some? && None !in entries.value ==> LeavesOne(d.log, |old(d.log)|, entries.value)
    ensures forall i :: |old(d.log)| <= i < |d.log| ==> Withdrawal(d.log[i])
  {
    hide Honest, Withdrawal, LeavesOne, Withdraws;
    if entries.None? || None in entries.value {
      NotWithdrawnAtAll(d.log, entries);
      return false;
    }
    var names := entries.value;
    for i := 0 to |names|
      invariant d.Valid() && old(d.log) <= d.log && |d.log| == |old(d.log)| + i
      invariant forall k :: 0 <= k < i ==> names[k] != None && d.log[|old(d.log)| + k] == Withdrawn(names[k].value)
    {
      assert names[i] in names;
      var heartbeat := new SupervisorHeartbeat(names[i].value);
      ok := heartbeat.Invalidate(d);
      if !ok {
        OneIsLeft(d.log, |old(d.log)|, names, i);
        return false;
      }
    }
    AllAreWithdrawn(d.log, |old(d.log)|, names);
    ok := true;
  }

  lemma NotWithdrawnAtAll(log: seq<Event>, entries: Option<seq<Option<Uuid>>>)
    requires entries.None? || None in entries.value
    ensures !Withdraws(log, |log|, entries)
  {}

  lemma OneIsLeft(log: seq<Event>, start: nat, names: seq<Option<Uuid>>, k: nat)
    requires k < |names| && |log| == start + k + 1 && names[k].Some?
    requires log[start + k] == NotWithdrawn(names[k].value)
    requires forall i :: 0 <= i < k ==> names[i].Some? && log[start + i] == Withdrawn(names[i].value)
    ensures LeavesOne(log, start, names) && !Withdraws(log, start, Some(names))
    ensures forall i :: start <= i < |log| ==> Withdrawal(log[i])
  {
    forall i | start <= i < |log| ensures Withdrawal(log[i]) {
      assert i - start < k ==> log[start + (i - start)] == Withdrawn(names[i - start].value);
    }
  }

  lemma AllAreWithdrawn(log: seq<Event>, start: nat, names: seq<Option<Uuid>>)
    requires |log| == start + |names| && None !in names
    requires forall i :: 0 <= i < |names| ==> names[i].Some? && log[start + i] == Withdrawn(names[i].value)
    ensures Withdraws(log, start, Some(names)) && forall i :: start <= i < |log| ==> Withdrawal(log[i])
  {
    forall i | start <= i < |log| ensures Withdrawal(log[i]) {
      assert log[start + (i - start)] == Withdrawn(names[i - start].value);
    }
  }

  lemma NothingBegun(log: seq<Event>, n: nat)
    requires forall i :: n <= i < |log| ==> Withdrawal(log[i])
    ensures Safe(log, n)
  {}

  /** How start-up ended: a heartbeat left behind, the marker found, or as the reconciliation did. */
  datatype Start = HeartbeatsLeft | MarkerFound | Reconciling(result: Reconciliation)

  /** Why reconciliation, begun at `s`, failed: discovery refused, or some removal of what it accepted got stuck. */
  ghost predicate Irreconcilable(log: seq<Event>, s: nat) {
    Refusal(log, s) || exists containers, networks, outcome :: StuckAfter(log, s, containers, networks, outcome)
  }

  ghost predicate StuckAfter(log: seq<Event>, s: nat, containers: seq<Labelled>, networks: seq<Labelled>,
                             outcome: Outcome)
  {
    && outcome != Done && Accepts(log, s, containers, networks)
    && Destroyed(log, s + 2, GenerationsOf(Container, containers) + GenerationsOf(Network, networks), outcome)
  }

  lemma ReconciliationEnds(d: Daemon, n: nat, s: nat, result: Reconciliation, containers: seq<Labelled>,
      networks: seq<Labelled>, outcome: Outcome)
    requires n <= s <= |d.log| && forall i :: n <= i < s ==> Withdrawal(d.log[i])
    requires result.Refused? ==> Refusal(d.log, s)
    requires !result.Refused? ==> Accepts(d.log, s, containers, networks)
    requires !result.Refused? ==> OnlyOwned(d.identity, d.log, s + 2,
                                            GenerationsOf(Container, containers) + GenerationsOf(Network, networks))
    requires result.Unproven? ==>
               && outcome != Done
               && Destroyed(d.log, s + 2, GenerationsOf(Container, containers) + GenerationsOf(Network, networks),
                            outcome)
    requires result.Reconciled? ==>
               AllCleared(d.log, s + 2, GenerationsOf(Container, containers) + GenerationsOf(Network, networks))
    ensures Safe(d.log, n)
    ensures if result.Reconciled? then Ready(d.log, n) else Irreconcilable(d.log, s)
  {
    hide AllCleared, GenerationsOf, Acceptable, Cleared, Owns, Destroyed;
    forall i | n <= i < |d.log| ensures !d.log[i].Begun? && !d.log[i].Beating? {}
    if result.Reconciled? { assert SettledAt(d.log, s, containers, networks); }
    if result.Unproven? { assert StuckAfter(d.log, s, containers, networks, outcome); }
  }

  /**
   * Start-up: heartbeats left behind, then the marker, then resources left behind. It is ready unless a heartbeat
   * could not be withdrawn, the marker is there, or reconciliation failed for the reason in the log.
   */
  method StartUp(d: Daemon, stop: FailStop, entries: Option<seq<Option<Uuid>>>)
    returns (ready: bool, ghost start: Start)
    requires d.Valid()
    modifies d, stop
    ensures d.Valid() && old(d.log) <= d.log && Safe(d.log, |old(d.log)|)
    ensures ready <==> start.Reconciling? && start.result.Reconciled?
    ensures ready ==> Ready(d.log, |old(d.log)|) && stop.marked == old(stop.marked)
    ensures start.HeartbeatsLeft? <==> !Withdraws(d.log, |old(d.log)|, entries)
    ensures start.HeartbeatsLeft? && entries.Some? && None !in entries.value ==>
              LeavesOne(d.log, |old(d.log)|, entries.value)
    ensures start.MarkerFound? <==> Withdraws(d.log, |old(d.log)|, entries) && old(stop.marked)
    ensures start.Reconciling? && !ready ==> Irreconcilable(d.log, |old(d.log)| + |entries.value|)
    ensures stop.attempts == old(stop.attempts) + if ready || start.MarkerFound? then 0 else 1
    ensures old(stop.marked) ==> stop.marked && forall i :: |old(d.log)| <= i < |d.log| ==> Withdrawal(d.log[i])
  {
    hide Ready, Safe, Accepts, Refusal, OnlyOwned, GenerationsOf, AllCleared, Destroyed, Irreconcilable, LeavesOne;
    ghost var n := |d.log|;
    var ok := InvalidateOrphanedHeartbeats(d, entries);
    NothingBegun(d.log, n);
    if !ok {
      stop.Mark();
      return false, HeartbeatsLeft;
    }
    if stop.marked { return false, MarkerFound; }
    ghost var s := |d.log|;
    var result, containers, networks, outcome := ReconcileOrphanedGenerations(d);
    ReconciliationEnds(d, n, s, result, containers, networks, outcome);
    start := Reconciling(result);
    ready := result.Reconciled?;
    if !ready { stop.Mark(); }
  }

  /** How the main loop ends after a round, if it does. */
  function Verdict(course: Course, once: bool): Option<Ending> {
    if !course.Proven() then Some(Exited(FAIL_STOP))
    else match course.raised
      case Keyboard => Some(Exited(0))
      case Fatal => Some(Propagated)
      case Error => Some(Exited(1))
      case Nothing => if once then Some(Exited(0)) else None
  }

  /** From `start` on, the log is one round after another. */
  predicate Conducted(log: seq<Event>, start: nat, courses: seq<Course>) {
    && (forall k :: 0 <= k < |courses| ==> Followed(log, courses[k]))
    && (forall k :: 0 < k < |courses| ==> courses[k].begin == End(courses[k - 1]))
    && if courses == [] then |log| == start
       else courses[0].begin == start && |log| == End(courses[|courses| - 1])
  }

  /** The first round with a verdict is the last one, and its verdict is how the loop ended. */
  predicate Judged(courses: seq<Course>, once: bool, rounds: nat, ending: Ending) {
    && |courses| <= rounds
    && (forall k :: 0 <= k < |courses| - 1 ==> Verdict(courses[k], once) == None)
    && if courses != [] && Verdict(courses[|courses| - 1], once).Some?
       then ending == Verdict(courses[|courses| - 1], once).value
       else ending == Running && |courses| == rounds
  }

  lemma FollowedStays(log: seq<Event>, more: seq<Event>, course: Course)
    requires Followed(log, course)
    ensures Followed(log + more, course)
  {
    hide Removals, Head, Call;
    var after, cuts := log + more, course.cuts;
    assert after[course.begin..cuts[0]] == log[course.begin..cuts[0]];
    RemovalsStay(log, more, course.generation, cuts, course.outcome);
  }

  lemma ConductedGrows(log: seq<Event>, more: seq<Event>, start: nat, courses: seq<Course>, course: Course)
    requires Conducted(log, start, courses) && Followed(log + more, course)
    requires course.begin == |log| && End(course) == |log + more|
    ensures Conducted(log + more, start, courses + [course])
  {
    hide Followed;
    forall k | 0 <= k < |courses| + 1 ensures Followed(log + more, (courses + [course])[k]) {
      if k < |courses| { FollowedStays(log, more, courses[k]); }
    }
  }

  /** Why a running supervisor fail-stops: a removal that did not return normally, or a heartbeat not withdrawn. */
  ghost predicate Unproven(log: seq<Event>, start: nat) {
    (exists g :: Stuck(log, start, g)) || !KeptWithdrawn(log, start)
  }

  lemma UnprovenSince(log: seq<Event>, n: nat, before: nat, g: Uuid)
    requires n <= before && (Stuck(log, before, g) || !KeptWithdrawn(log, before))
    ensures Unproven(log, n)
  {
    hide Swept;
    if Stuck(log, before, g) { assert Stuck(log, n, g); }
  }

  lemma ReadyAgain(log: seq<Event>, n: nat)
    requires Settled(log, n) && AllGone(log, n) && AllWithdrawn(log, n)
    ensures Ready(log, n)
  {}

  lemma JudgedGrows(courses: seq<Course>, course: Course, once: bool, rounds: nat)
    requires Judged(courses, once, |courses|, Running) && |courses| < rounds
    ensures Verdict(course, once).None? ==> Judged(courses + [course], once, |courses| + 1, Running)
    ensures Verdict(course, once).Some? ==> Judged(courses + [course], once, rounds, Verdict(course, once).value)
  {
    var after := courses + [course];
    forall k | 0 <= k < |after| - 1 ensures Verdict(after[k], once) == None {
      assert after[k] == courses[k];
    }
  }

  /** No heartbeat is left behind unless `create` failed in the last round after making the file. */
  predicate LeavesNone(courses: seq<Course>) {
    courses == [] || courses[|courses| - 1].Withdrew()
  }

  /** The main loop. */
  method RunGenerations(d: Daemon, stop: FailStop, once: bool, rounds: nat, ghost n: nat)
    returns (ending: Ending, ghost courses: seq<Course>)
    requires d.Valid() && n <= |d.log| && Ready(d.log, n) && Safe(d.log, n)
    modifies d, stop
    ensures d.Valid() && old(d.log) <= d.log && Safe(d.log, n)
    ensures Conducted(d.log, |old(d.log)|, courses) && Judged(courses, once, rounds, ending)
    ensures ending == Exited(FAIL_STOP) ==> Unproven(d.log, n)
    ensures ending != Exited(FAIL_STOP) ==> Settled(d.log, n) && AllGone(d.log, n)
    ensures AllWithdrawn(d.log, n) <==> LeavesNone(courses)
    ensures stop.attempts == old(stop.attempts) + if ending == Exited(FAIL_STOP) then 1 else 0
    ensures if ending == Exited(FAIL_STOP) then old(stop.marked) ==> stop.marked else stop.marked == old(stop.marked)
  {
    hide Ready, Safe, Stuck, Unproven, Settled, AllGone, AllWithdrawn, KeptWithdrawn, Followed, Conducted, Judged;
    courses := [];
    NothingConducted(d.log, once);
    for round := 0 to rounds
      invariant d.Valid() && old(d.log) <= d.log && Safe(d.log, n) && Ready(d.log, n)
      invariant stop.marked == old(stop.marked) && stop.attempts == old(stop.attempts)
      invariant |courses| == round && Conducted(d.log, |old(d.log)|, courses) && Judged(courses, once, round, Running)
      invariant LeavesNone(courses)
    {
      var g: Uuid := *;
      ghost var before := d.log;
      var raised, proven, course := RunGeneration(d, g, n);
      assert d.log == before + d.log[|before|..];
      ConductedGrows(before, d.log[|before|..], |old(d.log)|, courses, course);
      JudgedGrows(courses, course, once, rounds);
      courses := courses + [course];
      if !proven {
        UnprovenSince(d.log, n, |before|, g);
        stop.Mark();
        return Exited(FAIL_STOP), courses;
      }
      if raised.Keyboard? { return Exited(0), courses; }
      if raised.Fatal? { return Propagated, courses; }
      if raised.Error? { return Exited(1), courses; }
      if once { return Exited(0), courses; }
      ReadyAgain(d.log, n);
    }
    ReadyParts(d.log, n);
    ending := Running;
  }

  lemma NothingConducted(log: seq<Event>, once: bool)
    ensures Conducted(log, |log|, []) && Judged([], once, 0, Running)
  {}

  lemma ReadyParts(log: seq<Event>, n: nat)
    requires Ready(log, n)
    ensures Settled(log, n) && AllGone(log, n) && AllWithdrawn(log, n)
  {}

  /** A removal that finds its resource absent at once. */
  function Gone(t: Target): seq<Event> {
    [Undertaken(t.kind, t.name, 0.0), Listed(t.kind, t.name, {}, Got([]))]
  }

  lemma GoneIsRemoval(t: Target)
    ensures Removal(Gone(t), t, Done) && forall i :: 0 <= i < 2 ==> Call(Gone(t)[i]) && !Gone(t)[i].Withdrawn?
  {
    var run := Gone(t);
    assert run[..1] == [run[0]] && run[..1][..0] == [];
    assert Listings(run[..1]) == 0;
    assert Link(run, t, 0);
  }

  /** The first removals of a generation whose resources are not there. */
  function AllGoneAtOnce(g: Uuid, removals: nat): (log: seq<Event>)
    requires removals <= 6
    ensures |log| == 2 * removals
  {
    if removals == 0 then [] else AllGoneAtOnce(g, removals - 1) + Gone(Targets(g)[removals - 1])
  }

  function CutsFrom(start: nat, removals: nat): (cuts: seq<nat>)
    ensures |cuts| == removals + 1
  {
    seq(removals + 1, i => start + 2 * i)
  }

  lemma {:induction false} GoneAreRemovals(head: seq<Event>, g: Uuid, removals: nat)
    requires removals <= 6
    ensures Removals(head + AllGoneAtOnce(g, removals), g, CutsFrom(|head|, removals), Done)
  {
    hide Removal, Targets, Gone;
    if removals > 0 {
      var before, t := head + AllGoneAtOnce(g, removals - 1), Targets(g)[removals - 1];
      GoneAreRemovals(head, g, removals - 1);
      GoneIsRemoval(t);
      GoneIsLong(t);
      assert before + Gone(t) == head + AllGoneAtOnce(g, removals);
      assert CutsFrom(|head|, removals) == CutsFrom(|head|, removals - 1) + [|before + Gone(t)|];
      hide AllGoneAtOnce;
      RemovalsGrow(before, g, CutsFrom(|head|, removals - 1), Gone(t), Done);
    }
  }

  lemma {:induction false} GoneAreCalls(g: Uuid, removals: nat)
    requires removals <= 6
    ensures forall i :: 0 <= i < 2 * removals ==> Call(AllGoneAtOnce(g, removals)[i])
  {
    hide Removal, Targets;
    if removals > 0 { GoneAreCalls(g, removals - 1); }
  }

  lemma GoneIsLong(t: Target)
    ensures |Gone(t)| == 2
  {}

  /** What a generation logs whose heartbeat `create` leaves behind, and whose resources were never there. */
  function LeftLog(g: Uuid): seq<Event> {
    Head(g, Stranded, Error, true) + AllGoneAtOnce(g, 6)
  }

  /**
   * A heartbeat can be left behind with status 1 and nothing marked: the first refresh fails, so does the removal of
   * the file, and `main` never learns of the heartbeat.
   */
  lemma LeftHeartbeatHappens(g: Uuid, once: bool)
    ensures var course := Course(g, 0, Stranded, Error, true, CutsFrom(4, 6), Done);
      && Conducted(LeftLog(g), 0, [course]) && Judged([course], once, 1, Exited(1))
      && Beating(g) in LeftLog(g) && Withdrawn(g) !in LeftLog(g)
  {
    hide Removals, LeftLog, Head;
    LeftRemovals(g);
    LeftEvents(g);
  }

  lemma LeftHead(g: Uuid)
    ensures Head(g, Stranded, Error, true) == [Begun(g), Beating(g), NotWithdrawn(g), Ran(Error)]
  {}

  lemma LeftRemovals(g: Uuid)
    ensures |LeftLog(g)| == 16 && Removals(LeftLog(g), g, CutsFrom(4, 6), Done)
    ensures forall i :: 4 <= i < 16 ==> Call(LeftLog(g)[i])
  {
    hide Removals, AllGoneAtOnce, Head, Call;
    LeftHead(g);
    GoneAreRemovals(Head(g, Stranded, Error, true), g, 6);
    GoneAreCalls(g, 6);
  }

  lemma LeftEvents(g: Uuid)
    ensures |LeftLog(g)| == 16 && LeftLog(g)[0..4] == Head(g, Stranded, Error, true)
    ensures Beating(g) in LeftLog(g) && Withdrawn(g) !in LeftLog(g)
  {
    hide Removals, AllGoneAtOnce, Head;
    LeftHead(g);
    GoneAreCalls(g, 6);
    var log := LeftLog(g);
    assert log[1] == Beating(g);
    forall i | 0 <= i < 16 ensures log[i] != Withdrawn(g) {
      assert i >= 4 ==> Call(log[i]);
    }
  }

  /** After every generation, however it ended, its resources are looked for, the listener first. */
  lemma EveryRoundRemoves(log: seq<Event>, start: nat, courses: seq<Course>, k: nat)
    requires Conducted(log, start, courses) && k < |courses|
    ensures var c := courses[k];
      && |c.cuts| >= 2 && c.begin < c.cuts[0] && c.cuts[0] + 1 < End(c) <= |log|
      && ListingOf(log[c.cuts[0] + 1], Targets(c.generation)[0])
      && (c.outcome == Done ==> |c.cuts| == 7)
  {
    hide Followed, Targets;
    RoundRemoves(log, courses[k]);
  }

  lemma RoundRemoves(log: seq<Event>, c: Course)
    requires Followed(log, c)
    ensures |c.cuts| >= 2 && c.begin < c.cuts[0] && c.cuts[0] + 1 < End(c) <= |log|
    ensures ListingOf(log[c.cuts[0] + 1], Targets(c.generation)[0]) && (c.outcome == Done ==> |c.cuts| == 7)
  {
    hide Removals, Targets, Call, Head;
    HeadBegins(c.generation, c.creation, c.raised, c.withdrawn);
    assert |log[c.begin..c.cuts[0]]| > 0;
    CutsAscend(log, c.generation, c.cuts, c.outcome);
    DestructionIsAttempted(log, c.generation, c.cuts, c.outcome);
  }

  lemma CutsAscend(log: seq<Event>, g: Uuid, cuts: seq<nat>, outcome: Outcome)
    requires Removals(log, g, cuts, outcome) && (outcome == Done ==> |cuts| == 7)
    ensures 2 <= |cuts| <= 7 && cuts[1] <= cuts[|cuts| - 1] <= |log|
  {
    hide Removal, Targets;
    var k := 1;
    while k < |cuts| - 1
      invariant 1 <= k <= |cuts| - 1 && cuts[1] <= cuts[k]
    {
      k := k + 1;
    }
  }

  /** In a round a refresh has the making of the file before it and no withdrawal in between. */
  predicate Alive(log: seq<Event>, i: nat, j: nat)
    requires i < j < |log| && log[j].Refreshed?
  {
    log[i] == Beating(log[j].generation) && forall k :: i <= k < j ==> !log[k].Withdrawn?
  }

  lemma {:induction false} CourseOf(log: seq<Event>, start: nat, courses: seq<Course>, j: nat) returns (k: nat)
    requires Conducted(log, start, courses) && start <= j < |log|
    ensures k < |courses| && courses[k].begin <= j < End(courses[k])
  {
    hide Followed, End;
    k := 0;
    while j >= End(courses[k])
      invariant k < |courses| && courses[k].begin <= j
      decreases |courses| - k
    {
      k := k + 1;
    }
  }

  lemma RefreshedInHead(g: Uuid, creation: Creation, raised: Raised, withdrawn: bool, j: nat)
    requires j < |Head(g, creation, raised, withdrawn)| && Head(g, creation, raised, withdrawn)[j].Refreshed?
    ensures 1 < j && Alive(Head(g, creation, raised, withdrawn), 1, j)
  {
    if creation.Returned? { RefreshedWhileRunning(g, creation.beats, raised, withdrawn, j); }
  }

  lemma RefreshedWhileRunning(g: Uuid, beats: nat, raised: Raised, withdrawn: bool, j: nat)
    requires var head := Head(g, Returned(beats), raised, withdrawn); j < |head| && head[j].Refreshed?
    ensures 1 < j && Alive(Head(g, Returned(beats), raised, withdrawn), 1, j)
  {
    var head := Head(g, Returned(beats), raised, withdrawn);
    assert j < 4 + beats && head[1] == Beating(g);
    assert forall k :: 4 <= k < 4 + beats ==> head[k] == Refreshed(g);
  }

  /** A heartbeat is refreshed only after its file was made and before it is withdrawn. */
  lemma RefreshedWhileAlive(log: seq<Event>, start: nat, courses: seq<Course>, j: nat) returns (i: nat)
    requires Conducted(log, start, courses) && start <= j < |log| && log[j].Refreshed?
    ensures start <= i < j && Alive(log, i, j)
  {
    hide Followed, Alive;
    var k := CourseOf(log, start, courses, j);
    BeginsLater(log, start, courses, k);
    i := AliveInRound(log, courses[k], j);
  }

  lemma AliveInRound(log: seq<Event>, course: Course, j: nat) returns (i: nat)
    requires Followed(log, course) && course.begin <= j < End(course) && log[j].Refreshed?
    ensures course.begin <= i < j && Alive(log, i, j)
  {
    hide Followed, Head;
    RefreshIsInHead(log, course, j);
    var head := log[course.begin..course.cuts[0]];
    assert head[j - course.begin] == log[j];
    RefreshedInHead(course.generation, course.creation, course.raised, course.withdrawn, j - course.begin);
    i := course.begin + 1;
    assert head[1] == log[i];
    forall m | i <= m < j ensures !log[m].Withdrawn? {
      assert log[m] == head[m - course.begin];
    }
  }

  lemma RefreshIsInHead(log: seq<Event>, course: Course, j: nat)
    requires Followed(log, course) && course.begin <= j < End(course) && log[j].Refreshed?
    ensures course.cuts != [] && j < course.cuts[0] <= |log|
    ensures log[course.begin..course.cuts[0]]
            == Head(course.generation, course.creation, course.raised, course.withdrawn)
  {
    hide Removal, Targets, Head;
    assert course.cuts[0] <= j ==> Call(log[j]);
  }

  lemma {:induction false} BeginsLater(log: seq<Event>, start: nat, courses: seq<Course>, k: nat)
    requires Conducted(log, start, courses) && k < |courses|
    ensures start <= courses[k].begin
  {
    if k > 0 {
      BeginsLater(log, start, courses, k - 1);
      assert Followed(log, courses[k - 1]);
    }
  }

  /**
   * `main` from the lock on, for any number of rounds. Every generation begins only after start-up reconciliation and
   * after every earlier one was seen gone with its heartbeat withdrawn; the last round decides how the run ends; any
   * ending but 78 leaves no generation behind, and a heartbeat only if `create` failed after making its file; 78 goes
   * with an attempt to leave the marker, and a run that finds the marker starts and removes nothing.
   */
  method Supervise(d: Daemon, stop: FailStop, locked: bool, entries: Option<seq<Option<Uuid>>>, once: bool, rounds: nat)
    returns (ending: Ending, ghost start: Start, ghost at: nat, ghost courses: seq<Course>)
    requires d.Valid()
    modifies d, stop
    ensures d.Valid() && old(d.log) <= d.log && (old(stop.marked) ==> stop.marked)
    ensures Safe(d.log, |old(d.log)|)
    ensures !locked ==> ending == Exited(1) && d.log == old(d.log) && stop.marked == old(stop.marked)
    ensures !locked ==> stop.attempts == old(stop.attempts)
    ensures locked ==> (start.HeartbeatsLeft? <==> !Withdraws(d.log, |old(d.log)|, entries))
    ensures locked && start.HeartbeatsLeft? && entries.Some? && None !in entries.value ==>
              LeavesOne(d.log, |old(d.log)|, entries.value)
    ensures locked ==> (start.MarkerFound? <==> !start.HeartbeatsLeft? && old(stop.marked))
    ensures locked && start.Reconciling? && !start.result.Reconciled? ==>
              Irreconcilable(d.log, |old(d.log)| + |entries.value|)
    ensures locked && !(start.Reconciling? && start.result.Reconciled?) ==> ending == Exited(FAIL_STOP)
    ensures locked && start.Reconciling? && start.result.Reconciled? ==>
              |old(d.log)| <= at <= |d.log| && Conducted(d.log, at, courses) && Judged(courses, once, rounds, ending)
              && (AllWithdrawn(d.log, |old(d.log)|) <==> LeavesNone(courses))
    ensures locked && ending != Exited(FAIL_STOP) ==>
              Settled(d.log, |old(d.log)|) && AllGone(d.log, |old(d.log)|) && !stop.marked
    ensures old(stop.marked) ==> forall i :: |old(d.log)| <= i < |d.log| ==> Withdrawal(d.log[i])
    ensures locked && !old(stop.marked) ==> (ending == Exited(FAIL_STOP) <==> stop.attempts == old(stop.attempts) + 1)
  {
    hide Ready, Unproven, Safe, Withdraws, LeavesOne, Irreconcilable, Conducted, Judged, Settled, AllGone, AllWithdrawn;
    start, at, courses := MarkerFound, |d.log|, [];
    if !locked {
      NothingBegun(d.log, |d.log|);
      return Exited(1), start, at, courses;
    }
    ghost var n := |d.log|;
    var ready;
    ready, start := StartUp(d, stop, entries);
    if !ready { return Exited(FAIL_STOP), start, at, courses; }
    at := |d.log|;
    ghost var begun := d.log;
    ending, courses := RunGenerations(d, stop, once, rounds, n);
    WithdrawsStays(begun, d.log, n, entries);
  }

  lemma WithdrawsStays(log: seq<Event>, after: seq<Event>, start: nat, entries: Option<seq<Option<Uuid>>>)
    requires Withdraws(log, start, entries) && log <= after
    ensures Withdraws(after, start, entries)
  {}
}
