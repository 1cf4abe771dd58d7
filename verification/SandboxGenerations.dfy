/** Removal of a whole generation (scripts/run_portfolio_sandbox.py, `destroy_generation`). */
module SandboxGenerations {
  import opened Outcomes
  import opened SandboxDaemon
  import opened SandboxNames
  import opened SandboxRemoval
  import opened Uuids

  /** The resources of a generation in the order of removal. */
  function Targets(g: Uuid): (ts: seq<Target>)
    ensures |ts| == 6
  {
    [ Target(Container, NameOf(g, "-frontend"), g), Target(Container, NameOf(g, "-backend"), g),
      Target(Container, NameOf(g, "-initialize"), g), Target(Container, NameOf(g, "-db"), g),
      Target(Network, NameOf(g, "-ingress"), g), Target(Network, NameOf(g, ""), g) ]
  }

  /**
   * A log from `cuts[0]` on that is one removal after another, in the order of removal. Every removal but the last
   * returned normally, and the last one ended as `outcome` says.
   */
  predicate Removals(log: seq<Event>, g: Uuid, cuts: seq<nat>, outcome: Outcome) {
    && 1 <= |cuts| <= 7 && (outcome != Done ==> |cuts| >= 2)
    && (forall i :: 0 <= i < |cuts| ==> cuts[i] <= |log|)
    && (forall i :: 0 <= i < |cuts| - 1 ==> cuts[i] <= cuts[i + 1])
    && (forall i :: 0 <= i < |cuts| - 1 ==>
         Removal(log[cuts[i]..cuts[i + 1]], Targets(g)[i], if i == |cuts| - 2 then outcome else Done))
  }

  lemma RemovalsGrow(log: seq<Event>, g: Uuid, cuts: seq<nat>, run: seq<Event>, outcome: Outcome)
    requires Removals(log, g, cuts, Done) && |cuts| <= 6 && cuts[|cuts| - 1] == |log|
    requires Removal(run, Targets(g)[|cuts| - 1], outcome)
    ensures Removals(log + run, g, cuts + [|log + run|], outcome)
  {
    hide Removal, Targets;
    var after, ends := log + run, cuts + [|log + run|];
    forall i | 0 <= i < |ends| - 1
      ensures Removal(after[ends[i]..ends[i + 1]], Targets(g)[i], if i == |ends| - 2 then outcome else Done)
    {
      if i < |cuts| - 1 {
        assert ends[i] == cuts[i] && ends[i + 1] == cuts[i + 1] <= |log|;
        assert after[cuts[i]..cuts[i + 1]] == log[cuts[i]..cuts[i + 1]];
      } else {
        assert after[|log|..|after|] == run;
      }
    }
  }

  /** The resource a removal request names was created for generation `g` under one of its six names. */
  predicate Owns(identity: Id -> Identity, g: Uuid, e: Event)
    requires e.RemoveAsked?
  {
    exists k :: 0 <= k < 6 && identity(e.id) == Identity(Targets(g)[k].kind, Targets(g)[k].name, Some(Canonical(g)))
  }

  /** From `start` on, each of the six resources of `g` was seen absent, in the order of removal. */
  ghost predicate Cleared(log: seq<Event>, start: nat, g: Uuid) {
    exists at: seq<nat> :: SeenAbsent(log, start, g, at)
  }

  predicate SeenAbsent(log: seq<Event>, start: nat, g: Uuid, at: seq<nat>) {
    && |at| == 6
    && (forall k :: 0 <= k < 6 ==> start <= at[k] < |log| && Absent(log[at[k]], Targets(g)[k]))
    && (forall i, j :: 0 <= i < j < 6 ==> at[i] < at[j])
  }

  /** What is asked to be removed while a generation is destroyed belongs to it, and goes in the order of removal. */
  lemma EachIsOwned(d: Daemon, g: Uuid, cuts: seq<nat>, outcome: Outcome, i: nat)
    requires d.Valid() && Removals(d.log, g, cuts, outcome)
    requires cuts[0] <= i < cuts[|cuts| - 1]
    ensures Call(d.log[i])
    ensures d.log[i].RemoveAsked? ==> Owns(d.identity, g, d.log[i])
    ensures d.log[i].RemoveAsked? ==> exists k :: 0 <= k < |cuts| - 1 && cuts[k] <= i < cuts[k + 1]
                                                  && d.identity(d.log[i].id).name == Targets(g)[k].name
  {
    hide Targets, Removal, Call;
    var k := SegmentOf(cuts, i);
    var run := d.log[cuts[k]..cuts[k + 1]];
    assert run[i - cuts[k]] == d.log[i];
    RemovalMakesCalls(run, Targets(g)[k], if k == |cuts| - 2 then outcome else Done, i - cuts[k]);
    if d.log[i].RemoveAsked? {
      RemovalIsOwned(d, cuts[k], cuts[k + 1], Targets(g)[k], if k == |cuts| - 2 then outcome else Done, i);
      TargetsAreOf(g, k);
    }
  }

  lemma TargetsAreOf(g: Uuid, k: nat)
    requires k < 6
    ensures Targets(g)[k].generation == g
  {}

  lemma DestroyedIsOwned(d: Daemon, g: Uuid, cuts: seq<nat>, outcome: Outcome)
    requires d.Valid() && Removals(d.log, g, cuts, outcome)
    ensures forall i :: cuts[0] <= i < cuts[|cuts| - 1] ==> Call(d.log[i])
    ensures forall i :: cuts[0] <= i < cuts[|cuts| - 1] && d.log[i].RemoveAsked? ==> Owns(d.identity, g, d.log[i])
  {
    hide Call, Owns, Removals;
    RemovalsHasStart(d.log, g, cuts, outcome);
    forall i | cuts[0] <= i < cuts[|cuts| - 1]
      ensures Call(d.log[i]) && (d.log[i].RemoveAsked? ==> Owns(d.identity, g, d.log[i]))
    {
      EachIsOwned(d, g, cuts, outcome, i);
    }
  }

  lemma RemovalsHasStart(log: seq<Event>, g: Uuid, cuts: seq<nat>, outcome: Outcome)
    requires Removals(log, g, cuts, outcome)
    ensures 1 <= |cuts| && cuts[|cuts| - 1] <= |log|
  {}

  lemma {:induction false} SegmentOf(cuts: seq<nat>, i: nat) returns (k: nat)
    requires |cuts| >= 2 && cuts[0] <= i < cuts[|cuts| - 1]
    ensures k < |cuts| - 1 && cuts[k] <= i < cuts[k + 1]
  {
    if i < cuts[1] {
      k := 0;
    } else {
      k := SegmentOf(cuts[1..], i);
      k := k + 1;
    }
  }

  lemma SegmentEndsAbsent(d: Daemon, g: Uuid, cuts: seq<nat>, k: nat)
    requires d.Valid() && Removals(d.log, g, cuts, Done) && |cuts| == 7 && k < 6
    ensures cuts[k] < cuts[k + 1] <= |d.log| && Absent(d.log[cuts[k + 1] - 1], Targets(g)[k])
  {
    hide Removal, Targets, Absent;
    DoneMeansAbsent(d, cuts[k], cuts[k + 1], Targets(g)[k]);
  }

  /** A normal return means all six resources were seen absent, the listener first and the networks last. */
  lemma DoneMeansCleared(d: Daemon, g: Uuid, cuts: seq<nat>)
    requires d.Valid() && Removals(d.log, g, cuts, Done) && |cuts| == 7
    ensures Cleared(d.log, cuts[0], g)
  {
    hide Removals, Targets, Absent;
    var at: seq<nat> := [];
    for k := 0 to 6
      invariant |at| == k && (k > 0 ==> at[k - 1] < cuts[k]) && cuts[0] <= cuts[k]
      invariant forall i :: 0 <= i < k ==> cuts[0] <= at[i] < |d.log| && Absent(d.log[at[i]], Targets(g)[i])
      invariant forall i, j :: 0 <= i < j < k ==> at[i] < at[j]
    {
      SegmentEndsAbsent(d, g, cuts, k);
      at := at + [cuts[k + 1] - 1];
    }
    assert SeenAbsent(d.log, cuts[0], g, at);
  }

  /** `destroy_generation`: listener, writers, database and networks in this order; the first failure ends it. */
  method DestroyGeneration(d: Daemon, g: Uuid) returns (outcome: Outcome, ghost cuts: seq<nat>)
    requires d.Valid()
    modifies d
    ensures d.Valid() && old(d.log) <= d.log && d.listings <= old(d.listings) + 6 * ATTEMPTS
    ensures Removals(d.log, g, cuts, outcome) && cuts[0] == |old(d.log)| && cuts[|cuts| - 1] == |d.log|
    ensures outcome == Done ==> |cuts| == 7 && Cleared(d.log, |old(d.log)|, g)
    ensures forall i :: |old(d.log)| <= i < |d.log| ==> Call(d.log[i])
    ensures forall i :: |old(d.log)| <= i < |d.log| && d.log[i].RemoveAsked? ==> Owns(d.identity, g, d.log[i])
  {
    hide Removal, Targets, Call, Cleared, Owns;
    cuts := [|d.log|];
    outcome := Done;
    var k := 0;
    while k < 6
      invariant d.Valid() && old(d.log) <= d.log && k <= 6 && |cuts| == k + 1
      invariant d.listings <= old(d.listings) + k * ATTEMPTS
      invariant outcome == Done && Removals(d.log, g, cuts, Done)
      invariant cuts[0] == |old(d.log)| && cuts[|cuts| - 1] == |d.log|
    {
      ghost var before := d.log;
      outcome := RemoveOwnedResource(d, Targets(g)[k]);
      assert d.log == before + d.log[|before|..];
      RemovalsGrow(before, g, cuts, d.log[|before|..], outcome);
      cuts := cuts + [|d.log|];
      if outcome != Done {
        DestroyedIsOwned(d, g, cuts, outcome);
        return;
      }
      k := k + 1;
    }
    DestroyedIsOwned(d, g, cuts, outcome);
    DoneMeansCleared(d, g, cuts);
  }

  /** However it ended, the first resource was looked for. */
  lemma DestructionIsAttempted(log: seq<Event>, g: Uuid, cuts: seq<nat>, outcome: Outcome)
    requires Removals(log, g, cuts, outcome) && |cuts| >= 2
    ensures cuts[0] + 1 < cuts[1] && ListingOf(log[cuts[0] + 1], Targets(g)[0])
  {
    hide Removal, Targets;
    var run := log[cuts[0]..cuts[1]];
    RemovalIsAttempted(run, Targets(g)[0], if |cuts| == 2 then outcome else Done);
    assert run[1] == log[cuts[0] + 1];
  }

  /** What was removed before, one removal after another, stays in a longer log. */
  lemma RemovalsStay(log: seq<Event>, more: seq<Event>, g: Uuid, cuts: seq<nat>, outcome: Outcome)
    requires Removals(log, g, cuts, outcome)
    ensures Removals(log + more, g, cuts, outcome)
  {
    hide Removal, Targets;
    var after := log + more;
    forall i | 0 <= i < |cuts| - 1
      ensures Removal(after[cuts[i]..cuts[i + 1]], Targets(g)[i], if i == |cuts| - 2 then outcome else Done)
    {
      assert after[cuts[i]..cuts[i + 1]] == log[cuts[i]..cuts[i + 1]];
    }
  }

  lemma ClearedStays(log: seq<Event>, more: seq<Event>, start: nat, from: nat, g: Uuid)
    requires Cleared(log, start, g) && from <= start
    ensures Cleared(log + more, from, g)
  {
    hide Targets, Absent;
    var at :| SeenAbsent(log, start, g, at);
    assert SeenAbsent(log + more, from, g, at);
  }
}
