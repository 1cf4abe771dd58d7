/** Removal of one named resource of a generation (scripts/run_portfolio_sandbox.py, `_remove_owned_resource`). */
module SandboxRemoval {
  import opened Outcomes
  import opened SandboxDaemon
  import opened SandboxNames
  import opened Uuids

  const ATTEMPTS: nat := 40
  const INTERVAL := 0.25
  const TIMEOUT := 10.0

  /** A normal return, `SandboxOperationError`, `SandboxOwnershipError`, or any other exception. */
  datatype Outcome = Done | NotConverged | NotOwned | Escaped

  datatype Step = Retry | Finished(outcome: Outcome)

  /** What is removed: one resource name of one generation. */
  datatype Target = Target(kind: Kind, name: string, generation: Uuid)

  predicate ListingOf(e: Event, t: Target) {
    e.Listed? && e.kind == t.kind && e.name == t.name
  }

  /** A listing that shows the name bound, and to which ids. */
  predicate Bound(e: Event) {
    e.Listed? && e.found.Got? && e.found.value != []
  }

  predicate Absent(e: Event, t: Target) {
    ListingOf(e, t) && e.found == Got([])
  }

  /** An inspection that shows the owned resource. */
  predicate Matching(e: Event, t: Target) {
    e.Inspected? && e.records == Got([Mine(e.id, t.kind, t.name, t.generation)])
  }

  /** What the removal still owes after this event: an inspection of the id listed, or the removal of the id matched. */
  predicate Due(e: Event, t: Target) {
    Bound(e) || Matching(e, t)
  }

  /** An event of a removal, not of the supervisor around it. */
  predicate Call(e: Event) {
    e.Undertaken? || e.Listed? || e.Inspected? || e.RemoveAsked? || e.Signalled? || e.Expired?
  }

  /**
   * What may come next: a listing at first; what is owed, unless time is up; else another pass, unless time is up or
   * a signal ends the sleep before it.
   */
  predicate Follows(e: Event, next: Event, t: Target) {
    if e.Undertaken? then ListingOf(next, t)
    else if Bound(e) then
      next.Expired? || (next.Inspected? && next.kind == t.kind && e.found.value == [next.id])
    else if Matching(e, t) then
      next.Expired? || (next.RemoveAsked? && next.kind == t.kind && next.id == e.id)
    else next.Expired? || next.Signalled? || ListingOf(next, t)
  }

  /** Why removal refuses: the name is ambiguous or rebound, or the inspection is not that of an owned resource. */
  predicate Suspect(run: seq<Event>, t: Target, i: nat)
    requires i < |run|
  {
    match run[i]
    case Listed(_, _, _, Got(ids)) =>
      |ids| > 1 || (|ids| == 1 && exists j :: 0 <= j < i && Bound(run[j]) && run[j].found.value != ids)
    case Inspected(_, id, Malformed) => true
    case Inspected(_, id, Got(records)) => records != [Mine(id, t.kind, t.name, t.generation)]
    case _ => false
  }

  predicate Stopped(e: Event) {
    match e
    case Signalled => true
    case Listed(_, _, _, Interrupted) => true
    case Inspected(_, _, Interrupted) => true
    case RemoveAsked(_, _, Interrupted) => true
    case _ => false
  }

  /** How an event ends the removal, if it does. */
  function Verdict(run: seq<Event>, t: Target, i: nat): Option<Outcome>
    requires i < |run|
  {
    if Absent(run[i], t) then Some(Done)
    else if Suspect(run, t, i) then Some(NotOwned)
    else if Stopped(run[i]) then Some(Escaped)
    else if run[i].Expired? then Some(NotConverged)
    else None
  }

  /** The removal goes on after this event, with one that may follow. */
  predicate Link(run: seq<Event>, t: Target, i: nat)
    requires i + 1 < |run|
  {
    Verdict(run, t, i).None? && Follows(run[i], run[i + 1], t)
  }

  function Listings(run: seq<Event>): nat {
    if run == [] then 0 else Listings(run[..|run| - 1]) + if run[|run| - 1].Listed? then 1 else 0
  }

  /** A removal up to some point: undertaken, then one event after another, expired only when ten seconds are over. */
  predicate Trail(run: seq<Event>, t: Target) {
    && run != [] && run[0].Undertaken? && run[0].kind == t.kind && run[0].name == t.name
    && (forall i :: 0 <= i < |run| - 1 ==> Link(run, t, i))
    && (run[|run| - 1].Expired? ==> run[|run| - 1].clock >= run[0].clock + TIMEOUT)
    && Listings(run) <= ATTEMPTS
  }

  /**
   * What a finished removal adds to the log: the first event that ends one is the last, and decides the outcome; if
   * there is none, all attempts are spent and nothing is owed.
   */
  predicate Removal(run: seq<Event>, t: Target, outcome: Outcome) {
    && Trail(run, t) && |run| >= 2
    && match Verdict(run, t, |run| - 1)
       case Some(ending) => outcome == ending
       case None => outcome == NotConverged && Listings(run) == ATTEMPTS && !Due(run[|run| - 1], t)
  }

  /** All listings that showed the name bound showed this one id. */
  predicate Known(run: seq<Event>, expected: Option<Id>) {
    && (forall i :: 0 <= i < |run| && Bound(run[i]) ==> expected.Some? && run[i].found.value == [expected.value])
    && (expected.Some? ==> exists i :: 0 <= i < |run| && Bound(run[i]))
  }

  /** While the loop goes on, nothing has ended it. */
  predicate Pending(run: seq<Event>, t: Target, expected: Option<Id>) {
    Trail(run, t) && Verdict(run, t, |run| - 1).None? && Known(run, expected)
  }

  lemma VerdictStays(run: seq<Event>, t: Target, e: Event, i: nat)
    requires i < |run|
    ensures Verdict(run + [e], t, i) == Verdict(run, t, i)
  {
    var after := run + [e];
    assert forall j :: 0 <= j <= i ==> after[j] == run[j];
  }

  lemma ListingsGrow(run: seq<Event>, e: Event)
    ensures Listings(run + [e]) == Listings(run) + if e.Listed? then 1 else 0
  {
    assert (run + [e])[..|run|] == run;
  }

  lemma TrailGrows(run: seq<Event>, t: Target, e: Event)
    requires Trail(run, t) && Verdict(run, t, |run| - 1).None? && Follows(run[|run| - 1], e, t)
    requires e.Expired? ==> e.clock >= run[0].clock + TIMEOUT
    requires e.Listed? ==> Listings(run) < ATTEMPTS
    ensures Trail(run + [e], t)
  {
    hide Verdict, Follows;
    var after := run + [e];
    ListingsGrow(run, e);
    forall i | 0 <= i < |after| - 1 ensures Link(after, t, i) {
      VerdictStays(run, t, e, i);
      if i < |run| - 1 { assert Link(run, t, i); }
    }
  }

  /** An event after which the removal goes on, given the one id that earlier listings showed. */
  predicate Harmless(e: Event, t: Target, expected: Option<Id>) {
    match e
    case Listed(_, _, _, Failed) => true
    case Listed(_, _, _, Got(ids)) => |ids| == 1 && (expected.Some? ==> ids == [expected.value])
    case Inspected(_, _, Failed) => true
    case Inspected(_, _, Got(_)) => Matching(e, t)
    case RemoveAsked(_, _, done) => !done.Interrupted?
    case _ => false
  }

  /** A pending removal stays pending when one more event does not end it. */
  lemma PendingGrows(run: seq<Event>, t: Target, expected: Option<Id>, e: Event)
    requires Pending(run, t, expected) && Follows(run[|run| - 1], e, t) && Harmless(e, t, expected)
    requires e.Listed? ==> Listings(run) < ATTEMPTS
    ensures Pending(run + [e], t, if Bound(e) then Some(e.found.value[0]) else expected)
    ensures run != [] && (run + [e])[0] == run[0]
  {
    hide Link, Follows, Listings, Verdict, Known, Matching;
    TrailGrows(run, t, e);
    HarmlessHasNoVerdict(run, t, expected, e);
    KnownGrows(run, t, expected, e);
  }

  lemma KnownGrows(run: seq<Event>, t: Target, expected: Option<Id>, e: Event)
    requires Known(run, expected) && Harmless(e, t, expected)
    ensures Known(run + [e], if Bound(e) then Some(e.found.value[0]) else expected)
  {
    hide Matching;
    var after := run + [e];
    assert after[|run|] == e;
    if expected.Some? {
      var i :| 0 <= i < |run| && Bound(run[i]);
      assert Bound(after[i]);
    }
  }

  lemma HarmlessHasNoVerdict(run: seq<Event>, t: Target, expected: Option<Id>, e: Event)
    requires Known(run, expected) && Harmless(e, t, expected)
    ensures Verdict(run + [e], t, |run|).None?
  {}

  /** An event that ends a pending removal. */
  lemma PendingEnds(run: seq<Event>, t: Target, expected: Option<Id>, e: Event, outcome: Outcome)
    requires Pending(run, t, expected) && Follows(run[|run| - 1], e, t)
    requires Verdict(run + [e], t, |run|) == Some(outcome)
    requires e.Expired? ==> e.clock >= run[0].clock + TIMEOUT
    requires e.Listed? ==> Listings(run) < ATTEMPTS
    ensures Removal(run + [e], t, outcome)
  {
    hide Verdict, Follows, Link, Listings;
    TrailGrows(run, t, e);
  }

  /** The pass from the moment the name was seen bound to one id: inspect it, then ask for its removal. */
  method CheckAndRemove(d: Daemon, t: Target, deadline: real, id: Id, ghost base: seq<Event>, ghost run: seq<Event>)
    returns (step: Step, ghost grown: seq<Event>)
    requires d.Valid() && d.clock <= deadline && d.log == base + run
    requires Pending(run, t, Some(id)) && run[0].clock + TIMEOUT == deadline
    requires |run| > 1 && ListingOf(run[|run| - 1], t) && run[|run| - 1].found == Got([id])
    modifies d
    ensures d.Valid() && d.log == base + grown && run <= grown
    ensures old(d.clock) <= d.clock <= deadline && d.listings == old(d.listings)
    ensures step.Retry? ==>
              Pending(grown, t, Some(id)) && !Due(grown[|grown| - 1], t) && Listings(grown) == Listings(run)
    ensures step.Finished? ==> Removal(grown, t, step.outcome)
  {
    hide Pending, Removal, Trail, Listings, Honest;
    grown := run;
    if deadline - d.clock <= 0.0 {
      grown := Expire(d, t, Some(id), base, run);
      return Finished(NotConverged), grown;
    }
    var records := d.Inspect(t.kind, id, deadline - d.clock);
    var inspected := Inspected(t.kind, id, records);
    grown := run + [inspected];
    ListingsGrow(run, inspected);
    if records.Interrupted? {
      PendingEnds(run, t, Some(id), inspected, Escaped);
      return Finished(Escaped), grown;
    }
    if records.Failed? {
      PendingGrows(run, t, Some(id), inspected);
      return Retry, grown;
    }
    if records.Malformed? || records.value != [Mine(id, t.kind, t.name, t.generation)] {
      PendingEnds(run, t, Some(id), inspected, NotOwned);
      return Finished(NotOwned), grown;
    }
    PendingGrows(run, t, Some(id), inspected);
    step, grown := RemoveMatched(d, t, deadline, id, base, grown);
  }

  /** The end of the pass, after a matching inspection. */
  method RemoveMatched(d: Daemon, t: Target, deadline: real, id: Id, ghost base: seq<Event>, ghost run: seq<Event>)
    returns (step: Step, ghost grown: seq<Event>)
    requires d.Valid() && d.clock <= deadline && d.log == base + run
    requires Pending(run, t, Some(id)) && run[0].clock + TIMEOUT == deadline
    requires |run| > 1 && Matching(run[|run| - 1], t) && run[|run| - 1].id == id
    modifies d
    ensures d.Valid() && d.log == base + grown && run <= grown
    ensures old(d.clock) <= d.clock <= deadline && d.listings == old(d.listings)
    ensures step.Retry? ==>
              Pending(grown, t, Some(id)) && !Due(grown[|grown| - 1], t) && Listings(grown) == Listings(run)
    ensures step.Finished? ==> Removal(grown, t, step.outcome)
  {
    hide Pending, Removal, Trail, Listings, Honest;
    if deadline - d.clock <= 0.0 {
      grown := Expire(d, t, Some(id), base, run);
      return Finished(NotConverged), grown;
    }
    var done := d.Remove(t.kind, id, deadline - d.clock);
    var asked := RemoveAsked(t.kind, id, done);
    grown := run + [asked];
    ListingsGrow(run, asked);
    if done.Interrupted? {
      PendingEnds(run, t, Some(id), asked, Escaped);
      return Finished(Escaped), grown;
    }
    PendingGrows(run, t, Some(id), asked);
    step := Retry;
  }

  lemma OnlyFirstIsUndertaken(run: seq<Event>, t: Target)
    requires Trail(run, t) && |run| > 1
    ensures !run[|run| - 1].Undertaken?
  {
    hide Verdict, Listings;
    assert Link(run, t, |run| - 2);
  }

  /** No time is left. */
  method Expire(d: Daemon, t: Target, ghost expected: Option<Id>, ghost base: seq<Event>, ghost run: seq<Event>)
    returns (ghost grown: seq<Event>)
    requires d.Valid() && d.log == base + run && Pending(run, t, expected) && |run| > 1
    requires d.clock >= run[0].clock + TIMEOUT
    modifies d`log
    ensures d.Valid() && d.log == base + grown && run <= grown && Removal(grown, t, NotConverged)
  {
    hide Removal, Trail, Honest;
    OnlyFirstIsUndertaken(run, t);
    PendingEnds(run, t, expected, Expired(d.clock), NotConverged);
    d.Note(Expired(d.clock));
    grown := run + [Expired(d.clock)];
  }

  /** The guarded body of the retry loop. */
  method TryOnce(d: Daemon, t: Target, deadline: real, expected: Option<Id>, ghost base: seq<Event>,
      ghost run: seq<Event>)
    returns (step: Step, seen: Option<Id>, ghost grown: seq<Event>)
    requires d.Valid() && d.clock <= deadline && d.log == base + run
    requires Pending(run, t, expected) && !Due(run[|run| - 1], t) && run[0].clock + TIMEOUT == deadline
    requires Listings(run) < ATTEMPTS && (|run| > 1 || d.clock < deadline)
    modifies d
    ensures d.Valid() && d.log == base + grown && run <= grown
    ensures old(d.clock) <= d.clock <= deadline && d.listings <= old(d.listings) + 1
    ensures step.Retry? ==> d.listings == old(d.listings) + 1 && Listings(grown) == Listings(run) + 1
    ensures step.Retry? ==> Pending(grown, t, seen) && !Due(grown[|grown| - 1], t) && |grown| > |run|
    ensures step.Finished? ==> Removal(grown, t, step.outcome)
  {
    hide Pending, Removal, Trail, Listings, Honest;
    step, seen, grown := Retry, expected, run;
    if deadline - d.clock <= 0.0 {
      grown := Expire(d, t, expected, base, run);
      return Finished(NotConverged), seen, grown;
    }
    var found := d.ListName(t.kind, t.name, deadline - d.clock);
    ghost var listed := Listed(t.kind, t.name, d.live, found);
    grown := run + [listed];
    ListingsGrow(run, listed);
    if found.Failed? {
      PendingGrows(run, t, expected, listed);
      return Retry, seen, grown;
    }
    var finished := Finish(found, expected);
    if finished.Some? {
      ListingEnds(run, t, expected, listed, finished.value);
      return Finished(finished.value), seen, grown;
    }
    var id := found.value[0];
    seen := Some(id);
    assert found.value == [id];
    PendingGrows(run, t, expected, listed);
    step, grown := CheckAndRemove(d, t, deadline, id, base, grown);
  }

  /** How a listing ends the removal: interrupted, absent, ambiguous, or bound to another id than before. */
  predicate Ends(found: Reply<seq<Id>>, expected: Option<Id>, outcome: Outcome) {
    match found
    case Interrupted => outcome == Escaped
    case Got(ids) =>
      if ids == [] then outcome == Done
      else outcome == NotOwned && (|ids| > 1 || (expected.Some? && ids[0] != expected.value))
    case _ => false
  }

  /** Whether a listing that did not fail ends the removal, and how. */
  function Finish(found: Reply<seq<Id>>, expected: Option<Id>): (outcome: Option<Outcome>)
    requires found.Interrupted? || found.Got?
    ensures outcome.Some? ==> Ends(found, expected, outcome.value)
    ensures outcome.None? ==> found.Got? && |found.value| == 1 && (expected.Some? ==> expected.value == found.value[0])
  {
    if found.Interrupted? then Some(Escaped)
    else if |found.value| > 1 then Some(NotOwned)
    else if found.value == [] then Some(Done)
    else if expected.Some? && found.value[0] != expected.value then Some(NotOwned)
    else None
  }

  lemma ListingEnds(run: seq<Event>, t: Target, expected: Option<Id>, e: Event, outcome: Outcome)
    requires Pending(run, t, expected) && Follows(run[|run| - 1], e, t) && ListingOf(e, t)
    requires Ends(e.found, expected, outcome) && Listings(run) < ATTEMPTS
    ensures Removal(run + [e], t, outcome)
  {
    hide Trail, Removal, Follows, Matching;
    var after := run + [e];
    assert after[|run|] == e;
    if expected.Some? {
      var i :| 0 <= i < |run| && Bound(run[i]);
      assert Bound(after[i]) && after[i].found.value == [expected.value];
    }
    assert Verdict(after, t, |run|) == Some(outcome);
    hide Pending, Verdict;
    PendingEnds(run, t, expected, e, outcome);
  }

  lemma TailOf(base: seq<Event>, run: seq<Event>)
    ensures base <= base + run && (base + run)[|base|..] == run
  {}

  /** Giving up after the last attempt, or being interrupted while asleep, ends a pending removal. */
  lemma PendingStops(run: seq<Event>, t: Target, expected: Option<Id>)
    requires Pending(run, t, expected) && !Due(run[|run| - 1], t) && |run| > 1
    ensures Listings(run) == ATTEMPTS ==> Removal(run, t, NotConverged)
    ensures Removal(run + [Signalled], t, Escaped)
  {
    hide Listings;
    OnlyFirstIsUndertaken(run, t);
    assert Verdict(run + [Signalled], t, |run|) == Some(Escaped);
    PendingEnds(run, t, expected, Signalled, Escaped);
  }

  /**
   * `_remove_owned_resource`: at least one listing, at most 40 of them and ten seconds, and one outcome for what the
   * calls show.
   */
  method RemoveOwnedResource(d: Daemon, t: Target) returns (outcome: Outcome)
    requires d.Valid()
    modifies d
    ensures d.Valid() && old(d.log) <= d.log && Removal(d.log[|old(d.log)|..], t, outcome)
    ensures old(d.clock) <= d.clock <= old(d.clock) + TIMEOUT
    ensures d.listings <= old(d.listings) + ATTEMPTS
  {
    hide Pending, Removal, Trail, Listings, Due, Honest;
    ghost var base, run := d.log, [Undertaken(t.kind, t.name, d.clock)];
    d.Note(Undertaken(t.kind, t.name, d.clock));
    var expected: Option<Id> := None;
    var deadline := d.clock + TIMEOUT;
    var attempt := 0;
    NothingPending(t, d.clock);
    while attempt < ATTEMPTS
      invariant d.Valid() && d.log == base + run && run != [] && run[0] == Undertaken(t.kind, t.name, old(d.clock))
      invariant Pending(run, t, expected) && !Due(run[|run| - 1], t)
      invariant old(d.clock) <= d.clock <= deadline && d.listings == old(d.listings) + attempt
      invariant attempt <= ATTEMPTS && Listings(run) == attempt
      invariant |run| > 1 || (attempt == 0 && d.clock < deadline)
    {
      var step;
      step, expected, run := TryOnce(d, t, deadline, expected, base, run);
      TailOf(base, run);
      if step.Finished? { return step.outcome; }
      attempt := attempt + 1;
      if attempt < ATTEMPTS {
        var remaining := deadline - d.clock;
        if remaining <= 0.0 {
          run := Expire(d, t, expected, base, run);
          TailOf(base, run);
          return NotConverged;
        }
        var interrupted := d.Sleep(if INTERVAL <= remaining then INTERVAL else remaining);
        if interrupted {
          PendingStops(run, t, expected);
          TailOf(base, run + [Signalled]);
          assert d.log == base + (run + [Signalled]);
          return Escaped;
        }
      }
    }
    PendingStops(run, t, expected);
    TailOf(base, run);
    return NotConverged;
  }

  lemma NothingPending(t: Target, clock: real)
    ensures var run := [Undertaken(t.kind, t.name, clock)];
      Pending(run, t, None) && Listings(run) == 0 && !Due(run[0], t)
  {
    assert [Undertaken(t.kind, t.name, clock)][..0] == [];
  }

  /** Every removal request directly follows a listing of its id alone and a matching inspection of it. */
  predicate Checked(run: seq<Event>, t: Target, i: nat)
    requires i < |run| && run[i].RemoveAsked?
  {
    var id := run[i].id;
    && run[i].kind == t.kind
    && i >= 2
    && ListingOf(run[i - 2], t) && run[i - 2].found == Got([id])
    && run[i - 1] == Inspected(t.kind, id, Got([Mine(id, t.kind, t.name, t.generation)]))
  }

  lemma RemovalIsChecked(run: seq<Event>, t: Target, outcome: Outcome, i: nat)
    requires Removal(run, t, outcome) && i < |run| && run[i].RemoveAsked?
    ensures Checked(run, t, i)
  {
    hide Verdict, Listings;
    assert Link(run, t, i - 1);
    assert Link(run, t, i - 2);
    if i >= 3 { assert Link(run, t, i - 3); }
  }

  lemma RemovalMakesCalls(run: seq<Event>, t: Target, outcome: Outcome, i: nat)
    requires Removal(run, t, outcome) && i < |run|
    ensures Call(run[i])
  {
    hide Verdict, Listings;
    if i > 0 { assert Link(run, t, i - 1); }
  }

  /** Only the one id that every listing showed before is ever asked to go. */
  lemma OneIdThroughout(run: seq<Event>, t: Target, outcome: Outcome, i: nat, j: nat)
    requires Removal(run, t, outcome) && i < j < |run| && Bound(run[i]) && run[j].RemoveAsked?
    ensures run[i].found.value == [run[j].id]
  {
    RemovalIsChecked(run, t, outcome, j);
    hide Listings;
    if i < j - 2 { assert Link(run, t, j - 2); }
    assert i != j - 1;
  }

  /** Whatever happens between the calls, only this generation's own resource of that name is ever asked to go. */
  lemma RemovalIsOwned(d: Daemon, start: nat, end: nat, t: Target, outcome: Outcome, i: nat)
    requires d.Valid() && start <= i < end <= |d.log| && Removal(d.log[start..end], t, outcome)
    requires d.log[i].RemoveAsked?
    ensures d.log[i].kind == t.kind
    ensures d.identity(d.log[i].id) == Identity(t.kind, t.name, Some(Canonical(t.generation)))
  {
    hide Removal;
    var run := d.log[start..end];
    assert run[i - start] == d.log[i];
    RemovalIsChecked(run, t, outcome, i - start);
    var records := [Mine(d.log[i].id, t.kind, t.name, t.generation)];
    assert d.log[i - 1] == run[i - start - 1] == Inspected(t.kind, d.log[i].id, Got(records));
    assert Truthful(d.identity, t.kind, records) && records[0] == Mine(d.log[i].id, t.kind, t.name, t.generation);
    ShownIsInjective(t.kind, t.name, d.identity(d.log[i].id).name);
  }

  lemma ShownIsInjective(kind: Kind, name: string, other: string)
    requires Shown(kind, name) == Shown(kind, other)
    ensures name == other
  {
    if kind == Container {
      assert ("/" + name)[1..] == name && ("/" + other)[1..] == other;
    }
  }

  /** A normal return means that at its last call no live resource had the name. */
  lemma DoneMeansAbsent(d: Daemon, start: nat, end: nat, t: Target)
    requires d.Valid() && start <= end <= |d.log| && Removal(d.log[start..end], t, Done)
    ensures start < end && Absent(d.log[end - 1], t)
    ensures forall id :: id in d.log[end - 1].live ==> !(d.identity(id).kind == t.kind && d.identity(id).name == t.name)
  {
    hide Trail, Listings;
    assert d.log[start..end][end - start - 1] == d.log[end - 1];
    assert Honest(d.identity, d.log[end - 1]);
  }

  /** However it ends, a removal has looked at least once, and gave up only with its time or its attempts spent. */
  lemma RemovalIsAttempted(run: seq<Event>, t: Target, outcome: Outcome)
    requires Removal(run, t, outcome)
    ensures 1 <= Listings(run) <= ATTEMPTS && |run| >= 2 && ListingOf(run[1], t)
    ensures outcome == NotConverged ==>
              Listings(run) == ATTEMPTS
              || (run[|run| - 1].Expired? && run[|run| - 1].clock >= run[0].clock + TIMEOUT)
  {
    assert Link(run, t, 0);
    ListingsAtLeast(run, 1);
  }

  lemma {:induction false} ListingsAtLeast(run: seq<Event>, i: nat)
    requires i < |run| && run[i].Listed?
    ensures Listings(run) >= 1
  {
    if i < |run| - 1 { ListingsAtLeast(run[..|run| - 1], i); }
  }
}
