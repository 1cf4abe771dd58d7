/**
 * The six resources of a generation by name, and the endings of a removal by event: what the logs of the supervisor
 * mean without its own definitions (scripts/run_portfolio_sandbox.py:186-206, 484-607).
 */
module SandboxResources {
  import opened Outcomes
  import opened SandboxDaemon
  import opened SandboxNames
  import opened SandboxRemoval
  import opened SandboxGenerations
  import opened SandboxReconciliation
  import opened SandboxSupervisor
  import opened Text
  import opened Uuids

  // ---- names ----

  lemma NameIsSpelled(g: Uuid, suffix: string)
    ensures NameOf(g, suffix) == "recipe-lab-sandbox-" + Hex(g) + suffix
  {}

  lemma SuffixesAreThese(kind: Kind, suffix: string)
    ensures suffix in Suffixes(kind) <==>
            if kind == Container then suffix in ["-frontend", "-backend", "-initialize", "-db"]
            else suffix in ["-ingress", ""]
  {}

  /** The order of removal: the listener, the writers, the database, and then the networks. */
  lemma TargetsInOrder(g: Uuid)
    ensures Targets(g)[0] == Target(Container, "recipe-lab-sandbox-" + Hex(g) + "-frontend", g)
    ensures Targets(g)[1] == Target(Container, "recipe-lab-sandbox-" + Hex(g) + "-backend", g)
    ensures Targets(g)[2] == Target(Container, "recipe-lab-sandbox-" + Hex(g) + "-initialize", g)
    ensures Targets(g)[3] == Target(Container, "recipe-lab-sandbox-" + Hex(g) + "-db", g)
    ensures Targets(g)[4] == Target(Network, "recipe-lab-sandbox-" + Hex(g) + "-ingress", g)
    ensures Targets(g)[5] == Target(Network, "recipe-lab-sandbox-" + Hex(g) + "", g)
  {}

  /** The suffixes in that order. */
  function SuffixAt(k: nat): string
    requires k < 6
  {
    ["-frontend", "-backend", "-initialize", "-db", "-ingress", ""][k]
  }

  lemma SuffixesDiffer(j: nat, k: nat)
    requires j < 6 && k < 6 && SuffixAt(j) == SuffixAt(k)
    ensures j == k
  {
    assert |SuffixAt(0)| == 9 && |SuffixAt(1)| == 8 && |SuffixAt(2)| == 11 && |SuffixAt(3)| == 3;
    assert |SuffixAt(4)| == 8 && |SuffixAt(5)| == 0;
    assert SuffixAt(1)[1] == 'b' && SuffixAt(4)[1] == 'i';
  }

  lemma TargetAt(g: Uuid, k: nat)
    requires k < 6
    ensures Targets(g)[k] == Target(if k < 4 then Container else Network, NameOf(g, SuffixAt(k)), g)
  {
    hide NameOf;
  }

  lemma PlaceOf(kind: Kind, suffix: string) returns (k: nat)
    requires suffix in Suffixes(kind)
    ensures k < 6 && suffix == SuffixAt(k) && (k < 4 <==> kind == Container)
  {
    var i :| 0 <= i < |Suffixes(kind)| && Suffixes(kind)[i] == suffix;
    k := if kind == Container then i else i + 4;
  }

  /** Each name that reconciliation attributes to a generation is the target of exactly one removal. */
  lemma OneTargetPerName(g: Uuid, kind: Kind, suffix: string) returns (k: nat)
    requires suffix in Suffixes(kind)
    ensures k < 6 && Targets(g)[k].kind == kind && Targets(g)[k].name == NameOf(g, suffix)
    ensures forall j :: 0 <= j < 6 && Targets(g)[j].name == NameOf(g, suffix) ==> j == k
  {
    hide NameOf, Targets, SuffixAt, Suffixes;
    k := PlaceOf(kind, suffix);
    TargetAt(g, k);
    forall j | 0 <= j < 6 && Targets(g)[j].name == NameOf(g, suffix) ensures j == k {
      TargetAt(g, j);
      SameSuffix(g, suffix, SuffixAt(j));
      SuffixesDiffer(j, k);
    }
  }

  lemma SameSuffix(g: Uuid, s: string, t: string)
    requires NameOf(g, s) == NameOf(g, t)
    ensures s == t
  {
    var start := PREFIX + Hex(g);
    assert (start + s)[|start|..] == s && (start + t)[|start|..] == t;
  }

  /** Some listing from `start` on showed no resource of this kind and name. */
  ghost predicate FoundNone(log: seq<Event>, start: nat, kind: Kind, name: string) {
    exists i :: start <= i < |log| && log[i].Listed? && log[i].kind == kind && log[i].name == name
                && log[i].found == Got([])
  }

  /** A generation is cleared when each of its six names was seen absent. */
  lemma ClearedMeans(log: seq<Event>, start: nat, g: Uuid, kind: Kind, suffix: string)
    requires Cleared(log, start, g) && suffix in Suffixes(kind)
    ensures FoundNone(log, start, kind, "recipe-lab-sandbox-" + Hex(g) + suffix)
  {
    hide Targets;
    var k := OneTargetPerName(g, kind, suffix);
    NameIsSpelled(g, suffix);
    var at :| SeenAbsent(log, start, g, at);
    assert Absent(log[at[k]], Targets(g)[k]);
  }

  /** And they were seen absent in the order of removal. */
  lemma ClearedInOrder(log: seq<Event>, start: nat, g: Uuid, j: nat, k: nat) returns (p: nat, q: nat)
    requires Cleared(log, start, g) && j < k < 6
    ensures start <= p < q < |log| && log[p].Listed? && log[q].Listed?
    ensures log[p].found == Got([]) && log[p].name == "recipe-lab-sandbox-" + Hex(g) + SuffixAt(j)
    ensures log[q].found == Got([]) && log[q].name == "recipe-lab-sandbox-" + Hex(g) + SuffixAt(k)
  {
    hide Targets, SuffixAt;
    var at :| SeenAbsent(log, start, g, at);
    p, q := at[j], at[k];
    assert Absent(log[p], Targets(g)[j]) && Absent(log[q], Targets(g)[k]);
    TargetAt(g, j);
    TargetAt(g, k);
    NameIsSpelled(g, SuffixAt(j));
    NameIsSpelled(g, SuffixAt(k));
  }

  /** A destruction of generations: which were begun, in what order, and that none was passed over. */
  lemma DestroyedInOrder(log: seq<Event>, start: nat, generations: set<Uuid>, outcome: Outcome)
    returns (order: seq<Uuid>, cuts: seq<seq<nat>>)
    requires Destroyed(log, start, generations, outcome) && start <= |log|
    ensures forall k :: 0 <= k < |order| ==> order[k] in generations
    ensures forall j, k :: 0 <= j < k < |order| ==> Less(Canonical(order[j]), Canonical(order[k]))
    ensures forall k, h :: 0 <= k < |order| && h in generations && h !in order ==> order[k] < h
    ensures outcome == Done ==> forall h :: h in generations ==> h in order
    ensures outcome != Done ==> order != []
    ensures |cuts| == |order| && forall k :: 0 <= k < |order| ==>
              cuts[k] != [] && Removals(log, order[k], cuts[k], if k == |order| - 1 then outcome else Done)
    ensures forall k :: 0 <= k < |order| && (k < |order| - 1 || outcome == Done) ==> |cuts[k]| == 7
    ensures order != [] ==> cuts[0][0] == start && cuts[|order| - 1][|cuts[|order| - 1]| - 1] == |log|
    ensures forall k :: 0 < k < |order| ==> cuts[k][0] == cuts[k - 1][|cuts[k - 1]| - 1]
    ensures order == [] ==> |log| == start
  {
    hide Removals, Less, Canonical, Ascending, InOrder;
    order, cuts :| InOrder(order, generations, outcome) && Sweep(log, start, order, cuts, outcome);
    OrderMeans(order, generations, outcome);
    hide Sweep;
    SweepMeans(log, start, order, cuts, outcome);
  }

  lemma OrderMeans(order: seq<Uuid>, generations: set<Uuid>, outcome: Outcome)
    requires InOrder(order, generations, outcome)
    ensures forall k :: 0 <= k < |order| ==> order[k] in generations
    ensures forall j, k :: 0 <= j < k < |order| ==> Less(Canonical(order[j]), Canonical(order[k]))
    ensures forall k, h :: 0 <= k < |order| && h in generations && h !in order ==> order[k] < h
    ensures outcome == Done ==> forall h :: h in generations ==> h in order
  {
    MembersAre(order);
    hide Less, Canonical, Members, Ascending;
    assert Ascending(order) ==>
        forall j, k :: 0 <= j < k < |order| ==> Less(Canonical(order[j]), Canonical(order[k])) by {
      AscendingMeans(order);
    }
    forall k | 0 <= k < |order| ensures order[k] in Members(order) {}
    forall k, h | 0 <= k < |order| && h in generations && h !in order ensures order[k] < h {
      assert h in generations - Members(order);
    }
  }

  lemma AscendingMeans(order: seq<Uuid>)
    ensures Ascending(order) ==>
              forall j, k :: 0 <= j < k < |order| ==> Less(Canonical(order[j]), Canonical(order[k]))
  {
    hide Less, Canonical;
  }

  lemma MembersAre(order: seq<Uuid>)
    ensures forall h :: h in Members(order) <==> h in order
  {}

  lemma SweepMeans(log: seq<Event>, start: nat, order: seq<Uuid>, cuts: seq<seq<nat>>, outcome: Outcome)
    requires Sweep(log, start, order, cuts, outcome)
    ensures outcome != Done ==> order != []
    ensures |cuts| == |order| && forall k :: 0 <= k < |order| ==>
              cuts[k] != [] && Removals(log, order[k], cuts[k], if k == |order| - 1 then outcome else Done)
    ensures forall k :: 0 <= k < |order| && (k < |order| - 1 || outcome == Done) ==> |cuts[k]| == 7
    ensures order != [] ==> cuts[0][0] == start && cuts[|order| - 1][|cuts[|order| - 1]| - 1] == |log|
    ensures forall k :: 0 < k < |order| ==> cuts[k][0] == cuts[k - 1][|cuts[k - 1]| - 1]
    ensures order == [] ==> |log| == start
  {
    hide Removals;
    forall k | 0 <= k < |order|
      ensures cuts[k] != [] && Removals(log, order[k], cuts[k], if k == |order| - 1 then outcome else Done)
      ensures k < |order| - 1 || outcome == Done ==> |cuts[k]| == 7
    {
      assert Swept(log, order[k], cuts[k], if k == |order| - 1 then outcome else Done);
    }
  }

  /** Reconciliation refuses only what it may not accept: never a discovery that is acceptable as a whole. */
  lemma RefusalMeans(log: seq<Event>, start: nat, containers: seq<Labelled>, networks: seq<Labelled>)
    requires Refusal(log, start)
    ensures !Accepts(log, start, containers, networks)
    ensures forall i :: start <= i < |log| ==> log[i].Discovered?
  {}

  /** What a discovery shows has a name of some generation, and its label. */
  ghost predicate HasOwner(kind: Kind, item: Labelled) {
    exists g, suffix :: item.tag == Some(Canonical(g)) && suffix in Suffixes(kind)
                        && item.shown == Some(Shown(kind, NameOf(g, suffix)))
  }

  /** A discovery is acceptable when every resource has a name and the label of one generation, and no name repeats. */
  lemma AcceptableMeans(kind: Kind, items: seq<Labelled>, taken: set<string>)
    requires Acceptable(kind, items, taken)
    ensures forall i :: 0 <= i < |items| ==> items[i].shown.Some? && items[i].shown.value !in taken
    ensures forall i, j :: 0 <= i < j < |items| ==> items[i].shown != items[j].shown
    ensures forall i :: 0 <= i < |items| ==> HasOwner(kind, items[i])
  {
    hide Canonical, Suffixes, NameOf, Shown, IdentifierFromResource;
    forall i | 0 <= i < |items| ensures items[i].shown.Some? && HasOwner(kind, items[i]) {
      NamelessIsRefused(kind, items[i]);
      var g := Identified(kind, items[i]).value;
      IdentifierIsExact(kind, items[i].shown.value, items[i].tag.value, g);
      var suffix :| suffix in Suffixes(kind) && items[i].shown.value == Shown(kind, NameOf(g, suffix));
      assert items[i].tag == Some(Canonical(g));
    }
  }

  lemma NamelessIsRefused(kind: Kind, item: Labelled)
    ensures Identified(kind, item).Some? ==> item.shown.Some? && item.tag.Some?
  {}

  /** After a run that leaves nothing behind, no name of any generation begun is bound any more as far as was seen. */
  lemma AllNamesFoundNone(log: seq<Event>, start: nat, i: nat, kind: Kind, suffix: string)
    requires AllGone(log, start) && start <= i < |log| && log[i].Begun? && suffix in Suffixes(kind)
    ensures FoundNone(log, i, kind, "recipe-lab-sandbox-" + Hex(log[i].generation) + suffix)
  {
    ClearedMeans(log, i, log[i].generation, kind, suffix);
  }

  /** A request that belongs to a generation is for a resource created under one of its names and with its label. */
  lemma OwnedMeans(identity: Id -> Identity, g: Uuid, e: Event)
    requires e.RemoveAsked? && Owns(identity, g, e)
    ensures identity(e.id).tag == Some(Canonical(g))
    ensures exists suffix :: suffix in Suffixes(identity(e.id).kind)
                             && identity(e.id).name == "recipe-lab-sandbox-" + Hex(g) + suffix
  {
    hide Hex, Canonical;
    TargetsInOrder(g);
    var k :| 0 <= k < 6 && identity(e.id) == Identity(Targets(g)[k].kind, Targets(g)[k].name, Some(Canonical(g)));
    var suffix := if k == 0 then "-frontend" else if k == 1 then "-backend" else if k == 2 then "-initialize"
                  else if k == 3 then "-db" else if k == 4 then "-ingress" else "";
    SuffixesAreThese(identity(e.id).kind, suffix);
    assert suffix in Suffixes(identity(e.id).kind);
  }

  /** In a log of requests for these generations only, each is for a resource of one of them. */
  lemma OnlyOwnedMeans(identity: Id -> Identity, log: seq<Event>, start: nat, owners: set<Uuid>, i: nat)
    requires OnlyOwned(identity, log, start, owners) && start <= i < |log| && log[i].RemoveAsked?
    ensures exists g :: g in owners && identity(log[i].id).tag == Some(Canonical(g))
  {
    hide Owns, Canonical;
    var g :| g in owners && Owns(identity, g, log[i]);
    OwnedMeans(identity, g, log[i]);
  }

  // ---- what the daemon may answer ----

  /** A listing may show ids in any order: those of the live resources of that kind and name, and no others. */
  lemma ExactListingMeans(identity: Id -> Identity, kind: Kind, name: string, live: set<Id>, ids: seq<Id>)
    ensures ExactListing(identity, kind, name, live, ids) <==>
            forall id :: id in ids <==> id in live && identity(id).kind == kind && identity(id).name == name
  {
    assert forall i :: 0 <= i < |ids| ==> ids[i] in ids;
  }

  // ---- endings ----

  /** The record that an inspection must show: the id, the name with a slash for containers, and the label. */
  lemma MineMeans(id: Id, name: string, g: Uuid)
    ensures Mine(id, Container, name, g) == Record(id, "/" + name, Some(Canonical(g)))
    ensures Mine(id, Network, name, g) == Record(id, name, Some(Canonical(g)))
  {}

  lemma Bounds()
    ensures ATTEMPTS == 40 && TIMEOUT == 10.0 && INTERVAL == 0.25
  {}

  /** How a listing ends a removal. */
  lemma ListingEndings(run: seq<Event>, t: Target, i: nat)
    requires i < |run| && run[i].Listed? && run[i].kind == t.kind && run[i].name == t.name
    ensures run[i].found == Failed ==> SandboxRemoval.Verdict(run, t, i) == None
    ensures run[i].found == Interrupted ==> SandboxRemoval.Verdict(run, t, i) == Some(Escaped)
    ensures run[i].found == Got([]) ==> SandboxRemoval.Verdict(run, t, i) == Some(Done)
    ensures run[i].found.Got? && |run[i].found.value| >= 2 ==> SandboxRemoval.Verdict(run, t, i) == Some(NotOwned)
    ensures run[i].found.Got? && |run[i].found.value| == 1 ==>
              SandboxRemoval.Verdict(run, t, i)
              == if exists j :: 0 <= j < i && run[j].Listed? && run[j].found.Got? && run[j].found.value != []
                                && run[j].found.value != run[i].found.value
                 then Some(NotOwned) else None
  {}

  /** How any other event ends a removal. */
  lemma OtherEndings(run: seq<Event>, t: Target, i: nat)
    requires i < |run| && !run[i].Listed?
    ensures run[i].Inspected? ==>
              SandboxRemoval.Verdict(run, t, i)
              == match run[i].records
                 case Failed => None
                 case Interrupted => Some(Escaped)
                 case Malformed => Some(NotOwned)
                 case Got(records) =>
                   if records == [Mine(run[i].id, t.kind, t.name, t.generation)] then None else Some(NotOwned)
    ensures run[i].RemoveAsked? ==>
              SandboxRemoval.Verdict(run, t, i) == if run[i].done == Interrupted then Some(Escaped) else None
    ensures run[i].Signalled? ==> SandboxRemoval.Verdict(run, t, i) == Some(Escaped)
    ensures run[i].Expired? ==> SandboxRemoval.Verdict(run, t, i) == Some(NotConverged)
    ensures run[i].Undertaken? ==> SandboxRemoval.Verdict(run, t, i) == None
  {}

  /** In a removal every event but the last is followed by what the code does next, or by the end of its time. */
  lemma WhatComesNext(run: seq<Event>, t: Target, outcome: Outcome, i: nat)
    requires Removal(run, t, outcome) && i < |run| - 1
    ensures run[0].Undertaken? && run[0].kind == t.kind && run[0].name == t.name
    ensures i == 0 ==> run[1].Listed? && run[1].kind == t.kind && run[1].name == t.name
    ensures run[i].Listed? && run[i].found.Got? ==>
              |run[i].found.value| == 1
              && (run[i + 1].Expired?
                  || (run[i + 1].Inspected? && run[i + 1].kind == t.kind && run[i + 1].id == run[i].found.value[0]))
    ensures run[i].Inspected? && run[i].records.Got? ==>
              run[i].records == Got([Mine(run[i].id, t.kind, t.name, t.generation)])
              && (run[i + 1].Expired?
                  || (run[i + 1].RemoveAsked? && run[i + 1].kind == t.kind && run[i + 1].id == run[i].id))
    ensures run[i].RemoveAsked? || (run[i].Listed? && run[i].found.Failed?)
            || (run[i].Inspected? && run[i].records.Failed?) ==>
              run[i + 1].Expired? || run[i + 1].Signalled?
              || (run[i + 1].Listed? && run[i + 1].kind == t.kind && run[i + 1].name == t.name)
  {
    hide Listings, Mine;
    assert Link(run, t, i);
    if i > 0 { assert Link(run, t, i - 1); }
  }

  /** The status that follows a round, by what was raised in it; 78 when it could not be proven clean. */
  lemma StatusByException(c: Course, once: bool)
    ensures c.outcome != Done || (c.creation.Returned? && !c.withdrawn) ==>
              SandboxSupervisor.Verdict(c, once) == Some(Exited(78))
    ensures c.outcome == Done && (c.creation.Returned? ==> c.withdrawn) ==>
              SandboxSupervisor.Verdict(c, once)
              == match c.raised
                 case Keyboard => Some(Exited(0))
                 case Error => Some(Exited(1))
                 case Fatal => Some(Propagated)
                 case Nothing => if once then Some(Exited(0)) else None
  {}

  /** A run that ends with status 78 is one that ended with the fail-stop status. */
  lemma FailStopIs78()
    ensures Exited(FAIL_STOP) == Exited(78)
  {}

  lemma HeadWithoutHeartbeat(g: Uuid, creation: Creation, raised: Raised, withdrawn: bool)
    requires !creation.Returned?
    ensures Head(g, creation, raised, withdrawn)
         == match creation
            case NoFile => [Begun(g), Ran(raised)]
            case Abandoned(refreshed) =>
              if refreshed then [Begun(g), Beating(g), Refreshed(g), Ran(raised)]
              else [Begun(g), Beating(g), Ran(raised)]
            case Stranded => [Begun(g), Beating(g), NotWithdrawn(g), Ran(raised)]
            case Removed => [Begun(g), Beating(g), Withdrawn(g), Ran(raised)]
            case Returned(_) => []
  {
    assert Beats(g, 1) == [Refreshed(g)] && Beats(g, 0) == [];
  }

  lemma HeadWithHeartbeat(g: Uuid, beats: nat, raised: Raised, withdrawn: bool)
    ensures Head(g, Returned(beats), raised, withdrawn)
         == [Begun(g), Beating(g), Refreshed(g), Kept(g)] + seq(beats, _ => Refreshed(g))
            + [Ran(raised), if withdrawn then Withdrawn(g) else NotWithdrawn(g)]
  {
    var refreshed := seq(beats, _ => Refreshed(g));
    assert Beats(g, beats) == refreshed;
  }

  /** The events of a round until its removals, by how its heartbeat fared. */
  lemma RoundByHeartbeat(log: seq<Event>, c: Course)
    requires Followed(log, c)
    ensures c.begin <= c.cuts[0] <= |log| && (!c.creation.Returned? ==> c.raised != Nothing)
    ensures var g := c.generation;
      log[c.begin..c.cuts[0]]
      == match c.creation
         case NoFile => [Begun(g), Ran(c.raised)]
         case Abandoned(refreshed) =>
           if refreshed then [Begun(g), Beating(g), Refreshed(g), Ran(c.raised)]
           else [Begun(g), Beating(g), Ran(c.raised)]
         case Stranded => [Begun(g), Beating(g), NotWithdrawn(g), Ran(c.raised)]
         case Removed => [Begun(g), Beating(g), Withdrawn(g), Ran(c.raised)]
         case Returned(beats) =>
           [Begun(g), Beating(g), Refreshed(g), Kept(g)] + seq(beats, _ => Refreshed(g))
           + [Ran(c.raised), if c.withdrawn then Withdrawn(g) else NotWithdrawn(g)]
  {
    hide Swept, Call, Head;
    if c.creation.Returned? {
      HeadWithHeartbeat(c.generation, c.creation.beats, c.raised, c.withdrawn);
    } else {
      HeadWithoutHeartbeat(c.generation, c.creation, c.raised, c.withdrawn);
    }
  }

  // ---- what a failed destruction leaves in the log ----

  lemma {:induction false} CutsRise(log: seq<Event>, g: Uuid, cuts: seq<nat>, outcome: Outcome, k: nat)
    requires Removals(log, g, cuts, outcome) && k < |cuts|
    ensures cuts[0] <= cuts[k]
  {
    if k > 0 {
      hide Removal, Targets;
      CutsRise(log, g, cuts, outcome, k - 1);
    }
  }

  /** The log ends with a removal of one of the generation's resources, which did not return normally. */
  lemma StuckMeans(log: seq<Event>, start: nat, g: Uuid) returns (b: nat, k: nat, outcome: Outcome)
    requires Stuck(log, start, g)
    ensures start <= b <= |log| && k < 6 && outcome != Done
    ensures Removal(log[b..], Targets(g)[k], outcome)
  {
    hide Removal, Targets;
    var cuts: seq<nat>;
    cuts, outcome :| outcome != Done && Swept(log, g, cuts, outcome) && start <= cuts[0] && EndOf(cuts) == |log|;
    k := |cuts| - 2;
    b := cuts[k];
    CutsRise(log, g, cuts, outcome, k);
    assert log[b..cuts[k + 1]] == log[b..];
  }

  lemma {:induction false} SweepsRise(log: seq<Event>, start: nat, order: seq<Uuid>, sweeps: seq<seq<nat>>,
                                      outcome: Outcome, k: nat)
    requires Sweep(log, start, order, sweeps, outcome) && k < |order|
    ensures start <= sweeps[k][0]
  {
    hide Removals;
    if k > 0 {
      SweepsRise(log, start, order, sweeps, outcome, k - 1);
      assert Swept(log, order[k - 1], sweeps[k - 1], Done);
      CutsRise(log, order[k - 1], sweeps[k - 1], Done, |sweeps[k - 1]| - 1);
    }
  }

  /** A reconciliation that failed was refused, or got stuck in the destruction of a generation. */
  lemma IrreconcilableMeans(log: seq<Event>, s: nat)
    returns (containers: seq<Labelled>, networks: seq<Labelled>, g: Uuid)
    requires Irreconcilable(log, s) && !Refusal(log, s)
    ensures Accepts(log, s, containers, networks) && Stuck(log, s + 2, g)
    ensures g in GenerationsOf(Container, containers) + GenerationsOf(Network, networks)
  {
    hide Accepts, InOrder, Removals, GenerationsOf;
    var outcome: Outcome;
    containers, networks, outcome :| StuckAfter(log, s, containers, networks, outcome);
    var found := GenerationsOf(Container, containers) + GenerationsOf(Network, networks);
    var order, sweeps :| InOrder(order, found, outcome) && Sweep(log, s + 2, order, sweeps, outcome);
    var last := |order| - 1;
    SweepsRise(log, s + 2, order, sweeps, outcome, last);
    assert Swept(log, order[last], sweeps[last], outcome);
    StuckHere(log, s + 2, order[last], sweeps[last], outcome);
    OrderMeans(order, found, outcome);
    g := order[last];
  }
}
