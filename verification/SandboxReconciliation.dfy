/** Start-up reconciliation of what an earlier supervisor left behind (`reconcile_orphaned_generations`). */
module SandboxReconciliation {
  import opened Outcomes
  import opened SandboxDaemon
  import opened SandboxGenerations
  import opened SandboxNames
  import opened SandboxRemoval
  import opened Text
  import opened Uuids

  /** Raised before anything is removed, raised while a generation is removed, or the number of generations removed. */
  datatype Reconciliation = Refused | Unproven | Reconciled(count: nat)

  function Identified(kind: Kind, item: Labelled): (identifier: Option<Uuid>)
    ensures identifier.Some? ==> item.shown.Some? && item.tag.Some?
  {
    IdentifierFromResource(kind, item.shown, item.tag)
  }

  function GenerationsOf(kind: Kind, items: seq<Labelled>): set<Uuid> {
    set i | 0 <= i < |items| && Identified(kind, items[i]).Some? :: Identified(kind, items[i]).value
  }

  function NamesOf(items: seq<Labelled>): set<string> {
    set i | 0 <= i < |items| && items[i].shown.Some? :: items[i].shown.value
  }

  /** Every item names its own generation, and no name occurs twice or among those taken. */
  predicate Acceptable(kind: Kind, items: seq<Labelled>, taken: set<string>) {
    && (forall i :: 0 <= i < |items| ==> Identified(kind, items[i]).Some? && items[i].shown.value !in taken)
    && (forall i, j :: 0 <= i < j < |items| ==> items[i].shown != items[j].shown)
  }

  /** One discovery loop over `resource_names` and `generations`. */
  method Collect(kind: Kind, items: seq<Labelled>, taken: set<string>, known: set<Uuid>)
    returns (ok: bool, names: set<string>, generations: set<Uuid>)
    ensures ok <==> Acceptable(kind, items, taken)
    ensures ok ==> names == taken + NamesOf(items) && generations == known + GenerationsOf(kind, items)
  {
    names, generations, ok := taken, known, true;
    for i := 0 to |items|
      invariant Acceptable(kind, items[..i], taken)
      invariant names == taken + NamesOf(items[..i]) && generations == known + GenerationsOf(kind, items[..i])
    {
      hide Identified;
      var identifier := Identified(kind, items[i]);
      if identifier.None? || items[i].shown.value in names {
        Rejected(kind, items, taken, i);
        return false, names, generations;
      }
      Accepted(kind, items, taken, i);
      names := names + {items[i].shown.value};
      generations := generations + {identifier.value};
    }
    assert items[..|items|] == items;
  }

  lemma Rejected(kind: Kind, items: seq<Labelled>, taken: set<string>, i: nat)
    requires i < |items|
    requires Identified(kind, items[i]).None? || items[i].shown.value in taken + NamesOf(items[..i])
    ensures !Acceptable(kind, items, taken)
  {
    if Identified(kind, items[i]).Some? && items[i].shown.value in NamesOf(items[..i]) {
      var j :| 0 <= j < i && items[..i][j].shown == items[i].shown;
      assert items[j].shown == items[i].shown;
    }
  }

  lemma Accepted(kind: Kind, items: seq<Labelled>, taken: set<string>, i: nat)
    requires i < |items| && Acceptable(kind, items[..i], taken)
    requires Identified(kind, items[i]).Some? && items[i].shown.value !in taken + NamesOf(items[..i])
    ensures Acceptable(kind, items[..i + 1], taken)
    ensures NamesOf(items[..i + 1]) == NamesOf(items[..i]) + {items[i].shown.value}
    ensures GenerationsOf(kind, items[..i + 1]) == GenerationsOf(kind, items[..i]) + {Identified(kind, items[i]).value}
  {
    hide Identified;
    var before, item := items[..i], items[i];
    assert items[..i + 1] == before + [item];
    NamesSnoc(before, item);
    GenerationsSnoc(kind, before, item);
    hide GenerationsOf;
    forall j | 0 <= j < i ensures before[j].shown != item.shown {
      assert before[j].shown.Some? ==> before[j].shown.value in NamesOf(before);
    }
  }

  lemma NamesSnoc(items: seq<Labelled>, item: Labelled)
    requires item.shown.Some?
    ensures NamesOf(items + [item]) == NamesOf(items) + {item.shown.value}
  {
    var after := items + [item];
    assert after[|items|] == item && forall i :: 0 <= i < |items| ==> after[i] == items[i];
  }

  lemma GenerationsSnoc(kind: Kind, items: seq<Labelled>, item: Labelled)
    requires Identified(kind, item).Some?
    ensures GenerationsOf(kind, items + [item]) == GenerationsOf(kind, items) + {Identified(kind, item).value}
  {
    hide Identified;
    var after := items + [item];
    assert after[|items|] == item && forall i :: 0 <= i < |items| ==> after[i] == items[i];
  }

  /** Nothing but daemon calls, and every removal request for a resource of one of these generations. */
  predicate OnlyOwned(identity: Id -> Identity, log: seq<Event>, start: nat, owners: set<Uuid>) {
    forall i :: start <= i < |log| ==>
      Call(log[i]) && (log[i].RemoveAsked? ==> exists g :: g in owners && Owns(identity, g, log[i]))
  }

  ghost predicate AllCleared(log: seq<Event>, start: nat, gone: set<Uuid>) {
    forall g :: g in gone ==> Cleared(log, start, g)
  }

  lemma LeastExists(gs: set<Uuid>) returns (least: Uuid)
    requires gs != {}
    ensures least in gs && forall g :: g in gs ==> least <= g
    decreases |gs|
  {
    least :| least in gs;
    if gs != {least} {
      var others := gs - {least};
      var below := LeastExists(others);
      assert gs == others + {least};
      if below < least { least := below; }
    }
  }

  lemma AllClearedStays(log: seq<Event>, more: seq<Event>, start: nat, gone: set<Uuid>, g: Uuid, also: bool)
    requires AllCleared(log, start, gone) && start <= |log| && (also ==> Cleared(log + more, |log|, g))
    ensures AllCleared(log + more, start, gone) && (also ==> AllCleared(log + more, start, gone + {g}))
  {
    hide Cleared;
    forall h | h in gone ensures Cleared(log + more, start, h) {
      ClearedStays(log, more, start, start, h);
    }
    if also {
      ClearedStays(log + more, [], |log|, start, g);
      assert log + more + [] == log + more;
    }
  }

  /** In strictly increasing order of canonical text, so without repetition. */
  predicate Ascending(order: seq<Uuid>) {
    forall i, j :: 0 <= i < j < |order| ==> Less(Canonical(order[i]), Canonical(order[j]))
  }

  function Members(order: seq<Uuid>): set<Uuid> {
    set i | 0 <= i < |order| :: order[i]
  }

  lemma AscendingGrows(order: seq<Uuid>, g: Uuid, todo: set<Uuid>)
    requires Ascending(order) && g in todo && forall h :: h in todo ==> g <= h
    requires forall f, h :: f in Members(order) && h in todo ==> f < h
    ensures Ascending(order + [g]) && Members(order + [g]) == Members(order) + {g}
    ensures forall f, h :: f in Members(order + [g]) && h in todo - {g} ==> f < h
  {
    hide Less, Canonical;
    forall i | 0 <= i < |order| ensures Less(Canonical(order[i]), Canonical(g)) {
      assert order[i] in Members(order);
      CanonicalOrder(order[i], g);
    }
    var after := order + [g];
    assert after[|order|] == g && forall i :: 0 <= i < |order| ==> after[i] == order[i];
    assert Members(after) == Members(order) + {g};
  }

  /** Where a destruction ends in the log. */
  function EndOf(cuts: seq<nat>): nat {
    if cuts == [] then 0 else cuts[|cuts| - 1]
  }

  /**
   * From `start` to its end, the log is the destruction of one generation after another, in full but for the last
   * one, which ended as `outcome` says.
   */
  predicate Sweep(log: seq<Event>, start: nat, order: seq<Uuid>, sweeps: seq<seq<nat>>, outcome: Outcome) {
    && |sweeps| == |order| && (outcome != Done ==> order != [])
    && (forall k :: 0 <= k < |order| ==> Swept(log, order[k], sweeps[k], if k == |order| - 1 then outcome else Done))
    && (forall k :: 0 < k < |order| ==> sweeps[k][0] == EndOf(sweeps[k - 1]))
    && if order == [] then |log| == start
       else sweeps[0][0] == start && |log| == EndOf(sweeps[|order| - 1])
  }

  predicate Swept(log: seq<Event>, g: Uuid, cuts: seq<nat>, outcome: Outcome)
    ensures Swept(log, g, cuts, outcome) ==> cuts != []
  {
    Removals(log, g, cuts, outcome) && (outcome == Done ==> |cuts| == 7)
  }

  lemma SweepGrows(log: seq<Event>, more: seq<Event>, start: nat, order: seq<Uuid>, sweeps: seq<seq<nat>>, g: Uuid,
                   cuts: seq<nat>, outcome: Outcome)
    requires Sweep(log, start, order, sweeps, Done) && Swept(log + more, g, cuts, outcome)
    requires cuts[0] == |log| && EndOf(cuts) == |log + more|
    ensures Sweep(log + more, start, order + [g], sweeps + [cuts], outcome)
  {
    hide Removals;
    var after, all := order + [g], sweeps + [cuts];
    forall k | 0 <= k < |after| ensures Swept(log + more, after[k], all[k], if k == |order| then outcome else Done) {
      if k < |order| { RemovalsStay(log, more, order[k], sweeps[k], Done); }
    }
  }

  /**
   * These generations were destroyed in the order of their canonical text: all of them, or up to and with the first
   * whose destruction did not return normally.
   */
  ghost predicate Destroyed(log: seq<Event>, start: nat, generations: set<Uuid>, outcome: Outcome) {
    exists order, sweeps :: InOrder(order, generations, outcome) && Sweep(log, start, order, sweeps, outcome)
  }

  ghost predicate InOrder(order: seq<Uuid>, generations: set<Uuid>, outcome: Outcome) {
    && Ascending(order) && Members(order) <= generations
    && (forall f, h :: f in Members(order) && h in generations - Members(order) ==> f < h)
    && (outcome == Done ==> Members(order) == generations)
  }

  /** Between two destructions: what is not in `todo` any more was destroyed, in order, and seen gone. */
  ghost predicate Underway(log: seq<Event>, start: nat, order: seq<Uuid>, sweeps: seq<seq<nat>>,
                           generations: set<Uuid>, todo: set<Uuid>)
  {
    && todo <= generations && start <= |log|
    && Ascending(order) && Members(order) == generations - todo
    && (forall f, h :: f in Members(order) && h in todo ==> f < h)
    && AllCleared(log, start, Members(order)) && Sweep(log, start, order, sweeps, Done)
  }

  lemma NothingUnderway(log: seq<Event>, generations: set<Uuid>)
    ensures Underway(log, |log|, [], [], generations, generations)
  {}

  lemma OneMoreDestroyed(log: seq<Event>, more: seq<Event>, start: nat, order: seq<Uuid>, sweeps: seq<seq<nat>>,
                         generations: set<Uuid>, todo: set<Uuid>, g: Uuid, cuts: seq<nat>, outcome: Outcome)
    requires Underway(log, start, order, sweeps, generations, todo)
    requires g in todo && forall h :: h in todo ==> g <= h
    requires Swept(log + more, g, cuts, outcome) && cuts[0] == |log| && EndOf(cuts) == |log + more|
    requires outcome == Done ==> Cleared(log + more, |log|, g)
    ensures outcome == Done ==> Underway(log + more, start, order + [g], sweeps + [cuts], generations, todo - {g})
    ensures outcome != Done ==> Destroyed(log + more, start, generations, outcome)
  {
    hide Cleared, Less, Canonical, Ascending, Members, AllCleared, Swept, Sweep;
    AllClearedStays(log, more, start, Members(order), g, outcome == Done);
    SweepGrows(log, more, start, order, sweeps, g, cuts, outcome);
    AscendingGrows(order, g, todo);
    if outcome != Done { assert InOrder(order + [g], generations, outcome); }
  }

  lemma AllDestroyed(log: seq<Event>, start: nat, order: seq<Uuid>, sweeps: seq<seq<nat>>, generations: set<Uuid>)
    requires Underway(log, start, order, sweeps, generations, {})
    ensures Destroyed(log, start, generations, Done) && AllCleared(log, start, generations)
  {
    hide Ascending, Members, AllCleared, Sweep;
    assert InOrder(order, generations, Done);
  }

  /** The second half of reconciliation. */
  method DestroyAll(d: Daemon, generations: set<Uuid>) returns (ok: bool, ghost outcome: Outcome)
    requires d.Valid()
    modifies d
    ensures d.Valid() && old(d.log) <= d.log
    ensures Destroyed(d.log, |old(d.log)|, generations, outcome) && (ok <==> outcome == Done)
    ensures OnlyOwned(d.identity, d.log, |old(d.log)|, generations)
    ensures ok ==> AllCleared(d.log, |old(d.log)|, generations)
  {
    hide Cleared, Owns, Call, Removals, AllCleared, Underway, Destroyed;
    ghost var order: seq<Uuid>, sweeps: seq<seq<nat>> := [], [];
    NothingUnderway(d.log, generations);
    var todo := generations;
    while todo != {}
      invariant d.Valid() && old(d.log) <= d.log && todo <= generations
      invariant OnlyOwned(d.identity, d.log, |old(d.log)|, generations)
      invariant Underway(d.log, |old(d.log)|, order, sweeps, generations, todo)
    {
      ghost var least := LeastExists(todo);
      var g :| g in todo && forall h :: h in todo ==> g <= h;
      ghost var before := d.log;
      var ended, cuts := DestroyGeneration(d, g);
      assert d.log == before + d.log[|before|..];
      OneMoreDestroyed(before, d.log[|before|..], |old(d.log)|, order, sweeps, generations, todo, g, cuts, ended);
      order, sweeps, todo := order + [g], sweeps + [cuts], todo - {g};
      if ended != Done { return false, ended; }
    }
    AllDestroyed(d.log, |old(d.log)|, order, sweeps, generations);
    ok, outcome := true, Done;
  }

  /** Why discovery refuses: a call that did not answer, or a resource without an owner or with a name seen before. */
  predicate Refusal(log: seq<Event>, start: nat) {
    && start < |log| <= start + 2 && log[start].Discovered? && log[start].kind == Container
    && if |log| == start + 1 then
         log[start].labelled.Got? ==> !Acceptable(Container, log[start].labelled.value, {})
       else
         && log[start].labelled.Got? && Acceptable(Container, log[start].labelled.value, {})
         && log[start + 1].Discovered? && log[start + 1].kind == Network
         && (log[start + 1].labelled.Got? ==>
              !Acceptable(Network, log[start + 1].labelled.value, NamesOf(log[start].labelled.value)))
  }

  /** What a discovery showed is accepted as a whole: both calls answered and every resource names its owner. */
  predicate Accepts(log: seq<Event>, start: nat, containers: seq<Labelled>, networks: seq<Labelled>) {
    && start + 2 <= |log|
    && log[start] == Discovered(Container, Got(containers)) && log[start + 1] == Discovered(Network, Got(networks))
    && Acceptable(Container, containers, {}) && Acceptable(Network, networks, NamesOf(containers))
  }

  /**
   * `reconcile_orphaned_generations`: nothing is removed unless everything discovered is accepted, and then every
   * generation found is destroyed.
   */
  method ReconcileOrphanedGenerations(d: Daemon)
    returns (result: Reconciliation, ghost containers: seq<Labelled>, ghost networks: seq<Labelled>,
             ghost outcome: Outcome)
    requires d.Valid()
    modifies d
    ensures d.Valid() && old(d.log) <= d.log
    ensures result.Refused? ==> Refusal(d.log, |old(d.log)|)
    ensures !result.Refused? ==> Accepts(d.log, |old(d.log)|, containers, networks)
    ensures !result.Refused? ==> OnlyOwned(d.identity, d.log, |old(d.log)| + 2,
                                           GenerationsOf(Container, containers) + GenerationsOf(Network, networks))
    ensures !result.Refused? ==> Destroyed(d.log, |old(d.log)| + 2,
                                           GenerationsOf(Container, containers) + GenerationsOf(Network, networks),
                                           outcome)
    ensures !result.Refused? ==> (result.Reconciled? <==> outcome == Done)
    ensures result.Reconciled? ==>
              var found := GenerationsOf(Container, containers) + GenerationsOf(Network, networks);
              result.count == |found| && AllCleared(d.log, |old(d.log)| + 2, found)
  {
    hide Acceptable, AllCleared, OnlyOwned, GenerationsOf, NamesOf, Destroyed;
    ghost var base := d.log;
    containers, networks, outcome := [], [], Done;
    var listed := d.Discover(Container);
    if !listed.Got? { return Refused, [], [], Done; }
    var ok, names, generations := Collect(Container, listed.value, {}, {});
    if !ok { return Refused, [], [], Done; }
    containers := listed.value;
    assert names == NamesOf(containers) && generations == GenerationsOf(Container, containers);
    listed := d.Discover(Network);
    assert d.log[|base|] == Discovered(Container, Got(containers));
    if !listed.Got? { return Refused, [], [], Done; }
    ok, names, generations := Collect(Network, listed.value, names, generations);
    if !ok { return Refused, [], [], Done; }
    networks := listed.value;
    assert Accepts(d.log, |base|, containers, networks);
    ok, outcome := DestroyAll(d, generations);
    result := if ok then Reconciled(|generations|) else Unproven;
  }
}
