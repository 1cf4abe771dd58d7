/**
 * The container daemon as the sandbox supervisor sees it. Anything may change between two calls: resources vanish,
 * names are bound to new ids, calls fail or are interrupted, and each takes any time up to its timeout. The one thing
 * that never changes is what an id denotes. Every value assigned with `*` ranges over all such behaviours.
 */
module SandboxDaemon {
  import opened Outcomes
  import opened SandboxNames
  import opened Uuids

  type Id = string

  /** The kind, name and generation label an id was created with. */
  datatype Identity = Identity(kind: Kind, name: string, tag: Option<string>)

  /** One entry of an `inspect` reply. */
  datatype Record = Record(id: Id, shown: string, tag: Option<string>)

  /** One entry of an `inspect` of labelled resources; a field is missing when it is not a string. */
  datatype Labelled = Labelled(shown: Option<string>, tag: Option<string>)

  datatype Reply<T> = Failed | Interrupted | Malformed | Got(value: T)

  /** What a guarded block raised: nothing, `KeyboardInterrupt`, an `Exception`, or any other `BaseException`. */
  datatype Raised = Nothing | Keyboard | Error | Fatal

  /**
   * A call and its reply, or a step of the supervisor: a removal is undertaken or finds its time expired; a generation
   * begins, its heartbeat file is made and refreshed, `create` returns it, the generation has run, and a heartbeat is
   * withdrawn or cannot be.
   */
  datatype Event =
    | Listed(kind: Kind, name: string, live: set<Id>, found: Reply<seq<Id>>)
    | Inspected(kind: Kind, id: Id, records: Reply<seq<Record>>)
    | RemoveAsked(kind: Kind, id: Id, done: Reply<()>)
    | Discovered(kind: Kind, labelled: Reply<seq<Labelled>>)
    | Signalled
    | Undertaken(kind: Kind, name: string, clock: real)
    | Expired(clock: real)
    | Begun(generation: Uuid)
    | Beating(generation: Uuid)
    | Refreshed(generation: Uuid)
    | Kept(generation: Uuid)
    | Ran(raised: Raised)
    | Withdrawn(generation: Uuid)
    | NotWithdrawn(generation: Uuid)

  /** The record `inspect` must show for a resource of generation `g`. */
  function Mine(id: Id, kind: Kind, name: string, g: Uuid): Record {
    Record(id, Shown(kind, name), Some(Canonical(g)))
  }

  /** An exact-name listing holds the live resources of that name, and no others. */
  predicate ExactListing(identity: Id -> Identity, kind: Kind, name: string, live: set<Id>, ids: seq<Id>) {
    && (forall i :: 0 <= i < |ids| ==> ids[i] in live && identity(ids[i]).kind == kind && identity(ids[i]).name == name)
    && (forall id :: id in live && identity(id).kind == kind && identity(id).name == name ==> id in ids)
  }

  predicate Truthful(identity: Id -> Identity, kind: Kind, records: seq<Record>) {
    forall i :: 0 <= i < |records| ==>
      && identity(records[i].id).kind == kind
      && records[i].shown == Shown(kind, identity(records[i].id).name)
      && records[i].tag == identity(records[i].id).tag
  }

  predicate Honest(identity: Id -> Identity, e: Event) {
    match e
    case Listed(kind, name, live, Got(ids)) => ExactListing(identity, kind, name, live, ids)
    case Inspected(kind, _, Got(records)) => Truthful(identity, kind, records)
    case _ => true
  }

  class Daemon {
    const identity: Id -> Identity
    var live: set<Id>
    var clock: real
    var listings: nat
    var log: seq<Event>

    constructor (identity: Id -> Identity, clock: real)
      ensures this.identity == identity && this.clock == clock && log == [] && Valid()
    {
      this.identity, this.clock, log, listings := identity, clock, [], 0;
      live := *;
    }

    ghost predicate Valid()
      reads this
    {
      forall i :: 0 <= i < |log| ==> Honest(identity, log[i])
    }

    /** Time passes and the world changes while a call with this timeout is under way. */
    method Wait(timeout: real)
      requires Valid() && timeout >= 0.0
      modifies this`live, this`clock
      ensures Valid() && old(clock) <= clock <= old(clock) + timeout
    {
      live := *;
      var delay: real := *;
      clock := clock + if 0.0 <= delay <= timeout then delay else timeout;
    }

    /** `docker KIND ls --filter name=…`; a reply that is not exact stands for a failing call. */
    method ListName(kind: Kind, name: string, timeout: real) returns (found: Reply<seq<Id>>)
      requires Valid() && timeout >= 0.0
      modifies this
      ensures Valid() && log == old(log) + [Listed(kind, name, live, found)] && listings == old(listings) + 1
      ensures old(clock) <= clock <= old(clock) + timeout
      ensures !found.Malformed?
      ensures found.Got? ==> forall id :: id in found.value <==>
                id in live && identity(id).kind == kind && identity(id).name == name
    {
      Wait(timeout);
      found := *;
      if found.Malformed? || (found.Got? && !ExactListing(identity, kind, name, live, found.value)) {
        found := Failed;
      }
      listings := listings + 1;
      log := log + [Listed(kind, name, live, found)];
    }

    /** `docker KIND inspect ID`. */
    method Inspect(kind: Kind, id: Id, timeout: real) returns (records: Reply<seq<Record>>)
      requires Valid() && timeout >= 0.0
      modifies this
      ensures Valid() && log == old(log) + [Inspected(kind, id, records)] && listings == old(listings)
      ensures old(clock) <= clock <= old(clock) + timeout
    {
      Wait(timeout);
      records := *;
      if records.Got? && !Truthful(identity, kind, records.value) {
        records := Failed;
      }
      log := log + [Inspected(kind, id, records)];
    }

    /** `docker KIND rm ID`: on success the resource is gone. */
    method Remove(kind: Kind, id: Id, timeout: real) returns (done: Reply<()>)
      requires Valid() && timeout >= 0.0
      modifies this
      ensures Valid() && log == old(log) + [RemoveAsked(kind, id, done)] && listings == old(listings)
      ensures old(clock) <= clock <= old(clock) + timeout
      ensures done.Got? ==> id !in live
    {
      Wait(timeout);
      done := *;
      if done.Got? { live := live - {id}; }
      log := log + [RemoveAsked(kind, id, done)];
    }

    /** `_inspect_labeled_resources`: a listing by label and one `inspect` of everything it names. */
    method Discover(kind: Kind) returns (labelled: Reply<seq<Labelled>>)
      requires Valid()
      modifies this
      ensures Valid() && log == old(log) + [Discovered(kind, labelled)]
    {
      Wait(180.0);
      labelled := *;
      log := log + [Discovered(kind, labelled)];
    }

    /** `time.sleep`, which a signal may end. */
    method Sleep(seconds: real) returns (interrupted: bool)
      requires Valid() && seconds >= 0.0
      modifies this
      ensures Valid() && listings == old(listings)
      ensures log == if interrupted then old(log) + [Signalled] else old(log)
      ensures old(clock) <= clock <= old(clock) + seconds
    {
      interrupted := *;
      live := *;
      var slept: real := *;
      clock := clock + if interrupted && 0.0 <= slept <= seconds then slept else seconds;
      if interrupted { log := log + [Signalled]; }
    }

    /** A step of the supervisor itself; one that names a time names the present one. */
    method Note(e: Event)
      requires Valid() && !e.Listed? && !e.Inspected? && !e.RemoveAsked? && !e.Discovered? && !e.Signalled?
      requires e.Undertaken? || e.Expired? ==> e.clock == clock
      modifies this`log
      ensures Valid() && log == old(log) + [e]
    {
      log := log + [e];
    }
  }
}
