/**
 The state column over whole runs: it only moves forward within one life, at most one MarkStored
 applies, and nothing touches an erased row again.
 */
module IngestLifecycle {
  import opened Options
  import opened IngestTypes
  import opened Ingest
  import opened IngestIdentity

  function Rank(state: IngestState): nat {
    match state case Pending => 0 case Stored => 1 case Delivered => 2 case Erased => 3
  }

  /** A group snapshot is only written back when it names the UIN being wiped. */
  ghost predicate SnapshotsInv(c: Cell) {
    forall z :: z in c.procs.sanitizers && c.procs.sanitizers[z].SanWriting? && c.procs.sanitizers[z].snapshot.kind == Group ==>
      c.procs.sanitizers[z].snapshot.recipients != []
  }

  /** What any number of steps may do to the row of one life. */
  ghost predicate Evolves(c: Cell, d: Cell) {
    Current(c) <= Current(d) &&
    (Current(c) == Current(d) && d.row.Some? ==>
       c.row.Some? && Rank(c.row.value.state) <= Rank(d.row.value.state) &&
       (c.row.value.state == Erased ==>
          d.row == c.row && d.log.moves.acquired == c.log.moves.acquired && d.log.moves.stores == c.log.moves.stores &&
          d.log.moves.deliveries == c.log.moves.deliveries))
  }

  lemma WorkerEvolves(c: Cell, w: ProcessId)
    ensures Evolves(c, WorkerStep(c, w)) && WorkerStep(c, w).procs.sanitizers == c.procs.sanitizers
  {
  }

  lemma SanitizerEvolves(c: Cell, z: ProcessId)
    requires RowInv(c) && SnapshotsInv(c)
    ensures Evolves(c, SanitizerNext(c, z)) && SnapshotsInv(SanitizerNext(c, z))
  {
  }

  lemma MarkerEvolves(c: Cell, d: ProcessId)
    ensures Evolves(c, MarkerNext(c, d)) && MarkerNext(c, d).procs.sanitizers == c.procs.sanitizers
  {
  }

  lemma OtherEvolves(c: Cell, e: Event)
    requires OutsideRow(e) && SnapshotsInv(c)
    ensures Evolves(c, Next(c, e)) && SnapshotsInv(Next(c, e))
  {
  }

  lemma StepEvolves(c: Cell, e: Event)
    requires IdentityInv(c) && SnapshotsInv(c)
    ensures Evolves(c, Next(c, e)) && SnapshotsInv(Next(c, e))
  {
    match e
    case Step(w) => WorkerEvolves(c, w);
    case StepLost(w) => WorkerEvolves(c, w);
    case Start(_, _) =>
    case MarkerStep(d) => MarkerEvolves(c, d);
    case SanitizerStep(z) => SanitizerEvolves(c, z);
    case _ => OtherEvolves(c, e);
  }

  lemma {:induction false} RunEvolves(c: Cell, events: seq<Event>)
    requires IdentityInv(c) && SnapshotsInv(c)
    ensures Evolves(c, Run(c, events)) && SnapshotsInv(Run(c, events))
    decreases |events|
  {
    if events != [] {
      StepEvolves(c, events[0]);
      StepIdentity(c, events[0]);
      RunEvolves(Next(c, events[0]), events[1..]);
    }
  }

  lemma ReachableSnapshots(c: Cell)
    requires Reachable(c)
    ensures IdentityInv(c) && SnapshotsInv(c)
  {
    ReachableIdentity(c);
    var sender, messageId, lease, clock, events :| c == Run(Initial(sender, messageId, lease, clock), events);
    RunEvolves(Initial(sender, messageId, lease, clock), events);
  }

  /** From any reachable cell, within one life, the state only moves pending, stored, delivered, or to erased. */
  lemma StateMovesForward(c: Cell, events: seq<Event>)
    requires Reachable(c)
    requires Current(Run(c, events)) == Current(c) && Run(c, events).row.Some?
    ensures c.row.Some? && Rank(c.row.value.state) <= Rank(Run(c, events).row.value.state)
  {
    ReachableSnapshots(c);
    RunEvolves(c, events);
  }

  /** Once erased, the row never changes again while it exists: no claim acquires it and no mark applies. */
  lemma ErasureIsFinal(c: Cell, events: seq<Event>)
    requires Reachable(c) && c.row.Some? && c.row.value.state == Erased
    requires Current(Run(c, events)) == Current(c) && Run(c, events).row.Some?
    ensures Run(c, events).row == c.row
    ensures Run(c, events).log.moves == c.log.moves
  {
    ReachableSnapshots(c);
    RunEvolves(c, events);
  }

  ghost predicate StoreInv(c: Cell) {
    var stores := c.log.moves.stores;
    (forall i :: 0 <= i < |stores| ==> 1 <= stores[i] <= Current(c)) &&
    (forall i, j :: 0 <= i < j < |stores| ==> stores[i] != stores[j]) &&
    (c.row.Some? && c.row.value.state == Pending ==> Current(c) !in stores) &&
    (c.row.Some? && (c.row.value.state == Stored || c.row.value.state == Delivered) ==> Current(c) in stores)
  }

  /** A conditional update applied by token and lease is an update of the claimer's own life. */
  lemma OwnerKnowsLife(c: Cell, req: Request, record: Row, life: nat)
    requires RowInv(c) && Holds(c, req, record, life) && OwnedBy(c.row, record.owner, record.leaseUntil)
    ensures life == Current(c)
  {
  }

  lemma WorkerStore(c: Cell, w: ProcessId)
    requires IdentityInv(c) && StoreInv(c)
    ensures StoreInv(WorkerStep(c, w))
  {
    if w in c.procs.workers {
      assert WorkerOk(c, c.procs.workers[w]);
      if c.procs.workers[w].MarkingCas? {
        MarkStoredStore(c, w, c.procs.workers[w].req, c.procs.workers[w].record, c.procs.workers[w].life);
      }
    }
  }

  lemma MarkStoredStore(c: Cell, w: ProcessId, req: Request, record: Row, life: nat)
    requires RowInv(c) && StoreInv(c) && Holds(c, req, record, life)
    ensures StoreInv(MarkStoredCas(c, w, req, record, life))
  {
    if OwnedBy(c.row, record.owner, record.leaseUntil) {
      OwnerKnowsLife(c, req, record, life);
    }
  }

  lemma StepStore(c: Cell, e: Event)
    requires IdentityInv(c) && StoreInv(c)
    ensures StoreInv(Next(c, e))
  {
    match e
    case Step(w) => WorkerStore(c, w);
    case StepLost(w) => WorkerStore(c, w);
    case Start(_, _) =>
    case MarkerStep(d) => MarkerStore(c, d);
    case SanitizerStep(z) => SanitizerStore(c, z);
    case _ => OtherStore(c, e);
  }

  lemma MarkerStore(c: Cell, d: ProcessId)
    requires StoreInv(c)
    ensures StoreInv(MarkerNext(c, d))
  {
  }

  lemma SanitizerStore(c: Cell, z: ProcessId)
    requires StoreInv(c)
    ensures StoreInv(SanitizerNext(c, z))
  {
  }

  lemma OtherStore(c: Cell, e: Event)
    requires StoreInv(c) && OutsideRow(e)
    ensures StoreInv(Next(c, e))
  {
    OtherCore(c, e);
  }

  lemma {:induction false} RunStore(c: Cell, events: seq<Event>)
    requires IdentityInv(c) && StoreInv(c)
    ensures StoreInv(Run(c, events))
    decreases |events|
  {
    if events != [] {
      StepStore(c, events[0]);
      StepIdentity(c, events[0]);
      RunStore(Next(c, events[0]), events[1..]);
    }
  }

  /** At most one MarkStored ever applies in one life, over any number of workers and takeovers. */
  lemma StoredAtMostOnce(c: Cell, i: nat, j: nat)
    requires Reachable(c) && i < j < |c.log.moves.stores|
    ensures c.log.moves.stores[i] != c.log.moves.stores[j]
  {
    var sender, messageId, lease, clock, events :| c == Run(Initial(sender, messageId, lease, clock), events);
    RunStore(Initial(sender, messageId, lease, clock), events);
  }
}
