/**
 What exactly costs a row something it was promised: a live recipient of a group row, the outbox row of a
 stored one. Each loss is tied to the one kind of step that causes it, for single steps and for whole runs.
 */
module IngestLosses {
  import opened Options
  import opened IngestTypes
  import opened Ingest
  import opened IngestIdentity
  import opened IngestLifecycle
  import opened IngestRecipients
  import opened IngestDurability

  lemma ReachableStep(c: Cell, e: Event)
    requires Reachable(c)
    ensures Reachable(Next(c, e))
  {
    var sender, messageId, lease, clock, events :| c == Run(Initial(sender, messageId, lease, clock), events);
    RunAppend(Initial(sender, messageId, lease, clock), events, [e]);
    assert Run(c, [e]) == Run(Next(c, e), [e][1..]) == Next(c, e);
  }

  // Live recipients

  /** The row is a group row that lists the UIN, and no wipe of the UIN has begun. */
  ghost predicate ListsLive(c: Cell, uin: Uin) {
    c.row.Some? && c.row.value.kind == Group && uin in c.row.value.recipients && uin !in c.log.wipes.wiped
  }

  /** The step writes what a wipe worker decided after reading a direct row. */
  predicate Terminalizes(c: Cell, e: Event) {
    e.SanitizerStep? && e.z in c.procs.sanitizers && c.procs.sanitizers[e.z].SanWriting? &&
    c.procs.sanitizers[e.z].snapshot.kind == Direct
  }

  /** A live recipient disappears from the list of a group row exactly when a terminalization meant for a direct row
      lands on it. */
  lemma LiveRecipientLostExactlyWhen(c: Cell, e: Event, uin: Uin)
    requires Reachable(c) && ListsLive(c, uin) && Next(c, e).row.Some?
    ensures uin !in Next(c, e).row.value.recipients <==> Terminalizes(c, e)
  {
    ReachableRecipients(c);
    match e
    case SanitizerStep(z) => if z in c.procs.sanitizers { SanitizerLoss(c, z, uin); }
    case Step(w) => WorkerKeepsColumn(c, w);
    case StepLost(w) => WorkerKeepsColumn(c, w);
    case _ =>
  }

  lemma SanitizerLoss(c: Cell, z: ProcessId, uin: Uin)
    requires IdentityInv(c) && RecipientInv(c) && ListsLive(c, uin) && z in c.procs.sanitizers
    ensures
      var d := SanitizerNext(c, z);
      d.row.Some? ==> (uin !in d.row.value.recipients <==> Terminalizes(c, SanitizerStep(z)))
  {
    var sanitizer := c.procs.sanitizers[z];
    assert SanitizerOk(c, sanitizer);
    WithoutMembers(c.row.value.recipients, sanitizer.uin, uin);
  }

  /** Some step of the run terminalizes. */
  predicate EverTerminalizes(c: Cell, events: seq<Event>)
    decreases |events|
  {
    events != [] && (Terminalizes(c, events[0]) || EverTerminalizes(Next(c, events[0]), events[1..]))
  }

  lemma WipedGrows(c: Cell, e: Event)
    ensures c.log.wipes.wiped <= Next(c, e).log.wipes.wiped
  {
    match e
    case Step(w) => WorkerKeepsWiped(c, w);
    case StepLost(w) => WorkerKeepsWiped(c, w);
    case _ =>
  }

  lemma WorkerKeepsWiped(c: Cell, w: ProcessId)
    ensures WorkerStep(c, w).log.wipes.wiped == c.log.wipes.wiped
  {
  }

  lemma {:induction false} WipedGrowsRun(c: Cell, events: seq<Event>)
    ensures c.log.wipes.wiped <= Run(c, events).log.wipes.wiped
    decreases |events|
  {
    if events != [] {
      WipedGrows(c, events[0]);
      WipedGrowsRun(Next(c, events[0]), events[1..]);
    }
  }

  lemma SameLifeBetween(c: Cell, events: seq<Event>)
    requires Reachable(c) && events != []
    requires Current(Run(c, events)) == Current(c) && Run(c, events).row.Some?
    ensures Current(Next(c, events[0])) == Current(c) && Next(c, events[0]).row.Some? && c.row.Some?
  {
    ReachableSnapshots(c);
    StepEvolves(c, events[0]);
    StepIdentity(c, events[0]);
    RunEvolves(Next(c, events[0]), events[1..]);
  }

  /** Over any run within one life, a live recipient of the group row is still listed at the end exactly when no step of
      the run was such a terminalization. */
  lemma {:induction false} LiveRecipientKeptExactlyWhen(c: Cell, events: seq<Event>, uin: Uin)
    requires Reachable(c) && ListsLive(c, uin) && uin !in Run(c, events).log.wipes.wiped
    requires Current(Run(c, events)) == Current(c) && Run(c, events).row.Some?
    ensures uin in Run(c, events).row.value.recipients <==> !EverTerminalizes(c, events)
    decreases |events|
  {
    if events != [] {
      var d := Next(c, events[0]);
      SameLifeBetween(c, events);
      LiveRecipientLostExactlyWhen(c, events[0], uin);
      ReachableStep(c, events[0]);
      WipedGrowsRun(d, events[1..]);
      if Terminalizes(c, events[0]) {
        assert d.row.value.state == Erased && d.row.value.recipients == [];
        ErasureIsFinal(d, events[1..]);
      } else {
        SameKind(c, events[0]);
        LiveRecipientKeptExactlyWhen(d, events[1..], uin);
      }
    }
  }

  lemma SameKind(c: Cell, e: Event)
    requires Reachable(c) && c.row.Some? && Next(c, e).row.Some? && Current(Next(c, e)) == Current(c)
    ensures Next(c, e).row.value.kind == c.row.value.kind
  {
    ReachableIdentity(c);
    StepIdentity(c, e);
    LivesGrow(c, e);
  }

  lemma LivesGrow(c: Cell, e: Event)
    ensures c.log.lives <= Next(c, e).log.lives
  {
    match e
    case Step(w) => WorkerMoves(c, w);
    case StepLost(w) => WorkerMoves(c, w);
    case _ =>
  }

  // Outbox rows of stored messages

  /** The row is stored and unexpired, and no wipe has erased its outbox row. */
  ghost predicate Replayable(c: Cell) {
    c.row.Some? && c.row.value.state == Stored && c.clock < c.row.value.expiresAt && RowKey(c) !in c.log.erasures.outbox
  }

  /** The outbox key of the row. */
  function RowKey(c: Cell): OutboxKey
    requires c.row.Some?
  {
    OutboxKey(c.row.value.kind, c.row.value.createdAt)
  }

  /** The step is a delayed outbox delete for the key. */
  predicate DeletesKey(c: Cell, e: Event, key: OutboxKey) {
    e.MarkerStep? && e.d in c.procs.markers && c.procs.markers[e.d].MarkDelete? && c.procs.markers[e.d].key == key
  }

  /** The step removes an outbox row that an earlier life's late batch put under the key and that has expired. */
  predicate ExpiresKey(c: Cell, e: Event, key: OutboxKey) {
    e == ExpireOutbox(key) && key in c.tables.outbox && Due(c.tables.outbox[key].expiresAt, c.clock)
  }

  /** A replayable row loses its outbox row in a step exactly when a delayed delete for its key runs or an expired row under
      its key goes; either comes from an earlier life of the same kind and millisecond. */
  lemma OutboxLostExactlyWhen(c: Cell, e: Event)
    requires Reachable(c) && Replayable(c) && RowKey(c) in c.tables.outbox
    requires Replayable(Next(c, e)) && Current(Next(c, e)) == Current(c)
    ensures RowKey(c) !in Next(c, e).tables.outbox <==> DeletesKey(c, e, RowKey(c)) || ExpiresKey(c, e, RowKey(c))
    ensures RowKey(c) !in Next(c, e).tables.outbox ==>
              exists life :: 1 <= life < Current(c) && OutboxKeyOf(LifeAt(c, life)) == RowKey(c)
  {
    ReachableDurable(c);
    ReachableIdentity(c);
    SameKeyNext(c, e);
    OutboxStep(c, e, RowKey(c));
    if DeletesKey(c, e, RowKey(c)) {
      assert MarkerOk(c, c.procs.markers[e.d]);
    } else if ExpiresKey(c, e, RowKey(c)) {
      assert OutboxRowOk(c, RowKey(c), c.tables.outbox[RowKey(c)]);
    }
  }

  lemma SameKeyNext(c: Cell, e: Event)
    requires Reachable(c) && c.row.Some? && Next(c, e).row.Some? && Current(Next(c, e)) == Current(c)
    ensures RowKey(Next(c, e)) == RowKey(c)
  {
    ReachableIdentity(c);
    StepIdentity(c, e);
    LivesGrow(c, e);
  }

  /** The step executes a batch, of the current life or of an earlier one, that puts a row under the key. */
  predicate WritesKey(c: Cell, e: Event, key: OutboxKey) {
    (e.Step? || e.StepLost?) && e.w in c.procs.workers && c.procs.workers[e.w].Writing? &&
    var Writing(req, record, life) := c.procs.workers[e.w];
    !(StoredExpiry(req, record.expiresAt).Some? && record.expiresAt <= c.clock) &&
    BatchOf(c.sender, req, record, life).outboxKey == key
  }

  lemma OutboxStep(c: Cell, e: Event, key: OutboxKey)
    requires key !in Next(c, e).log.erasures.outbox
    ensures key !in Next(c, e).tables.outbox <==>
            DeletesKey(c, e, key) || ExpiresKey(c, e, key) || (key !in c.tables.outbox && !WritesKey(c, e, key))
  {
    match e
    case Step(w) => WorkerOutbox(c, w, key);
    case StepLost(w) => WorkerOutbox(c, w, key);
    case _ =>
  }

  lemma WorkerOutbox(c: Cell, w: ProcessId, key: OutboxKey)
    ensures key in WorkerStep(c, w).tables.outbox <==> key in c.tables.outbox || WritesKey(c, Step(w), key)
    ensures WritesKey(c, Step(w), key) <==> WritesKey(c, StepLost(w), key)
  {
  }

  /** Whether the key is absent after the run, by the last step that deletes or writes it. */
  predicate GoneAfter(c: Cell, events: seq<Event>, key: OutboxKey, gone: bool)
    decreases |events|
  {
    if events == [] then gone
    else
      GoneAfter(Next(c, events[0]), events[1..], key,
                DeletesKey(c, events[0], key) || ExpiresKey(c, events[0], key) || (gone && !WritesKey(c, events[0], key)))
  }

  lemma ErasuresGrow(c: Cell, e: Event)
    ensures c.log.erasures.outbox <= Next(c, e).log.erasures.outbox
  {
    match e
    case Step(w) => WorkerKeepsErasures(c, w);
    case StepLost(w) => WorkerKeepsErasures(c, w);
    case _ =>
  }

  lemma WorkerKeepsErasures(c: Cell, w: ProcessId)
    ensures WorkerStep(c, w).log.erasures == c.log.erasures
  {
  }

  lemma {:induction false} ErasuresGrowRun(c: Cell, events: seq<Event>)
    ensures c.log.erasures.outbox <= Run(c, events).log.erasures.outbox
    decreases |events|
  {
    if events != [] {
      ErasuresGrow(c, events[0]);
      ErasuresGrowRun(Next(c, events[0]), events[1..]);
    }
  }

  lemma {:induction false} OutboxAfterRun(c: Cell, events: seq<Event>, key: OutboxKey)
    requires key !in Run(c, events).log.erasures.outbox
    ensures key !in Run(c, events).tables.outbox <==> GoneAfter(c, events, key, key !in c.tables.outbox)
    decreases |events|
  {
    if events != [] {
      ErasuresGrowRun(Next(c, events[0]), events[1..]);
      OutboxStep(c, events[0], key);
      OutboxAfterRun(Next(c, events[0]), events[1..], key);
    }
  }

  /** From the batch of a life on, a replayable row of that life lacks its outbox row exactly when the last step of the run
      that wrote or removed the key was a delayed delete or the expiry of an earlier life's row. */
  lemma StoredLacksOutboxExactlyWhen(c: Cell, events: seq<Event>)
    requires Reachable(c) && c.row.Some? && RowKey(c) in c.tables.outbox
    requires Current(Run(c, events)) == Current(c) && Replayable(Run(c, events))
    ensures RowKey(Run(c, events)) == RowKey(c)
    ensures RowKey(c) !in Run(c, events).tables.outbox <==> GoneAfter(c, events, RowKey(c), false)
  {
    KeyStays(c, events);
    OutboxAfterRun(c, events, RowKey(c));
  }

  lemma {:induction false} KeyStays(c: Cell, events: seq<Event>)
    requires Reachable(c) && Current(Run(c, events)) == Current(c) && Run(c, events).row.Some?
    ensures c.row.Some? && RowKey(Run(c, events)) == RowKey(c)
    decreases |events|
  {
    if events != [] {
      SameLifeBetween(c, events);
      SameKeyNext(c, events[0]);
      ReachableStep(c, events[0]);
      KeyStays(Next(c, events[0]), events[1..]);
    }
  }
}
