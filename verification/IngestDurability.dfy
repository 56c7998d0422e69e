/**
 Acknowledged means durable: a committed answer follows an executed message and outbox batch of its
 life, and while a row stays stored its outbox row is there to be replayed.
 */
module IngestDurability {
  import opened Options
  import opened IngestTypes
  import opened Ingest
  import opened IngestIdentity

  ghost predicate WrittenBefore(batches: seq<Batch>, n: nat, life: nat) {
    exists i :: 0 <= i < n && i < |batches| && batches[i].life == life
  }

  ghost predicate Written(c: Cell, life: nat) { WrittenBefore(c.log.batches, |c.log.batches|, life) }

  /** The worker has executed its batch, or answers for a life whose batch was executed. */
  predicate PastWrite(worker: Worker) {
    worker.Wrote? || worker.Marking? || worker.MarkingCas? || (worker.Finished? && worker.outcome.Committed?)
  }

  ghost predicate WritersInv(c: Cell) {
    (forall w :: w in c.procs.workers && PastWrite(c.procs.workers[w]) ==> Written(c, c.procs.workers[w].life)) &&
    (c.row.Some? && (c.row.value.state == Stored || c.row.value.state == Delivered) ==> Written(c, Current(c))) &&
    (forall i :: 0 <= i < |c.log.commits| ==>
       WrittenBefore(c.log.batches, c.log.commits[i].batchesBefore, c.log.commits[i].life))
  }

  /** No earlier life was created in the same millisecond, so this life's keys are its own. */
  ghost predicate FreshTime(c: Cell) {
    forall i :: 0 <= i < |c.log.lives| - 1 ==> c.log.lives[i].createdAt != c.log.lives[|c.log.lives| - 1].createdAt
  }

  ghost predicate OutboxInv(c: Cell) {
    forall key :: key in c.tables.outbox ==> OutboxRowOk(c, key, c.tables.outbox[key])
  }

  predicate OutboxRowOk(c: Cell, key: OutboxKey, row: OutboxRow) {
    IsLife(c, row.life) && key == OutboxKeyOf(LifeAt(c, row.life)) && row.envelope == Some(LifeAt(c, row.life).envelope) &&
    row.expiresAt == ExpiryOf(LifeAt(c, row.life))
  }

  /** The current row is unexpired and its batch has been executed. */
  ghost predicate Live(c: Cell) {
    c.row.Some? && IsLife(c, Current(c)) && c.clock < LifeAt(c, Current(c)).expiresAt && Written(c, Current(c)) && FreshTime(c)
  }

  ghost predicate OutboxPresent(c: Cell) {
    Live(c) && (c.row.value.state == Pending || c.row.value.state == Stored) &&
    OutboxKeyOf(LifeAt(c, Current(c))) !in c.log.erasures.outbox ==>
      OutboxKeyOf(LifeAt(c, Current(c))) in c.tables.outbox
  }

  ghost predicate MessagePresent(c: Cell) {
    Live(c) && MessageKeyOf(LifeAt(c, Current(c))) !in c.log.erasures.messages ==>
      var life := LifeAt(c, Current(c));
      MessageKeyOf(life) in c.tables.messages && c.tables.messages[MessageKeyOf(life)] == MessageOf(c.sender, life)
  }

  /** A process about to delete an outbox row has seen its life delivered. */
  predicate MarkerOk(c: Cell, marker: Marker) {
    match marker
    case MarkCas(_, record, life) => IsLife(c, life) && RowOf(record, LifeAt(c, life))
    case MarkDelete(key, life) =>
      IsLife(c, life) && key == OutboxKeyOf(LifeAt(c, life)) &&
      (life < Current(c) || Settled(c.row))
    case _ => true
  }

  ghost predicate MarkersInv(c: Cell) {
    forall d :: d in c.procs.markers ==> MarkerOk(c, c.procs.markers[d])
  }

  ghost predicate DurableInv(c: Cell) {
    WritersInv(c) && OutboxInv(c) && OutboxPresent(c) && MessagePresent(c) && MarkersInv(c)
  }

  lemma WrittenGrows(c: Cell, d: Cell, life: nat)
    requires c.log.batches <= d.log.batches && Written(c, life)
    ensures Written(d, life)
  {
  }

  lemma WrittenBeforeGrows(batches: seq<Batch>, more: seq<Batch>, n: nat, life: nat)
    requires batches <= more && WrittenBefore(batches, n, life)
    ensures WrittenBefore(more, n, life)
  {
  }

  predicate Settled(row: Option<Row>) { row.None? || row.value.state == Delivered || row.value.state == Erased }

  /** Outbox rows and delete processes stay right when the history grows and the row only advances. */
  lemma DurableRows(c: Cell, d: Cell)
    requires OutboxInv(c) && MarkersInv(c) && c.log.lives <= d.log.lives
    requires forall key :: key in d.tables.outbox ==>
               (key in c.tables.outbox && d.tables.outbox[key] == c.tables.outbox[key]) ||
               OutboxRowOk(d, key, d.tables.outbox[key])
    requires forall m :: m in d.procs.markers ==>
               (m in c.procs.markers && d.procs.markers[m] == c.procs.markers[m]) || MarkerOk(d, d.procs.markers[m])
    requires Current(c) < Current(d) || (Settled(c.row) ==> Settled(d.row))
    ensures OutboxInv(d) && MarkersInv(d)
  {
    forall key | key in d.tables.outbox
      ensures OutboxRowOk(d, key, d.tables.outbox[key])
    {
      assert key in c.tables.outbox ==> OutboxRowOk(c, key, c.tables.outbox[key]);
    }
    forall m | m in d.procs.markers
      ensures MarkerOk(d, d.procs.markers[m])
    {
      assert m in c.procs.markers ==> MarkerOk(c, c.procs.markers[m]);
    }
  }

  /** Only one worker moves; tables, batches, lives and markers stay. */
  predicate SameTables(c: Cell, d: Cell) {
    d.tables == c.tables && d.log.batches == c.log.batches && d.log.lives == c.log.lives &&
    d.log.erasures == c.log.erasures && d.sender == c.sender && d.procs.markers == c.procs.markers &&
    c.clock <= d.clock
  }

  /** The row keeps its delivery state, or is gone. */
  predicate SameOrGone(c: Cell, d: Cell) {
    d.row.Some? ==> c.row.Some? && d.row.value.state == c.row.value.state
  }

  lemma TablesFrame(c: Cell, d: Cell)
    requires DurableInv(c) && SameTables(c, d) && SameOrGone(c, d)
    ensures OutboxInv(d) && OutboxPresent(d) && MessagePresent(d) && MarkersInv(d)
  {
    DurableRows(c, d);
  }

  /** A worker moves without writing anything. */
  lemma QuietMove(c: Cell, w: ProcessId, worker: Worker)
    requires DurableInv(c) && (PastWrite(worker) ==> Written(c, worker.life))
    ensures DurableInv(SetWorker(c, w, worker))
  {
    TablesFrame(c, SetWorker(c, w, worker));
  }

  lemma InsertDurable(c: Cell, w: ProcessId, req: Request, proposed: Row)
    requires IdentityInv(c) && DurableInv(c) && proposed.state == Pending
    ensures DurableInv(ClaimInsert(c, w, req, proposed))
  {
    if c.row.Some? {
      QuietMove(c, w, Loading(req, proposed));
    } else {
      var d := ClaimInsert(c, w, req, proposed);
      forall i | 0 <= i < |c.log.batches|
        ensures c.log.batches[i].life < Current(d)
      {
        assert BatchOk(c, c.log.batches[i]);
      }
      DurableRows(c, d);
    }
  }

  lemma LoadDurable(c: Cell, w: ProcessId, req: Request, proposed: Row)
    requires DurableInv(c)
    ensures DurableInv(ClaimLoad(c, w, req, proposed))
  {
    QuietMove(c, w, ClaimLoad(c, w, req, proposed).procs.workers[w]);
  }

  lemma TakeoverDurable(c: Cell, w: ProcessId, req: Request, proposed: Row, record: Row, life: nat)
    requires DurableInv(c)
    ensures DurableInv(ClaimTakeover(c, w, req, proposed, record, life))
  {
    TablesFrame(c, ClaimTakeover(c, w, req, proposed, record, life));
  }

  /** Writing a batch of some life, late or not, keeps every promise about the current life. */
  lemma WriteDurable(c: Cell, w: ProcessId, req: Request, record: Row, life: nat)
    requires IdentityInv(c) && DurableInv(c) && Holds(c, req, record, life)
    ensures DurableInv(WriteBatch(c, w, req, record, life))
  {
    if StoredExpiry(req, record.expiresAt).Some? && record.expiresAt <= c.clock {
      QuietMove(c, w, Finished(req, Failed, life));
    } else {
      BatchIsOfLife(c, req, record, life);
      var d, batch := WriteBatch(c, w, req, record, life), BatchOf(c.sender, req, record, life);
      assert d.log.batches[|c.log.batches|] == batch;
      WriteWriters(c, d, w, batch);
      WriteTables(c, d, batch);
      DurableRows(c, d);
    }
  }

  lemma WriteWriters(c: Cell, d: Cell, w: ProcessId, batch: Batch)
    requires WritersInv(c) && d.log.batches == c.log.batches + [batch] && d.log.lives == c.log.lives
    requires d.log.commits == c.log.commits && d.row == c.row
    requires w in d.procs.workers && d.procs.workers == c.procs.workers[w := d.procs.workers[w]]
    requires PastWrite(d.procs.workers[w]) ==> d.procs.workers[w].life == batch.life
    ensures WritersInv(d)
  {
    assert d.log.batches[|c.log.batches|] == batch;
    forall v | v in d.procs.workers && PastWrite(d.procs.workers[v])
      ensures Written(d, d.procs.workers[v].life)
    {
      if v != w {
        WrittenGrows(c, d, c.procs.workers[v].life);
      }
    }
    if c.row.Some? && (c.row.value.state == Stored || c.row.value.state == Delivered) {
      WrittenGrows(c, d, Current(c));
    }
    forall i | 0 <= i < |d.log.commits|
      ensures WrittenBefore(d.log.batches, d.log.commits[i].batchesBefore, d.log.commits[i].life)
    {
      WrittenBeforeGrows(c.log.batches, d.log.batches, c.log.commits[i].batchesBefore, c.log.commits[i].life);
    }
  }

  lemma WriteTables(c: Cell, d: Cell, batch: Batch)
    requires DurableInv(c) && BatchOk(c, batch) && d.log.batches == c.log.batches + [batch]
    requires d.log.lives == c.log.lives && d.log.erasures == c.log.erasures && d.row == c.row && d.clock == c.clock
    requires d.sender == c.sender
    requires batch.outboxKey in d.tables.outbox && OutboxRowOk(c, batch.outboxKey, d.tables.outbox[batch.outboxKey])
    requires d.tables.outbox == c.tables.outbox[batch.outboxKey := d.tables.outbox[batch.outboxKey]]
    requires d.tables.messages == c.tables.messages[batch.messageKey := batch.message]
    ensures OutboxPresent(d) && MessagePresent(d)
  {
    if Live(d) && batch.life != Current(c) {
      var i :| 0 <= i < |d.log.batches| && d.log.batches[i].life == Current(c);
      assert c.log.batches[i].life == Current(c);
      assert Live(c);
      assert LifeAt(c, batch.life).createdAt != LifeAt(c, Current(c)).createdAt;
    }
  }

  lemma MarkStoredDurable(c: Cell, w: ProcessId, req: Request, record: Row, life: nat)
    requires IdentityInv(c) && DurableInv(c) && Holds(c, req, record, life) && Written(c, life)
    ensures DurableInv(MarkStoredCas(c, w, req, record, life))
  {
    if OwnedBy(c.row, record.owner, record.leaseUntil) {
      var d := MarkStoredCas(c, w, req, record, life);
      assert life == Current(c);
      DurableRows(c, d);
    } else {
      QuietMove(c, w, Finished(req, LeaseLost, life));
    }
  }

  lemma WorkerDurable(c: Cell, w: ProcessId)
    requires IdentityInv(c) && DurableInv(c)
    ensures DurableInv(WorkerStep(c, w))
  {
    if w in c.procs.workers {
      assert WorkerOk(c, c.procs.workers[w]);
      match c.procs.workers[w]
      case Claiming(req, proposed) => InsertDurable(c, w, req, proposed);
      case Loading(req, proposed) => LoadDurable(c, w, req, proposed);
      case TakingOver(req, proposed, record, life) => TakeoverDurable(c, w, req, proposed, record, life);
      case Reloading(req, life) => QuietMove(c, w, ClaimReload(c, w, req, life).procs.workers[w]);
      case Writing(req, record, life) => WriteDurable(c, w, req, record, life);
      case Wrote(req, record, life) => QuietMove(c, w, Marking(req, record, life, c.clock));
      case Marking(req, record, life, now) =>
        QuietMove(c, w, MarkStoredLoad(c, w, req, record, life, now).procs.workers[w]);
      case MarkingCas(req, record, life) => MarkStoredDurable(c, w, req, record, life);
      case Finished(_, _, _) =>
    }
  }

  lemma ReplyDurable(c: Cell, w: ProcessId)
    requires DurableInv(c)
    ensures DurableInv(Reply(c, w))
  {
    TablesFrame(c, Reply(c, w));
  }

  lemma MoveMarker(c: Cell, d: ProcessId, marker: Marker)
    requires DurableInv(c) && MarkerOk(c, marker)
    ensures DurableInv(SetMarker(c, d, marker))
  {
    var e := SetMarker(c, d, marker);
    DurableRows(c, e);
  }

  lemma DeliverRow(c: Cell, log: Log)
    requires DurableInv(c) && c.row.Some? && c.row.value.state == Stored
    requires log.lives == c.log.lives && log.batches == c.log.batches && log.commits == c.log.commits
    requires log.erasures == c.log.erasures
    ensures DurableInv(c.(row := Some(c.row.value.(state := Delivered)), log := log))
  {
    var d := c.(row := Some(c.row.value.(state := Delivered)), log := log);
    DurableRows(c, d);
  }

  lemma MarkDeliveredDurable(c: Cell, d: ProcessId, receipt: nat, record: Row, life: nat)
    requires RowInv(c) && DurableInv(c) && MarkerOk(c, MarkCas(receipt, record, life))
    ensures DurableInv(MarkDeliveredCas(c, d, receipt, record, life))
  {
    if c.row.None? || c.row.value.state != Stored || c.row.value.messageId != record.messageId {
      MoveMarker(c, d, MarkDone(false));
    } else {
      var log := c.log.(moves := c.log.moves.(deliveries := c.log.moves.deliveries + [(Current(c), receipt)]));
      DeliverRow(c, log);
      MoveMarker(c.(row := Some(c.row.value.(state := Delivered)), log := log), d,
                 MarkDelete(OutboxKey(record.kind, record.createdAt), life));
    }
  }

  /** Removing an outbox row that no promise mentions. */
  lemma DeleteDurable(c: Cell, key: OutboxKey, erasures: Erasures)
    requires RowInv(c) && DurableInv(c)
    requires c.log.erasures.outbox <= erasures.outbox && c.log.erasures.messages <= erasures.messages
    requires key in erasures.outbox || !Live(c) || OutboxKeyOf(LifeAt(c, Current(c))) != key ||
             c.row.value.state == Delivered || c.row.value.state == Erased
    ensures DurableInv(DeleteOutbox(c, key).(log := c.log.(erasures := erasures)))
  {
    var d := DeleteOutbox(c, key).(log := c.log.(erasures := erasures));
    DurableRows(c, d);
    assert Live(d) <==> Live(c);
  }

  /** deleteOutbox never removes the row of a life that is still pending or stored. */
  lemma MarkerDeleteDurable(c: Cell, d: ProcessId, key: OutboxKey, life: nat)
    requires RowInv(c) && DurableInv(c) && MarkerOk(c, MarkDelete(key, life))
    ensures DurableInv(SetMarker(DeleteOutbox(c, key), d, MarkDone(true)))
  {
    if Live(c) && life < Current(c) {
      assert LifeAt(c, life).createdAt != LifeAt(c, Current(c)).createdAt;
    }
    DeleteDurable(c, key, c.log.erasures);
    assert DeleteOutbox(c, key).(log := c.log.(erasures := c.log.erasures)) == DeleteOutbox(c, key);
    MoveMarker(DeleteOutbox(c, key), d, MarkDone(true));
  }

  lemma MarkerDurable(c: Cell, d: ProcessId)
    requires RowInv(c) && DurableInv(c)
    ensures DurableInv(MarkerNext(c, d))
  {
    if d in c.procs.markers {
      assert MarkerOk(c, c.procs.markers[d]);
      match c.procs.markers[d]
      case MarkLoading(receipt, now) => MoveMarker(c, d, MarkDeliveredLoad(c, d, receipt, now).procs.markers[d]);
      case MarkCas(receipt, record, life) => MarkDeliveredDurable(c, d, receipt, record, life);
      case MarkDelete(key, life) => MarkerDeleteDurable(c, d, key, life);
      case MarkDone(_) =>
    }
  }

  lemma SanitizerTables(c: Cell, z: ProcessId)
    ensures
      var d := SanitizerNext(c, z);
      SameTables(c, d) && d.procs.workers == c.procs.workers && d.log.commits == c.log.commits &&
      (d.row.Some? ==> c.row.Some? && (d.row.value.state == c.row.value.state || d.row.value.state == Erased))
  {
  }

  lemma SanitizerDurable(c: Cell, z: ProcessId)
    requires DurableInv(c)
    ensures DurableInv(SanitizerNext(c, z))
  {
    SanitizerTables(c, z);
    var d := SanitizerNext(c, z);
    DurableRows(c, d);
  }

  lemma MessageGone(c: Cell, key: MessageKey, erasures: Erasures)
    requires DurableInv(c)
    requires c.log.erasures.outbox <= erasures.outbox && c.log.erasures.messages <= erasures.messages
    requires key in erasures.messages || !Live(c) || MessageKeyOf(LifeAt(c, Current(c))) != key ||
             MessageKeyOf(LifeAt(c, Current(c))) in c.log.erasures.messages
    ensures
      DurableInv(c.(tables := c.tables.(messages := c.tables.messages - {key}), log := c.log.(erasures := erasures)))
  {
    var d := c.(tables := c.tables.(messages := c.tables.messages - {key}), log := c.log.(erasures := erasures));
    DurableRows(c, d);
    assert Live(d) <==> Live(c);
  }

  lemma ExpireMessageDurable(c: Cell, key: MessageKey)
    requires DurableInv(c)
    ensures DurableInv(Disappear(c, ExpireMessage(key)))
  {
    var d := Disappear(c, ExpireMessage(key));
    if d.tables == c.tables {
      assert d == c;
    } else {
      MessageGone(c, key, c.log.erasures);
      assert c.(tables := c.tables.(messages := c.tables.messages - {key}), log := c.log.(erasures := c.log.erasures)) == d;
    }
  }

  lemma ExpireOutboxDurable(c: Cell, key: OutboxKey)
    requires RowInv(c) && DurableInv(c)
    ensures DurableInv(Disappear(c, ExpireOutbox(key)))
  {
    if key in c.tables.outbox && Due(c.tables.outbox[key].expiresAt, c.clock) {
      assert OutboxRowOk(c, key, c.tables.outbox[key]);
      var life := c.tables.outbox[key].life;
      if Live(c) && life < Current(c) {
        assert LifeAt(c, life).createdAt != LifeAt(c, Current(c)).createdAt;
      }
      DeleteDurable(c, key, c.log.erasures);
      assert DeleteOutbox(c, key).(log := c.log.(erasures := c.log.erasures)) == DeleteOutbox(c, key);
    }
  }

  lemma DisappearDurable(c: Cell, e: Event)
    requires RowInv(c) && DurableInv(c)
    ensures DurableInv(Disappear(c, e))
  {
    match e
    case EraseMessage(key) =>
      MessageGone(c, key, c.log.erasures.(messages := c.log.erasures.messages + {key}));
    case EraseOutbox(key) => DeleteDurable(c, key, c.log.erasures.(outbox := c.log.erasures.outbox + {key}));
    case ExpireMessage(key) => ExpireMessageDurable(c, key);
    case ExpireOutbox(key) => ExpireOutboxDurable(c, key);
    case ExpireRow => TablesFrame(c, Disappear(c, e));
    case _ =>
  }

  /** Clock, queue and wipe-start events touch neither rows nor batches. */
  predicate Quiet(e: Event) {
    e.Tick? || e.Publish? || e.Drain? || e.Deliver? || e.GatewayStep? || e.Wipe?
  }

  lemma QuietTables(c: Cell, e: Event)
    requires Quiet(e)
    ensures
      var d := Next(c, e);
      SameTables(c, d) && d.row == c.row && d.procs.workers == c.procs.workers && d.log.commits == c.log.commits
  {
  }

  lemma StepDurable(c: Cell, e: Event)
    requires IdentityInv(c) && DurableInv(c)
    ensures DurableInv(Next(c, e))
  {
    match e
    case Start(w, req) => BeginDurable(c, w, req);
    case Step(w) =>
      WorkerDurable(c, w);
      ReplyDurable(WorkerStep(c, w), w);
    case StepLost(w) =>
      WorkerDurable(c, w);
      if Running(c, w) {
        QuietMove(WorkerStep(c, w), w, Finished(c.procs.workers[w].req, Failed, 0));
      }
    case MarkerStep(d) => MarkerDurable(c, d);
    case Receipt(d, receipt) => MoveMarker(c, d, MarkLoading(receipt, c.clock));
    case SanitizerStep(z) => SanitizerDurable(c, z);
    case _ =>
      if Quiet(e) {
        QuietTables(c, e);
        TablesFrame(c, Next(c, e));
      } else {
        DisappearDurable(c, e);
      }
  }

  lemma BeginDurable(c: Cell, w: ProcessId, req: Request)
    requires DurableInv(c)
    ensures DurableInv(Begin(c, w, req))
  {
    TablesFrame(c, Begin(c, w, req));
  }

  lemma {:induction false} RunDurable(c: Cell, events: seq<Event>)
    requires IdentityInv(c) && DurableInv(c)
    ensures IdentityInv(Run(c, events)) && DurableInv(Run(c, events))
    decreases |events|
  {
    if events != [] {
      StepDurable(c, events[0]);
      StepIdentity(c, events[0]);
      RunDurable(Next(c, events[0]), events[1..]);
    }
  }

  lemma ReachableDurable(c: Cell)
    requires Reachable(c)
    ensures IdentityInv(c) && DurableInv(c)
  {
    var sender, messageId, lease, clock, events :| c == Run(Initial(sender, messageId, lease, clock), events);
    RunDurable(Initial(sender, messageId, lease, clock), events);
  }

  /** Before any "committed" answer, the message and outbox batch of its life was executed. */
  lemma AcknowledgedMeansWritten(c: Cell, i: nat)
    requires Reachable(c) && i < |c.log.commits|
    ensures exists j :: 0 <= j < c.log.commits[i].batchesBefore && j < |c.log.batches| &&
              c.log.batches[j].life == c.log.commits[i].life && BatchOk(c, c.log.batches[j])
  {
    ReachableDurable(c);
    assert WrittenBefore(c.log.batches, c.log.commits[i].batchesBefore, c.log.commits[i].life);
    var j :| 0 <= j < c.log.commits[i].batchesBefore && j < |c.log.batches| && c.log.batches[j].life == c.log.commits[i].life;
    assert BatchOk(c, c.log.batches[j]);
  }

  /** A stored, unexpired row has its outbox and message rows, unless a wipe removed them. */
  lemma StoredStaysReplayable(c: Cell)
    requires Reachable(c) && c.row.Some? && c.row.value.state == Stored && c.clock < c.row.value.expiresAt && FreshTime(c)
    ensures IsLife(c, Current(c))
    ensures
      var life := LifeAt(c, Current(c));
      (OutboxKeyOf(life) !in c.log.erasures.outbox ==>
         OutboxKeyOf(life) in c.tables.outbox && c.tables.outbox[OutboxKeyOf(life)].envelope == Some(life.envelope)) &&
      (MessageKeyOf(life) !in c.log.erasures.messages ==>
         MessageKeyOf(life) in c.tables.messages &&
         c.tables.messages[MessageKeyOf(life)] == MessageOf(c.sender, life))
  {
    ReachableDurable(c);
    assert Live(c);
    var key := OutboxKeyOf(LifeAt(c, Current(c)));
    if key in c.tables.outbox {
      assert OutboxRowOk(c, key, c.tables.outbox[key]);
      var life := c.tables.outbox[key].life;
      assert LifeAt(c, life) == c.log.lives[life - 1] && life == Current(c);
    }
  }
}
