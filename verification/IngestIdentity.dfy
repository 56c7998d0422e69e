/**
 One life, one message: whatever workers, takeovers, lost replies, wipes and expiries do, everything
 reported or written for one life of an ingest row carries the identity its first claim fixed.
 */
module IngestIdentity {
  import opened Options
  import opened IngestTypes
  import opened Ingest

  /** The row still carries what its life's first claim fixed, or has been erased. */
  predicate RowOf(row: Row, life: Life) {
    row.kind == life.kind && row.group == life.group && row.epoch == life.epoch && row.messageId == life.messageId &&
    row.createdAt == life.createdAt && row.expiresAt == life.expiresAt &&
    if row.state == Erased then
      row.hash == None && row.envelope == None && row.recipients == [] && row.sanitized && row.receiver == 0 &&
      row.conversation == ""
    else
      row.receiver == life.receiver && row.conversation == life.conversation &&
      row.envelope == Some(life.envelope) && row.hash == Some(Sha256(life.envelope))
  }

  /** The request asks for exactly the message this life stands for (its recipient list aside). */
  predicate Answers(req: Request, life: Life) {
    KindOf(req) == life.kind && req.envelope == life.envelope &&
    match req
    case DirectRequest(receiver, conversation, _) => receiver == life.receiver && conversation == life.conversation
    case GroupRequest(group, epoch, _, _) => group == life.group && epoch == life.epoch
  }

  predicate IsLife(c: Cell, life: nat) { 1 <= life <= Current(c) }

  function LifeAt(c: Cell, life: nat): Life
    requires IsLife(c, life)
  {
    c.log.lives[life - 1]
  }

  /** The expiry of the rows a life writes: none for a group message whose sender asked for none. */
  function ExpiryOf(life: Life): Option<Time> {
    if life.kind == Group && life.envelope.expiresIn == 0 then None else Some(life.expiresAt)
  }

  /** The message row and keys of a life, whoever writes them. */
  function MessageOf(sender: Uin, life: Life): Message {
    Message(sender, if life.kind == Direct then life.receiver else 0, if life.kind == Direct then 0 else life.epoch,
            life.envelope.ciphertext, life.envelope.msgType, ExpiryOf(life))
  }

  function MessageKeyOf(life: Life): MessageKey {
    MessageKey(life.kind, if life.kind == Direct then life.conversation else life.group, life.createdAt)
  }

  function OutboxKeyOf(life: Life): OutboxKey { OutboxKey(life.kind, life.createdAt) }

  /** A record a worker obtained by a claim in this life. */
  predicate Holds(c: Cell, req: Request, record: Row, life: nat) {
    IsLife(c, life) && RowOf(record, LifeAt(c, life)) && record.state == Pending && Answers(req, LifeAt(c, life)) &&
    record.owner in c.log.owners && c.log.owners[record.owner] == life &&
    (!record.sanitized && req.GroupRequest? ==> req.recipients == record.recipients)
  }

  predicate HoldsNewToken(worker: Worker) { worker.Claiming? || worker.Loading? || worker.TakingOver? }

  predicate FreshProposal(c: Cell, req: Request, proposed: Row) {
    ValidRequest(c.sender, req) &&
    proposed == Proposed(c.messageId, req, proposed.createdAt, c.lease, proposed.owner) &&
    proposed.owner < c.nextToken && proposed.owner !in c.log.owners
  }

  predicate WorkerOk(c: Cell, worker: Worker) {
    match worker
    case Claiming(req, proposed) => FreshProposal(c, req, proposed)
    case Loading(req, proposed) => FreshProposal(c, req, proposed)
    case TakingOver(req, proposed, record, life) => FreshProposal(c, req, proposed) && Holds(c, req, record, life)
    case Reloading(_, _) => true
    case Writing(req, record, life) => Holds(c, req, record, life)
    case Wrote(req, record, life) => Holds(c, req, record, life)
    case Marking(req, record, life, _) => Holds(c, req, record, life)
    case MarkingCas(req, record, life) => Holds(c, req, record, life)
    case Finished(req, outcome, life) =>
      outcome.Committed? ==>
        IsLife(c, life) && Answers(req, LifeAt(c, life)) && outcome.messageId == LifeAt(c, life).messageId &&
        outcome.createdAt == LifeAt(c, life).createdAt
  }

  ghost predicate RowInv(c: Cell) {
    c.row.Some? ==>
      IsLife(c, Current(c)) && RowOf(c.row.value, LifeAt(c, Current(c))) &&
      c.row.value.owner in c.log.owners && c.log.owners[c.row.value.owner] == Current(c)
  }

  ghost predicate TokenInv(c: Cell) {
    (forall t :: t in c.log.owners ==> t < c.nextToken && IsLife(c, c.log.owners[t])) &&
    forall v, w :: v in c.procs.workers && w in c.procs.workers && v != w && HoldsNewToken(c.procs.workers[v]) && HoldsNewToken(c.procs.workers[w])
      ==> c.procs.workers[v].proposed.owner != c.procs.workers[w].proposed.owner
  }

  ghost predicate WorkersInv(c: Cell) {
    forall w :: w in c.procs.workers ==> WorkerOk(c, c.procs.workers[w])
  }

  ghost predicate HistoryInv(c: Cell) {
    (forall i :: 0 <= i < |c.log.lives| ==> c.log.lives[i].messageId == c.messageId) &&
    (forall i :: 0 <= i < |c.log.batches| ==> BatchOk(c, c.log.batches[i])) &&
    (forall i :: 0 <= i < |c.log.commits| ==> CommitOk(c, c.log.commits[i]))
  }

  predicate BatchOk(c: Cell, batch: Batch) {
    IsLife(c, batch.life) && batch.messageKey == MessageKeyOf(LifeAt(c, batch.life)) &&
    batch.message == MessageOf(c.sender, LifeAt(c, batch.life)) && batch.outboxKey == OutboxKeyOf(LifeAt(c, batch.life))
  }

  predicate CommitOk(c: Cell, commit: Commit) {
    IsLife(c, commit.life) && commit.messageId == LifeAt(c, commit.life).messageId &&
    commit.createdAt == LifeAt(c, commit.life).createdAt && commit.hash == Sha256(LifeAt(c, commit.life).envelope)
  }

  ghost predicate IdentityInv(c: Cell) {
    RowInv(c) && TokenInv(c) && WorkersInv(c) && HistoryInv(c)
  }

  /** History only grows; the constants of the cell stay. */
  ghost predicate Grows(c: Cell, d: Cell) {
    c.sender == d.sender && c.messageId == d.messageId && c.lease == d.lease && c.nextToken <= d.nextToken &&
    c.log.lives <= d.log.lives &&
    forall t :: t in c.log.owners ==> t in d.log.owners && d.log.owners[t] == c.log.owners[t]
  }

  lemma WorkerOkGrows(c: Cell, d: Cell, worker: Worker)
    requires Grows(c, d) && WorkerOk(c, worker)
    requires HoldsNewToken(worker) ==> worker.proposed.owner !in d.log.owners
    ensures WorkerOk(d, worker)
  {
  }

  /** One worker moved, writing at most the token it alone held. */
  lemma OneWorkerMoves(c: Cell, d: Cell, w: ProcessId, worker: Worker)
    requires WorkersInv(c) && TokenInv(c) && Grows(c, d)
    requires d.procs.workers == c.procs.workers[w := worker] && WorkerOk(d, worker)
    requires forall t :: t in d.log.owners && t !in c.log.owners ==>
               w in c.procs.workers && HoldsNewToken(c.procs.workers[w]) && t == c.procs.workers[w].proposed.owner &&
               IsLife(d, d.log.owners[t])
    requires HoldsNewToken(worker) ==>
               if w in c.procs.workers && HoldsNewToken(c.procs.workers[w]) then worker.proposed.owner == c.procs.workers[w].proposed.owner
               else worker.proposed.owner == c.nextToken
    ensures WorkersInv(d) && TokenInv(d)
  {
    forall v | v in d.procs.workers
      ensures WorkerOk(d, d.procs.workers[v])
    {
      if v != w {
        WorkerOkGrows(c, d, c.procs.workers[v]);
      }
    }
  }

  /** History entries stay right as the history grows. */
  lemma HistoryGrows(c: Cell, d: Cell)
    requires HistoryInv(c) && Grows(c, d)
    requires forall i :: |c.log.lives| <= i < |d.log.lives| ==> d.log.lives[i].messageId == d.messageId
    requires c.log.batches <= d.log.batches && c.log.commits <= d.log.commits
    requires forall i :: |c.log.batches| <= i < |d.log.batches| ==> BatchOk(d, d.log.batches[i])
    requires forall i :: |c.log.commits| <= i < |d.log.commits| ==> CommitOk(d, d.log.commits[i])
    ensures HistoryInv(d)
  {
    forall i | 0 <= i < |d.log.batches|
      ensures BatchOk(d, d.log.batches[i])
    {
      assert i < |c.log.batches| ==> BatchOk(c, c.log.batches[i]);
    }
    forall i | 0 <= i < |d.log.commits|
      ensures CommitOk(d, d.log.commits[i])
    {
      assert i < |c.log.commits| ==> CommitOk(c, c.log.commits[i]);
    }
  }

  /** A worker ends or moves on without writing to the row or the history. */
  lemma LocalMove(c: Cell, w: ProcessId, worker: Worker)
    requires IdentityInv(c) && WorkerOk(c, worker)
    requires HoldsNewToken(worker) ==>
               w in c.procs.workers && HoldsNewToken(c.procs.workers[w]) && worker.proposed.owner == c.procs.workers[w].proposed.owner
    ensures IdentityInv(SetWorker(c, w, worker))
  {
    var d := SetWorker(c, w, worker);
    WorkerOkGrows(c, d, worker);
    OneWorkerMoves(c, d, w, worker);
    HistoryGrows(c, d);
  }

  lemma ReplyIdentity(c: Cell, w: ProcessId)
    requires IdentityInv(c)
    ensures IdentityInv(Reply(c, w))
  {
    var d := Reply(c, w);
    HistoryGrows(c, d);
    if w in c.procs.workers {
      OneWorkerMoves(c, d, w, c.procs.workers[w]);
    }
  }

  lemma ClaimInsertIdentity(c: Cell, w: ProcessId, req: Request, proposed: Row)
    requires IdentityInv(c) && w in c.procs.workers && c.procs.workers[w] == Claiming(req, proposed)
    ensures IdentityInv(ClaimInsert(c, w, req, proposed))
  {
    if c.row.Some? {
      LocalMove(c, w, Loading(req, proposed));
    } else {
      var d := ClaimInsert(c, w, req, proposed);
      OneWorkerMoves(c, d, w, d.procs.workers[w]);
      HistoryGrows(c, d);
    }
  }

  /** A loaded row this worker may act on answers the worker's own request. */
  lemma LoadedRowAnswers(c: Cell, req: Request, proposed: Row)
    requires RowInv(c) && FreshProposal(c, req, proposed) && c.row.Some?
    requires c.row.value.hash.Some? && c.row.value.state != Erased && SameMessage(c.row.value, proposed)
    ensures IsLife(c, Current(c)) && Answers(req, LifeAt(c, Current(c)))
    ensures !c.row.value.sanitized && req.GroupRequest? ==> req.recipients == c.row.value.recipients
  {
  }

  lemma ClaimLoadIdentity(c: Cell, w: ProcessId, req: Request, proposed: Row)
    requires IdentityInv(c) && w in c.procs.workers && c.procs.workers[w] == Loading(req, proposed)
    ensures IdentityInv(ClaimLoad(c, w, req, proposed))
  {
    if c.row.Some? {
      var decision := Decide(c.row.value, proposed, proposed.createdAt);
      if decision.TakeOver? || decision.outcome.Committed? {
        LoadedRowAnswers(c, req, proposed);
      }
    }
    LocalMove(c, w, ClaimLoad(c, w, req, proposed).procs.workers[w]);
  }

  lemma ClaimTakeoverIdentity(c: Cell, w: ProcessId, req: Request, proposed: Row, record: Row, life: nat)
    requires IdentityInv(c) && w in c.procs.workers && c.procs.workers[w] == TakingOver(req, proposed, record, life)
    ensures IdentityInv(ClaimTakeover(c, w, req, proposed, record, life))
  {
    if OwnedBy(c.row, record.owner, record.leaseUntil) {
      var d := ClaimTakeover(c, w, req, proposed, record, life);
      OneWorkerMoves(c, d, w, d.procs.workers[w]);
      HistoryGrows(c, d);
    } else {
      LocalMove(c, w, Reloading(req, life));
    }
  }

  /** Every owner's batch is the one batch of its life. */
  lemma BatchIsOfLife(c: Cell, req: Request, record: Row, life: nat)
    requires Holds(c, req, record, life)
    ensures BatchOk(c, BatchOf(c.sender, req, record, life))
  {
  }

  lemma WriteBatchIdentity(c: Cell, w: ProcessId, req: Request, record: Row, life: nat)
    requires IdentityInv(c) && w in c.procs.workers && c.procs.workers[w] == Writing(req, record, life)
    ensures IdentityInv(WriteBatch(c, w, req, record, life))
  {
    if StoredExpiry(req, record.expiresAt).Some? && record.expiresAt <= c.clock {
      LocalMove(c, w, Finished(req, Failed, life));
    } else {
      var d := WriteBatch(c, w, req, record, life);
      BatchIsOfLife(c, req, record, life);
      OneWorkerMoves(c, d, w, Wrote(req, record, life));
      HistoryGrows(c, d);
    }
  }

  lemma MarkStoredLoadIdentity(c: Cell, w: ProcessId, req: Request, record: Row, life: nat, now: Time)
    requires IdentityInv(c) && w in c.procs.workers && c.procs.workers[w] == Marking(req, record, life, now)
    ensures IdentityInv(MarkStoredLoad(c, w, req, record, life, now))
  {
    LocalMove(c, w, MarkStoredLoad(c, w, req, record, life, now).procs.workers[w]);
  }

  lemma MarkStoredCasIdentity(c: Cell, w: ProcessId, req: Request, record: Row, life: nat)
    requires IdentityInv(c) && w in c.procs.workers && c.procs.workers[w] == MarkingCas(req, record, life)
    ensures IdentityInv(MarkStoredCas(c, w, req, record, life))
  {
    if OwnedBy(c.row, record.owner, record.leaseUntil) {
      var d := c.(row := Some(c.row.value.(state := Stored)), log := c.log.(moves := c.log.moves.(stores := c.log.moves.stores + [life])));
      SameWorkers(c, d);
      LocalMove(d, w, Finished(req, Committed(record.messageId, record.createdAt, Stored), life));
    } else {
      LocalMove(c, w, Finished(req, LeaseLost, life));
    }
  }

  /** A step of one worker keeps the invariant. */
  lemma WorkerIdentity(c: Cell, w: ProcessId)
    requires IdentityInv(c)
    ensures IdentityInv(WorkerStep(c, w))
  {
    if w in c.procs.workers {
      match c.procs.workers[w]
      case Claiming(req, proposed) => ClaimInsertIdentity(c, w, req, proposed);
      case Loading(req, proposed) => ClaimLoadIdentity(c, w, req, proposed);
      case TakingOver(req, proposed, record, life) => ClaimTakeoverIdentity(c, w, req, proposed, record, life);
      case Reloading(req, life) => LocalMove(c, w, ClaimReload(c, w, req, life).procs.workers[w]);
      case Writing(req, record, life) => WriteBatchIdentity(c, w, req, record, life);
      case Wrote(req, record, life) => LocalMove(c, w, Marking(req, record, life, c.clock));
      case Marking(req, record, life, now) => MarkStoredLoadIdentity(c, w, req, record, life, now);
      case MarkingCas(req, record, life) => MarkStoredCasIdentity(c, w, req, record, life);
      case Finished(_, _, _) =>
    }
  }

  /** A lost reply leaves the worker with an error and reports nothing. */
  lemma LostReplyIdentity(c: Cell, w: ProcessId)
    requires IdentityInv(c)
    ensures IdentityInv(WorkerStepLost(c, w))
  {
    if Running(c, w) {
      WorkerIdentity(c, w);
      LocalMove(WorkerStep(c, w), w, Finished(c.procs.workers[w].req, Failed, 0));
    }
  }

  lemma BeginIdentity(c: Cell, w: ProcessId, req: Request)
    requires IdentityInv(c)
    ensures IdentityInv(Begin(c, w, req))
  {
    if w !in c.procs.workers {
      var d := Begin(c, w, req);
      HistoryGrows(c, d);
      if ValidRequest(c.sender, req) {
        OneWorkerMoves(c, d, w, Claiming(req, Proposed(c.messageId, req, c.clock, c.lease, c.nextToken)));
      } else {
        OneWorkerMoves(c, d, w, Finished(req, Invalid, 0));
      }
    }
  }

  /** The identity part of two cells is the same, their rows aside. */
  predicate SameCore(c: Cell, d: Cell) {
    d.procs.workers == c.procs.workers && d.nextToken == c.nextToken && d.sender == c.sender && d.messageId == c.messageId &&
    d.lease == c.lease && d.log.lives == c.log.lives && d.log.owners == c.log.owners &&
    d.log.batches == c.log.batches && d.log.commits == c.log.commits
  }

  lemma SameWorkers(c: Cell, d: Cell)
    requires IdentityInv(c) && RowInv(d) && SameCore(c, d)
    ensures IdentityInv(d)
  {
    forall w | w in d.procs.workers
      ensures WorkerOk(d, d.procs.workers[w])
    {
      WorkerOkGrows(c, d, c.procs.workers[w]);
    }
    HistoryGrows(c, d);
  }

  lemma MarkDeliveredCasIdentity(c: Cell, d: ProcessId, receipt: nat, record: Row, life: nat)
    requires IdentityInv(c)
    ensures IdentityInv(MarkDeliveredCas(c, d, receipt, record, life))
  {
    SameWorkers(c, MarkDeliveredCas(c, d, receipt, record, life));
  }

  lemma MarkDeliveredLoadIdentity(c: Cell, d: ProcessId, receipt: nat, now: Time)
    requires IdentityInv(c)
    ensures IdentityInv(MarkDeliveredLoad(c, d, receipt, now))
  {
    SameWorkers(c, MarkDeliveredLoad(c, d, receipt, now));
  }

  lemma MarkerIdentity(c: Cell, d: ProcessId)
    requires IdentityInv(c)
    ensures IdentityInv(MarkerNext(c, d))
  {
    if d in c.procs.markers {
      match c.procs.markers[d]
      case MarkLoading(receipt, now) => MarkDeliveredLoadIdentity(c, d, receipt, now);
      case MarkCas(receipt, record, life) => MarkDeliveredCasIdentity(c, d, receipt, record, life);
      case MarkDelete(key, _) => SameWorkers(c, SetMarker(DeleteOutbox(c, key), d, MarkDone(true)));
      case MarkDone(_) =>
    }
  }

  lemma SanitizeDirectIdentity(c: Cell, z: ProcessId, uin: Uin, life: nat)
    requires IdentityInv(c)
    ensures IdentityInv(SanitizeDirect(c, z, uin, life))
  {
    SameWorkers(c, SanitizeDirect(c, z, uin, life));
  }

  lemma SanitizeGroupIdentity(c: Cell, z: ProcessId, uin: Uin, snapshot: Row)
    requires IdentityInv(c)
    ensures IdentityInv(SanitizeGroup(c, z, uin, snapshot))
  {
    SameWorkers(c, SanitizeGroup(c, z, uin, snapshot));
  }

  lemma SanitizeReadIdentity(c: Cell, z: ProcessId, uin: Uin)
    requires IdentityInv(c)
    ensures IdentityInv(SanitizeRead(c, z, uin))
  {
    SameWorkers(c, SanitizeRead(c, z, uin));
  }

  lemma SanitizerIdentity(c: Cell, z: ProcessId)
    requires IdentityInv(c)
    ensures IdentityInv(SanitizerNext(c, z))
  {
    if z in c.procs.sanitizers {
      match c.procs.sanitizers[z]
      case SanReading(uin) => SanitizeReadIdentity(c, z, uin);
      case SanWriting(uin, snapshot, life) =>
        SanitizeDirectIdentity(c, z, uin, life);
        SanitizeGroupIdentity(c, z, uin, snapshot);
      case SanDone(_) =>
    }
  }

  predicate OutsideRow(e: Event) {
    !e.Start? && !e.Step? && !e.StepLost? && !e.MarkerStep? && !e.SanitizerStep?
  }

  predicate DeliveryEvent(e: Event) {
    e.Publish? || e.Drain? || e.Deliver? || e.GatewayStep? || e.Receipt?
  }

  lemma GatewayCore(c: Cell, g: ProcessId)
    ensures SameCore(c, GatewayNext(c, g)) && GatewayNext(c, g).row == c.row
  {
  }

  lemma DeliveryCore(c: Cell, e: Event)
    requires DeliveryEvent(e)
    ensures SameCore(c, Next(c, e)) && Next(c, e).row == c.row
  {
    if e.GatewayStep? {
      GatewayCore(c, e.g);
    }
  }

  lemma OtherCore(c: Cell, e: Event)
    requires OutsideRow(e)
    ensures SameCore(c, Next(c, e)) && (Next(c, e).row == c.row || Next(c, e).row == None)
  {
    if DeliveryEvent(e) {
      DeliveryCore(c, e);
    }
  }

  /** Delivery, expiry and erasure of other tables leave row identity alone. */
  lemma OtherIdentity(c: Cell, e: Event)
    requires IdentityInv(c) && OutsideRow(e)
    ensures IdentityInv(Next(c, e))
  {
    OtherCore(c, e);
    SameWorkers(c, Next(c, e));
  }

  /** No step of any process breaks the invariant. */
  lemma StepIdentity(c: Cell, e: Event)
    requires IdentityInv(c)
    ensures IdentityInv(Next(c, e))
  {
    match e
    case Step(w) =>
      WorkerIdentity(c, w);
      ReplyIdentity(WorkerStep(c, w), w);
    case StepLost(w) => LostReplyIdentity(c, w);
    case Start(w, req) => BeginIdentity(c, w, req);
    case MarkerStep(d) => MarkerIdentity(c, d);
    case SanitizerStep(z) => SanitizerIdentity(c, z);
    case _ => OtherIdentity(c, e);
  }

  lemma {:induction false} RunIdentity(c: Cell, events: seq<Event>)
    requires IdentityInv(c)
    ensures IdentityInv(Run(c, events))
    decreases |events|
  {
    if events != [] {
      StepIdentity(c, events[0]);
      RunIdentity(Next(c, events[0]), events[1..]);
    }
  }

  lemma ReachableIdentity(c: Cell)
    requires Reachable(c)
    ensures IdentityInv(c)
  {
    var sender, messageId, lease, clock, events :| c == Run(Initial(sender, messageId, lease, clock), events);
    RunIdentity(Initial(sender, messageId, lease, clock), events);
  }

  /** Every answer "committed" given in one life of the row names one message: same id, creation time and hash. */
  lemma CommitsAgree(c: Cell, i: nat, j: nat)
    requires Reachable(c) && i < |c.log.commits| && j < |c.log.commits|
    requires c.log.commits[i].life == c.log.commits[j].life
    ensures c.log.commits[i].messageId == c.log.commits[j].messageId == c.messageId
    ensures c.log.commits[i].createdAt == c.log.commits[j].createdAt
    ensures c.log.commits[i].hash == c.log.commits[j].hash
  {
    ReachableIdentity(c);
    assert CommitOk(c, c.log.commits[i]) && CommitOk(c, c.log.commits[j]);
  }

  /** Every owner's batch in one life lands on one message row and one outbox key, with one content. */
  lemma WritesCoincide(c: Cell, i: nat, j: nat)
    requires Reachable(c) && i < |c.log.batches| && j < |c.log.batches|
    requires c.log.batches[i].life == c.log.batches[j].life
    ensures c.log.batches[i] == c.log.batches[j]
  {
    ReachableIdentity(c);
    assert BatchOk(c, c.log.batches[i]) && BatchOk(c, c.log.batches[j]);
  }

  /** As written, the claim of an erased key fails while loading: the tombstone has no digest left. */
  lemma ErasedRetryFails(c: Cell, req: Request, now: Time, token: Token)
    requires Reachable(c) && c.row.Some? && c.row.value.state == Erased
    ensures Decide(c.row.value, Proposed(c.messageId, req, now, c.lease, token), now) == Answer(Failed)
  {
    ReachableIdentity(c);
  }

  /** So no run ever answers "recipient erased". */
  lemma NeverAnsweredErased(c: Cell, req: Request, now: Time, token: Token)
    requires Reachable(c) && c.row.Some?
    ensures Decide(c.row.value, Proposed(c.messageId, req, now, c.lease, token), now) != Answer(RecipientErased)
  {
    ReachableIdentity(c);
  }

  /** A replay is served from an unsanitized row only with the exact recipient list of the first claim's row. */
  lemma UnsanitizedRowNeedsExactList(c: Cell, w: ProcessId)
    requires Reachable(c) && w in c.procs.workers && c.procs.workers[w].Writing? && c.procs.workers[w].req.GroupRequest?
    requires !c.procs.workers[w].record.sanitized
    ensures c.procs.workers[w].req.recipients == c.procs.workers[w].record.recipients
  {
    ReachableIdentity(c);
    assert WorkerOk(c, c.procs.workers[w]);
  }
}
