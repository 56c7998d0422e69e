/**
 What each statement of the ingest does and when, in the fields of the row and of the request: the answers of a claim,
 takeovers, writes, marks, publications, receipts and expiry.
 */
module IngestEffects {
  import opened Options
  import opened IngestTypes
  import opened Ingest
  import opened IngestIdentity

  // Claims

  /** The row stands for the message of the request; the recipient list counts unless a wipe has shortened it. */
  predicate Agrees(row: Row, req: Request) {
    row.hash == Some(Sha256(req.envelope)) &&
    match req
    case DirectRequest(receiver, conversation, _) => row.kind == Direct && row.receiver == receiver && row.conversation == conversation
    case GroupRequest(group, epoch, recipients, _) =>
      row.kind == Group && row.group == group && row.epoch == epoch && (row.sanitized || row.recipients == recipients)
  }

  /** A direct row has no group fields, a group row no direct ones, and only a sanitized row may have lost recipients. */
  ghost predicate ShapeOk(c: Cell) {
    c.row.Some? ==>
      (c.row.value.kind == Direct ==> c.row.value.group == "" && c.row.value.epoch == 0 && c.row.value.recipients == []) &&
      (c.row.value.kind == Group ==> c.row.value.receiver == 0 && c.row.value.conversation == "")
  }

  ghost predicate LivesShaped(c: Cell) {
    forall i :: 0 <= i < |c.log.lives| ==>
      var life := c.log.lives[i];
      (life.kind == Direct ==> life.group == "" && life.epoch == 0) && (life.kind == Group ==> life.receiver == 0 && life.conversation == "")
  }

  lemma StepShaped(c: Cell, e: Event)
    requires LivesShaped(c)
    ensures LivesShaped(Next(c, e))
  {
    match e
    case Step(w) => WorkerMoves(c, w);
    case StepLost(w) => WorkerMoves(c, w);
    case _ =>
  }

  /** Only a claim brings recipients into the row. */
  ghost predicate DirectListEmpty(c: Cell) { c.row.Some? && c.row.value.kind == Direct ==> c.row.value.recipients == [] }

  ghost predicate ProposalsShaped(c: Cell) {
    forall w :: w in c.procs.workers && c.procs.workers[w].Claiming? && c.procs.workers[w].proposed.kind == Direct ==>
      c.procs.workers[w].proposed.recipients == []
  }

  lemma WorkerListEmpty(c: Cell, w: ProcessId)
    requires DirectListEmpty(c) && ProposalsShaped(c)
    ensures DirectListEmpty(WorkerStep(c, w)) && ProposalsShaped(WorkerStep(c, w))
  {
  }

  lemma OtherListEmpty(c: Cell, e: Event)
    requires DirectListEmpty(c) && (e.SanitizerStep? || e.MarkerStep?)
    ensures DirectListEmpty(Next(c, e)) && Next(c, e).procs.workers == c.procs.workers
  {
  }

  lemma StepListEmpty(c: Cell, e: Event)
    requires DirectListEmpty(c) && ProposalsShaped(c)
    ensures DirectListEmpty(Next(c, e)) && ProposalsShaped(Next(c, e))
  {
    match e
    case Step(w) => WorkerListEmpty(c, w);
    case StepLost(w) => WorkerListEmpty(c, w);
    case SanitizerStep(_) => OtherListEmpty(c, e);
    case MarkerStep(_) => OtherListEmpty(c, e);
    case _ =>
  }

  lemma {:induction false} RunShaped(c: Cell, events: seq<Event>)
    requires LivesShaped(c) && DirectListEmpty(c) && ProposalsShaped(c)
    ensures LivesShaped(Run(c, events)) && DirectListEmpty(Run(c, events))
    decreases |events|
  {
    if events != [] {
      StepShaped(c, events[0]);
      StepListEmpty(c, events[0]);
      RunShaped(Next(c, events[0]), events[1..]);
    }
  }

  lemma ReachableShape(c: Cell)
    requires Reachable(c)
    ensures ShapeOk(c) && IdentityInv(c)
  {
    ReachableIdentity(c);
    var sender, messageId, lease, clock, events :| c == Run(Initial(sender, messageId, lease, clock), events);
    RunShaped(Initial(sender, messageId, lease, clock), events);
  }

  /** What a claim that lost the insert ends in, by the row it loads: an error if the row is gone or erased, a conflict if a
      compared field differs, the recorded answer if the message is stored, a takeover if the row is pending and unexpired
      and its lease has run out when the claim began, and otherwise busy. */
  lemma LoadAnswers(c: Cell, w: ProcessId)
    requires Reachable(c) && w in c.procs.workers && c.procs.workers[w].Loading?
    ensures
      var req, now := c.procs.workers[w].req, c.procs.workers[w].proposed.createdAt;
      var after, d := Next(c, Step(w)).procs.workers[w], Next(c, Step(w));
      d.row == c.row && d.tables == c.tables &&
      (after == Finished(req, Failed, Current(c)) <==> c.row.None? || c.row.value.state == Erased) &&
      (c.row.Some? && c.row.value.state != Erased ==>
         var row := c.row.value;
         (after == Finished(req, Conflict, Current(c)) <==> !Agrees(row, req)) &&
         (after == Finished(req, Committed(row.messageId, row.createdAt, row.state), Current(c)) <==>
            Agrees(row, req) && (row.state == Stored || row.state == Delivered)) &&
         (after == TakingOver(req, c.procs.workers[w].proposed, row, Current(c)) <==>
            Agrees(row, req) && row.state == Pending && now < row.expiresAt && row.leaseUntil <= now) &&
         (after == Finished(req, Busy, Current(c)) <==>
            Agrees(row, req) && row.state == Pending && (row.expiresAt <= now || now < row.leaseUntil)))
  {
    ReachableShape(c);
    assert WorkerOk(c, c.procs.workers[w]);
  }

  /** A takeover changes owner and lease of the pending row it read, and nothing else; it applies exactly when neither has
      changed since, and otherwise the row is loaded once more. */
  lemma TakeoverAppliesExactlyWhen(c: Cell, w: ProcessId)
    requires w in c.procs.workers && c.procs.workers[w].TakingOver?
    ensures
      var TakingOver(req, proposed, record, life) := c.procs.workers[w];
      var d := Next(c, Step(w));
      var same := c.row.Some? && c.row.value.state == Pending && c.row.value.owner == record.owner && c.row.value.leaseUntil == record.leaseUntil;
      (d.procs.workers[w].Writing? <==> same) && (d.procs.workers[w] == Reloading(req, life) <==> !same) &&
      d.tables == c.tables && d.queue == c.queue && d.log.moves.acquired == c.log.moves.acquired + (if same then [life] else []) &&
      (if same then
         d.row == Some(c.row.value.(owner := proposed.owner, leaseUntil := proposed.leaseUntil)) &&
         d.procs.workers[w] == Writing(req, record.(owner := proposed.owner, leaseUntil := proposed.leaseUntil), life)
       else d.row == c.row)
  {
  }

  lemma ReloadAnswers(c: Cell, w: ProcessId)
    requires Reachable(c) && w in c.procs.workers && c.procs.workers[w].Reloading?
    ensures
      var d := Next(c, Step(w));
      d.procs.workers[w].Finished? && d.row == c.row &&
      (d.procs.workers[w].outcome == Failed <==> c.row.None? || c.row.value.state == Erased) &&
      (d.procs.workers[w].outcome == Busy <==> c.row.Some? && c.row.value.state != Erased)
  {
    ReachableIdentity(c);
  }

  // Writing and marking

  /** The batch goes out exactly unless its rows would already have expired; it writes the record's message and outbox row and
      leaves every other row. */
  lemma BatchWritesExactlyWhen(c: Cell, w: ProcessId)
    requires Reachable(c) && w in c.procs.workers && c.procs.workers[w].Writing?
    ensures
      var Writing(req, record, life) := c.procs.workers[w];
      var d := Next(c, Step(w));
      var lasting := req.GroupRequest? && req.envelope.expiresIn == 0;
      var expiry := if lasting then None else Some(record.expiresAt);
      d.row == c.row &&
      if lasting || c.clock < record.expiresAt then
        var (messageKey, message) :=
          match req
          case DirectRequest(receiver, conversation, envelope) =>
            (MessageKey(Direct, conversation, record.createdAt), Message(c.sender, receiver, 0, envelope.ciphertext, envelope.msgType, expiry))
          case GroupRequest(group, epoch, _, envelope) =>
            (MessageKey(Group, group, record.createdAt), Message(c.sender, 0, epoch, envelope.ciphertext, envelope.msgType, expiry));
        d.procs.workers[w] == Wrote(req, record, life) && d.tables.messages == c.tables.messages[messageKey := message] &&
        d.tables.outbox == c.tables.outbox[OutboxKey(KindOf(req), record.createdAt) := OutboxRow(life, Some(req.envelope), record.recipients, expiry)]
      else d.procs.workers[w] == Finished(req, Failed, life) && d.tables == c.tables
  {
    ReachableIdentity(c);
    assert WorkerOk(c, c.procs.workers[w]);
  }

  /** Between the batch and the mark the owner looks once more: it goes on exactly while it still holds an unexpired lease. */
  lemma MarkGoesOnExactlyWhen(c: Cell, w: ProcessId)
    requires Reachable(c) && w in c.procs.workers && c.procs.workers[w].Marking?
    ensures
      var Marking(req, record, life, now) := c.procs.workers[w];
      var d := Next(c, Step(w));
      d.row == c.row && d.tables == c.tables &&
      (d.procs.workers[w] == Finished(req, Failed, life) <==> c.row.None? || c.row.value.state == Erased) &&
      (c.row.Some? && c.row.value.state != Erased ==>
         var row := c.row.value;
         var owned := row.state == Pending && row.owner == record.owner && row.leaseUntil == record.leaseUntil;
         (d.procs.workers[w] == MarkingCas(req, record, life) <==> owned && now < record.leaseUntil && now < row.expiresAt) &&
         (d.procs.workers[w] == Finished(req, LeaseLost, life) <==> !(owned && now < record.leaseUntil && now < row.expiresAt)))
  {
    ReachableIdentity(c);
  }

  lemma ClockReading(c: Cell, w: ProcessId)
    requires w in c.procs.workers && c.procs.workers[w].Wrote?
    ensures
      var Wrote(req, record, life) := c.procs.workers[w];
      Next(c, Step(w)).procs.workers[w] == Marking(req, record, life, c.clock)
  {
  }

  /** The mark applies exactly while the row is pending under the worker's own claim; then the message is stored and answered. */
  lemma MarkAppliesExactlyWhen(c: Cell, w: ProcessId)
    requires w in c.procs.workers && c.procs.workers[w].MarkingCas?
    ensures
      var MarkingCas(req, record, life) := c.procs.workers[w];
      var d := Next(c, Step(w));
      if c.row.Some? && c.row.value.state == Pending && c.row.value.owner == record.owner && c.row.value.leaseUntil == record.leaseUntil then
        d.row == Some(c.row.value.(state := Stored)) &&
        d.procs.workers[w] == Finished(req, Committed(record.messageId, record.createdAt, Stored), life)
      else d.row == c.row && d.procs.workers[w] == Finished(req, LeaseLost, life)
  {
  }

  /** A statement whose reply is lost has the same effect on the tables; the caller sees an error. */
  lemma LostReplySameEffect(c: Cell, w: ProcessId)
    requires Running(c, w)
    ensures
      var d, lost := Next(c, Step(w)), Next(c, StepLost(w));
      lost.row == d.row && lost.tables == d.tables && lost.procs.workers[w] == Finished(c.procs.workers[w].req, Failed, 0)
  {
  }

  // Publication and receipts

  /** A worker publishes exactly when its call answered that the message is stored. */
  lemma PublishesExactlyWhen(c: Cell, w: ProcessId, p: Published)
    ensures
      p in Next(c, Publish(w)).queue.broker <==>
      p in c.queue.broker ||
      (w in c.procs.workers && c.procs.workers[w].Finished? && c.procs.workers[w].outcome.Committed? &&
       c.procs.workers[w].outcome.state == Stored && p.life == c.procs.workers[w].life && p.envelope == c.procs.workers[w].req.envelope)
  {
  }

  /** Draining a key publishes its outbox row exactly unless it is gone, blank or expired. */
  lemma DrainsExactlyWhen(c: Cell, key: OutboxKey, p: Published)
    ensures
      p in Next(c, Drain(key)).queue.broker <==>
      p in c.queue.broker ||
      (key in c.tables.outbox && c.tables.outbox[key].life == p.life && c.tables.outbox[key].envelope == Some(p.envelope) &&
       (c.tables.outbox[key].expiresAt.None? || c.clock < c.tables.outbox[key].expiresAt.value))
  {
  }

  /** Three undisturbed steps of a receipt: a stored, unexpired message becomes delivered, and it or one already delivered
      loses its outbox row; nothing else changes. */
  lemma ReceiptAlone(c: Cell, d: ProcessId, receipt: nat)
    requires Reachable(c) && receipt in c.queue.receipts && d !in c.procs.markers
    ensures
      var a := Next(c, Receipt(d, receipt));
      var t := Next(Next(Next(a, MarkerStep(d)), MarkerStep(d)), MarkerStep(d));
      t.tables.messages == c.tables.messages && t.queue == c.queue &&
      if c.row.None? then t.row == None && t.tables == c.tables
      else
        var row := c.row.value;
        var key := OutboxKey(row.kind, row.createdAt);
        var marks := row.state == Delivered || (row.state == Stored && c.clock < row.expiresAt);
        t.tables.outbox == (if marks then c.tables.outbox - {key} else c.tables.outbox) &&
        t.row == Some(if marks then row.(state := Delivered) else row)
  {
    ReachableIdentity(c);
    var a := Next(c, Receipt(d, receipt));
    assert a.procs.markers[d] == MarkLoading(receipt, c.clock);
    var b := Next(a, MarkerStep(d));
    var e := Next(b, MarkerStep(d));
    if c.row.None? || c.row.value.state == Erased {
      assert b.procs.markers[d] == MarkDone(false);
    } else if c.row.value.state == Delivered {
      assert b.procs.markers[d].MarkDelete? && e.procs.markers[d].MarkDone?;
    } else if c.row.value.expiresAt <= c.clock {
      assert b.procs.markers[d] == MarkDone(false);
    } else {
      assert b.procs.markers[d].MarkCas?;
    }
  }

  /** The compare-and-set of a receipt applies, in any cell, exactly to a stored row of the message id it loaded, whichever life
      that row is in by now; which life and which receipt is recorded, and the outbox row of the life it loaded is to go. */
  lemma DeliveryAppliesExactlyWhen(c: Cell, d: ProcessId)
    requires d in c.procs.markers && c.procs.markers[d].MarkCas?
    ensures
      var MarkCas(receipt, record, life) := c.procs.markers[d];
      var t := Next(c, MarkerStep(d));
      t.tables == c.tables && t.queue == c.queue &&
      if c.row.Some? && c.row.value.state == Stored && c.row.value.messageId == record.messageId then
        t.row == Some(c.row.value.(state := Delivered)) && t.log.moves.deliveries == c.log.moves.deliveries + [(Current(c), receipt)] &&
        t.procs.markers[d] == MarkDelete(OutboxKey(record.kind, record.createdAt), life)
      else t.row == c.row && t.log == c.log && t.procs.markers[d] == MarkDone(false)
  {
  }

  // Expiry and erasure

  /** Expiry removes exactly the rows whose time has come, an erasure exactly the row it names. */
  lemma DisappearsExactlyWhen(c: Cell, messageKey: MessageKey, key: OutboxKey, e: Event)
    requires e.EraseMessage? || e.EraseOutbox? || e.ExpireRow? || e.ExpireMessage? || e.ExpireOutbox?
    ensures
      var d := Next(c, e);
      (c.row.Some? ==> (d.row.None? <==> e == ExpireRow && c.row.value.expiresAt <= c.clock) && (d.row.Some? ==> d.row == c.row)) &&
      (messageKey in c.tables.messages ==>
         var expiry := c.tables.messages[messageKey].expiresAt;
         (messageKey !in d.tables.messages <==>
            e == EraseMessage(messageKey) || (e == ExpireMessage(messageKey) && expiry.Some? && expiry.value <= c.clock)) &&
         (messageKey in d.tables.messages ==> d.tables.messages[messageKey] == c.tables.messages[messageKey])) &&
      (key in c.tables.outbox ==>
         var expiry := c.tables.outbox[key].expiresAt;
         (key !in d.tables.outbox <==> e == EraseOutbox(key) || (e == ExpireOutbox(key) && expiry.Some? && expiry.value <= c.clock)) &&
         (key in d.tables.outbox ==> d.tables.outbox[key] == c.tables.outbox[key]))
  {
  }

  // A whole undisturbed call

  /** The worker's own steps to the end of its call, nobody else running. */
  function Alone(c: Cell, w: ProcessId): Cell
    decreases if w in c.procs.workers then StepsLeft(c.procs.workers[w]) else 0
  {
    if !Running(c, w) then c
    else
      WorkerMoves(c, w);
      Alone(Next(c, Step(w)), w)
  }

  predicate ValidFields(sender: Uin, req: Request) {
    sender > 0 && req.envelope.ciphertext != "" &&
    match req
    case DirectRequest(receiver, conversation, _) => receiver > 0 && conversation != ""
    case GroupRequest(group, epoch, recipients, envelope) =>
      group != "" && epoch > 0 && recipients != [] && envelope.msgType != "" && 0 !in recipients
  }

  /** The message keeps for the seconds asked for, at most seven days, and for a day if none were asked for. */
  predicate KeepsFor(envelope: Envelope, since: Time, until: Time) {
    (envelope.expiresIn == 0 ==> until == since + 86_400_000) &&
    (0 < envelope.expiresIn <= 604_800 ==> until == since + 1000 * envelope.expiresIn) &&
    (604_800 < envelope.expiresIn ==> until == since + 604_800_000)
  }

  /** The stored message of a request, and its outbox row. */
  predicate Recorded(c: Cell, d: Cell, req: Request, row: Row) {
    var expiry := if req.GroupRequest? && req.envelope.expiresIn == 0 then None else Some(row.expiresAt);
    OutboxKey(row.kind, row.createdAt) in d.tables.outbox &&
    d.tables.outbox[OutboxKey(row.kind, row.createdAt)].envelope == Some(req.envelope) &&
    d.tables.outbox[OutboxKey(row.kind, row.createdAt)].expiresAt == expiry &&
    match req
    case DirectRequest(receiver, conversation, envelope) =>
      d.tables.messages == c.tables.messages[MessageKey(Direct, conversation, row.createdAt) :=
        Message(c.sender, receiver, 0, envelope.ciphertext, envelope.msgType, expiry)]
    case GroupRequest(group, epoch, _, envelope) =>
      d.tables.messages == c.tables.messages[MessageKey(Group, group, row.createdAt) :=
        Message(c.sender, 0, epoch, envelope.ciphertext, envelope.msgType, expiry)]
  }

  /** A new row of the request, stored. */
  predicate FreshlyStored(c: Cell, d: Cell, req: Request) {
    d.row.Some? &&
    var row := d.row.value;
    Agrees(row, req) && row.state == Stored && row.envelope == Some(req.envelope) && row.messageId == c.messageId &&
    row.createdAt == c.clock && KeepsFor(req.envelope, c.clock, row.expiresAt) && !row.sanitized && Recorded(c, d, req, row)
  }

  /** What an undisturbed call answers and leaves, by the row it finds. */
  ghost predicate PersistsAlone(c: Cell, d: Cell, req: Request, outcome: Outcome) {
    if !ValidFields(c.sender, req) then outcome == Invalid && d.row == c.row && d.tables == c.tables
    else if c.row.None? then outcome == Committed(c.messageId, c.clock, Stored) && FreshlyStored(c, d, req)
    else
      var row := c.row.value;
      if row.state == Erased then outcome == Failed && d.row == c.row && d.tables == c.tables
      else if !Agrees(row, req) then outcome == Conflict && d.row == c.row && d.tables == c.tables
      else if row.state == Stored || row.state == Delivered then
        outcome == Committed(row.messageId, row.createdAt, row.state) && d.row == c.row && d.tables == c.tables
      else if row.expiresAt <= c.clock || c.clock < row.leaseUntil then outcome == Busy && d.row == c.row && d.tables == c.tables
      else
        outcome == Committed(row.messageId, row.createdAt, Stored) && d.row.Some? && Recorded(c, d, req, row) &&
        d.row.value == row.(state := Stored, owner := d.row.value.owner, leaseUntil := d.row.value.leaseUntil)
  }

  lemma OneMore(c: Cell, w: ProcessId)
    requires Running(c, w)
    ensures Alone(c, w) == Alone(Next(c, Step(w)), w)
  {
  }

  /** The mark, with a lease that holds. */
  lemma MarkAlone(c: Cell, w: ProcessId)
    requires w in c.procs.workers && c.procs.workers[w].Wrote? && c.row == Some(c.procs.workers[w].record)
    requires
      var record := c.procs.workers[w].record;
      record.state == Pending && record.hash.Some? && c.clock < record.expiresAt && c.clock < record.leaseUntil
    ensures
      var Wrote(req, record, life) := c.procs.workers[w];
      var d := Alone(c, w);
      w in d.procs.workers && d.procs.workers[w] == Finished(req, Committed(record.messageId, record.createdAt, Stored), life) &&
      d.row == Some(record.(state := Stored)) && d.tables == c.tables
  {
    var Wrote(req, record, life) := c.procs.workers[w];
    var b := Next(c, Step(w));
    OneMore(c, w);
    assert b.procs.workers[w] == Marking(req, record, life, c.clock);
    var e := Next(b, Step(w));
    OneMore(b, w);
    assert e.procs.workers[w] == MarkingCas(req, record, life);
    OneMore(e, w);
    assert Alone(e, w) == Next(e, Step(w));
  }

  lemma BatchAlone(c: Cell, w: ProcessId)
    requires w in c.procs.workers && c.procs.workers[w].Writing?
    requires
      var record := c.procs.workers[w].record;
      c.clock < record.expiresAt && record.envelope == Some(c.procs.workers[w].req.envelope) && record.kind == KindOf(c.procs.workers[w].req) &&
      (c.procs.workers[w].req.GroupRequest? ==> record.group == c.procs.workers[w].req.group && record.epoch == c.procs.workers[w].req.epoch)
    ensures
      var Writing(req, record, life) := c.procs.workers[w];
      var a := Next(c, Step(w));
      w in a.procs.workers && a.procs.workers[w] == Wrote(req, record, life) && a.clock == c.clock && a.row == c.row && Recorded(c, a, req, record)
  {
  }

  /** From the batch on. */
  lemma WriteAlone(c: Cell, w: ProcessId)
    requires w in c.procs.workers && c.procs.workers[w].Writing? && c.row == Some(c.procs.workers[w].record)
    requires
      var record := c.procs.workers[w].record;
      record.state == Pending && record.hash.Some? && c.clock < record.expiresAt && c.clock < record.leaseUntil &&
      record.envelope == Some(c.procs.workers[w].req.envelope) && record.kind == KindOf(c.procs.workers[w].req) &&
      (c.procs.workers[w].req.GroupRequest? ==> record.group == c.procs.workers[w].req.group && record.epoch == c.procs.workers[w].req.epoch)
    ensures
      var Writing(req, record, life) := c.procs.workers[w];
      var d := Alone(c, w);
      w in d.procs.workers && d.procs.workers[w] == Finished(req, Committed(record.messageId, record.createdAt, Stored), life) &&
      d.row == Some(record.(state := Stored)) && Recorded(c, d, req, record)
  {
    BatchAlone(c, w);
    OneMore(c, w);
    MarkAlone(Next(c, Step(w)), w);
  }

  lemma StartAlone(c: Cell, w: ProcessId, req: Request)
    requires w !in c.procs.workers
    ensures
      var a := Next(c, Start(w, req));
      a.row == c.row && a.tables == c.tables && a.sender == c.sender && a.clock == c.clock && a.messageId == c.messageId && a.lease == c.lease &&
      a.log == c.log &&
      a.procs.workers[w] == if ValidFields(c.sender, req) then Claiming(req, Proposed(c.messageId, req, c.clock, c.lease, c.nextToken))
                            else Finished(req, Invalid, 0)
  {
    if req.GroupRequest? {
      assert (0 !in req.recipients) <==> forall i :: 0 <= i < |req.recipients| ==> req.recipients[i] > 0;
    }
  }

  lemma TtlKeeps(c: Cell, req: Request)
    ensures KeepsFor(req.envelope, c.clock, Proposed(c.messageId, req, c.clock, c.lease, c.nextToken).expiresAt)
  {
  }

  /** A key without a row. */
  lemma FreshAlone(c: Cell, w: ProcessId, req: Request)
    requires Reachable(c) && 0 < c.lease && w !in c.procs.workers && c.row.None? && ValidFields(c.sender, req)
    ensures
      var d := Alone(Next(c, Start(w, req)), w);
      w in d.procs.workers && d.procs.workers[w].Finished? && PersistsAlone(c, d, req, d.procs.workers[w].outcome)
  {
    var a := Next(c, Start(w, req));
    StartAlone(c, w, req);
    TtlKeeps(c, req);
    var proposed := Proposed(c.messageId, req, c.clock, c.lease, c.nextToken);
    OneMore(a, w);
    var b := Next(a, Step(w));
    assert b.procs.workers[w] == Writing(req, proposed, Current(c) + 1) && b.row == Some(proposed) && b.tables == c.tables;
    WriteAlone(b, w);
  }

  /** A row whose pending claim has run out. */
  lemma TakenOverAlone(c: Cell, b: Cell, w: ProcessId, req: Request)
    requires Reachable(b) && 0 < c.lease && c.row.Some? && b.row == c.row && b.tables == c.tables && b.clock == c.clock && b.sender == c.sender
    requires w in b.procs.workers && b.procs.workers[w].TakingOver? && b.procs.workers[w].req == req && b.procs.workers[w].record == c.row.value
    requires b.procs.workers[w].proposed == Proposed(c.messageId, req, c.clock, c.lease, c.nextToken)
    requires Agrees(c.row.value, req) && c.row.value.state == Pending && c.clock < c.row.value.expiresAt && c.row.value.leaseUntil <= c.clock
    ensures
      var d := Alone(b, w);
      w in d.procs.workers && d.procs.workers[w].Finished? &&
      d.procs.workers[w].outcome == Committed(c.row.value.messageId, c.row.value.createdAt, Stored) &&
      d.row.Some? && Recorded(c, d, req, c.row.value) &&
      d.row.value == c.row.value.(state := Stored, owner := d.row.value.owner, leaseUntil := d.row.value.leaseUntil)
  {
    ReachableIdentity(b);
    TakeoverAppliesExactlyWhen(b, w);
    OneMore(b, w);
    WriteAlone(Next(b, Step(w)), w);
  }

  /** From the read of the row on. */
  lemma LoadAlone(c: Cell, b: Cell, w: ProcessId, req: Request)
    requires Reachable(b) && 0 < c.lease && c.row.Some? && b.row == c.row && b.tables == c.tables && b.clock == c.clock && b.sender == c.sender
    requires w in b.procs.workers && b.procs.workers[w] == Loading(req, Proposed(c.messageId, req, c.clock, c.lease, c.nextToken))
    requires ValidFields(c.sender, req)
    ensures
      var d := Alone(b, w);
      w in d.procs.workers && d.procs.workers[w].Finished? && PersistsAlone(c, d, req, d.procs.workers[w].outcome)
  {
    LoadAnswers(b, w);
    OneMore(b, w);
    var e := Next(b, Step(w));
    if e.procs.workers[w].TakingOver? {
      ReachableAfter(b, Step(w));
      TakenOverAlone(c, e, w, req);
    } else {
      assert Alone(e, w) == e;
    }
  }

  /** A key with a row. */
  lemma RetryAlone(c: Cell, w: ProcessId, req: Request)
    requires Reachable(c) && 0 < c.lease && w !in c.procs.workers && c.row.Some? && ValidFields(c.sender, req)
    ensures
      var d := Alone(Next(c, Start(w, req)), w);
      w in d.procs.workers && d.procs.workers[w].Finished? && PersistsAlone(c, d, req, d.procs.workers[w].outcome)
  {
    var a := Next(c, Start(w, req));
    StartAlone(c, w, req);
    OneMore(a, w);
    ReachableAfter(c, Start(w, req));
    ReachableAfter(a, Step(w));
    LoadAlone(c, Next(a, Step(w)), w, req);
  }

  lemma ReachableAfter(c: Cell, e: Event)
    requires Reachable(c)
    ensures Reachable(Next(c, e))
  {
    var sender, messageId, lease, clock, events :| c == Run(Initial(sender, messageId, lease, clock), events);
    RunAppend(Initial(sender, messageId, lease, clock), events, [e]);
    assert Run(c, [e]) == Run(Next(c, e), [e][1..]) == Next(c, e);
    assert Next(c, e) == Run(Initial(sender, messageId, lease, clock), events + [e]);
  }

  /** What an undisturbed call of PersistDirect or PersistGroup answers and leaves, in every reachable cell. */
  lemma PersistAlone(c: Cell, w: ProcessId, req: Request)
    requires Reachable(c) && 0 < c.lease && w !in c.procs.workers
    ensures
      var d := Alone(Next(c, Start(w, req)), w);
      w in d.procs.workers && d.procs.workers[w].Finished? && PersistsAlone(c, d, req, d.procs.workers[w].outcome)
  {
    StartAlone(c, w, req);
    if !ValidFields(c.sender, req) {
    } else if c.row.None? {
      FreshAlone(c, w, req);
    } else {
      RetryAlone(c, w, req);
    }
  }

  /** A claim creates the row exactly when there is none; its lease runs for the lease time, but not beyond the row's expiry. */
  lemma ClaimInsertsExactlyWhen(c: Cell, w: ProcessId)
    requires Reachable(c) && w in c.procs.workers && c.procs.workers[w].Claiming?
    ensures
      var Claiming(req, proposed) := c.procs.workers[w];
      var d := Next(c, Step(w));
      d.tables == c.tables && (d.procs.workers[w] == Loading(req, proposed) <==> c.row.Some?) && (c.row.Some? ==> d.row == c.row) &&
      (c.row.None? ==>
         d.row == Some(proposed) && d.procs.workers[w] == Writing(req, proposed, Current(c) + 1) && Agrees(proposed, req) &&
         Current(d) == Current(c) + 1 && d.log.moves.acquired == c.log.moves.acquired + [Current(d)] &&
         KeepsFor(req.envelope, proposed.createdAt, proposed.expiresAt) && proposed.state == Pending && !proposed.sanitized &&
         (if proposed.createdAt + c.lease <= proposed.expiresAt then proposed.leaseUntil == proposed.createdAt + c.lease
          else proposed.leaseUntil == proposed.expiresAt))
  {
    ReachableIdentity(c);
    assert WorkerOk(c, c.procs.workers[w]);
  }

  // Sanitizing alone

  /** The row is a tombstone: what identified parties and content is cleared, the rest stays. */
  predicate Tombstone(row: Row, after: Row) {
    after == Row(row.kind, 0, "", row.group, row.epoch, [], None, None, row.messageId, row.createdAt, row.expiresAt, Erased, row.owner,
                 row.leaseUntil, true)
  }

  /** What an undisturbed sanitize call makes of the row: the sender's own row goes; a direct row to the account, or a group row
      with no other recipient, becomes a tombstone; a group row loses the account; erased, expired and other rows stay. */
  predicate SanitizesAlone(c: Cell, d: Cell, uin: Uin) {
    d.tables == c.tables &&
    if uin == c.sender || c.row.None? then d.row == None
    else
      var row := c.row.value;
      var left := Without(row.recipients, uin);
      d.row.Some? &&
      if row.state == Erased || row.expiresAt <= c.clock then d.row == c.row
      else if row.kind == Direct then (if row.receiver == uin then Tombstone(row, d.row.value) else d.row == c.row)
      else if uin !in row.recipients then d.row == c.row
      else if left == [] then Tombstone(row, d.row.value)
      else d.row == Some(row.(recipients := left, sanitized := true))
  }

  /** The read ends the call, or the write after it does. */
  lemma AttemptAlone(c: Cell, z: ProcessId, uin: Uin)
    requires z in c.procs.sanitizers && c.procs.sanitizers[z] == SanReading(uin)
    ensures
      var b := Next(c, SanitizerStep(z));
      var d := if b.procs.sanitizers[z].SanDone? then b else Next(b, SanitizerStep(z));
      d.procs.sanitizers[z] == SanDone(uin) && SanitizesAlone(c, d, uin)
  {
  }
}
