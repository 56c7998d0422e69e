/**
 The ingest protocol of one idempotency key as a machine of atomic steps.

 A cell holds everything that exists for one (sender, client id): the message_ingest row, the message
 and outbox rows, the broker, the recipient acceptances and receipts, and the processes working on
 them. One step is one Scylla LWT, read or logged batch, one Redis script or one broker call; any
 other process may run between two steps, and a process that is never scheduled again has stopped.
 The log is history only: no step reads it to decide what to do.
 */
module Ingest {
  import opened Options
  import opened IngestTypes

  datatype MessageKey = MessageKey(kind: Kind, partition: string, createdAt: Time)
  datatype Message = Message(sender: Uin, receiver: Uin, epoch: int, ciphertext: string, msgType: string,
                             expiresAt: Option<Time>)
  datatype OutboxKey = OutboxKey(kind: Kind, createdAt: Time)
  datatype OutboxRow = OutboxRow(life: nat, envelope: Option<Envelope>, recipients: seq<Uin>, expiresAt: Option<Time>)

  /** PersistDirect or PersistGroup, by the statement it executes next. */
  datatype Worker =
    | Claiming(req: Request, proposed: Row)
    | Loading(req: Request, proposed: Row)
    | TakingOver(req: Request, proposed: Row, record: Row, life: nat)
    | Reloading(req: Request, life: nat)
    | Writing(req: Request, record: Row, life: nat)
    | Wrote(req: Request, record: Row, life: nat)
    | Marking(req: Request, record: Row, life: nat, now: Time)
    | MarkingCas(req: Request, record: Row, life: nat)
    | Finished(req: Request, outcome: Outcome, life: nat)

  datatype Published = Published(life: nat, envelope: Envelope)
  datatype Gateway = Accepting(delivery: Published, next: nat) | GatewayDone

  /** MarkDelivered, driven by a receipt. */
  datatype Marker =
    | MarkLoading(receipt: nat, now: Time)
    | MarkCas(receipt: nat, record: Row, life: nat)
    | MarkDelete(key: OutboxKey, life: nat)
    | MarkDone(applied: bool)

  /** One sanitizeIngestReceipt call of a wipe worker. */
  datatype Sanitizer = SanReading(uin: Uin) | SanWriting(uin: Uin, snapshot: Row, life: nat) | SanDone(uin: Uin)

  datatype Batch = Batch(life: nat, messageKey: MessageKey, message: Message, outboxKey: OutboxKey)
  datatype Commit = Commit(life: nat, messageId: nat, createdAt: Time, hash: Digest, batchesBefore: nat)

  /** Which lives were acquired, marked stored, and marked delivered by the receipt of which life. */
  datatype Moves = Moves(acquired: seq<nat>, stores: seq<nat>, deliveries: seq<(nat, nat)>)

  /** UINs removed from the current row, UINs under wipe, finished sanitize calls, crossed terminalizations. */
  datatype Wipes = Wipes(removed: set<Uin>, wiped: set<Uin>, cleared: set<(Uin, nat)>, crossed: bool)

  datatype Erasures = Erasures(messages: set<MessageKey>, outbox: set<OutboxKey>)

  datatype Log = Log(lives: seq<Life>, owners: map<Token, nat>, batches: seq<Batch>, commits: seq<Commit>,
                     moves: Moves, wipes: Wipes, erasures: Erasures)

  datatype Tables = Tables(messages: map<MessageKey, Message>, outbox: map<OutboxKey, OutboxRow>)
  datatype Queue = Queue(broker: set<Published>, accepted: set<(Scope, Uin)>, receipts: set<nat>)
  datatype Processes = Processes(workers: map<ProcessId, Worker>, gateways: map<ProcessId, Gateway>,
                                 markers: map<ProcessId, Marker>, sanitizers: map<ProcessId, Sanitizer>)

  datatype Cell = Cell(sender: Uin, messageId: nat, lease: Time, clock: Time, nextToken: Token, row: Option<Row>,
                       tables: Tables, queue: Queue, procs: Processes, log: Log)

  datatype Event =
    | Tick(to: Time)
    | Start(w: ProcessId, req: Request)
    | Step(w: ProcessId)
    | StepLost(w: ProcessId)
    | Publish(w: ProcessId)
    | Drain(key: OutboxKey)
    | Deliver(g: ProcessId, delivery: Published)
    | GatewayStep(g: ProcessId)
    | Receipt(d: ProcessId, receipt: nat)
    | MarkerStep(d: ProcessId)
    | Wipe(z: ProcessId, uin: Uin)
    | SanitizerStep(z: ProcessId)
    | EraseMessage(messageKey: MessageKey)
    | EraseOutbox(key: OutboxKey)
    | ExpireRow
    | ExpireMessage(messageKey: MessageKey)
    | ExpireOutbox(key: OutboxKey)

  function Initial(sender: Uin, messageId: nat, lease: Time, clock: Time): Cell {
    Cell(sender, messageId, lease, clock, 0, None, Tables(map[], map[]), Queue({}, {}, {}),
         Processes(map[], map[], map[], map[]),
         Log([], map[], [], [], Moves([], [], []), Wipes({}, {}, {}, false), Erasures({}, {})))
  }

  function SetWorker(c: Cell, w: ProcessId, worker: Worker): Cell {
    c.(procs := c.procs.(workers := c.procs.workers[w := worker]))
  }

  function SetMarker(c: Cell, d: ProcessId, marker: Marker): Cell {
    c.(procs := c.procs.(markers := c.procs.markers[d := marker]))
  }

  function SetSanitizer(c: Cell, z: ProcessId, sanitizer: Sanitizer): Cell {
    c.(procs := c.procs.(sanitizers := c.procs.sanitizers[z := sanitizer]))
  }

  function SetGateway(c: Cell, g: ProcessId, gateway: Gateway): Cell {
    c.(procs := c.procs.(gateways := c.procs.gateways[g := gateway]))
  }

  /** What a claim of this request at this time fixes for the life of the row it inserts. */
  function LifeOf(messageId: nat, req: Request, now: Time): Life {
    var expiresAt := now + EffectiveTtl(req.envelope.expiresIn);
    match req
    case DirectRequest(receiver, conversation, envelope) =>
      Life(Direct, receiver, conversation, "", 0, [], envelope, messageId, now, expiresAt)
    case GroupRequest(group, epoch, recipients, envelope) =>
      Life(Group, 0, "", group, epoch, recipients, envelope, messageId, now, expiresAt)
  }

  /** Lives are numbered from 1: the current one is the number of inserts so far. */
  function Current(c: Cell): nat { |c.log.lives| }

  /** The group batch carries no expiry when the sender asked for none; the direct batch always does. */
  function StoredExpiry(req: Request, expiresAt: Time): Option<Time> {
    if req.GroupRequest? && req.envelope.expiresIn == 0 then None else Some(expiresAt)
  }

  function BatchOf(sender: Uin, req: Request, record: Row, life: nat): Batch {
    var expiry := StoredExpiry(req, record.expiresAt);
    match req
    case DirectRequest(receiver, conversation, envelope) =>
      Batch(life, MessageKey(Direct, conversation, record.createdAt),
            Message(sender, receiver, 0, envelope.ciphertext, envelope.msgType, expiry),
            OutboxKey(Direct, record.createdAt))
    case GroupRequest(_, _, _, envelope) =>
      Batch(life, MessageKey(Group, record.group, record.createdAt),
            Message(sender, 0, record.epoch, envelope.ciphertext, envelope.msgType, expiry),
            OutboxKey(Group, record.createdAt))
  }

  function Finish(c: Cell, w: ProcessId, req: Request, outcome: Outcome, life: nat): Cell {
    SetWorker(c, w, Finished(req, outcome, life))
  }

  /** Logs the answer a worker has just returned. */
  function Reply(c: Cell, w: ProcessId): Cell {
    if w in c.procs.workers && c.procs.workers[w].Finished? && c.procs.workers[w].outcome.Committed? then
      var Finished(req, outcome, life) := c.procs.workers[w];
      var commit := Commit(life, outcome.messageId, outcome.createdAt, Sha256(req.envelope), |c.log.batches|);
      c.(log := c.log.(commits := c.log.commits + [commit]))
    else c
  }

  function Begin(c: Cell, w: ProcessId, req: Request): Cell {
    if w in c.procs.workers then c
    else if !ValidRequest(c.sender, req) then Finish(c, w, req, Invalid, 0)
    else
      SetWorker(c.(nextToken := c.nextToken + 1), w,
                Claiming(req, Proposed(c.messageId, req, c.clock, c.lease, c.nextToken)))
  }

  function ClaimInsert(c: Cell, w: ProcessId, req: Request, proposed: Row): Cell {
    if c.row.Some? then SetWorker(c, w, Loading(req, proposed))
    else
      var life := Current(c) + 1;
      var log := c.log.(lives := c.log.lives + [LifeOf(c.messageId, req, proposed.createdAt)],
                        owners := c.log.owners[proposed.owner := life],
                        moves := c.log.moves.(acquired := c.log.moves.acquired + [life]),
                        wipes := c.log.wipes.(removed := {}));
      SetWorker(c.(row := Some(proposed), log := log), w, Writing(req, proposed, life))
  }

  function ClaimLoad(c: Cell, w: ProcessId, req: Request, proposed: Row): Cell {
    var life := Current(c);
    var worker :=
      if c.row.None? then Finished(req, Failed, life)
      else
        match Decide(c.row.value, proposed, proposed.createdAt)
        case TakeOver => TakingOver(req, proposed, c.row.value, life)
        case Answer(outcome) => Finished(req, outcome, life);
    SetWorker(c, w, worker)
  }

  predicate OwnedBy(row: Option<Row>, owner: Token, leaseUntil: Time) {
    row.Some? && row.value.state == Pending && row.value.owner == owner && row.value.leaseUntil == leaseUntil
  }

  function Owned(row: Row, proposed: Row): Row { row.(owner := proposed.owner, leaseUntil := proposed.leaseUntil) }

  function ClaimTakeover(c: Cell, w: ProcessId, req: Request, proposed: Row, record: Row, life: nat): Cell {
    if !OwnedBy(c.row, record.owner, record.leaseUntil) then SetWorker(c, w, Reloading(req, life))
    else
      var log := c.log.(owners := c.log.owners[proposed.owner := life],
                        moves := c.log.moves.(acquired := c.log.moves.acquired + [life]));
      SetWorker(c.(row := Some(Owned(c.row.value, proposed)), log := log), w, Writing(req, Owned(record, proposed), life))
  }

  /** A lost takeover loads the row once more: a row that is gone or has no digest is an error, any other keeps the key busy. */
  function ClaimReload(c: Cell, w: ProcessId, req: Request, life: nat): Cell {
    Finish(c, w, req, if c.row.None? || c.row.value.hash.None? then Failed else Busy, life)
  }

  /** Unconditional: nothing about the row is checked, only the writer's own expiry. */
  function WriteBatch(c: Cell, w: ProcessId, req: Request, record: Row, life: nat): Cell {
    if StoredExpiry(req, record.expiresAt).Some? && record.expiresAt <= c.clock then Finish(c, w, req, Failed, life)
    else
      var batch := BatchOf(c.sender, req, record, life);
      var outboxRow := OutboxRow(life, record.envelope, record.recipients, StoredExpiry(req, record.expiresAt));
      var tables := Tables(c.tables.messages[batch.messageKey := batch.message], c.tables.outbox[batch.outboxKey := outboxRow]);
      SetWorker(c.(tables := tables, log := c.log.(batches := c.log.batches + [batch])), w, Wrote(req, record, life))
  }

  function MarkStoredLoad(c: Cell, w: ProcessId, req: Request, record: Row, life: nat, now: Time): Cell {
    var worker :=
      if c.row.None? || c.row.value.hash.None? then Finished(req, Failed, life)
      else if !OwnedBy(c.row, record.owner, record.leaseUntil) || record.leaseUntil <= now || c.row.value.expiresAt <= now
      then Finished(req, LeaseLost, life)
      else MarkingCas(req, record, life);
    SetWorker(c, w, worker)
  }

  function MarkStoredCas(c: Cell, w: ProcessId, req: Request, record: Row, life: nat): Cell {
    if !OwnedBy(c.row, record.owner, record.leaseUntil) then Finish(c, w, req, LeaseLost, life)
    else
      var log := c.log.(moves := c.log.moves.(stores := c.log.moves.stores + [life]));
      Finish(c.(row := Some(c.row.value.(state := Stored)), log := log), w, req,
             Committed(record.messageId, record.createdAt, Stored), life)
  }

  function WorkerStep(c: Cell, w: ProcessId): Cell {
    if w !in c.procs.workers then c
    else
      match c.procs.workers[w]
      case Claiming(req, proposed) => ClaimInsert(c, w, req, proposed)
      case Loading(req, proposed) => ClaimLoad(c, w, req, proposed)
      case TakingOver(req, proposed, record, life) => ClaimTakeover(c, w, req, proposed, record, life)
      case Reloading(req, life) => ClaimReload(c, w, req, life)
      case Writing(req, record, life) => WriteBatch(c, w, req, record, life)
      case Wrote(req, record, life) => SetWorker(c, w, Marking(req, record, life, c.clock))
      case Marking(req, record, life, now) => MarkStoredLoad(c, w, req, record, life, now)
      case MarkingCas(req, record, life) => MarkStoredCas(c, w, req, record, life)
      case Finished(_, _, _) => c
  }

  predicate Running(c: Cell, w: ProcessId) { w in c.procs.workers && !c.procs.workers[w].Finished? }

  /** The statement executed but its reply was lost: the caller only sees an error. */
  function WorkerStepLost(c: Cell, w: ProcessId): Cell {
    if Running(c, w) then Finish(WorkerStep(c, w), w, c.procs.workers[w].req, Failed, 0) else c
  }

  /** processDurableIngest publishes only when Persist reported the stored state. */
  function PublishFrom(c: Cell, w: ProcessId): Cell {
    var message :=
      if w in c.procs.workers && c.procs.workers[w].Finished? && c.procs.workers[w].outcome.Committed? &&
         c.procs.workers[w].outcome.state == Stored
      then {Published(c.procs.workers[w].life, c.procs.workers[w].req.envelope)}
      else {};
    c.(queue := c.queue.(broker := c.queue.broker + message))
  }

  predicate Due(expiry: Option<Time>, now: Time) { expiry.Some? && expiry.value <= now }

  /** A row without an expiry is drained for ever. */
  function DrainOutbox(c: Cell, key: OutboxKey): Cell {
    var outbox := c.tables.outbox;
    var message :=
      if key in outbox && !Due(outbox[key].expiresAt, c.clock) && outbox[key].envelope.Some?
      then {Published(outbox[key].life, outbox[key].envelope.value)}
      else {};
    c.(queue := c.queue.(broker := c.queue.broker + message))
  }

  /** acceptDelivery: accept for every named recipient, then send the receipt. */
  function GatewayNext(c: Cell, g: ProcessId): Cell {
    if g !in c.procs.gateways || c.procs.gateways[g].GatewayDone? then c
    else
      var delivery, next := c.procs.gateways[g].delivery, c.procs.gateways[g].next;
      var named := delivery.envelope.named;
      if next < |named| then
        SetGateway(c.(queue := c.queue.(accepted := c.queue.accepted + {(delivery.envelope.scope, named[next])})), g,
                   Accepting(delivery, next + 1))
      else
        var receipt := if named == [] then {} else {delivery.life};
        SetGateway(c.(queue := c.queue.(receipts := c.queue.receipts + receipt)), g, GatewayDone)
  }

  function MarkDeliveredLoad(c: Cell, d: ProcessId, receipt: nat, now: Time): Cell {
    var marker :=
      if c.row.None? || c.row.value.hash.None? then MarkDone(false)
      else if c.row.value.state == Delivered then
        MarkDelete(OutboxKey(c.row.value.kind, c.row.value.createdAt), Current(c))
      else if c.row.value.expiresAt <= now then MarkDone(false)
      else MarkCas(receipt, c.row.value, Current(c));
    SetMarker(c, d, marker)
  }

  function MarkDeliveredCas(c: Cell, d: ProcessId, receipt: nat, record: Row, life: nat): Cell {
    if c.row.None? || c.row.value.state != Stored || c.row.value.messageId != record.messageId then
      SetMarker(c, d, MarkDone(false))
    else
      var log := c.log.(moves := c.log.moves.(deliveries := c.log.moves.deliveries + [(Current(c), receipt)]));
      SetMarker(c.(row := Some(c.row.value.(state := Delivered)), log := log), d,
                MarkDelete(OutboxKey(record.kind, record.createdAt), life))
  }

  function DeleteOutbox(c: Cell, key: OutboxKey): Cell {
    c.(tables := c.tables.(outbox := c.tables.outbox - {key}))
  }

  function MarkerNext(c: Cell, d: ProcessId): Cell {
    if d !in c.procs.markers then c
    else
      match c.procs.markers[d]
      case MarkLoading(receipt, now) => MarkDeliveredLoad(c, d, receipt, now)
      case MarkCas(receipt, record, life) => MarkDeliveredCas(c, d, receipt, record, life)
      case MarkDelete(key, life) => SetMarker(DeleteOutbox(c, key), d, MarkDone(true))
      case MarkDone(_) => c
  }

  function SanitizerFinish(c: Cell, z: ProcessId, uin: Uin): Cell {
    SetSanitizer(c.(log := c.log.(wipes := c.log.wipes.(cleared := c.log.wipes.cleared + {(uin, Current(c))}))), z, SanDone(uin))
  }

  /** The read of one attempt: most rows need no write at all. */
  predicate NothingToSanitize(row: Row, uin: Uin, now: Time) {
    row.state == Erased || row.expiresAt <= now ||
    (row.kind == Direct && row.receiver != uin) || (row.kind == Group && uin !in row.recipients)
  }

  function SanitizedRow(row: Row, uin: Uin): Row {
    var filtered := Without(row.recipients, uin);
    if filtered == [] then Terminalized(row) else row.(recipients := filtered, sanitized := true)
  }

  function SanitizeRead(c: Cell, z: ProcessId, uin: Uin): Cell {
    if uin == c.sender then SanitizerFinish(c.(row := None), z, uin)
    else if c.row.None? || NothingToSanitize(c.row.value, uin, c.clock) then SanitizerFinish(c, z, uin)
    else SetSanitizer(c, z, SanWriting(uin, c.row.value, Current(c)))
  }

  /** A direct row is terminalized if it exists at all, whatever became of it since the read. */
  function SanitizeDirect(c: Cell, z: ProcessId, uin: Uin, life: nat): Cell {
    if c.row.None? then SanitizerFinish(c, z, uin)
    else
      var wipes := c.log.wipes.(crossed := c.log.wipes.crossed || life != Current(c));
      SanitizerFinish(c.(row := Some(Terminalized(c.row.value)), log := c.log.(wipes := wipes)), z, uin)
  }

  /** A group row is compared and set on the exact list read; a lost race reads again. */
  function SanitizeGroup(c: Cell, z: ProcessId, uin: Uin, snapshot: Row): Cell {
    if c.row.None? || c.row.value.recipients != snapshot.recipients then SetSanitizer(c, z, SanReading(uin))
    else
      var wipes := c.log.wipes.(removed := c.log.wipes.removed + {uin});
      SanitizerFinish(c.(row := Some(SanitizedRow(c.row.value, uin)), log := c.log.(wipes := wipes)), z, uin)
  }

  function SanitizerNext(c: Cell, z: ProcessId): Cell {
    if z !in c.procs.sanitizers then c
    else
      match c.procs.sanitizers[z]
      case SanReading(uin) => SanitizeRead(c, z, uin)
      case SanWriting(uin, snapshot, life) =>
        if snapshot.kind == Direct then SanitizeDirect(c, z, uin, life) else SanitizeGroup(c, z, uin, snapshot)
      case SanDone(_) => c
  }

  function StartWipe(c: Cell, z: ProcessId, uin: Uin): Cell {
    if z in c.procs.sanitizers then c
    else
      SetSanitizer(c.(log := c.log.(wipes := c.log.wipes.(wiped := c.log.wipes.wiped + {uin}))), z, SanReading(uin))
  }

  /** Wipes and expiry remove message and outbox rows; expiry removes the ingest row. */
  function Disappear(c: Cell, e: Event): Cell {
    match e
    case EraseMessage(key) =>
      c.(tables := c.tables.(messages := c.tables.messages - {key}),
         log := c.log.(erasures := c.log.erasures.(messages := c.log.erasures.messages + {key})))
    case EraseOutbox(key) =>
      DeleteOutbox(c, key).(log := c.log.(erasures := c.log.erasures.(outbox := c.log.erasures.outbox + {key})))
    case ExpireRow => c.(row := if c.row.Some? && c.row.value.expiresAt <= c.clock then None else c.row)
    case ExpireMessage(key) =>
      var messages := c.tables.messages;
      var due := key in messages && Due(messages[key].expiresAt, c.clock);
      c.(tables := c.tables.(messages := if due then messages - {key} else messages))
    case ExpireOutbox(key) =>
      if key in c.tables.outbox && Due(c.tables.outbox[key].expiresAt, c.clock) then DeleteOutbox(c, key) else c
    case _ => c
  }

  function Next(c: Cell, e: Event): Cell {
    match e
    case Tick(to) => c.(clock := if c.clock <= to then to else c.clock)
    case Start(w, req) => Begin(c, w, req)
    case Step(w) => if Running(c, w) then Reply(WorkerStep(c, w), w) else c
    case StepLost(w) => WorkerStepLost(c, w)
    case Publish(w) => PublishFrom(c, w)
    case Drain(key) => DrainOutbox(c, key)
    case Deliver(g, delivery) =>
      if delivery in c.queue.broker && g !in c.procs.gateways then SetGateway(c, g, Accepting(delivery, 0)) else c
    case GatewayStep(g) => GatewayNext(c, g)
    case Receipt(d, receipt) =>
      if receipt in c.queue.receipts && d !in c.procs.markers then SetMarker(c, d, MarkLoading(receipt, c.clock)) else c
    case MarkerStep(d) => MarkerNext(c, d)
    case Wipe(z, uin) => StartWipe(c, z, uin)
    case SanitizerStep(z) => SanitizerNext(c, z)
    case _ => Disappear(c, e)
  }

  function Run(c: Cell, events: seq<Event>): Cell
    decreases |events|
  {
    if events == [] then c else Run(Next(c, events[0]), events[1..])
  }

  /** How many own statements a Persist call can still execute. */
  function StepsLeft(worker: Worker): nat {
    match worker
    case Claiming(_, _) => 7
    case Loading(_, _) => 6
    case TakingOver(_, _, _, _) => 5
    case Reloading(_, _) => 1
    case Writing(_, _, _) => 4
    case Wrote(_, _, _) => 3
    case Marking(_, _, _, _) => 2
    case MarkingCas(_, _, _) => 1
    case Finished(_, _, _) => 0
  }

  /** One step moves one worker towards its end, for the same request, and starts at most one life, for that request. */
  lemma WorkerMoves(c: Cell, w: ProcessId)
    ensures
      var d := WorkerStep(c, w);
      if Running(c, w) then
        var req := c.procs.workers[w].req;
        (exists worker: Worker ::
           d.procs == c.procs.(workers := c.procs.workers[w := worker]) && worker.req == req &&
           StepsLeft(worker) < StepsLeft(c.procs.workers[w])) &&
        (d.log.lives == c.log.lives ||
         (c.procs.workers[w].Claiming? &&
          d.log.lives == c.log.lives + [LifeOf(c.messageId, req, c.procs.workers[w].proposed.createdAt)]))
      else d == c
  {
    if Running(c, w) {
      var d := WorkerStep(c, w);
      assert d.procs == c.procs.(workers := c.procs.workers[w := d.procs.workers[w]]);
    }
  }

  lemma {:induction false} RunAppend(c: Cell, first: seq<Event>, second: seq<Event>)
    ensures Run(c, first + second) == Run(Run(c, first), second)
    decreases |first|
  {
    if first == [] {
      assert first + second == second;
    } else {
      assert (first + second)[1..] == first[1..] + second;
      RunAppend(Next(c, first[0]), first[1..], second);
    }
  }

  ghost predicate Reachable(c: Cell) {
    exists sender, messageId, lease, clock, events :: c == Run(Initial(sender, messageId, lease, clock), events)
  }
}
