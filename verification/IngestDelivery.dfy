/**
 Delivered means accepted: with receipts sent only by the gateway, a row is marked delivered only after
 every recipient of a published envelope of its key durably accepted the message id.

 The message id depends on the key alone, so a receipt earned by one life of a row can mark a later
 life. The guarantee about the row's own envelope therefore holds in all runs exactly when all
 envelopes a key is used with name the same recipients.
 */
module IngestDelivery {
  import opened Options
  import opened IngestTypes
  import opened Ingest
  import opened IngestIdentity
  import opened IngestDurability

  /** Who must have accepted before a receipt for this envelope is sent. */
  function Names(e: Envelope): set<(Scope, Uin)> { set u | u in e.named :: (e.scope, u) }

  predicate AllAccepted(c: Cell, life: nat) {
    IsLife(c, life) && Names(LifeAt(c, life).envelope) <= c.queue.accepted
  }

  /** A receipt of this life has been earned. */
  predicate Earned(c: Cell, life: nat) { AllAccepted(c, life) && LifeAt(c, life).envelope.named != [] }

  predicate PublishedOk(c: Cell, p: Published) { IsLife(c, p.life) && p.envelope == LifeAt(c, p.life).envelope }

  predicate GatewayOk(c: Cell, gateway: Gateway) {
    gateway.Accepting? ==>
      PublishedOk(c, gateway.delivery) && gateway.next <= |gateway.delivery.envelope.named| &&
      forall i :: 0 <= i < gateway.next ==>
        (gateway.delivery.envelope.scope, gateway.delivery.envelope.named[i]) in c.queue.accepted
  }

  ghost predicate QueueInv(c: Cell) {
    (forall p :: p in c.queue.broker ==> PublishedOk(c, p)) && (forall r :: r in c.queue.receipts ==> Earned(c, r))
  }

  ghost predicate GatewaysInv(c: Cell) {
    forall g :: g in c.procs.gateways ==> GatewayOk(c, c.procs.gateways[g])
  }

  predicate ReceiptOk(c: Cell, marker: Marker) { marker.MarkLoading? || marker.MarkCas? ==> Earned(c, marker.receipt) }

  ghost predicate ReceiptsInv(c: Cell) {
    forall d :: d in c.procs.markers ==> ReceiptOk(c, c.procs.markers[d])
  }

  ghost predicate DeliveredInv(c: Cell) {
    c.row.Some? && c.row.value.state == Delivered ==> exists r :: Earned(c, r)
  }

  ghost predicate DeliveryInv(c: Cell) {
    QueueInv(c) && GatewaysInv(c) && ReceiptsInv(c) && DeliveredInv(c)
  }

  /** History and acceptances only grow. */
  predicate Extends(c: Cell, d: Cell) {
    c.log.lives <= d.log.lives && c.queue.accepted <= d.queue.accepted
  }

  lemma EarnedExtends(c: Cell, d: Cell, life: nat)
    requires Extends(c, d) && Earned(c, life)
    ensures Earned(d, life)
  {
  }

  predicate RowDelivered(c: Cell) { c.row.Some? && c.row.value.state == Delivered }

  /** Whatever a step adds is justified; everything else it leaves alone. */
  lemma DeliveryKept(c: Cell, d: Cell)
    requires DeliveryInv(c) && Extends(c, d)
    requires forall p :: p in d.queue.broker ==> p in c.queue.broker || PublishedOk(d, p)
    requires forall r :: r in d.queue.receipts ==> r in c.queue.receipts || Earned(d, r)
    requires forall g :: g in d.procs.gateways ==>
               (g in c.procs.gateways && d.procs.gateways[g] == c.procs.gateways[g]) || GatewayOk(d, d.procs.gateways[g])
    requires forall m :: m in d.procs.markers ==>
               (m in c.procs.markers && d.procs.markers[m] == c.procs.markers[m]) || ReceiptOk(d, d.procs.markers[m])
    requires RowDelivered(d) ==> RowDelivered(c) || exists r :: Earned(d, r)
    ensures DeliveryInv(d)
  {
    forall r | r in d.queue.receipts
      ensures Earned(d, r)
    {
      if r in c.queue.receipts {
        EarnedExtends(c, d, r);
      }
    }
    forall g | g in d.procs.gateways
      ensures GatewayOk(d, d.procs.gateways[g])
    {
      assert g in c.procs.gateways ==> GatewayOk(c, c.procs.gateways[g]);
    }
    forall m | m in d.procs.markers
      ensures ReceiptOk(d, d.procs.markers[m])
    {
      if m in c.procs.markers && d.procs.markers[m] == c.procs.markers[m] {
        assert ReceiptOk(c, c.procs.markers[m]);
        if d.procs.markers[m].MarkLoading? || d.procs.markers[m].MarkCas? {
          EarnedExtends(c, d, d.procs.markers[m].receipt);
        }
      }
    }
    if RowDelivered(d) && RowDelivered(c) {
      var r :| Earned(c, r);
      EarnedExtends(c, d, r);
    }
  }

  /** A step that publishes, accepts and delivers nothing. */
  predicate LeavesDelivery(c: Cell, d: Cell) {
    d.queue == c.queue && d.procs.gateways == c.procs.gateways && d.procs.markers == c.procs.markers &&
    c.log.lives <= d.log.lives && (RowDelivered(d) ==> RowDelivered(c))
  }

  lemma WorkerLeavesDelivery(c: Cell, w: ProcessId)
    requires WorkersInv(c)
    ensures LeavesDelivery(c, WorkerStep(c, w))
  {
    WorkerMoves(c, w);
    WorkerKeepsQueue(c, w);
    WorkerNeverDelivers(c, w);
  }

  lemma WorkerKeepsQueue(c: Cell, w: ProcessId)
    ensures WorkerStep(c, w).queue == c.queue
  {
  }

  lemma WorkerNeverDelivers(c: Cell, w: ProcessId)
    requires WorkersInv(c)
    ensures RowDelivered(WorkerStep(c, w)) ==> RowDelivered(c)
  {
    if w in c.procs.workers {
      assert WorkerOk(c, c.procs.workers[w]);
    }
  }

  lemma SanitizerLeavesDelivery(c: Cell, z: ProcessId)
    ensures LeavesDelivery(c, SanitizerNext(c, z))
  {
  }

  /** A worker only ever publishes the envelope of the life it answers for. */
  lemma WorkerPublishes(c: Cell, w: ProcessId)
    requires WorkersInv(c) && DeliveryInv(c)
    ensures DeliveryInv(PublishFrom(c, w))
  {
    if w in c.procs.workers {
      assert WorkerOk(c, c.procs.workers[w]);
    }
    DeliveryKept(c, PublishFrom(c, w));
  }

  lemma DrainPublishes(c: Cell, key: OutboxKey)
    requires OutboxInv(c) && DeliveryInv(c)
    ensures DeliveryInv(DrainOutbox(c, key))
  {
    if key in c.tables.outbox {
      assert OutboxRowOk(c, key, c.tables.outbox[key]);
    }
    DeliveryKept(c, DrainOutbox(c, key));
  }

  /** The receipt step of a gateway that has accepted for every named recipient. */
  lemma ReceiptEarned(c: Cell, gateway: Gateway)
    requires gateway.Accepting? && GatewayOk(c, gateway) && gateway.next >= |gateway.delivery.envelope.named|
    requires gateway.delivery.envelope.named != []
    ensures Earned(c, gateway.delivery.life)
  {
    var e := gateway.delivery.envelope;
    forall n | n in Names(e)
      ensures n in c.queue.accepted
    {
      var u :| u in e.named && n == (e.scope, u);
      var i :| 0 <= i < |e.named| && e.named[i] == u;
      assert (e.scope, e.named[i]) in c.queue.accepted;
    }
  }

  lemma GatewayDelivery(c: Cell, g: ProcessId)
    requires DeliveryInv(c)
    ensures DeliveryInv(GatewayNext(c, g))
  {
    if g in c.procs.gateways && c.procs.gateways[g].Accepting? {
      var gateway := c.procs.gateways[g];
      assert GatewayOk(c, gateway);
      if gateway.next >= |gateway.delivery.envelope.named| && gateway.delivery.envelope.named != [] {
        ReceiptEarned(c, gateway);
      }
      DeliveryKept(c, GatewayNext(c, g));
    }
  }

  lemma MarkDeliveredDelivery(c: Cell, d: ProcessId, receipt: nat, record: Row, life: nat)
    requires DeliveryInv(c) && Earned(c, receipt)
    ensures DeliveryInv(MarkDeliveredCas(c, d, receipt, record, life))
  {
    EarnedExtends(c, MarkDeliveredCas(c, d, receipt, record, life), receipt);
    DeliveryKept(c, MarkDeliveredCas(c, d, receipt, record, life));
  }

  lemma MarkerDelivery(c: Cell, d: ProcessId)
    requires DeliveryInv(c)
    ensures DeliveryInv(MarkerNext(c, d))
  {
    if d in c.procs.markers {
      assert ReceiptOk(c, c.procs.markers[d]);
      match c.procs.markers[d]
      case MarkLoading(receipt, now) => DeliveryKept(c, MarkDeliveredLoad(c, d, receipt, now));
      case MarkCas(receipt, record, life) => MarkDeliveredDelivery(c, d, receipt, record, life);
      case MarkDelete(key, _) => DeliveryKept(c, SetMarker(DeleteOutbox(c, key), d, MarkDone(true)));
      case MarkDone(_) =>
    }
  }

  lemma OtherLeavesDelivery(c: Cell, e: Event)
    requires e.Start? || e.Tick? || e.Wipe? || e.EraseMessage? || e.EraseOutbox? || e.ExpireRow? || e.ExpireMessage? ||
             e.ExpireOutbox?
    ensures LeavesDelivery(c, Next(c, e))
  {
  }

  lemma StepDelivery(c: Cell, e: Event)
    requires IdentityInv(c) && OutboxInv(c) && DeliveryInv(c)
    ensures DeliveryInv(Next(c, e))
  {
    match e
    case Step(w) =>
      WorkerLeavesDelivery(c, w);
      DeliveryKept(c, Next(c, e));
    case StepLost(w) =>
      WorkerLeavesDelivery(c, w);
      DeliveryKept(c, Next(c, e));
    case Publish(w) => WorkerPublishes(c, w);
    case Drain(key) => DrainPublishes(c, key);
    case Deliver(g, delivery) => DeliveryKept(c, Next(c, e));
    case GatewayStep(g) => GatewayDelivery(c, g);
    case Receipt(d, receipt) => DeliveryKept(c, Next(c, e));
    case MarkerStep(d) => MarkerDelivery(c, d);
    case SanitizerStep(z) =>
      SanitizerLeavesDelivery(c, z);
      DeliveryKept(c, Next(c, e));
    case _ =>
      OtherLeavesDelivery(c, e);
      DeliveryKept(c, Next(c, e));
  }

  lemma {:induction false} RunDelivery(c: Cell, events: seq<Event>)
    requires IdentityInv(c) && DurableInv(c) && DeliveryInv(c)
    ensures IdentityInv(Run(c, events)) && DeliveryInv(Run(c, events))
    decreases |events|
  {
    if events != [] {
      StepDelivery(c, events[0]);
      StepDurable(c, events[0]);
      StepIdentity(c, events[0]);
      RunDelivery(Next(c, events[0]), events[1..]);
    }
  }

  lemma ReachableDelivery(c: Cell)
    requires Reachable(c)
    ensures IdentityInv(c) && DeliveryInv(c)
  {
    var sender, messageId, lease, clock, events :| c == Run(Initial(sender, messageId, lease, clock), events);
    RunDelivery(Initial(sender, messageId, lease, clock), events);
  }

  /** In every run, a delivered row is backed by acceptances of every recipient of some published life of its key. */
  lemma DeliveredMeansAccepted(c: Cell)
    requires Reachable(c) && RowDelivered(c)
    ensures exists life :: Earned(c, life)
  {
    ReachableDelivery(c);
  }

  /** While a key has had one row life only, those are the recipients of the row's own envelope. */
  lemma FirstLifeDeliveredMeansAccepted(c: Cell)
    requires Reachable(c) && RowDelivered(c) && Current(c) == 1
    ensures AllAccepted(c, Current(c))
  {
    ReachableDelivery(c);
  }

  /** A sender and the requests it uses the key with. */
  datatype Use = Use(sender: Uin, requests: set<Request>)

  predicate Uses(use: Use, req: Request) { req in use.requests && Coherent(use.sender, req) }

  ghost predicate UsesOnly(events: seq<Event>, use: Use) {
    forall i :: 0 <= i < |events| && events[i].Start? ==> Uses(use, events[i].req)
  }

  /** Reachable by a run in which the sender uses the key with these requests only. */
  ghost predicate ReachableUsing(c: Cell, use: Use) {
    exists messageId, lease, clock, events ::
      UsesOnly(events, use) && c == Run(Initial(use.sender, messageId, lease, clock), events)
  }

  /** The request gets past validation. */
  predicate Usable(use: Use, req: Request) { Uses(use, req) && ValidRequest(use.sender, req) }

  ghost predicate EnvelopeFrom(use: Use, e: Envelope) { exists req :: Usable(use, req) && req.envelope == e }

  ghost predicate LivesFrom(c: Cell, use: Use) {
    c.sender == use.sender && forall i :: 0 <= i < |c.log.lives| ==> EnvelopeFrom(use, c.log.lives[i].envelope)
  }

  ghost predicate WorkersFrom(c: Cell, use: Use) {
    forall w :: w in c.procs.workers ==> Uses(use, c.procs.workers[w].req)
  }

  lemma WorkerStepFrom(c: Cell, w: ProcessId, use: Use)
    requires WorkersInv(c) && LivesFrom(c, use) && WorkersFrom(c, use)
    ensures LivesFrom(WorkerStep(c, w), use) && WorkersFrom(WorkerStep(c, w), use)
  {
    if w in c.procs.workers {
      assert WorkerOk(c, c.procs.workers[w]);
      WorkerMoves(c, w);
      if c.procs.workers[w].Claiming? { assert Usable(use, c.procs.workers[w].req); }
    }
  }

  lemma StepFrom(c: Cell, e: Event, use: Use)
    requires IdentityInv(c) && LivesFrom(c, use) && WorkersFrom(c, use)
    requires e.Start? ==> Uses(use, e.req)
    ensures LivesFrom(Next(c, e), use) && WorkersFrom(Next(c, e), use)
  {
    match e
    case Step(w) => WorkerStepFrom(c, w, use);
    case StepLost(w) => WorkerStepFrom(c, w, use);
    case Start(_, _) =>
    case MarkerStep(d) => MarkerStepFrom(c, d);
    case SanitizerStep(z) => SanitizerTables(c, z);
    case _ => OtherCore(c, e);
  }

  lemma MarkerStepFrom(c: Cell, d: ProcessId)
    ensures MarkerNext(c, d).log.lives == c.log.lives && MarkerNext(c, d).procs.workers == c.procs.workers
    ensures MarkerNext(c, d).sender == c.sender
  {
  }

  lemma {:induction false} RunFrom(c: Cell, events: seq<Event>, use: Use)
    requires IdentityInv(c) && LivesFrom(c, use) && WorkersFrom(c, use) && UsesOnly(events, use)
    ensures LivesFrom(Run(c, events), use)
    decreases |events|
  {
    if events != [] {
      StepFrom(c, events[0], use);
      StepIdentity(c, events[0]);
      RunFrom(Next(c, events[0]), events[1..], use);
    }
  }

  /** All requests that get past validation name everyone the others name. */
  ghost predicate NamesAgree(use: Use) {
    forall e, f :: Usable(use, e) && Usable(use, f) ==> Names(f.envelope) <= Names(e.envelope)
  }

  /** If the requests of a key agree on their recipients, delivered means accepted by the row's own recipients. */
  lemma AgreeingNamesSuffice(c: Cell, use: Use)
    requires ReachableUsing(c, use) && NamesAgree(use) && RowDelivered(c)
    ensures AllAccepted(c, Current(c))
  {
    var messageId, lease, clock, events :|
      UsesOnly(events, use) && c == Run(Initial(use.sender, messageId, lease, clock), events);
    RunFrom(Initial(use.sender, messageId, lease, clock), events, use);
    RunDelivery(Initial(use.sender, messageId, lease, clock), events);
    var life :| Earned(c, life);
    assert EnvelopeFrom(use, LifeAt(c, life).envelope) && EnvelopeFrom(use, LifeAt(c, Current(c)).envelope);
  }
}
