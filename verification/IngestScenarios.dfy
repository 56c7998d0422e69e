/**
 Runs that show where the ingest guarantees end, for whole families of inputs. Each is built step by
 step from an empty cell.
 */
module IngestScenarios {
  import opened Options
  import opened IngestTypes
  import opened Ingest
  import opened IngestIdentity
  import opened IngestDurability
  import opened IngestDelivery

  lemma Empty(use: Use, messageId: nat, lease: Time) returns (c: Cell)
    ensures c == Initial(use.sender, messageId, lease, 0) && ReachableUsing(c, use)
  {
    c := Initial(use.sender, messageId, lease, 0);
    assert UsesOnly([], use) && c == Run(Initial(use.sender, messageId, lease, 0), []);
  }

  lemma Advance(c: Cell, e: Event, use: Use)
    requires ReachableUsing(c, use) && (e.Start? ==> Uses(use, e.req))
    ensures ReachableUsing(Next(c, e), use)
  {
    var messageId, lease, clock, events :|
      UsesOnly(events, use) && c == Run(Initial(use.sender, messageId, lease, clock), events);
    RunAppend(Initial(use.sender, messageId, lease, clock), events, [e]);
    assert Run(c, [e]) == Run(Next(c, e), [e][1..]) == Next(c, e);
    assert UsesOnly(events + [e], use);
  }

  /** What an undisturbed Persist on a key without a row leaves behind. */
  ghost predicate StoredBy(c: Cell, d: Cell, w: ProcessId, req: Request) {
    d.row == Some(Proposed(c.messageId, req, c.clock, c.lease, c.nextToken).(state := Stored)) &&
    d.procs == c.procs.(workers := c.procs.workers[w := Finished(req, Committed(c.messageId, c.clock, Stored), Current(c) + 1)]) &&
    d.queue == c.queue && d.clock == c.clock && d.sender == c.sender && d.messageId == c.messageId && d.lease == c.lease &&
    d.log.lives == c.log.lives + [LifeOf(c.messageId, req, c.clock)] && d.log.wipes == c.log.wipes.(removed := {}) &&
    d.log.erasures == c.log.erasures
  }

  lemma InsertClaim(c: Cell, w: ProcessId, req: Request, proposed: Row, use: Use) returns (d: Cell)
    requires ReachableUsing(c, use) && w in c.procs.workers && c.procs.workers[w] == Claiming(req, proposed)
    requires c.row.None?
    ensures ReachableUsing(d, use) && d == ClaimInsert(c, w, req, proposed)
  {
    Advance(c, Step(w), use);
    d := Next(c, Step(w));
  }

  lemma Claimed(c: Cell, w: ProcessId, req: Request, use: Use) returns (d: Cell)
    requires ReachableUsing(c, use) && Uses(use, req)
    requires c.row.None? && w !in c.procs.workers && ValidRequest(c.sender, req)
    ensures ReachableUsing(d, use)
    ensures d == ClaimInsert(Begin(c, w, req), w, req, Proposed(c.messageId, req, c.clock, c.lease, c.nextToken))
  {
    Advance(c, Start(w, req), use);
    d := InsertClaim(Next(c, Start(w, req)), w, req, Proposed(c.messageId, req, c.clock, c.lease, c.nextToken), use);
  }

  /** The batch and the clock reading of an undisturbed owner. */
  lemma WriteUndisturbed(b: Cell, w: ProcessId, req: Request, record: Row, life: nat, use: Use) returns (d: Cell)
    requires ReachableUsing(b, use) && w in b.procs.workers && b.procs.workers[w] == Writing(req, record, life)
    requires b.clock < record.expiresAt
    ensures ReachableUsing(d, use)
    ensures d == SetWorker(WriteBatch(b, w, req, record, life), w, Marking(req, record, life, b.clock))
  {
    Advance(b, Step(w), use);
    var written := Next(b, Step(w));
    assert written == WriteBatch(b, w, req, record, life);
    Advance(written, Step(w), use);
    d := Next(written, Step(w));
  }

  /** The steps of an undisturbed owner from its batch to the stored row. */
  lemma WriteAndMark(b: Cell, w: ProcessId, req: Request, record: Row, life: nat, use: Use) returns (d: Cell)
    requires ReachableUsing(b, use) && w in b.procs.workers && b.procs.workers[w] == Writing(req, record, life)
    requires b.row == Some(record) && record.state == Pending && record.hash.Some?
    requires b.clock < record.expiresAt && b.clock < record.leaseUntil
    ensures ReachableUsing(d, use)
    ensures d.row == Some(record.(state := Stored)) && d.queue == b.queue && d.clock == b.clock && d.sender == b.sender
    ensures d.messageId == b.messageId && d.lease == b.lease && d.log.lives == b.log.lives && d.log.wipes == b.log.wipes
    ensures d.log.erasures == b.log.erasures
    ensures d.procs ==
            b.procs.(workers := b.procs.workers[w := Finished(req, Committed(record.messageId, record.createdAt, Stored), life)])
  {
    var marking := WriteUndisturbed(b, w, req, record, life, use);
    d := Mark(marking, w, req, record, life, use);
  }

  lemma Mark(b: Cell, w: ProcessId, req: Request, record: Row, life: nat, use: Use) returns (d: Cell)
    requires ReachableUsing(b, use) && w in b.procs.workers && b.procs.workers[w] == Marking(req, record, life, b.clock)
    requires b.row == Some(record) && record.state == Pending && record.hash.Some?
    requires b.clock < record.expiresAt && b.clock < record.leaseUntil
    ensures ReachableUsing(d, use)
    ensures d.row == Some(record.(state := Stored)) && d.queue == b.queue && d.clock == b.clock && d.sender == b.sender
    ensures d.messageId == b.messageId && d.lease == b.lease && d.log.lives == b.log.lives && d.log.wipes == b.log.wipes
    ensures d.log.erasures == b.log.erasures
    ensures d.procs ==
            b.procs.(workers := b.procs.workers[w := Finished(req, Committed(record.messageId, record.createdAt, Stored), life)])
  {
    Advance(b, Step(w), use);
    var cas := Next(b, Step(w));
    assert cas == SetWorker(b, w, MarkingCas(req, record, life));
    Advance(cas, Step(w), use);
    d := Next(cas, Step(w));
    assert d == Reply(MarkStoredCas(cas, w, req, record, life), w);
  }

  lemma Store(c: Cell, w: ProcessId, req: Request, use: Use) returns (d: Cell)
    requires ReachableUsing(c, use) && Uses(use, req) && 0 < c.lease
    requires c.row.None? && w !in c.procs.workers && ValidRequest(c.sender, req)
    ensures ReachableUsing(d, use) && StoredBy(c, d, w, req)
  {
    var b := Claimed(c, w, req, use);
    d := WriteAndMark(b, w, req, b.row.value, Current(c) + 1, use);
  }

  /** Two cells that differ in their queue and gateways only. */
  ghost predicate SameRowSide(c: Cell, d: Cell) {
    d.row == c.row && d.clock == c.clock && d.sender == c.sender && d.messageId == c.messageId && d.lease == c.lease &&
    d.log == c.log && d.procs.workers == c.procs.workers && d.procs.markers == c.procs.markers &&
    d.procs.sanitizers == c.procs.sanitizers
  }

  /** A gateway that is not disturbed accepts for everyone its delivery names, then sends the receipt. */
  lemma AcceptRest(c: Cell, g: ProcessId, p: Published, next: nat, use: Use) returns (d: Cell)
    requires ReachableUsing(c, use) && g in c.procs.gateways && c.procs.gateways[g] == Accepting(p, next)
    requires next <= |p.envelope.named| && p.envelope.named != []
    ensures ReachableUsing(d, use) && SameRowSide(c, d)
    ensures p.life in d.queue.receipts && d.queue.accepted <= c.queue.accepted + Names(p.envelope)
    decreases |p.envelope.named| - next
  {
    Advance(c, GatewayStep(g), use);
    var b := Next(c, GatewayStep(g));
    if next == |p.envelope.named| {
      d := b;
    } else {
      var u := p.envelope.named[next];
      assert u in p.envelope.named && (p.envelope.scope, u) in Names(p.envelope);
      d := AcceptRest(b, g, p, next + 1, use);
    }
  }

  lemma PublishAndAccept(c: Cell, w: ProcessId, g: ProcessId, use: Use) returns (d: Cell)
    requires ReachableUsing(c, use) && w in c.procs.workers && g !in c.procs.gateways
    requires c.procs.workers[w].Finished? && c.procs.workers[w].outcome.Committed?
    requires c.procs.workers[w].outcome.state == Stored && c.procs.workers[w].req.envelope.named != []
    ensures ReachableUsing(d, use) && SameRowSide(c, d)
    ensures c.procs.workers[w].life in d.queue.receipts
    ensures d.queue.accepted <= c.queue.accepted + Names(c.procs.workers[w].req.envelope)
  {
    var p := Published(c.procs.workers[w].life, c.procs.workers[w].req.envelope);
    Advance(c, Publish(w), use);
    var b := Next(c, Publish(w));
    Advance(b, Deliver(g, p), use);
    d := AcceptRest(Next(b, Deliver(g, p)), g, p, 0, use);
  }

  lemma Expire(c: Cell, use: Use) returns (d: Cell)
    requires ReachableUsing(c, use) && c.row.Some? && c.clock <= c.row.value.expiresAt
    ensures ReachableUsing(d, use) && d == c.(clock := c.row.value.expiresAt, row := None)
  {
    var tick := Tick(c.row.value.expiresAt);
    Advance(c, tick, use);
    Advance(Next(c, tick), ExpireRow, use);
    d := Next(Next(c, tick), ExpireRow);
  }

  /** A receipt earned at any time marks whatever life is stored when it is processed. */
  lemma DeliverByReceipt(c: Cell, m: ProcessId, receipt: nat, use: Use) returns (d: Cell)
    requires ReachableUsing(c, use) && receipt in c.queue.receipts && m !in c.procs.markers
    requires c.row.Some? && c.row.value.state == Stored && c.row.value.hash.Some? && c.clock < c.row.value.expiresAt
    ensures ReachableUsing(d, use) && RowDelivered(d) && d.log.lives == c.log.lives && d.queue == c.queue
    ensures d.row == Some(c.row.value.(state := Delivered))
    ensures d == c.(row := d.row, procs := c.procs.(markers := d.procs.markers), log := c.log.(moves := d.log.moves))
    ensures m in d.procs.markers && d.procs.markers[m] == MarkDelete(OutboxKey(c.row.value.kind, c.row.value.createdAt), Current(c))
  {
    Advance(c, Receipt(m, receipt), use);
    var a := Next(c, Receipt(m, receipt));
    Advance(a, MarkerStep(m), use);
    var b := Next(a, MarkerStep(m));
    Advance(b, MarkerStep(m), use);
    d := Next(b, MarkerStep(m));
  }

  /** A first life whose receipt is out, accepted by nobody its request does not name, and whose row has expired. */
  lemma AcceptedThenExpired(use: Use, e: Request) returns (c: Cell)
    requires Usable(use, e)
    ensures ReachableUsing(c, use) && c.row.None? && c.lease == 1 && c.sender == use.sender && Current(c) == 1
    ensures 1 in c.queue.receipts && c.queue.accepted <= Names(e.envelope) && c.procs.workers.Keys == {0} && c.procs.markers == map[]
  {
    var c0 := Empty(use, 0, 1);
    var c1 := Store(c0, 0, e, use);
    var c2 := PublishAndAccept(c1, 0, 0, use);
    c := Expire(c2, use);
  }

  /** Two usable requests, one naming someone the other does not: some run delivers a row nobody there accepted. */
  lemma DisagreeingNamesBreak(use: Use, e: Request, f: Request) returns (d: Cell)
    requires Usable(use, e) && Usable(use, f) && !(Names(f.envelope) <= Names(e.envelope))
    ensures ReachableUsing(d, use) && RowDelivered(d) && !AllAccepted(d, Current(d))
  {
    var c := AcceptedThenExpired(use, e);
    var b := Store(c, 1, f, use);
    d := DeliverByReceipt(b, 0, 1, use);
    assert LifeAt(d, 2).envelope == f.envelope;
  }

  /** Delivered means accepted by the row's own recipients, in all runs, exactly when the key's requests agree. */
  lemma DeliveryExactlyWhenNamesAgree(use: Use)
    ensures (forall c :: ReachableUsing(c, use) && RowDelivered(c) ==> AllAccepted(c, Current(c))) <==> NamesAgree(use)
  {
    if NamesAgree(use) {
      forall c | ReachableUsing(c, use) && RowDelivered(c) ensures AllAccepted(c, Current(c)) {
        AgreeingNamesSuffice(c, use);
      }
    } else {
      var e, f :| Usable(use, e) && Usable(use, f) && !(Names(f.envelope) <= Names(e.envelope));
      var d := DisagreeingNamesBreak(use, e, f);
    }
  }

  /** A wipe worker reads a row that names its UIN and is then delayed. */
  lemma ReadForWipe(c: Cell, z: ProcessId, uin: Uin, use: Use) returns (d: Cell)
    requires ReachableUsing(c, use) && z !in c.procs.sanitizers && uin != c.sender
    requires c.row.Some? && !NothingToSanitize(c.row.value, uin, c.clock)
    ensures ReachableUsing(d, use)
    ensures d == SetSanitizer(c, z, SanWriting(uin, c.row.value, Current(c)))
                 .(log := c.log.(wipes := c.log.wipes.(wiped := c.log.wipes.wiped + {uin})))
  {
    Advance(c, Wipe(z, uin), use);
    var b := Next(c, Wipe(z, uin));
    Advance(b, SanitizerStep(z), use);
    d := Next(b, SanitizerStep(z));
    assert d.procs.sanitizers == c.procs.sanitizers[z := SanWriting(uin, c.row.value, Current(c))];
  }

  lemma DirectRowUnderWipe(use: Use, req: Request) returns (d: Cell)
    requires Usable(use, req) && req.DirectRequest? && req.receiver != use.sender
    ensures ReachableUsing(d, use) && d.row.Some? && d.clock <= d.row.value.expiresAt && d.sender == use.sender
    ensures 0 in d.procs.sanitizers && d.procs.sanitizers[0].SanWriting? && d.procs.sanitizers[0].snapshot.kind == Direct
    ensures d.procs.workers.Keys == {0} && d.log.wipes.wiped == {req.receiver} && Current(d) == 1
  {
    var c := Empty(use, 0, 1);
    var b := Claimed(c, 0, req, use);
    d := ReadForWipe(b, 0, req.receiver, use);
  }

  /** A terminalization that read a direct row and lands on a later group row erases a live recipient's message. */
  lemma CrossedTerminalizationLosesRecipient(use: Use, direct: Request, group: Request, live: Uin)
    requires Usable(use, direct) && direct.DirectRequest? && direct.receiver != use.sender
    requires Usable(use, group) && group.GroupRequest? && live in group.recipients && live != direct.receiver
    ensures exists d :: ReachableUsing(d, use) && LosesLiveRecipient(d, live)
  {
    var a := DirectRowUnderWipe(use, direct);
    var b := Expire(a, use);
    var c := Claimed(b, 1, group, use);
    var d := LateTerminalize(c, 0, live, use);
  }

  predicate LosesLiveRecipient(c: Cell, live: Uin) {
    IsLife(c, Current(c)) && LifeAt(c, Current(c)).kind == Group && live in LifeAt(c, Current(c)).recipients &&
    live !in c.log.wipes.wiped && c.row.Some? && c.row.value.state == Erased
  }

  lemma LateTerminalize(c: Cell, z: ProcessId, live: Uin, use: Use) returns (d: Cell)
    requires ReachableUsing(c, use) && c.row.Some? && IsLife(c, Current(c)) && LifeAt(c, Current(c)).kind == Group
    requires live in LifeAt(c, Current(c)).recipients && live !in c.log.wipes.wiped
    requires z in c.procs.sanitizers && c.procs.sanitizers[z].SanWriting? && c.procs.sanitizers[z].snapshot.kind == Direct
    ensures ReachableUsing(d, use) && LosesLiveRecipient(d, live)
  {
    Advance(c, SanitizerStep(z), use);
    d := Next(c, SanitizerStep(z));
  }

  /** Two direct requests to one receiver, the first for a message of one second. */
  predicate ShortAndLong(use: Use, short: Request, long: Request) {
    Usable(use, short) && Usable(use, long) && short.DirectRequest? && long.DirectRequest? && short.receiver == long.receiver &&
    short.envelope.expiresIn == 1 && long.envelope.expiresIn == 0
  }

  /** A first life is delivered, its outbox delete still to come, while a second worker of the same millisecond waits. */
  lemma DeliveredWithRivalWaiting(use: Use, short: Request, long: Request) returns (d: Cell)
    requires ShortAndLong(use, short, long)
    ensures ReachableUsing(d, use) && d.row.Some? && d.clock == 0 && d.row.value.expiresAt == 1000
    ensures d.log.erasures == Erasures({}, {}) && Current(d) == 1 && d.messageId == 0
    ensures 0 in d.procs.markers && d.procs.markers[0] == MarkDelete(OutboxKey(Direct, 0), 1)
    ensures 1 in d.procs.workers && d.procs.workers[1] == Claiming(long, Proposed(0, long, 0, 5000, 0))
  {
    var c0 := Empty(use, 0, 5000);
    Advance(c0, Start(1, long), use);
    var c1 := Next(c0, Start(1, long));
    var c2 := Store(c1, 0, short, use);
    var c3 := PublishAndAccept(c2, 0, 0, use);
    d := DeliverByReceipt(c3, 0, 1, use);
  }

  /** Why a stored row is only promised its outbox row when no earlier life shares its creation millisecond: the
      delayed delete of the earlier life removes the later one's outbox row. */
  lemma SharedMillisecondLosesOutbox(use: Use, short: Request, long: Request)
    requires ShortAndLong(use, short, long)
    ensures exists d :: ReachableUsing(d, use) && StoredWithoutOutbox(d)
  {
    var d := SharedMillisecond(use, short, long);
  }

  predicate StoredWithoutOutbox(c: Cell) {
    c.row.Some? && c.row.value.state == Stored && c.clock < c.row.value.expiresAt &&
    c.log.erasures == Erasures({}, {}) && OutboxKey(c.row.value.kind, c.row.value.createdAt) !in c.tables.outbox
  }

  lemma LateDelete(c: Cell, m: ProcessId, use: Use) returns (d: Cell)
    requires ReachableUsing(c, use) && m in c.procs.markers && c.procs.markers[m].MarkDelete?
    requires c.row.Some? && c.row.value.state == Stored && c.clock < c.row.value.expiresAt
    requires c.log.erasures == Erasures({}, {}) && c.procs.markers[m].key == OutboxKey(c.row.value.kind, c.row.value.createdAt)
    ensures ReachableUsing(d, use) && StoredWithoutOutbox(d)
  {
    Advance(c, MarkerStep(m), use);
    d := Next(c, MarkerStep(m));
  }

  lemma SharedMillisecond(use: Use, short: Request, long: Request) returns (d: Cell)
    requires ShortAndLong(use, short, long)
    ensures ReachableUsing(d, use) && StoredWithoutOutbox(d)
  {
    var a := DeliveredWithRivalWaiting(use, short, long);
    var b := Expire(a, use);
    var c := InsertClaim(b, 1, long, Proposed(0, long, 0, 5000, 0), use);
    var s := WriteAndMark(c, 1, long, c.row.value, 2, use);
    d := LateDelete(s, 0, use);
  }
}
