/**
 Whole calls against a cell that other processes keep changing: PersistDirect/PersistGroup, one
 sanitize call with its bounded retry loop, and one gateway delivery. What other processes do between
 two statements of a call is an argument of the call.
 */
module IngestCalls {
  import opened Options
  import opened IngestTypes
  import opened Ingest
  import opened IngestIdentity
  import opened IngestRecipients
  import opened IngestDelivery
  import opened IngestEffects

  /** Events of other processes: none of them runs this worker, sanitizer or gateway. */
  predicate Foreign(events: seq<Event>, w: Option<ProcessId>, z: Option<ProcessId>, g: Option<ProcessId>) {
    forall i :: 0 <= i < |events| ==>
      (events[i].Start? || events[i].Step? || events[i].StepLost? ==> Some(events[i].w) != w) &&
      (events[i].Wipe? || events[i].SanitizerStep? ==> Some(events[i].z) != z) &&
      (events[i].Deliver? || events[i].GatewayStep? ==> Some(events[i].g) != g)
  }

  predicate AllForeign(schedule: seq<seq<Event>>, w: Option<ProcessId>, z: Option<ProcessId>, g: Option<ProcessId>) {
    forall i :: 0 <= i < |schedule| ==> Foreign(schedule[i], w, z, g)
  }

  /** What runs before the i-th own step. */
  function Before(schedule: seq<seq<Event>>, i: nat): seq<Event> { if i < |schedule| then schedule[i] else [] }

  /** The processes of the given names have the same entries in both cells. */
  predicate SameProcesses(c: Cell, d: Cell, w: Option<ProcessId>, z: Option<ProcessId>, g: Option<ProcessId>) {
    (w.Some? && w.value in c.procs.workers ==>
       w.value in d.procs.workers && d.procs.workers[w.value] == c.procs.workers[w.value]) &&
    (z.Some? && z.value in c.procs.sanitizers ==>
       z.value in d.procs.sanitizers && d.procs.sanitizers[z.value] == c.procs.sanitizers[z.value]) &&
    (g.Some? && g.value in c.procs.gateways ==>
       g.value in d.procs.gateways && d.procs.gateways[g.value] == c.procs.gateways[g.value])
  }

  /** A process keeps its own entry while others run. */
  lemma ForeignStepKeeps(c: Cell, e: Event, w: Option<ProcessId>, z: Option<ProcessId>, g: Option<ProcessId>)
    requires Foreign([e], w, z, g)
    ensures SameProcesses(c, Next(c, e), w, z, g)
  {
    var own := [e][0];
    match e
    case Step(v) => OtherWorkerStep(c, e);
    case StepLost(v) => OtherWorkerStep(c, e);
    case SanitizerStep(y) => if y in c.procs.sanitizers { OtherSanitizerStep(c, y); }
    case MarkerStep(d) => OtherMarkerStep(c, d);
    case _ =>
  }

  lemma OtherWorkerStep(c: Cell, e: Event)
    requires e.Step? || e.StepLost?
    ensures Next(c, e).procs == c.procs.(workers := Next(c, e).procs.workers)
    ensures forall v :: v in c.procs.workers && v != e.w ==>
              v in Next(c, e).procs.workers && Next(c, e).procs.workers[v] == c.procs.workers[v]
  {
    WorkerMoves(c, e.w);
  }

  lemma OtherSanitizerStep(c: Cell, y: ProcessId)
    requires y in c.procs.sanitizers
    ensures y in SanitizerNext(c, y).procs.sanitizers
    ensures SanitizerNext(c, y).procs ==
            c.procs.(sanitizers := c.procs.sanitizers[y := SanitizerNext(c, y).procs.sanitizers[y]])
  {
  }

  lemma OtherMarkerStep(c: Cell, d: ProcessId)
    ensures MarkerNext(c, d).procs == c.procs.(markers := MarkerNext(c, d).procs.markers)
  {
  }

  lemma {:induction false} ForeignKeeps(c: Cell, events: seq<Event>, w: Option<ProcessId>, z: Option<ProcessId>, g: Option<ProcessId>)
    requires Foreign(events, w, z, g)
    ensures SameProcesses(c, Run(c, events), w, z, g)
    decreases |events|
  {
    if events != [] {
      ForeignStepKeeps(c, events[0], w, z, g);
      ForeignKeeps(Next(c, events[0]), events[1..], w, z, g);
    }
  }

  lemma OwnStep(c: Cell, w: ProcessId)
    requires Running(c, w)
    ensures
      var d := Next(c, Step(w));
      w in d.procs.workers && d.procs.workers[w].req == c.procs.workers[w].req &&
      StepsLeft(d.procs.workers[w]) < StepsLeft(c.procs.workers[w])
  {
    WorkerMoves(c, w);
  }

  lemma RunSnoc(c: Cell, events: seq<Event>, e: Event)
    ensures Run(c, events + [e]) == Next(Run(c, events), e)
  {
    RunAppend(c, events, [e]);
    var d := Run(c, events);
    assert Run(d, [e]) == Run(Next(d, e), [e][1..]) == Next(d, e);
  }

  /** Another process changes the recipient list of an existing row, or removes the row. */
  predicate Paid(c: Cell, e: Event, z: ProcessId) {
    e != SanitizerStep(z) && c.row.Some? &&
    (Next(c, e).row.None? || Next(c, e).row.value.recipients != c.row.value.recipients)
  }

  function PaidEvents(c: Cell, events: seq<Event>, z: ProcessId): nat
    decreases |events|
  {
    if events == [] then 0
    else (if Paid(c, events[0], z) then 1 else 0) + PaidEvents(Next(c, events[0]), events[1..], z)
  }

  /** Such a change is a strict shrink or the row's disappearance. */
  lemma PaidShrinks(c: Cell, e: Event, z: ProcessId)
    requires Reachable(c) && Paid(c, e, z) && Next(c, e).row.Some?
    ensures |Next(c, e).row.value.recipients| < |c.row.value.recipients|
  {
    ReachableRecipients(c);
    match e
    case Step(w) => WorkerKeepsColumn(c, w);
    case StepLost(w) => WorkerKeepsColumn(c, w);
    case SanitizerStep(y) =>
      if y in c.procs.sanitizers && c.procs.sanitizers[y].SanWriting? {
        assert SanitizerOk(c, c.procs.sanitizers[y]);
        WithoutMembers(c.row.value.recipients, c.procs.sanitizers[y].uin, 0);
        SanitizerShrinks(c, y);
      }
    case _ =>
  }

  lemma SanitizerShrinks(c: Cell, y: ProcessId)
    requires c.row.Some? && y in c.procs.sanitizers && c.procs.sanitizers[y].SanWriting?
    ensures
      var d := SanitizerNext(c, y);
      d.row.Some? &&
      (d.row.value.recipients == c.row.value.recipients || d.row.value.recipients == [] ||
       (c.procs.sanitizers[y].snapshot.kind == Group && c.row.value.recipients == c.procs.sanitizers[y].snapshot.recipients &&
        d.row.value.recipients == Without(c.row.value.recipients, c.procs.sanitizers[y].uin)))
  {
  }

  /** With no such change in between, a list read is the list still there. */
  lemma {:induction false} UnpaidKeepsList(c: Cell, events: seq<Event>, z: ProcessId)
    requires c.row.Some? && PaidEvents(c, events, z) == 0 && SanitizerStep(z) !in events
    ensures Run(c, events).row.Some? && Run(c, events).row.value.recipients == c.row.value.recipients
    decreases |events|
  {
    if events != [] {
      assert events[0] in events && forall e :: e in events[1..] ==> e in events;
      UnpaidKeepsList(Next(c, events[0]), events[1..], z);
    }
  }

  lemma {:induction false} PaidAppend(c: Cell, first: seq<Event>, second: seq<Event>, z: ProcessId)
    ensures PaidEvents(c, first + second, z) == PaidEvents(c, first, z) + PaidEvents(Run(c, first), second, z)
    decreases |first|
  {
    if first == [] {
      assert first + second == second;
    } else {
      assert (first + second)[1..] == first[1..] + second;
      PaidAppend(Next(c, first[0]), first[1..], second, z);
    }
  }

  /** The read of an attempt either ends the call or leaves a snapshot of the row; it changes no row it snapshots. */
  lemma ReadAttempt(c: Cell, z: ProcessId, uin: Uin)
    requires z in c.procs.sanitizers && c.procs.sanitizers[z] == SanReading(uin)
    ensures
      var d := Next(c, SanitizerStep(z));
      z in d.procs.sanitizers &&
      ((d.procs.sanitizers[z] == SanDone(uin) && (uin, Current(d)) in d.log.wipes.cleared) ||
       (c.row.Some? && d.row == c.row && d.procs.sanitizers[z] == SanWriting(uin, c.row.value, Current(c))))
  {
  }

  /** The write of an attempt ends the call unless the list read is no longer there. */
  lemma WriteAttempt(c: Cell, z: ProcessId, uin: Uin, snapshot: Row, life: nat)
    requires z in c.procs.sanitizers && c.procs.sanitizers[z] == SanWriting(uin, snapshot, life)
    ensures
      var d := Next(c, SanitizerStep(z));
      z in d.procs.sanitizers &&
      ((d.procs.sanitizers[z] == SanDone(uin) && (uin, Current(d)) in d.log.wipes.cleared) ||
       (d.procs.sanitizers[z] == SanReading(uin) && (c.row.None? || c.row.value.recipients != snapshot.recipients)))
  {
  }

  /** An own step is never paid, so appending it keeps the count. */
  lemma OwnAppend(c: Cell, trace: seq<Event>, z: ProcessId)
    ensures PaidEvents(c, trace + [SanitizerStep(z)], z) == PaidEvents(c, trace, z)
  {
    PaidAppend(c, trace, [SanitizerStep(z)], z);
    var d := Run(c, trace);
    assert PaidEvents(d, [SanitizerStep(z)], z) == PaidEvents(Next(d, SanitizerStep(z)), [SanitizerStep(z)][1..], z);
  }

  lemma {:induction false} AcceptedGrows(c: Cell, events: seq<Event>)
    ensures c.queue.accepted <= Run(c, events).queue.accepted && c.queue.receipts <= Run(c, events).queue.receipts
    decreases |events|
  {
    if events != [] {
      AcceptedStep(c, events[0]);
      AcceptedGrows(Next(c, events[0]), events[1..]);
    }
  }

  lemma AcceptedStep(c: Cell, e: Event)
    ensures c.queue.accepted <= Next(c, e).queue.accepted && c.queue.receipts <= Next(c, e).queue.receipts
  {
    match e
    case Step(w) => WorkerKeepsQueue(c, w);
    case StepLost(w) => WorkerKeepsQueue(c, w);
    case _ =>
  }

  const MAX_CAS_ATTEMPTS := 8

  /** The services of one key: a shared cell that calls and other processes change step by step. */
  class Service {
    var cell: Cell

    constructor (sender: Uin, messageId: nat, lease: Time)
      ensures cell == Initial(sender, messageId, lease, 0)
    {
      cell := Initial(sender, messageId, lease, 0);
    }

    /** Other processes run between two statements of a call. */
    method Interfere(events: seq<Event>)
      modifies this
      ensures cell == Run(old(cell), events)
    {
      var i := 0;
      while i < |events|
        invariant i <= |events| && Run(cell, events[i..]) == Run(old(cell), events)
      {
        assert events[i..][1..] == events[i + 1..];
        cell := Next(cell, events[i]);
        i := i + 1;
      }
    }

    /** PersistDirect and PersistGroup. However others interleave, the call ends within seven own statements; its
        answer is the outcome the machine records, so every theorem about runs speaks about this call. Undisturbed, its
        answer and its effect are those PersistsAlone reads off the row it finds. */
    method Persist(w: ProcessId, req: Request, schedule: seq<seq<Event>>) returns (outcome: Outcome, steps: nat, ghost trace: seq<Event>)
      requires w !in cell.procs.workers && AllForeign(schedule, Some(w), None, None)
      modifies this
      ensures cell == Run(old(cell), trace) && steps <= 7
      ensures w in cell.procs.workers && cell.procs.workers[w].Finished?
      ensures cell.procs.workers[w].req == req && cell.procs.workers[w].outcome == outcome
      ensures schedule == [] && Reachable(old(cell)) && 0 < old(cell).lease ==> PersistsAlone(old(cell), cell, req, outcome)
    {
      cell := Next(cell, Start(w, req));
      trace := [Start(w, req)];
      steps := 0;
      while !cell.procs.workers[w].Finished?
        invariant w in cell.procs.workers && cell.procs.workers[w].req == req
        invariant cell == Run(old(cell), trace)
        invariant steps + StepsLeft(cell.procs.workers[w]) <= 7
        invariant schedule == [] ==> Alone(cell, w) == Alone(Next(old(cell), Start(w, req)), w)
        decreases StepsLeft(cell.procs.workers[w])
      {
        ghost var before := cell;
        Interfere(Before(schedule, steps));
        ForeignKeeps(before, Before(schedule, steps), Some(w), None, None);
        RunAppend(old(cell), trace, Before(schedule, steps));
        trace := trace + Before(schedule, steps);
        OwnStep(cell, w);
        RunSnoc(old(cell), trace, Step(w));
        trace := trace + [Step(w)];
        cell := Next(cell, Step(w));
        steps := steps + 1;
      }
      if schedule == [] && Reachable(old(cell)) && 0 < old(cell).lease { PersistAlone(old(cell), w, req); }
      outcome := cell.procs.workers[w].outcome;
    }

    /** One sanitizeIngestReceipt call: read, compute, compare-and-set, at most eight times. It fails only if
        eight times another process shrank the list or removed the row between its read and its write. Undisturbed, the
        first attempt does what SanitizesAlone says. */
    method SanitizeReceipt(z: ProcessId, uin: Uin, beforeRead: seq<seq<Event>>, beforeWrite: seq<seq<Event>>)
      returns (ok: bool, attempts: nat, ghost trace: seq<Event>)
      requires z !in cell.procs.sanitizers && AllForeign(beforeRead, None, Some(z), None) && AllForeign(beforeWrite, None, Some(z), None)
      modifies this
      ensures cell == Run(old(cell), trace)
      ensures attempts <= 8 && (!ok ==> attempts == 8 && PaidEvents(old(cell), trace, z) >= 8)
      ensures ok ==> (uin, Current(cell)) in cell.log.wipes.cleared
      ensures beforeRead == [] && beforeWrite == [] ==> ok && SanitizesAlone(old(cell), cell, uin)
    {
      cell := Next(cell, Wipe(z, uin));
      trace := [Wipe(z, uin)];
      ok, attempts := false, 0;
      while attempts < MAX_CAS_ATTEMPTS && !ok
        invariant attempts <= MAX_CAS_ATTEMPTS && cell == Run(old(cell), trace)
        invariant z in cell.procs.sanitizers
        invariant !ok ==> cell.procs.sanitizers[z] == SanReading(uin) && PaidEvents(old(cell), trace, z) >= attempts
        invariant ok ==> (uin, Current(cell)) in cell.log.wipes.cleared
        invariant attempts == 0 ==> !ok && cell == Next(old(cell), Wipe(z, uin))
        invariant beforeRead == [] && beforeWrite == [] && attempts > 0 ==> ok && SanitizesAlone(old(cell), cell, uin)
      {
        ok, trace := Attempt(z, uin, Before(beforeRead, attempts), Before(beforeWrite, attempts), old(cell), trace);
        attempts := attempts + 1;
      }
    }

    /** One attempt: lost attempts are paid for. */
    method Attempt(z: ProcessId, uin: Uin, read: seq<Event>, write: seq<Event>, ghost start: Cell, ghost before: seq<Event>)
      returns (ok: bool, ghost trace: seq<Event>)
      requires cell == Run(start, before) && z in cell.procs.sanitizers && cell.procs.sanitizers[z] == SanReading(uin)
      requires Foreign(read, None, Some(z), None) && Foreign(write, None, Some(z), None)
      modifies this
      ensures cell == Run(start, trace) && z in cell.procs.sanitizers
      ensures !ok ==> cell.procs.sanitizers[z] == SanReading(uin) &&
                      PaidEvents(start, trace, z) > PaidEvents(start, before, z)
      ensures ok ==> (uin, Current(cell)) in cell.log.wipes.cleared
      ensures read == [] && write == [] ==> ok && SanitizesAlone(old(cell), cell, uin)
    {
      ghost var c0 := cell;
      if read == [] && write == [] { AttemptAlone(cell, z, uin); }
      Interfere(read);
      ForeignKeeps(c0, read, None, Some(z), None);
      trace := before + read;
      RunAppend(start, before, read);
      PaidAppend(start, before, read, z);
      ReadAttempt(cell, z, uin);
      RunSnoc(start, trace, SanitizerStep(z));
      OwnAppend(start, trace, z);
      trace := trace + [SanitizerStep(z)];
      cell := Next(cell, SanitizerStep(z));
      ok := cell.procs.sanitizers[z].SanDone?;
      if !ok {
        ok, trace := CompareAndSet(z, uin, write, start, trace);
      }
    }

    method CompareAndSet(z: ProcessId, uin: Uin, write: seq<Event>, ghost start: Cell, ghost before: seq<Event>)
      returns (ok: bool, ghost trace: seq<Event>)
      requires cell == Run(start, before) && z in cell.procs.sanitizers && cell.row.Some?
      requires cell.procs.sanitizers[z].SanWriting? && cell.procs.sanitizers[z].uin == uin
      requires cell.procs.sanitizers[z].snapshot == cell.row.value && Foreign(write, None, Some(z), None)
      modifies this
      ensures cell == Run(start, trace) && z in cell.procs.sanitizers
      ensures !ok ==> cell.procs.sanitizers[z] == SanReading(uin) &&
                      PaidEvents(start, trace, z) > PaidEvents(start, before, z)
      ensures ok ==> (uin, Current(cell)) in cell.log.wipes.cleared
      ensures write == [] ==> cell == Next(old(cell), SanitizerStep(z)) && (ok <==> cell.procs.sanitizers[z].SanDone?)
    {
      ghost var c0, snapshot, life := cell, cell.row.value, cell.procs.sanitizers[z].life;
      Interfere(write);
      ForeignKeeps(c0, write, None, Some(z), None);
      trace := before + write;
      RunAppend(start, before, write);
      PaidAppend(start, before, write, z);
      if PaidEvents(c0, write, z) == 0 {
        UnpaidKeepsList(c0, write, z);
      }
      WriteAttempt(cell, z, uin, snapshot, life);
      RunSnoc(start, trace, SanitizerStep(z));
      OwnAppend(start, trace, z);
      trace := trace + [SanitizerStep(z)];
      cell := Next(cell, SanitizerStep(z));
      ok := cell.procs.sanitizers[z].SanDone?;
    }

    /** acceptDelivery: the receipt is sent only after every named recipient has accepted. Undisturbed, exactly they accept and
        exactly this receipt is sent. */
    method AcceptDelivery(g: ProcessId, delivery: Published, schedule: seq<seq<Event>>) returns (ghost trace: seq<Event>)
      requires delivery in cell.queue.broker && g !in cell.procs.gateways && AllForeign(schedule, None, None, Some(g))
      modifies this
      ensures cell == Run(old(cell), trace) && Names(delivery.envelope) <= cell.queue.accepted
      ensures delivery.envelope.named != [] ==> delivery.life in cell.queue.receipts
      ensures schedule == [] ==>
                cell.queue.broker == old(cell).queue.broker && cell.queue.accepted == old(cell).queue.accepted + Names(delivery.envelope) &&
                cell.queue.receipts == old(cell).queue.receipts + (if delivery.envelope.named == [] then {} else {delivery.life}) &&
                cell.row == old(cell).row && cell.tables == old(cell).tables
    {
      cell := Next(cell, Deliver(g, delivery));
      trace := [Deliver(g, delivery)];
      var named, next := delivery.envelope.named, 0;
      while next < |named|
        invariant next <= |named| && cell == Run(old(cell), trace)
        invariant g in cell.procs.gateways && cell.procs.gateways[g] == Accepting(delivery, next)
        invariant forall i :: 0 <= i < next ==> (delivery.envelope.scope, named[i]) in cell.queue.accepted
        invariant schedule == [] ==>
                    cell.queue.broker == old(cell).queue.broker && cell.queue.receipts == old(cell).queue.receipts &&
                    cell.queue.accepted == old(cell).queue.accepted + (set i | 0 <= i < next :: (delivery.envelope.scope, named[i])) &&
                    cell.row == old(cell).row && cell.tables == old(cell).tables
      {
        trace := GatewayTurn(g, Before(schedule, next), old(cell), trace);
        next := next + 1;
      }
      trace := GatewayTurn(g, Before(schedule, next), old(cell), trace);
    }

    /** Others run, then the gateway takes its next step. */
    method GatewayTurn(g: ProcessId, events: seq<Event>, ghost start: Cell, ghost before: seq<Event>)
      returns (ghost trace: seq<Event>)
      requires cell == Run(start, before) && g in cell.procs.gateways && cell.procs.gateways[g].Accepting?
      requires Foreign(events, None, None, Some(g))
      modifies this
      ensures cell == Run(start, trace) && old(cell).queue.accepted <= cell.queue.accepted && g in cell.procs.gateways
      ensures
        var delivery, next := old(cell).procs.gateways[g].delivery, old(cell).procs.gateways[g].next;
        if next < |delivery.envelope.named| then
          cell.procs.gateways[g] == Accepting(delivery, next + 1) &&
          (delivery.envelope.scope, delivery.envelope.named[next]) in cell.queue.accepted
        else delivery.envelope.named != [] ==> delivery.life in cell.queue.receipts
      ensures
        var delivery, next := old(cell).procs.gateways[g].delivery, old(cell).procs.gateways[g].next;
        var named := delivery.envelope.named;
        events == [] ==>
          cell.queue.broker == old(cell).queue.broker && cell.row == old(cell).row && cell.tables == old(cell).tables &&
          cell.queue.accepted == old(cell).queue.accepted + (if next < |named| then {(delivery.envelope.scope, named[next])} else {}) &&
          cell.queue.receipts == old(cell).queue.receipts + (if next < |named| || named == [] then {} else {delivery.life})
    {
      ghost var c0 := cell;
      Interfere(events);
      ForeignKeeps(c0, events, None, None, Some(g));
      AcceptedGrows(c0, events);
      RunAppend(start, before, events);
      RunSnoc(start, before + events, GatewayStep(g));
      trace := before + events + [GatewayStep(g)];
      cell := Next(cell, GatewayStep(g));
    }
  }
}
