/**
 Runs of polling clients: where a message is dropped unseen or stays hidden, and the exact conditions.
 */
module PollScenarios {
  import opened Options
  import opened PollCursors

  /** What is offered to the queue. */
  datatype Message = Message(scope: nat, id: Id, ordinary: bool)

  predicate UsesOnly(events: seq<Event>, messages: set<Message>) {
    forall e :: e in events && e.Accept? ==> Message(e.scope, e.id, e.ordinary) in messages
  }

  /** Reachable by a run in which only these messages are offered. */
  ghost predicate ReachableUsing(s: State, messages: set<Message>) {
    exists events :: UsesOnly(events, messages) && s == Run(Initial(), events)
  }

  lemma ReachableAnyway(s: State, messages: set<Message>)
    requires ReachableUsing(s, messages)
    ensures Reachable(s)
  {
    var events :| UsesOnly(events, messages) && s == Run(Initial(), events);
  }

  lemma {:induction false} RunSnoc(s: State, events: seq<Event>, e: Event)
    ensures Run(s, events + [e]) == Next(Run(s, events), e)
    decreases |events|
  {
    if events == [] {
      assert Run(s, [] + [e]) == Run(Next(s, e), [e][1..]);
    } else {
      assert (events + [e])[1..] == events[1..] + [e];
      RunSnoc(Next(s, events[0]), events[1..], e);
    }
  }

  lemma Advance(s: State, e: Event, messages: set<Message>)
    requires ReachableUsing(s, messages) && (e.Accept? ==> Message(e.scope, e.id, e.ordinary) in messages)
    ensures ReachableUsing(Next(s, e), messages)
  {
    var events :| UsesOnly(events, messages) && s == Run(Initial(), events);
    RunSnoc(Initial(), events, e);
    assert UsesOnly(events + [e], messages);
  }

  /** One message is accepted and a poll without a cursor is about to read. */
  lemma FirstRead(m: Message, messages: set<Message>) returns (s: State)
    requires m in messages
    ensures ReachableUsing(s, messages) && s.table == Table(map[], []) && s.nextToken == 0
    ensures s.queue == Queue([Record(1, m.scope, m.id, m.ordinary)], 1, {(m.scope, m.id)})
    ensures s.polls == map[0 := Reading(None, 20, 0)]
    ensures s.log == Log(map[], [], map[(m.scope, m.id) := Record(1, m.scope, m.id, m.ordinary)])
  {
    s := Initial();
    assert UsesOnly([], messages) && Run(s, []) == s;
    var accept := Accept(m.scope, m.id, m.ordinary);
    var a := Next(s, accept);
    Advance(s, accept, messages);
    var b := Next(a, Start(0, None, 20));
    Advance(a, Start(0, None, 20), messages);
    s := Next(b, Step(0));
    Advance(b, Step(0), messages);
  }

  /** One ordinary message, polled once without a cursor: it is in the response with cursor 0 and still queued. */
  lemma FirstPoll(m: Message, messages: set<Message>) returns (s: State)
    requires m in messages && m.ordinary
    ensures ReachableUsing(s, messages) && s.nextToken == 1 && s.polls == map[0 := Answered(Some(0))]
    ensures s.queue == Queue([Record(1, m.scope, m.id, true)], 1, {(m.scope, m.id)})
    ensures s.table == Table(map[0 := CursorState(1, [m.id])], [0])
    ensures s.log.responses == map[0 := [Record(1, m.scope, m.id, true)]] && s.log.advanced == []
  {
    var c := FirstRead(m, messages);
    var r := Record(1, m.scope, m.id, true);
    assert Beyond([r], 0) == [r] by { assert [r][1..] == []; }
    assert ReadItems(c.queue, 0, 20) == [r];
    var d := Next(c, Step(0));
    Advance(c, Step(0), messages);
    s := Next(d, Step(0));
    Advance(d, Step(0), messages);
    assert Ids([r]) == [m.id] by { assert [r][..0] == []; }
  }

  // Dropped unseen

  /** Some poll drops an ordinary record that the response it acknowledges did not hold. */
  ghost predicate DropsUnseen(s: State, e: Event, cursor: Token, r: Record) {
    AcksFor(s, e, cursor) && r.ordinary && r in s.queue.records && r !in Next(s, e).queue.records &&
    !(cursor in s.log.responses && r in s.log.responses[cursor])
  }

  /** No two ordinary messages of different scopes share an id. */
  predicate IdsAgree(messages: set<Message>) {
    forall m, n :: m in messages && n in messages && m.ordinary && n.ordinary && m.id == n.id ==> m.scope == n.scope
  }

  ghost predicate FromMessages(s: State, messages: set<Message>) {
    forall key :: key in s.log.accepted ==> Message(key.0, key.1, s.log.accepted[key].ordinary) in messages
  }

  lemma StepFrom(s: State, e: Event, messages: set<Message>)
    requires FromMessages(s, messages) && (e.Accept? ==> Message(e.scope, e.id, e.ordinary) in messages)
    ensures FromMessages(Next(s, e), messages)
  {
    match e
    case Step(p) => if p in s.polls { StepKeepsAccepted(s, p); }
    case _ =>
  }

  lemma StepKeepsAccepted(s: State, p: Pid)
    requires p in s.polls
    ensures StepNext(s, p).log.accepted == s.log.accepted
  {
  }

  lemma {:induction false} RunFrom(s: State, events: seq<Event>, messages: set<Message>)
    requires FromMessages(s, messages) && UsesOnly(events, messages)
    ensures FromMessages(Run(s, events), messages)
    decreases |events|
  {
    if events != [] {
      assert events[0] in events && forall e :: e in events[1..] ==> e in events;
      StepFrom(s, events[0], messages);
      RunFrom(Next(s, events[0]), events[1..], messages);
    }
  }

  lemma AgreeingIdsSuffice(messages: set<Message>, s: State, e: Event, cursor: Token, r: Record)
    requires IdsAgree(messages) && ReachableUsing(s, messages)
    ensures !DropsUnseen(s, e, cursor, r)
  {
    if DropsUnseen(s, e, cursor, r) {
      ReachableAnyway(s, messages);
      ReachableInv(s);
      ReachableRecords(s);
      var events :| UsesOnly(events, messages) && s == Run(Initial(), events);
      RunFrom(Initial(), events, messages);
      DroppedWasReturned(s, e, r);
      SharedId(s, messages, cursor, r);
    }
  }

  /** A message returned under the id of a queued ordinary record is that record. */
  lemma SharedId(s: State, messages: set<Message>, cursor: Token, r: Record)
    requires IdsAgree(messages) && FromMessages(s, messages) && RecordsOk(s) && r in s.queue.records && r.ordinary
    requires cursor in s.log.responses && r.id in Ids(s.log.responses[cursor])
    ensures r in s.log.responses[cursor]
  {
    IdsOfItems(s.log.responses[cursor], r.id);
    var o :| o in s.log.responses[cursor] && o.id == r.id && o.ordinary;
    assert Logged(s, o) && Logged(s, r);
  }

  /** Two ordinary messages of one id and different scopes: the first is polled, the second arrives, the client presents its
      cursor, and the second is gone although no response ever held it. */
  lemma SharedIdDropsUnseen(m: Message, n: Message, messages: set<Message>) returns (s: State, e: Event, r: Record)
    requires m in messages && n in messages && m.ordinary && n.ordinary && m.id == n.id && m.scope != n.scope
    ensures ReachableUsing(s, messages) && DropsUnseen(s, e, 0, r)
    ensures forall k :: k in s.log.responses ==> r !in s.log.responses[k]
  {
    var a := FirstPoll(m, messages);
    var accept := Accept(n.scope, n.id, true);
    var b := Next(a, accept);
    Advance(a, accept, messages);
    s := Next(b, Start(1, Some(0), 20));
    Advance(b, Start(1, Some(0), 20), messages);
    e, r := Step(1), Record(2, n.scope, n.id, true);
    assert s.queue.records[1] == r;
    UnackedMembers(s.queue.records, [m.id], r);
  }

  /** "Polling never drops an unseen ordinary message" holds in all runs exactly when no two ordinary messages of different
      scopes share an id. */
  lemma NothingUnseenDroppedExactlyWhen(messages: set<Message>)
    ensures (forall s, e, cursor, r :: ReachableUsing(s, messages) ==> !DropsUnseen(s, e, cursor, r)) <==> IdsAgree(messages)
  {
    if IdsAgree(messages) {
      forall s, e, cursor, r | ReachableUsing(s, messages) ensures !DropsUnseen(s, e, cursor, r) {
        AgreeingIdsSuffice(messages, s, e, cursor, r);
      }
    } else {
      var m, n :| m in messages && n in messages && m.ordinary && n.ordinary && m.id == n.id && m.scope != n.scope;
      var s, e, r := SharedIdDropsUnseen(m, n, messages);
    }
  }

  // Hidden

  lemma NothingKept(r: Record)
    ensures Unacked([r], [r.id]) == []
  {
    var keep := (o: Record) => o.id !in [r.id];
    assert [r][1..] == [];
    assert Kept([r], keep) == Kept([r][1..], keep);
  }

  /** The client presents its cursor: the message is acknowledged, the queue is empty, the counter is gone. */
  lemma SecondPoll(m: Message, messages: set<Message>) returns (s: State)
    requires m in messages && m.ordinary
    ensures ReachableUsing(s, messages) && s.queue == Queue([], 0, {(m.scope, m.id)})
    ensures s.table == Table(map[1 := CursorState(1, [])], [1])
    ensures s.log.responses == map[0 := [Record(1, m.scope, m.id, true)], 1 := []]
  {
    var a := FirstPoll(m, messages);
    var b := Next(a, Start(1, Some(0), 20));
    Advance(a, Start(1, Some(0), 20), messages);
    var c := Next(b, Step(1));
    Advance(b, Step(1), messages);
    NothingKept(Record(1, m.scope, m.id, true));
    assert c.queue == Queue([], 0, {(m.scope, m.id)}) && c.polls[1] == Reading(Some(0), 20, 1);
    var d := Next(c, Step(1));
    Advance(c, Step(1), messages);
    assert d.polls[1] == Answering(Some(0), [], 1);
    s := Next(d, Step(1));
    Advance(d, Step(1), messages);
    assert RemoveFirst([0], 0) == [];
  }

  /** The ordinary course of a client hides a message: once everything polled is acknowledged the sequence restarts, and the
      next message is invisible to the client's current cursor, whatever the limit. */
  lemma NextMessageHidden(m: Message, n: Message) returns (s: State, cursor: Token, r: Record)
    requires m.ordinary && n.ordinary && (m.scope, m.id) != (n.scope, n.id)
    ensures Reachable(s) && cursor in s.table.cursors && r in s.queue.records && r.ordinary
    ensures forall limit :: r !in ReadItems(s.queue, s.table.cursors[cursor].after, limit)
    ensures forall k :: k in s.log.responses ==> r !in s.log.responses[k]
  {
    var a := SecondPoll(m, {m, n});
    s := Next(a, Accept(n.scope, n.id, true));
    Advance(a, Accept(n.scope, n.id, true), {m, n});
    ReachableAnyway(s, {m, n});
    cursor, r := 1, Record(1, n.scope, n.id, true);
    assert s.queue.records == [r];
    assert Beyond([r], 1) == [];
  }
}
