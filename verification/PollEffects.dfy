/**
 What a poll answers and leaves, in the fields of queue and cursor table: which cursors are rejected, what is
 acknowledged, read and returned, and what the next cursor stands for.
 */
module PollEffects {
  import opened Options
  import opened PollCursors

  // Rejection

  lemma {:induction false} AnswerStays(s: State, events: seq<Event>, p: Pid)
    requires p in s.polls && s.polls[p].Answered?
    ensures p in Run(s, events).polls && Run(s, events).polls[p] == s.polls[p]
    decreases |events|
  {
    if events != [] { AnswerStays(Next(s, events[0]), events[1..], p); }
  }

  /** A poll with a cursor that is not in the table gets no answer, then or ever after, and changes nothing. */
  lemma UnknownCursorRejected(s: State, p: Pid, token: Token, limit: nat, events: seq<Event>)
    requires p !in s.polls && token !in s.table.cursors
    ensures
      var t := Next(s, Start(p, Some(token), limit));
      t.queue == s.queue && t.table == s.table && t.log == s.log && t.nextToken == s.nextToken &&
      p in Run(t, events).polls && Run(t, events).polls[p] == Answered(None)
  {
    AnswerStays(Next(s, Start(p, Some(token), limit)), events, p);
  }

  /** In particular a cursor that has been replaced. */
  lemma ReplacedCursorRejected(s: State, i: nat, p: Pid, limit: nat, events: seq<Event>)
    requires Reachable(s) && i < |s.log.advanced| && p !in s.polls
    ensures
      var t := Next(s, Start(p, Some(s.log.advanced[i]), limit));
      t.queue == s.queue && t.table == s.table && t.log == s.log && p in Run(t, events).polls && Run(t, events).polls[p] == Answered(None)
  {
    CursorAdvancesOnce(s, i, i);
    UnknownCursorRejected(s, p, s.log.advanced[i], limit, events);
  }

  /** A poll with a cursor of the table is to acknowledge that cursor's messages and to read from its position; one without a
      cursor has nothing to acknowledge and reads from the start. */
  lemma StartMeans(s: State, p: Pid, token: Option<Token>, limit: nat)
    requires p !in s.polls && (token.Some? ==> token.value in s.table.cursors)
    ensures
      var t := Next(s, Start(p, token, limit));
      t.queue == s.queue && t.table == s.table && t.log == s.log && t.nextToken == s.nextToken &&
      t.polls == s.polls[p := Acking(token, limit, if token == None then CursorState(0, []) else s.table.cursors[token.value])]
  {
  }

  // Acknowledging and reading

  lemma ReachableQueue(s: State)
    requires Reachable(s)
    ensures QueueOk(s.queue)
  {
    var events :| s == Run(Initial(), events);
    RunQueue(Initial(), events);
  }

  /** Acknowledging drops exactly the records of these ids; what stays keeps its order. */
  lemma AckMeans(q: Queue, ids: seq<Id>)
    requires QueueOk(q)
    ensures
      var t := AckNext(q, ids);
      Ascending(t.records) && t.seen == q.seen && (forall r :: r in t.records <==> r in q.records && r.id !in ids) &&
      t.counter == if ids != [] && (forall r :: r in q.records ==> r.id in ids) then 0 else q.counter
  {
    AckQueue(q, ids);
    forall r ensures r in Unacked(q.records, ids) <==> r in q.records && r.id !in ids { UnackedMembers(q.records, ids, r); }
    if Unacked(q.records, ids) != [] { assert Unacked(q.records, ids)[0] in Unacked(q.records, ids); }
  }

  /** The first records beyond the position, up to the limit if there is one, in order. */
  ghost predicate ReadsOf(records: seq<Record>, after: nat, limit: nat, items: seq<Record>) {
    Ascending(items) && (forall r :: r in items ==> r in records && r.seqNo > after) && (limit > 0 ==> |items| <= limit) &&
    forall r :: r in records && r.seqNo > after && r !in items ==>
      limit > 0 && |items| == limit && forall o :: o in items ==> o.seqNo < r.seqNo
  }

  lemma ReadMeans(q: Queue, after: nat, limit: nat)
    requires QueueOk(q)
    ensures ReadsOf(q.records, after, limit, ReadItems(q, after, limit))
  {
    var all, items := Beyond(q.records, after), ReadItems(q, after, limit);
    BeyondAscending(q.records, after);
    forall r ensures r in all <==> r in q.records && r.seqNo > after { BeyondMembers(q.records, after, r); }
    forall r | r in items ensures r in all {}
    forall r | r in all && r !in items ensures limit > 0 && |items| == limit && forall o :: o in items ==> o.seqNo < r.seqNo {
      var i :| 0 <= i < |all| && all[i] == r;
      assert i >= |items|;
    }
  }

  // The answer

  /** The four newest of the cursors stay. */
  function Newest(order: seq<Token>): seq<Token> { if |order| <= 4 then order else order[|order| - 4..] }

  lemma {:induction false} EvictedNewest(t: Table)
    requires InStep(t)
    ensures Evicted(t).order == Newest(t.order) && InStep(Evicted(t))
    ensures forall k :: k in Evicted(t).cursors ==> k in t.cursors && Evicted(t).cursors[k] == t.cursors[k]
    decreases |t.order|
  {
    if |t.order| > MAX_CURSORS {
      var rest := Table(t.cursors - {t.order[0]}, t.order[1..]);
      assert t.order == [t.order[0]] + rest.order;
      assert forall k :: k in rest.order <==> k in t.order && k != t.order[0];
      EvictedNewest(rest);
    }
  }

  /** The order without one of its cursors. */
  ghost predicate Without(order: seq<Token>, token: Token, left: seq<Token>) {
    exists i :: 0 <= i < |order| && order[i] == token && left == order[..i] + order[i + 1..]
  }

  lemma {:induction false} RemovedAt(order: seq<Token>, token: Token) returns (i: nat)
    requires token in order
    ensures i < |order| && order[i] == token && RemoveFirst(order, token) == order[..i] + order[i + 1..]
    decreases |order|
  {
    if order[0] == token {
      i := 0;
    } else {
      var rest := order[1..];
      assert order == [order[0]] + rest;
      var j := RemovedAt(rest, token);
      i := j + 1;
      assert order[..i] == [order[0]] + rest[..j];
      assert order[i + 1..] == rest[j + 1..];
      assert RemoveFirst(order, token) == [order[0]] + RemoveFirst(rest, token);
    }
  }

  lemma RemovedOnce(order: seq<Token>, token: Token)
    requires token in order
    ensures Without(order, token, RemoveFirst(order, token))
  {
    var i := RemovedAt(order, token);
  }

  /** The table after an answer: a new cursor for what was read, the presented one gone, the others as they were, and of all of
      them the four newest. */
  ghost predicate Renewed(was: Table, now: Table, presented: Option<Token>, issued: Token, after: nat, items: seq<Record>) {
    InStep(now) && issued in now.cursors && (presented.Some? ==> presented.value !in now.cursors) &&
    now.cursors[issued].after == (if items == [] then after else items[|items| - 1].seqNo) &&
    (forall id :: id in now.cursors[issued].ids <==> exists r :: r in items && r.ordinary && r.id == id) &&
    (forall k :: k in now.cursors && k != issued ==> k in was.cursors && now.cursors[k] == was.cursors[k]) &&
    if presented == None then now.order == Newest(was.order + [issued])
    else exists left :: Without(was.order, presented.value, left) && now.order == Newest(left + [issued])
  }

  lemma IssuedMeans(t: Table, issued: Token, state: CursorState)
    requires InStep(t) && issued !in t.cursors
    ensures
      var r := Issued(t, issued, state);
      InStep(r) && r.order == Newest(t.order + [issued]) && issued in r.cursors && r.cursors[issued] == state &&
      forall k :: k in r.cursors && k != issued ==> k in t.cursors && r.cursors[k] == t.cursors[k]
  {
    var more := Table(t.cursors[issued := state], t.order + [issued]);
    assert InStep(more);
    EvictedNewest(more);
    assert Newest(more.order)[|Newest(more.order)| - 1] == issued;
  }

  /** The answer of a poll: none exactly if its cursor is gone by now, otherwise the new cursor. */
  lemma AnswersExactlyWhen(s: State, p: Pid)
    requires Reachable(s) && p in s.polls && s.polls[p].Answering?
    ensures
      var Answering(token, items, after) := s.polls[p];
      var t := Next(s, Step(p));
      t.queue == s.queue &&
      if token.Some? && token.value !in s.table.cursors then t.polls[p] == Answered(None) && t.table == s.table && t.log == s.log
      else
        t.polls[p] == Answered(Some(s.nextToken)) && t.nextToken == s.nextToken + 1 && t.log.responses == s.log.responses[s.nextToken := items] &&
        t.log.advanced == s.log.advanced + (if token.Some? then [token.value] else []) && Renewed(s.table, t.table, token, s.nextToken, after, items)
  {
    ReachableInv(s);
    ReachableAnswers(s);
    var Answering(token, items, after) := s.polls[p];
    var state := CursorState(after, Ids(items));
    forall id ensures id in state.ids <==> exists r :: r in items && r.ordinary && r.id == id { IdsOfItems(items, id); }
    if token == None {
      IssuedMeans(s.table, s.nextToken, state);
    } else if token.value in s.table.cursors {
      var left := Table(s.table.cursors - {token.value}, RemoveFirst(s.table.order, token.value));
      RemoveFirstMembers(s.table.order, token.value);
      RemovedOnce(s.table.order, token.value);
      assert InStep(left);
      IssuedMeans(left, s.nextToken, state);
    }
  }

  /** What a poll is about to answer: the position is that of the last item it read. */
  ghost predicate AnswersOk(s: State) {
    forall p :: p in s.polls && s.polls[p].Answering? && s.polls[p].items != [] ==>
      s.polls[p].after == s.polls[p].items[|s.polls[p].items| - 1].seqNo
  }

  lemma {:induction false} RunAnswers(s: State, events: seq<Event>)
    requires AnswersOk(s)
    ensures AnswersOk(Run(s, events))
    decreases |events|
  {
    if events != [] { RunAnswers(Next(s, events[0]), events[1..]); }
  }

  lemma ReachableAnswers(s: State)
    requires Reachable(s)
    ensures AnswersOk(s)
  {
    var events :| s == Run(Initial(), events);
    RunAnswers(Initial(), events);
  }

  lemma {:induction false} RunSnoc(s: State, events: seq<Event>, e: Event)
    ensures Run(s, events + [e]) == Next(Run(s, events), e)
    decreases |events|
  {
    if events == [] {
      assert [] + [e] == [e] && Run(s, [e]) == Run(Next(s, e), [e][1..]);
    } else {
      assert (events + [e])[1..] == events[1..] + [e];
      RunSnoc(Next(s, events[0]), events[1..], e);
    }
  }

  lemma ReachableSoon(s: State, e: Event)
    requires Reachable(s)
    ensures Reachable(Next(s, e))
  {
    var events :| s == Run(Initial(), events);
    RunSnoc(Initial(), events, e);
  }

  /** The first two steps of a poll that has begun: its cursor's messages go, the rest is read from its position on. */
  lemma AckAndReadAlone(s: State, p: Pid)
    requires Reachable(s) && p in s.polls && s.polls[p].Acking?
    ensures
      var Acking(token, limit, state) := s.polls[p];
      var t := Next(Next(s, Step(p)), Step(p));
      t.table == s.table && t.log.responses == s.log.responses && t.nextToken == s.nextToken &&
      (forall r :: r in t.queue.records <==> r in s.queue.records && r.id !in state.ids) && Ascending(t.queue.records) &&
      p in t.polls && t.polls[p].Answering? && t.polls[p].token == token && t.polls[p].after >= state.after &&
      (t.polls[p].items == [] ==> t.polls[p].after == state.after) && ReadsOf(t.queue.records, state.after, limit, t.polls[p].items)
  {
    var Acking(token, limit, state) := s.polls[p];
    ReachableQueue(s);
    AckMeans(s.queue, state.ids);
    AckQueue(s.queue, state.ids);
    ReadMeans(AckNext(s.queue, state.ids), state.after, limit);
  }

  /** A whole undisturbed poll: it acknowledges the messages of its cursor, returns the first records beyond its position, and
      leaves a cursor for them. */
  lemma PollAlone(s: State, p: Pid, token: Option<Token>, limit: nat)
    requires Reachable(s) && p !in s.polls && (token.Some? ==> token.value in s.table.cursors)
    ensures
      var t := Next(Next(Next(Next(s, Start(p, token, limit)), Step(p)), Step(p)), Step(p));
      var state := if token == None then CursorState(0, []) else s.table.cursors[token.value];
      t.polls[p] == Answered(Some(s.nextToken)) && s.nextToken in t.log.responses &&
      (forall r :: r in t.queue.records <==> r in s.queue.records && r.id !in state.ids) && Ascending(t.queue.records) &&
      ReadsOf(t.queue.records, state.after, limit, t.log.responses[s.nextToken]) &&
      Renewed(s.table, t.table, token, s.nextToken, state.after, t.log.responses[s.nextToken])
  {
    var a := Next(s, Start(p, token, limit));
    StartMeans(s, p, token, limit);
    ReachableSoon(s, Start(p, token, limit));
    AckAndReadAlone(a, p);
    ReachableSoon(a, Step(p));
    ReachableSoon(Next(a, Step(p)), Step(p));
    AnswersExactlyWhen(Next(Next(a, Step(p)), Step(p)), p);
  }

  // The queue

  /** A message is queued exactly if it is new to its scope and there is room; it gets the next number. */
  lemma AcceptsExactlyWhen(s: State, scope: nat, id: Id, ordinary: bool)
    ensures
      var t := Next(s, Accept(scope, id, ordinary));
      t.table == s.table && t.polls == s.polls &&
      if (scope, id) !in s.queue.seen && |s.queue.records| < 1000 then
        t.queue == Queue(s.queue.records + [Record(s.queue.counter + 1, scope, id, ordinary)], s.queue.counter + 1, s.queue.seen + {(scope, id)})
      else t.queue == s.queue
  {
  }

  /** Nothing else adds a record or forgets that a message was seen. */
  lemma RecordsLeaveExactlyWhen(s: State, e: Event, r: Record)
    requires QueueOk(s.queue) && r in s.queue.records
    ensures
      r !in Next(s, e).queue.records <==>
      e == RecordExpires(r.seqNo) || (e.TransportAck? && |e.ids| <= 100 && r.id in e.ids) ||
      (e.Step? && e.p in s.polls && s.polls[e.p].Acking? && r.id in s.polls[e.p].state.ids)
    ensures s.queue.seen <= Next(s, e).queue.seen
  {
    match e
    case TransportAck(ids) => AckMeans(s.queue, ids);
    case Step(p) => if p in s.polls && s.polls[p].Acking? { AckMeans(s.queue, s.polls[p].state.ids); }
    case RecordExpires(seqNo) => ExpiredMembers(s.queue, seqNo, r);
    case _ =>
  }

  /** The cursors are lost together, and only by expiry. */
  lemma CursorsExpireTogether(s: State)
    ensures Next(s, CursorsExpire) == s.(table := Table(map[], []))
  {
  }
}
