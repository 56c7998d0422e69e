/**
 Long polling of one recipient: the accepted-message queue with its sequence counter, the table of
 outstanding cursors with its eviction list, and polls as processes whose Redis calls interleave.

 One step is one Redis command or script. Cursor tokens are fresh numbers. The log is history only.
 */
module PollCursors {
  import opened Options

  type Token = nat
  type Pid = nat
  type Id = nat

  const MAX_CURSORS := 4
  const MAX_ACTIVE := 1000
  const MAX_TRANSPORT_IDS := 100

  // The cursor table

  /** After: the sequence number up to which everything was read; ids: the messages of the response with this cursor. */
  datatype CursorState = CursorState(after: nat, ids: seq<Id>)
  datatype Table = Table(cursors: map<Token, CursorState>, order: seq<Token>)

  function Evicted(t: Table): Table
    decreases |t.order|
  {
    if |t.order| <= MAX_CURSORS then t else Evicted(Table(t.cursors - {t.order[0]}, t.order[1..]))
  }

  function RemoveFirst(order: seq<Token>, token: Token): seq<Token> {
    if order == [] then [] else if order[0] == token then order[1..] else [order[0]] + RemoveFirst(order[1..], token)
  }

  function Issued(t: Table, token: Token, state: CursorState): Table {
    Evicted(Table(t.cursors[token := state], t.order + [token]))
  }

  /** The successor replaces its predecessor, if that is still there. */
  function AdvancedTo(t: Table, predecessor: Token, token: Token, state: CursorState): Table {
    if predecessor !in t.cursors then t
    else Issued(Table(t.cursors - {predecessor}, RemoveFirst(t.order, predecessor)), token, state)
  }

  predicate NoDuplicates(order: seq<Token>) { forall i, j :: 0 <= i < j < |order| ==> order[i] != order[j] }

  /** The keys of the map are exactly the elements of the list, which has no duplicates. */
  ghost predicate InStep(t: Table) {
    NoDuplicates(t.order) && forall k :: k in t.cursors <==> k in t.order
  }

  lemma {:induction false} EvictedInStep(t: Table)
    requires InStep(t)
    ensures InStep(Evicted(t)) && |Evicted(t).order| <= MAX_CURSORS
    ensures |t.order| <= MAX_CURSORS + 1 ==> Evicted(t).order == if |t.order| <= MAX_CURSORS then t.order else t.order[1..]
    ensures forall k :: k in Evicted(t).cursors ==> k in t.cursors && Evicted(t).cursors[k] == t.cursors[k]
    decreases |t.order|
  {
    if |t.order| > MAX_CURSORS {
      var rest := Table(t.cursors - {t.order[0]}, t.order[1..]);
      assert t.order == [t.order[0]] + rest.order;
      assert forall k :: k in rest.order <==> k in t.order && k != t.order[0];
      EvictedInStep(rest);
    }
  }

  lemma {:induction false} RemoveFirstMembers(order: seq<Token>, token: Token)
    requires NoDuplicates(order)
    ensures NoDuplicates(RemoveFirst(order, token)) && |RemoveFirst(order, token)| <= |order|
    ensures forall k :: k in RemoveFirst(order, token) <==> k in order && k != token
    ensures token in order ==> |RemoveFirst(order, token)| == |order| - 1
  {
    if order != [] {
      assert order == [order[0]] + order[1..];
      if order[0] != token {
        RemoveFirstMembers(order[1..], token);
        var rest := RemoveFirst(order[1..], token);
        forall j | 0 <= j < |rest| ensures rest[j] != order[0] { assert rest[j] in order[1..]; }
      }
    }
  }

  lemma IssuedInStep(t: Table, token: Token, state: CursorState)
    requires InStep(t) && token !in t.cursors
    ensures InStep(Issued(t, token, state)) && |Issued(t, token, state).order| <= MAX_CURSORS
    ensures forall k :: k in Issued(t, token, state).cursors ==>
              (k == token && Issued(t, token, state).cursors[k] == state) || (k in t.cursors && Issued(t, token, state).cursors[k] == t.cursors[k])
  {
    EvictedInStep(Table(t.cursors[token := state], t.order + [token]));
  }

  lemma AdvancedInStep(t: Table, predecessor: Token, token: Token, state: CursorState)
    requires InStep(t) && |t.order| <= MAX_CURSORS && token !in t.cursors
    ensures
      var r := AdvancedTo(t, predecessor, token, state);
      InStep(r) && |r.order| <= MAX_CURSORS &&
      (predecessor in t.cursors ==> predecessor !in r.cursors) &&
      forall k :: k in r.cursors ==> (k == token && r.cursors[k] == state) || (k in t.cursors && r.cursors[k] == t.cursors[k])
  {
    if predecessor in t.cursors {
      RemoveFirstMembers(t.order, predecessor);
      IssuedInStep(Table(t.cursors - {predecessor}, RemoveFirst(t.order, predecessor)), token, state);
    }
  }

  /** The two Redis keys of a recipient and the scripts over them. */
  class CursorTable {
    var cursors: map<Token, CursorState>
    var order: seq<Token>

    ghost function Contents(): Table
      reads this
    {
      Table(cursors, order)
    }

    constructor ()
      ensures Contents() == Table(map[], [])
    {
      cursors, order := map[], [];
    }

    /** The eviction loop both scripts end with. */
    method Evict()
      modifies this
      ensures Contents() == Evicted(old(Contents()))
    {
      while |order| > MAX_CURSORS
        invariant Evicted(Contents()) == Evicted(old(Contents()))
        decreases |order|
      {
        var oldest := order[0];
        order := order[1..];
        cursors := cursors - {oldest};
      }
    }

    method IssueCursor(token: Token, state: CursorState)
      modifies this
      ensures Contents() == Issued(old(Contents()), token, state)
    {
      cursors := cursors[token := state];
      order := order + [token];
      Evict();
    }

    /** False when the predecessor is gone. */
    method AdvanceCursor(predecessor: Token, token: Token, state: CursorState) returns (ok: bool)
      modifies this
      ensures ok <==> predecessor in old(cursors)
      ensures Contents() == AdvancedTo(old(Contents()), predecessor, token, state)
    {
      ok := predecessor in cursors;
      if ok {
        cursors := cursors - {predecessor};
        order := RemoveFirst(order, predecessor);
        IssueCursor(token, state);
      }
    }
  }

  // The queue

  /** ordinary: valid JSON and no reserved server-control envelope. */
  datatype Record = Record(seqNo: nat, scope: nat, id: Id, ordinary: bool)

  /** counter is the sequence key; zero stands for its absence. */
  datatype Queue = Queue(records: seq<Record>, counter: nat, seen: set<(nat, Id)>)

  function AcceptNext(q: Queue, scope: nat, id: Id, ordinary: bool): Queue {
    if (scope, id) in q.seen || |q.records| >= MAX_ACTIVE then q
    else Queue(q.records + [Record(q.counter + 1, scope, id, ordinary)], q.counter + 1, q.seen + {(scope, id)})
  }

  function Kept(records: seq<Record>, keep: Record -> bool): seq<Record> {
    if records == [] then []
    else if keep(records[0]) then [records[0]] + Kept(records[1..], keep)
    else Kept(records[1..], keep)
  }

  function Unacked(records: seq<Record>, ids: seq<Id>): seq<Record> { Kept(records, (r: Record) => r.id !in ids) }

  /** The record is gone; its reference leaves the index with it, the counter stays. */
  function ExpireNext(q: Queue, seqNo: nat): Queue { q.(records := Kept(q.records, (r: Record) => r.seqNo != seqNo)) }

  /** Index and counter expire together with the last record to expire. */
  function QueueExpireNext(q: Queue): Queue { if q.records == [] then q.(counter := 0) else q }

  /** The script does not run for an empty list; it deletes the counter with the last record. */
  function AckNext(q: Queue, ids: seq<Id>): Queue {
    if ids == [] then q
    else
      var left := Unacked(q.records, ids);
      q.(records := left, counter := if left == [] then 0 else q.counter)
  }

  function Beyond(records: seq<Record>, after: nat): seq<Record> {
    if records == [] then [] else (if records[0].seqNo > after then [records[0]] else []) + Beyond(records[1..], after)
  }

  /** The first records beyond the position; a limit of zero means all. */
  function ReadItems(q: Queue, after: nat, limit: nat): seq<Record> {
    var all := Beyond(q.records, after);
    if limit == 0 || |all| < limit then all else all[..limit]
  }

  /** A read that finds the queue empty deletes the counter. */
  function ReadNext(q: Queue): Queue { if q.records == [] then q.(counter := 0) else q }

  function Ids(items: seq<Record>): seq<Id> {
    if items == [] then []
    else Ids(items[..|items| - 1]) + if items[|items| - 1].ordinary then [items[|items| - 1].id] else []
  }

  function LastRead(items: seq<Record>, after: nat): nat { if items == [] then after else items[|items| - 1].seqNo }

  /** The loop that builds a response: ordinary envelopes are returned, all are passed. */
  method BuildResponse(items: seq<Record>, after: nat) returns (messageIds: seq<Id>, reached: nat)
    ensures messageIds == Ids(items) && reached == LastRead(items, after)
  {
    messageIds, reached := [], after;
    var i := 0;
    while i < |items|
      invariant i <= |items| && messageIds == Ids(items[..i]) && reached == LastRead(items[..i], after)
    {
      assert items[..i + 1][..i] == items[..i];
      if items[i].ordinary {
        messageIds := messageIds + [items[i].id];
      }
      reached := items[i].seqNo;
      i := i + 1;
    }
    assert items[..i] == items;
  }

  // Polls

  datatype Poll =
    | Acking(token: Option<Token>, limit: nat, state: CursorState)
    | Reading(token: Option<Token>, limit: nat, after: nat)
    | Answering(token: Option<Token>, items: seq<Record>, after: nat)
    | Answered(cursor: Option<Token>)

  /** responses: the items returned with each cursor; advanced: the cursors replaced by a successor, in order; accepted: the
      record of every accepted message. */
  datatype Log = Log(responses: map<Token, seq<Record>>, advanced: seq<Token>, accepted: map<(nat, Id), Record>)

  datatype State = State(queue: Queue, table: Table, nextToken: Token, polls: map<Pid, Poll>, log: Log)

  datatype Event =
    | Accept(scope: nat, id: Id, ordinary: bool)
    | Start(p: Pid, token: Option<Token>, limit: nat)
    | Step(p: Pid)
    | ReadAgain(p: Pid)
    | TransportAck(ids: seq<Id>)
    | RecordExpires(seqNo: nat)
    | QueueExpires
    | CursorsExpire

  function Initial(): State { State(Queue([], 0, {}), Table(map[], []), 0, map[], Log(map[], [], map[])) }

  /** A cursor that is not in the table is rejected at once. */
  function StartNext(s: State, p: Pid, token: Option<Token>, limit: nat): State {
    if p in s.polls then s
    else if token == None then s.(polls := s.polls[p := Acking(None, limit, CursorState(0, []))])
    else if token.value !in s.table.cursors then s.(polls := s.polls[p := Answered(None)])
    else s.(polls := s.polls[p := Acking(token, limit, s.table.cursors[token.value])])
  }

  /** The answer carries a new cursor, unless the presented one was used or evicted meanwhile. */
  function AnswerNext(s: State, p: Pid, token: Option<Token>, items: seq<Record>, after: nat): State {
    var issued := s.nextToken;
    var state := CursorState(after, Ids(items));
    if token.Some? && token.value !in s.table.cursors then s.(polls := s.polls[p := Answered(None)])
    else
      s.(table := if token == None then Issued(s.table, issued, state) else AdvancedTo(s.table, token.value, issued, state),
         nextToken := issued + 1,
         polls := s.polls[p := Answered(Some(issued))],
         log := s.log.(responses := s.log.responses[issued := items],
                       advanced := if token == None then s.log.advanced else s.log.advanced + [token.value]))
  }

  function StepNext(s: State, p: Pid): State
    requires p in s.polls
  {
    match s.polls[p]
    case Acking(token, limit, state) =>
      s.(queue := AckNext(s.queue, state.ids), polls := s.polls[p := Reading(token, limit, state.after)])
    case Reading(token, limit, after) =>
      var items := ReadItems(s.queue, after, limit);
      s.(queue := ReadNext(s.queue), polls := s.polls[p := Answering(token, items, LastRead(items, after))])
    case Answering(token, items, after) => AnswerNext(s, p, token, items, after)
    case Answered(_) => s
  }

  /** A waiting poll that reads nothing reads again later. */
  function ReadAgainNext(s: State, p: Pid): State
    requires p in s.polls
  {
    if s.polls[p].Reading? && ReadItems(s.queue, s.polls[p].after, s.polls[p].limit) == [] then s.(queue := ReadNext(s.queue)) else s
  }

  function AcceptStep(s: State, scope: nat, id: Id, ordinary: bool): State {
    var queue := AcceptNext(s.queue, scope, id, ordinary);
    if queue == s.queue then s
    else s.(queue := queue, log := s.log.(accepted := s.log.accepted[(scope, id) := Record(queue.counter, scope, id, ordinary)]))
  }

  function Next(s: State, e: Event): State {
    match e
    case Accept(scope, id, ordinary) => AcceptStep(s, scope, id, ordinary)
    case Start(p, token, limit) => StartNext(s, p, token, limit)
    case Step(p) => if p in s.polls then StepNext(s, p) else s
    case ReadAgain(p) => if p in s.polls then ReadAgainNext(s, p) else s
    case TransportAck(ids) => if |ids| <= MAX_TRANSPORT_IDS then s.(queue := AckNext(s.queue, ids)) else s
    case RecordExpires(seqNo) => s.(queue := ExpireNext(s.queue, seqNo))
    case QueueExpires => s.(queue := QueueExpireNext(s.queue))
    case CursorsExpire => s.(table := Table(map[], []))
  }

  function Run(s: State, events: seq<Event>): State
    decreases |events|
  {
    if events == [] then s else Run(Next(s, events[0]), events[1..])
  }

  ghost predicate Reachable(s: State) { exists events :: s == Run(Initial(), events) }

  // Invariants

  ghost predicate TableOk(s: State) {
    InStep(s.table) && |s.table.order| <= MAX_CURSORS &&
    (forall k :: k in s.table.cursors ==> k < s.nextToken && k !in s.log.advanced) &&
    (forall k :: k in s.table.cursors ==> k in s.log.responses && s.table.cursors[k].ids == Ids(s.log.responses[k])) &&
    (forall k :: k in s.log.responses ==> k < s.nextToken) &&
    (forall i :: 0 <= i < |s.log.advanced| ==> s.log.advanced[i] < s.nextToken) && NoDuplicates(s.log.advanced)
  }

  /** What a poll is about to acknowledge was returned with the cursor it presented. */
  ghost predicate PollOk(s: State, poll: Poll) {
    poll.Acking? ==>
      (if poll.token == None then poll.state.ids == []
       else poll.token.value in s.log.responses && poll.state.ids == Ids(s.log.responses[poll.token.value]))
  }

  ghost predicate Inv(s: State) {
    TableOk(s) && forall p :: p in s.polls ==> PollOk(s, s.polls[p])
  }

  lemma AnswerKeeps(s: State, p: Pid, token: Option<Token>, items: seq<Record>, after: nat)
    requires Inv(s)
    ensures Inv(AnswerNext(s, p, token, items, after))
  {
    var state := CursorState(after, Ids(items));
    if token == None {
      IssuedInStep(s.table, s.nextToken, state);
    } else {
      AdvancedInStep(s.table, token.value, s.nextToken, state);
    }
    var t := AnswerNext(s, p, token, items, after);
    assert TableOk(t);
    forall q | q in t.polls ensures PollOk(t, t.polls[q]) {
      if q != p { assert PollOk(s, s.polls[q]); }
    }
  }

  /** A poll that has not answered yet changes neither table nor log. */
  lemma PollKeeps(s: State, p: Pid, poll: Poll, queue: Queue)
    requires Inv(s) && PollOk(s, poll)
    ensures Inv(s.(queue := queue, polls := s.polls[p := poll]))
  {
    var t := s.(queue := queue, polls := s.polls[p := poll]);
    forall q | q in t.polls ensures PollOk(t, t.polls[q]) {
      if q != p { assert PollOk(s, s.polls[q]); }
    }
  }

  lemma StartKeeps(s: State, p: Pid, token: Option<Token>, limit: nat)
    requires Inv(s)
    ensures Inv(StartNext(s, p, token, limit))
  {
    if p !in s.polls { PollKeeps(s, p, StartNext(s, p, token, limit).polls[p], s.queue); }
  }

  lemma StepKeeps(s: State, e: Event)
    requires Inv(s)
    ensures Inv(Next(s, e))
  {
    match e
    case Step(p) =>
      if p in s.polls {
        match s.polls[p]
        case Answering(token, items, after) => AnswerKeeps(s, p, token, items, after);
        case Answered(_) =>
        case _ => PollKeeps(s, p, StepNext(s, p).polls[p], StepNext(s, p).queue);
      }
    case Start(p, token, limit) => StartKeeps(s, p, token, limit);
    case _ => OthersKeep(s, Next(s, e));
  }

  lemma OthersKeep(s: State, t: State)
    requires Inv(s) && t.polls == s.polls && t.nextToken == s.nextToken
    requires t.log.responses == s.log.responses && t.log.advanced == s.log.advanced
    requires t.table == s.table || t.table == Table(map[], [])
    ensures Inv(t)
  {
    forall p | p in t.polls ensures PollOk(t, t.polls[p]) { assert PollOk(s, s.polls[p]); }
  }

  lemma {:induction false} RunKeeps(s: State, events: seq<Event>)
    requires Inv(s)
    ensures Inv(Run(s, events))
    decreases |events|
  {
    if events != [] {
      StepKeeps(s, events[0]);
      RunKeeps(Next(s, events[0]), events[1..]);
    }
  }

  lemma ReachableInv(s: State)
    requires Reachable(s)
    ensures Inv(s)
  {
    var events :| s == Run(Initial(), events);
    RunKeeps(Initial(), events);
  }

  /** In every run the map's keys are exactly the list's elements, without duplicates, and at most four. */
  lemma CursorTableInStep(s: State)
    requires Reachable(s)
    ensures NoDuplicates(s.table.order) && |s.table.order| <= MAX_CURSORS
    ensures forall k :: k in s.table.cursors <==> k in s.table.order
  {
    ReachableInv(s);
  }

  /** Each cursor is replaced by a successor at most once, and a replaced one never works again. */
  lemma CursorAdvancesOnce(s: State, i: nat, j: nat)
    requires Reachable(s) && i < |s.log.advanced| && j < |s.log.advanced|
    ensures s.log.advanced[i] == s.log.advanced[j] ==> i == j
    ensures s.log.advanced[i] !in s.table.cursors
  {
    ReachableInv(s);
  }

  // What leaves the queue

  lemma {:induction false} KeptMembers(records: seq<Record>, keep: Record -> bool, r: Record)
    ensures r in Kept(records, keep) <==> r in records && keep(r)
  {
    if records != [] {
      KeptMembers(records[1..], keep, r);
      assert records == [records[0]] + records[1..];
    }
  }

  lemma UnackedMembers(records: seq<Record>, ids: seq<Id>, r: Record)
    ensures r in Unacked(records, ids) <==> r in records && r.id !in ids
  {
    KeptMembers(records, (o: Record) => o.id !in ids, r);
  }

  lemma ExpiredMembers(q: Queue, seqNo: nat, r: Record)
    ensures r in ExpireNext(q, seqNo).records <==> r in q.records && r.seqNo != seqNo
  {
    KeptMembers(q.records, (o: Record) => o.seqNo != seqNo, r);
  }

  lemma {:induction false} IdsOfItems(items: seq<Record>, id: Id)
    ensures id in Ids(items) <==> exists r :: r in items && r.id == id && r.ordinary
    decreases |items|
  {
    if items != [] {
      var last, init := items[|items| - 1], items[..|items| - 1];
      IdsOfItems(init, id);
      assert items == init + [last];
      if r :| r in items && r.id == id && r.ordinary {
        assert r in init || r == last;
      }
      if r :| r in init && r.id == id && r.ordinary {
        assert r in items;
      }
    }
  }

  /** The poll acknowledges what was returned with its cursor. */
  predicate AcksFor(s: State, e: Event, cursor: Token) {
    e.Step? && e.p in s.polls && s.polls[e.p].Acking? && s.polls[e.p].token == Some(cursor)
  }

  /** A record leaves the queue only when it expires, when the client acknowledges its id over the websocket, or when a poll
      presents the cursor of a response that returned a message with its id. */
  lemma DroppedWasReturned(s: State, e: Event, r: Record)
    requires Reachable(s) && r in s.queue.records && r !in Next(s, e).queue.records
    ensures e == RecordExpires(r.seqNo) || (e.TransportAck? && r.id in e.ids) ||
            exists cursor :: AcksFor(s, e, cursor) && cursor in s.log.responses && r.id in Ids(s.log.responses[cursor])
  {
    ReachableInv(s);
    match e
    case TransportAck(ids) => UnackedMembers(s.queue.records, ids, r);
    case RecordExpires(seqNo) => ExpiredMembers(s.queue, seqNo, r);
    case Step(p) =>
      if p in s.polls && s.polls[p].Acking? {
        assert PollOk(s, s.polls[p]);
        UnackedMembers(s.queue.records, s.polls[p].state.ids, r);
        if s.polls[p].token.Some? { assert AcksFor(s, e, s.polls[p].token.value); }
      }
    case _ =>
  }

  // Each message is one record for ever: scope and id identify it.

  predicate Logged(s: State, r: Record) { (r.scope, r.id) in s.log.accepted && s.log.accepted[(r.scope, r.id)] == r }

  ghost predicate RecordsOk(s: State) {
    (forall r :: r in s.queue.records ==> Logged(s, r)) &&
    (forall k :: k in s.log.responses ==> forall r :: r in s.log.responses[k] ==> Logged(s, r)) &&
    (forall p :: p in s.polls && s.polls[p].Answering? ==> forall r :: r in s.polls[p].items ==> Logged(s, r)) &&
    s.queue.seen == s.log.accepted.Keys
  }

  lemma ItemsFromQueue(q: Queue, after: nat, limit: nat, r: Record)
    requires r in ReadItems(q, after, limit)
    ensures r in q.records
  {
    BeyondMembers(q.records, after, r);
  }

  /** Steps that accept nothing and answer nothing keep every record logged. */
  lemma RecordsKept(s: State, t: State)
    requires RecordsOk(s) && t.log == s.log && t.queue.seen == s.queue.seen
    requires forall r :: r in t.queue.records ==> r in s.queue.records
    requires forall p :: p in t.polls && t.polls[p].Answering? ==>
               (p in s.polls && t.polls[p] == s.polls[p]) || forall r :: r in t.polls[p].items ==> r in s.queue.records
    ensures RecordsOk(t)
  {
  }

  lemma AnswerRecords(s: State, p: Pid)
    requires RecordsOk(s) && p in s.polls && s.polls[p].Answering?
    ensures RecordsOk(StepNext(s, p))
  {
  }

  lemma AcceptRecords(s: State, scope: nat, id: Id, ordinary: bool)
    requires RecordsOk(s)
    ensures RecordsOk(AcceptStep(s, scope, id, ordinary))
  {
    var t := AcceptStep(s, scope, id, ordinary);
    if t != s {
      assert (scope, id) !in s.log.accepted;
      assert t.log.accepted.Keys == s.log.accepted.Keys + {(scope, id)};
    }
  }

  lemma AckKeepsMembers(q: Queue, ids: seq<Id>)
    ensures forall r :: r in AckNext(q, ids).records ==> r in q.records
  {
    forall r | r in AckNext(q, ids).records ensures r in q.records { UnackedMembers(q.records, ids, r); }
  }

  lemma RecordsStep(s: State, e: Event)
    requires RecordsOk(s)
    ensures RecordsOk(Next(s, e))
  {
    match e
    case Accept(scope, id, ordinary) => AcceptRecords(s, scope, id, ordinary);
    case Step(p) =>
      if p in s.polls {
        match s.polls[p]
        case Acking(token, limit, state) =>
          AckKeepsMembers(s.queue, state.ids);
          RecordsKept(s, Next(s, e));
        case Reading(token, limit, after) =>
          forall r | r in ReadItems(s.queue, after, limit) ensures r in s.queue.records { ItemsFromQueue(s.queue, after, limit, r); }
          RecordsKept(s, Next(s, e));
        case Answering(_, _, _) => AnswerRecords(s, p);
        case Answered(_) =>
      }
    case TransportAck(ids) =>
      AckKeepsMembers(s.queue, ids);
      RecordsKept(s, Next(s, e));
    case RecordExpires(seqNo) =>
      forall r | r in ExpireNext(s.queue, seqNo).records ensures r in s.queue.records { ExpiredMembers(s.queue, seqNo, r); }
      RecordsKept(s, Next(s, e));
    case _ => RecordsKept(s, Next(s, e));
  }

  lemma {:induction false} RunRecords(s: State, events: seq<Event>)
    requires RecordsOk(s)
    ensures RecordsOk(Run(s, events))
    decreases |events|
  {
    if events != [] {
      RecordsStep(s, events[0]);
      RunRecords(Next(s, events[0]), events[1..]);
    }
  }

  lemma ReachableRecords(s: State)
    requires Reachable(s)
    ensures RecordsOk(s)
  {
    var events :| s == Run(Initial(), events);
    RunRecords(Initial(), events);
  }

  /** A poll drops a record that the response it acknowledges did not hold exactly when that response returned a message of
      the same id for another scope. */
  lemma UnseenDroppedExactlyWhen(s: State, e: Event, cursor: Token, r: Record)
    requires Reachable(s) && AcksFor(s, e, cursor) && cursor in s.log.responses
    requires r in s.queue.records && r !in s.log.responses[cursor]
    ensures r !in Next(s, e).queue.records <==>
            exists o :: o in s.log.responses[cursor] && o.ordinary && o.id == r.id && o.scope != r.scope
  {
    ReachableInv(s);
    ReachableRecords(s);
    assert PollOk(s, s.polls[e.p]);
    UnackedMembers(s.queue.records, s.polls[e.p].state.ids, r);
    IdsOfItems(s.log.responses[cursor], r.id);
    assert forall o :: o in s.log.responses[cursor] && o.id == r.id && o.scope == r.scope ==> o == r;
  }

  // What a cursor shows

  ghost predicate Ascending(records: seq<Record>) {
    forall i, j :: 0 <= i < j < |records| ==> records[i].seqNo < records[j].seqNo
  }

  /** Sequence numbers ascend in the queue and do not exceed the counter. */
  ghost predicate QueueOk(q: Queue) {
    Ascending(q.records) && forall r :: r in q.records ==> 1 <= r.seqNo <= q.counter
  }

  lemma PrependAscending(first: Record, rest: seq<Record>)
    requires Ascending(rest) && forall r :: r in rest ==> first.seqNo < r.seqNo
    ensures Ascending([first] + rest)
  {
    forall i | 0 <= i < |rest| ensures first.seqNo < rest[i].seqNo { assert rest[i] in rest; }
  }

  lemma TailBeyondHead(records: seq<Record>)
    requires Ascending(records) && records != []
    ensures Ascending(records[1..]) && forall r :: r in records[1..] ==> records[0].seqNo < r.seqNo
  {
    forall r | r in records[1..] ensures records[0].seqNo < r.seqNo {
      var i :| 0 <= i < |records[1..]| && records[1..][i] == r;
      assert records[i + 1] == r;
    }
  }

  lemma {:induction false} KeptAscending(records: seq<Record>, keep: Record -> bool)
    requires Ascending(records)
    ensures Ascending(Kept(records, keep))
  {
    if records != [] {
      var rest := Kept(records[1..], keep);
      TailBeyondHead(records);
      KeptAscending(records[1..], keep);
      forall r | r in rest ensures records[0].seqNo < r.seqNo { KeptMembers(records[1..], keep, r); }
      PrependAscending(records[0], rest);
    }
  }

  lemma {:induction false} BeyondAscending(records: seq<Record>, after: nat)
    requires Ascending(records)
    ensures Ascending(Beyond(records, after))
  {
    if records != [] {
      var rest := Beyond(records[1..], after);
      TailBeyondHead(records);
      BeyondAscending(records[1..], after);
      forall r | r in rest ensures records[0].seqNo < r.seqNo { BeyondMembers(records[1..], after, r); }
      PrependAscending(records[0], rest);
      assert [] + rest == rest;
    }
  }

  lemma AckQueue(q: Queue, ids: seq<Id>)
    requires QueueOk(q)
    ensures QueueOk(AckNext(q, ids))
  {
    KeptAscending(q.records, (r: Record) => r.id !in ids);
    AckKeepsMembers(q, ids);
  }

  lemma ExpireQueue(q: Queue, seqNo: nat)
    requires QueueOk(q)
    ensures QueueOk(ExpireNext(q, seqNo))
  {
    KeptAscending(q.records, (r: Record) => r.seqNo != seqNo);
    forall r | r in ExpireNext(q, seqNo).records ensures r in q.records { ExpiredMembers(q, seqNo, r); }
  }

  lemma StepQueue(s: State, e: Event)
    requires QueueOk(s.queue)
    ensures QueueOk(Next(s, e).queue)
  {
    if e.Step? && e.p in s.polls && s.polls[e.p].Acking? { AckQueue(s.queue, s.polls[e.p].state.ids); }
    if e.TransportAck? { AckQueue(s.queue, e.ids); }
    if e.RecordExpires? { ExpireQueue(s.queue, e.seqNo); }
  }

  lemma {:induction false} RunQueue(s: State, events: seq<Event>)
    requires QueueOk(s.queue)
    ensures QueueOk(Run(s, events).queue)
    decreases |events|
  {
    if events != [] {
      StepQueue(s, events[0]);
      RunQueue(Next(s, events[0]), events[1..]);
    }
  }

  lemma {:induction false} BeyondMembers(records: seq<Record>, after: nat, r: Record)
    ensures r in Beyond(records, after) <==> r in records && r.seqNo > after
  {
    if records != [] {
      BeyondMembers(records[1..], after, r);
      assert records == [records[0]] + records[1..];
    }
  }

  /** A poll with room reads exactly the queued records beyond its position. */
  lemma ReadShowsWhatIsBeyond(q: Queue, after: nat, limit: nat, r: Record)
    requires |q.records| <= limit
    ensures r in ReadItems(q, after, limit) <==> r in q.records && r.seqNo > after
  {
    BeyondMembers(q.records, after, r);
    BeyondSize(q.records, after);
  }

  /** A poll's position passes no record that the poll has not read. */
  lemma ReadPassesOnlyWhatItReads(s: State, after: nat, limit: nat, r: Record)
    requires Reachable(s) && r in s.queue.records && r.seqNo > after
    ensures
      var items := ReadItems(s.queue, after, limit);
      r in items || (items != [] && r.seqNo > LastRead(items, after))
  {
    var events :| s == Run(Initial(), events);
    RunQueue(Initial(), events);
    var all, items := Beyond(s.queue.records, after), ReadItems(s.queue, after, limit);
    BeyondMembers(s.queue.records, after, r);
    BeyondAscending(s.queue.records, after);
    var i :| 0 <= i < |all| && all[i] == r;
    assert i < |items| ==> items[i] == r;
  }

  lemma {:induction false} BeyondSize(records: seq<Record>, after: nat)
    ensures |Beyond(records, after)| <= |records|
  {
    if records != [] { BeyondSize(records[1..], after); }
  }

  /** A newly accepted message is visible to a cursor exactly when the counter has not fallen behind the cursor's position. */
  lemma NewMessageVisibleExactlyWhen(q: Queue, scope: nat, id: Id, ordinary: bool, after: nat)
    requires (scope, id) !in q.seen && |q.records| < MAX_ACTIVE
    ensures
      var t, r := AcceptNext(q, scope, id, ordinary), Record(q.counter + 1, scope, id, ordinary);
      r in t.records && (r in ReadItems(t, after, |t.records|) <==> q.counter >= after)
  {
    var t, r := AcceptNext(q, scope, id, ordinary), Record(q.counter + 1, scope, id, ordinary);
    assert t.records[|q.records|] == r;
    ReadShowsWhatIsBeyond(t, after, |t.records|, r);
  }

  /** The step acknowledges these ids. */
  predicate Acks(s: State, e: Event, ids: seq<Id>) {
    ids != [] &&
    ((e.TransportAck? && e.ids == ids && |ids| <= MAX_TRANSPORT_IDS) ||
     (e.Step? && e.p in s.polls && s.polls[e.p].Acking? && s.polls[e.p].state.ids == ids))
  }

  /** The step reads for a poll. */
  predicate ReadsFor(s: State, e: Event) { (e.Step? || e.ReadAgain?) && e.p in s.polls && s.polls[e.p].Reading? }

  /** The counter falls exactly when an acknowledgement, of a poll or over the websocket, empties the queue, or when a read
      finds it empty, or when its keys expire empty. */
  lemma CounterFallsExactlyWhen(s: State, e: Event)
    ensures Next(s, e).queue.counter < s.queue.counter <==>
            s.queue.counter > 0 &&
            ((exists ids :: Acks(s, e, ids) && Unacked(s.queue.records, ids) == []) ||
             (s.queue.records == [] && (ReadsFor(s, e) || e.QueueExpires?)))
  {
    if e.TransportAck? && |e.ids| <= MAX_TRANSPORT_IDS && e.ids != [] { assert Acks(s, e, e.ids); }
    if e.Step? && e.p in s.polls && s.polls[e.p].Acking? && s.polls[e.p].state.ids != [] { assert Acks(s, e, s.polls[e.p].state.ids); }
    if e.ReadAgain? && s.queue.records == [] { assert forall after :: Beyond([], after) == []; }
  }

  predicate CounterHolds(s: State, events: seq<Event>)
    decreases |events|
  {
    events == [] || (s.queue.counter <= Next(s, events[0]).queue.counter && CounterHolds(Next(s, events[0]), events[1..]))
  }

  /** As long as the counter does not fall, a cursor that was not ahead of it shows everything accepted since. */
  lemma {:induction false} VisibleWhileCounterHolds(s: State, events: seq<Event>, after: nat, r: Record)
    requires after <= s.queue.counter && CounterHolds(s, events)
    requires r in Run(s, events).queue.records && r !in s.queue.records
    ensures r.seqNo > after
    decreases |events|
  {
    if events != [] {
      var t := Next(s, events[0]);
      if r in t.queue.records {
        OnlyAcceptAdds(s, events[0], r);
      } else {
        VisibleWhileCounterHolds(t, events[1..], after, r);
      }
    }
  }

  lemma OnlyAcceptAdds(s: State, e: Event, r: Record)
    requires r in Next(s, e).queue.records && r !in s.queue.records
    ensures r.seqNo == s.queue.counter + 1
  {
    if e.Step? && e.p in s.polls && s.polls[e.p].Acking? { UnackedMembers(s.queue.records, s.polls[e.p].state.ids, r); }
    if e.TransportAck? { UnackedMembers(s.queue.records, e.ids, r); }
    if e.RecordExpires? { ExpiredMembers(s.queue, e.seqNo, r); }
  }
}
