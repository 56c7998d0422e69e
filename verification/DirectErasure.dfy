/**
 Erasing a user's direct messages through the indexes that direct writes keep beside the data.

 A message id is derived from the sender and its client id, so a later message under the same client id
 may go to somebody else under the same id, even in the same millisecond. Rows do not expire here, and
 nothing else writes while an erasure runs. Parties and history are never read by a step.
 */
module DirectErasure {
  import opened Options
  import opened Conversations

  type Time = nat
  type MessageId = nat

  datatype MessageKey = MessageKey(conversation: string, createdAt: Time, id: MessageId)
  datatype OutboxKey = OutboxKey(bucket: nat, createdAt: Time, id: MessageId)
  datatype Row = Row(sender: Uin, receiver: Uin)

  /** index and outboxIndex: the deletion and erasure indexes, partitioned by UIN. */
  datatype Tables = Tables(messages: map<MessageKey, Row>, index: set<(Uin, MessageKey)>, outbox: map<OutboxKey, Row>,
                           outboxIndex: set<(Uin, OutboxKey)>)
  datatype State = State(t: Tables, parties: map<string, (Uin, Uin)>, history: seq<Event>)

  datatype Event = Write(sender: Uin, receiver: Uin, createdAt: Time, id: MessageId) | Delivered(key: OutboxKey) | Wipe(uin: Uin)

  function Bucket(id: MessageId): nat { id % 16 }

  function Lower(a: Uin, b: Uin): Uin { if a > b then b else a }
  function Upper(a: Uin, b: Uin): Uin { if a > b then a else b }

  /** The logged batch of a direct write. */
  function WriteNext(t: Tables, sender: Uin, receiver: Uin, createdAt: Time, id: MessageId): Tables {
    var key := MessageKey(Conversation(sender, receiver), createdAt, id);
    var out := OutboxKey(Bucket(id), createdAt, id);
    Tables(t.messages[key := Row(sender, receiver)], t.index + {(sender, key), (receiver, key)}, t.outbox[out := Row(sender, receiver)],
           t.outboxIndex + {(sender, out), (receiver, out)})
  }

  /** The row of the other participant that points at the same message. */
  predicate Mirror(t: Tables, uin: Uin, x: Uin, k: MessageKey) {
    (uin, k) in t.index && Counterpart(k.conversation, uin) == Some(x)
  }

  /** DeleteUserMessages without the ingest receipts. */
  function Erased(t: Tables, uin: Uin): Tables {
    Tables(map k | k in t.messages && (uin, k) !in t.index :: t.messages[k],
           set e | e in t.index && e.0 != uin && !Mirror(t, uin, e.0, e.1),
           map o | o in t.outbox && (uin, o) !in t.outboxIndex :: t.outbox[o],
           set e | e in t.outboxIndex && e.0 != uin)
  }

  function Next(s: State, e: Event): State {
    var history := s.history + [e];
    match e
    case Write(sender, receiver, createdAt, id) =>
      State(WriteNext(s.t, sender, receiver, createdAt, id),
            s.parties[Conversation(sender, receiver) := (Lower(sender, receiver), Upper(sender, receiver))], history)
    case Delivered(key) => s.(t := s.t.(outbox := s.t.outbox - {key}), history := history)
    case Wipe(uin) => s.(t := Erased(s.t, uin), history := history)
  }

  function Empty(): State { State(Tables(map[], {}, map[], {}), map[], []) }

  function Run(s: State, events: seq<Event>): State
    decreases |events|
  {
    if events == [] then s else Run(Next(s, events[0]), events[1..])
  }

  ghost predicate Reachable(s: State) { exists events :: s == Run(Empty(), events) }

  /** The counterpart's index row for a message, if the conversation has a counterpart. */
  function MirrorOf(uin: Uin, k: MessageKey): set<(Uin, MessageKey)> {
    var other := Counterpart(k.conversation, uin);
    if other.Some? then {(other.value, k)} else {}
  }

  /** The tables while the rows in todo are still to be scanned. */
  function MessagesLeft(t: Tables, uin: Uin, todo: set<(Uin, MessageKey)>): map<MessageKey, Row> {
    map k | k in t.messages && ((uin, k) !in t.index || (uin, k) in todo) :: t.messages[k]
  }

  function IndexLeft(t: Tables, uin: Uin, todo: set<(Uin, MessageKey)>): set<(Uin, MessageKey)> {
    set e | e in t.index && !((uin, e.1) in t.index && (uin, e.1) !in todo && e in MirrorOf(uin, e.1))
  }

  lemma ScanStarts(t: Tables, uin: Uin, todo: set<(Uin, MessageKey)>)
    requires forall e :: e in todo <==> e in t.index && e.0 == uin
    ensures MessagesLeft(t, uin, todo) == t.messages && IndexLeft(t, uin, todo) == t.index
  {
  }

  lemma ScanStep(t: Tables, uin: Uin, todo: set<(Uin, MessageKey)>, k: MessageKey)
    requires (uin, k) in todo && (uin, k) in t.index
    ensures MessagesLeft(t, uin, todo) - {k} == MessagesLeft(t, uin, todo - {(uin, k)})
    ensures IndexLeft(t, uin, todo) - MirrorOf(uin, k) == IndexLeft(t, uin, todo - {(uin, k)})
  {
    var mirror := MirrorOf(uin, k);
    assert forall e :: e in mirror ==> e.1 == k;
  }

  lemma ScanEnds(t: Tables, uin: Uin)
    ensures MessagesLeft(t, uin, {}) == Erased(t, uin).messages
    ensures (set e | e in IndexLeft(t, uin, {}) && e.0 != uin) == Erased(t, uin).index
  {
    forall e: (Uin, MessageKey) ensures e in MirrorOf(uin, e.1) <==> Counterpart(e.1.conversation, uin) == Some(e.0) {}
  }

  /** The store and the erasure loops over its indexes. */
  class MessageStore {
    var messages: map<MessageKey, Row>
    var index: set<(Uin, MessageKey)>
    var outbox: map<OutboxKey, Row>
    var outboxIndex: set<(Uin, OutboxKey)>

    ghost function Contents(): Tables
      reads this
    {
      Tables(messages, index, outbox, outboxIndex)
    }

    constructor ()
      ensures Contents() == Tables(map[], {}, map[], {})
    {
      messages, index, outbox, outboxIndex := map[], {}, map[], {};
    }

    /** WriteDirect; the receiver's index rows are inserted only if it is another account. */
    method WriteDirect(sender: Uin, receiver: Uin, createdAt: Time, id: MessageId)
      modifies this
      ensures Contents() == WriteNext(old(Contents()), sender, receiver, createdAt, id)
      ensures
        var key, out := MessageKey(Conversation(sender, receiver), createdAt, id), OutboxKey(id % 16, createdAt, id);
        key in messages && messages[key].sender == sender && messages[key].receiver == receiver &&
        out in outbox && outbox[out].sender == sender && outbox[out].receiver == receiver &&
        (forall k :: k != key ==> (k in messages <==> k in old(messages)) && (k in messages ==> messages[k] == old(messages)[k])) &&
        (forall o :: o != out ==> (o in outbox <==> o in old(outbox)) && (o in outbox ==> outbox[o] == old(outbox)[o])) &&
        (forall x, k :: (x, k) in index <==> (x, k) in old(index) || (k == key && (x == sender || x == receiver))) &&
        (forall x, o :: (x, o) in outboxIndex <==> (x, o) in old(outboxIndex) || (o == out && (x == sender || x == receiver)))
    {
      var key, out := MessageKey(Conversation(sender, receiver), createdAt, id), OutboxKey(Bucket(id), createdAt, id);
      messages := messages[key := Row(sender, receiver)];
      index := index + {(sender, key)};
      if receiver != sender {
        index := index + {(receiver, key)};
      }
      outbox := outbox[out := Row(sender, receiver)];
      outboxIndex := outboxIndex + {(sender, out)};
      if receiver != sender {
        outboxIndex := outboxIndex + {(receiver, out)};
      }
    }

    /** The scan of the user's deletion index: message rows and mirror rows go one by one, then the partition itself. */
    method DeleteMessages(uin: Uin)
      modifies this
      ensures Contents() == old(Contents()).(messages := Erased(old(Contents()), uin).messages, index := Erased(old(Contents()), uin).index)
    {
      ghost var t := Contents();
      var rows := set e | e in index && e.0 == uin;
      var todo := rows;
      ScanStarts(t, uin, todo);
      while todo != {}
        invariant todo <= rows && outbox == t.outbox && outboxIndex == t.outboxIndex
        invariant messages == MessagesLeft(t, uin, todo) && index == IndexLeft(t, uin, todo)
        decreases |todo|
      {
        var row :| row in todo;
        ScanStep(t, uin, todo, row.1);
        messages := messages - {row.1};
        index := index - MirrorOf(uin, row.1);
        todo := todo - {row};
      }
      ScanEnds(t, uin);
      index := set e | e in index && e.0 != uin;
    }

    /** The scan of the user's outbox erasure index. */
    method DeleteOutboxEntries(uin: Uin)
      modifies this
      ensures Contents() == old(Contents()).(outbox := Erased(old(Contents()), uin).outbox, outboxIndex := Erased(old(Contents()), uin).outboxIndex)
    {
      ghost var t := Contents();
      var rows := set e | e in outboxIndex && e.0 == uin;
      var todo := rows;
      while todo != {}
        invariant todo <= rows && messages == t.messages && index == t.index && outboxIndex == t.outboxIndex
        invariant outbox == map o | o in t.outbox && ((uin, o) !in t.outboxIndex || (uin, o) in todo) :: t.outbox[o]
        decreases |todo|
      {
        var row :| row in todo;
        outbox := outbox - {row.1};
        todo := todo - {row};
      }
      outboxIndex := set e | e in outboxIndex && e.0 != uin;
    }

    /** DeleteUserMessages. */
    method DeleteUserMessages(uin: Uin)
      modifies this
      ensures Contents() == Erased(old(Contents()), uin)
    {
      DeleteMessages(uin);
      DeleteOutboxEntries(uin);
    }
  }

  // Index agrees with data

  predicate In(x: Uin, pair: (Uin, Uin)) { x == pair.0 || x == pair.1 }

  predicate PairOf(row: Row, pair: (Uin, Uin)) { pair == (Lower(row.sender, row.receiver), Upper(row.sender, row.receiver)) }

  /** The recorded parties of a conversation are the ones its identifier spells. */
  ghost predicate PartiesOk(s: State) {
    forall c :: c in s.parties ==> s.parties[c].0 <= s.parties[c].1 && c == Conversation(s.parties[c].0, s.parties[c].1)
  }

  /** A message row belongs to its conversation's parties and is indexed for both. */
  ghost predicate MessageOk(s: State, k: MessageKey) {
    k in s.t.messages && k.conversation in s.parties && PairOf(s.t.messages[k], s.parties[k.conversation]) &&
    (s.t.messages[k].sender, k) in s.t.index && (s.t.messages[k].receiver, k) in s.t.index
  }

  /** An index row belongs to a party of its conversation, and the other party's row exists too. */
  ghost predicate IndexOk(s: State, x: Uin, k: MessageKey) {
    k.conversation in s.parties && In(x, s.parties[k.conversation]) &&
    (s.parties[k.conversation].0, k) in s.t.index && (s.parties[k.conversation].1, k) in s.t.index
  }

  ghost predicate OutboxOk(s: State, o: OutboxKey) {
    o in s.t.outbox && (s.t.outbox[o].sender, o) in s.t.outboxIndex && (s.t.outbox[o].receiver, o) in s.t.outboxIndex
  }

  /** Since the user's last wipe, a message to or from the user was written under this outbox key. */
  predicate Touched(history: seq<Event>, uin: Uin, o: OutboxKey)
    decreases |history|
  {
    history != [] &&
    var last, before := history[|history| - 1], history[..|history| - 1];
    if last == Wipe(uin) then false
    else if last.Write? && (last.sender == uin || last.receiver == uin) && o == OutboxKey(Bucket(last.id), last.createdAt, last.id) then true
    else Touched(before, uin, o)
  }

  ghost predicate TouchedOk(s: State) {
    forall u: Uin, o: OutboxKey :: (u, o) in s.t.outboxIndex <==> Touched(s.history, u, o)
  }

  ghost predicate Inv(s: State) {
    PartiesOk(s) && (forall k :: k in s.t.messages ==> MessageOk(s, k)) && (forall e :: e in s.t.index ==> IndexOk(s, e.0, e.1)) &&
    (forall o :: o in s.t.outbox ==> OutboxOk(s, o))
  }

  lemma SamePair(a: Uin, b: Uin)
    ensures Conversation(a, b) == Conversation(Lower(a, b), Upper(a, b))
  {
  }

  /** Recording the parties of a conversation again changes nothing. */
  lemma SameParties(s: State, a: Uin, b: Uin)
    requires PartiesOk(s) && Conversation(a, b) in s.parties
    ensures s.parties[Conversation(a, b)] == (Lower(a, b), Upper(a, b))
  {
    var pair := s.parties[Conversation(a, b)];
    ConversationInjective(pair.0, pair.1, a, b);
  }

  lemma WriteKeeps(s: State, sender: Uin, receiver: Uin, createdAt: Time, id: MessageId)
    requires Inv(s)
    ensures Inv(Next(s, Write(sender, receiver, createdAt, id)))
  {
    var n := Next(s, Write(sender, receiver, createdAt, id));
    SamePair(sender, receiver);
    if Conversation(sender, receiver) in s.parties { SameParties(s, sender, receiver); }
    assert forall c :: c in s.parties ==> c in n.parties && n.parties[c] == s.parties[c];
    forall k | k in n.t.messages ensures MessageOk(n, k) { if k in s.t.messages { assert MessageOk(s, k); } }
    forall e | e in n.t.index ensures IndexOk(n, e.0, e.1) { if e in s.t.index { assert IndexOk(s, e.0, e.1); } }
    forall o | o in n.t.outbox ensures OutboxOk(n, o) { if o in s.t.outbox { assert OutboxOk(s, o); } }
  }

  /** An index row the erasure leaves is of a conversation the user has no part in. */
  lemma LeftRowIsForeign(s: State, uin: Uin, x: Uin, k: MessageKey)
    requires Inv(s) && (x, k) in Erased(s.t, uin).index
    ensures k.conversation in s.parties && !In(uin, s.parties[k.conversation]) && (uin, k) !in s.t.index
  {
    assert IndexOk(s, x, k);
    var pair := s.parties[k.conversation];
    CounterpartRoundTrip(pair.0, pair.1, uin);
    if (uin, k) in s.t.index { assert IndexOk(s, uin, k); }
  }

  lemma WipeKeeps(s: State, uin: Uin)
    requires Inv(s)
    ensures Inv(Next(s, Wipe(uin)))
  {
    var n := Next(s, Wipe(uin));
    forall k | k in n.t.messages ensures MessageOk(n, k) { assert MessageOk(s, k); }
    forall e | e in n.t.index ensures IndexOk(n, e.0, e.1) {
      assert IndexOk(s, e.0, e.1);
      LeftRowIsForeign(s, uin, e.0, e.1);
    }
    forall o | o in n.t.outbox ensures OutboxOk(n, o) { assert OutboxOk(s, o); }
  }

  lemma DeliveredKeeps(s: State, key: OutboxKey)
    requires Inv(s)
    ensures Inv(Next(s, Delivered(key)))
  {
    var n := Next(s, Delivered(key));
    forall k | k in n.t.messages ensures MessageOk(n, k) { assert MessageOk(s, k); }
    forall e | e in n.t.index ensures IndexOk(n, e.0, e.1) { assert IndexOk(s, e.0, e.1); }
    forall o | o in n.t.outbox ensures OutboxOk(n, o) { assert OutboxOk(s, o); }
  }

  lemma StepKeeps(s: State, e: Event)
    requires Inv(s)
    ensures Inv(Next(s, e))
  {
    match e
    case Write(sender, receiver, createdAt, id) => WriteKeeps(s, sender, receiver, createdAt, id);
    case Wipe(uin) => WipeKeeps(s, uin);
    case Delivered(key) => DeliveredKeeps(s, key);
  }

  lemma TouchedStep(s: State, e: Event)
    requires TouchedOk(s)
    ensures TouchedOk(Next(s, e))
  {
    assert (s.history + [e])[..|s.history|] == s.history;
  }

  lemma {:induction false} RunKeeps(s: State, events: seq<Event>)
    requires Inv(s) && TouchedOk(s)
    ensures Inv(Run(s, events)) && TouchedOk(Run(s, events))
    decreases |events|
  {
    if events != [] {
      StepKeeps(s, events[0]);
      TouchedStep(s, events[0]);
      RunKeeps(Next(s, events[0]), events[1..]);
    }
  }

  lemma ReachableInv(s: State)
    requires Reachable(s)
    ensures Inv(s) && TouchedOk(s)
  {
    var events :| s == Run(Empty(), events);
    RunKeeps(Empty(), events);
  }

  /** After the erasure no message row, no deletion-index row in anybody's partition and no outbox row names the user,
      neither as a party nor inside a conversation identifier. */
  lemma NothingNamesTheUser(s: State, uin: Uin, other: Uin)
    requires Reachable(s)
    ensures
      var t := Erased(s.t, uin);
      (forall k :: k in t.messages ==>
         t.messages[k].sender != uin && t.messages[k].receiver != uin && k.conversation != Conversation(uin, other)) &&
      (forall e :: e in t.index ==> e.0 != uin && e.1.conversation != Conversation(uin, other)) &&
      (forall o :: o in t.outbox ==> t.outbox[o].sender != uin && t.outbox[o].receiver != uin) &&
      (forall e :: e in t.outboxIndex ==> e.0 != uin)
  {
    ReachableInv(s);
    var t := Erased(s.t, uin);
    forall e | e in t.index ensures e.1.conversation != Conversation(uin, other) {
      LeftRowIsForeign(s, uin, e.0, e.1);
      var pair := s.parties[e.1.conversation];
      ConversationInjective(pair.0, pair.1, uin, other);
    }
    forall k | k in t.messages
      ensures t.messages[k].sender != uin && t.messages[k].receiver != uin && k.conversation != Conversation(uin, other)
    {
      assert MessageOk(s, k);
      var sender := t.messages[k].sender;
      assert (sender, k) in t.index;
    }
    forall o | o in t.outbox ensures t.outbox[o].sender != uin && t.outbox[o].receiver != uin { assert OutboxOk(s, o); }
  }

  /** Conversations the user has no part in keep every message and every index row. */
  lemma OtherConversationsUntouched(s: State, uin: Uin, a: Uin, b: Uin)
    requires Reachable(s) && a != uin && b != uin
    ensures
      var t := Erased(s.t, uin);
      (forall k :: k in s.t.messages && k.conversation == Conversation(a, b) ==> k in t.messages && t.messages[k] == s.t.messages[k]) &&
      (forall e :: e in s.t.index && e.1.conversation == Conversation(a, b) ==> e in t.index)
  {
    ReachableInv(s);
    forall k: MessageKey | k.conversation == Conversation(a, b) ensures (uin, k) !in s.t.index {
      if (uin, k) in s.t.index {
        ForeignKey(s, uin, k, a, b);
      }
    }
  }

  lemma ForeignKey(s: State, uin: Uin, k: MessageKey, a: Uin, b: Uin)
    requires Inv(s) && (uin, k) in s.t.index && k.conversation == Conversation(a, b)
    ensures uin == a || uin == b
  {
    assert IndexOk(s, uin, k);
    var pair := s.parties[k.conversation];
    ConversationInjective(pair.0, pair.1, a, b);
  }

  /** A pending outbox row between others survives the erasure exactly when nothing was written to or from the user under the
      same creation time and message id since the user's last wipe. */
  lemma OutboxRowKeptExactlyWhen(s: State, uin: Uin, o: OutboxKey)
    requires Reachable(s) && o in s.t.outbox && s.t.outbox[o].sender != uin && s.t.outbox[o].receiver != uin
    ensures o in Erased(s.t, uin).outbox <==> !Touched(s.history, uin, o)
    ensures o in Erased(s.t, uin).outbox ==> Erased(s.t, uin).outbox[o] == s.t.outbox[o]
  {
    ReachableInv(s);
  }

  /** Two messages of one sender under one client id and millisecond to different receivers: the second has overwritten the
      first one's outbox row, and the erasure of the first receiver deletes it. */
  lemma SharedKeyLosesOutbox(sender: Uin, first: Uin, second: Uin, createdAt: Time, id: MessageId) returns (s: State)
    requires first != second && first != sender
    ensures Reachable(s) && OutboxKey(Bucket(id), createdAt, id) in s.t.outbox
    ensures s.t.outbox[OutboxKey(Bucket(id), createdAt, id)] == Row(sender, second)
    ensures OutboxKey(Bucket(id), createdAt, id) !in Erased(s.t, first).outbox
  {
    var e, f := Write(sender, first, createdAt, id), Write(sender, second, createdAt, id);
    s := Next(Next(Empty(), e), f);
    assert [e, f][1..] == [f] && Run(Empty(), [e, f]) == Run(Next(Empty(), e), [f]);
    assert [f][1..] == [] && Run(Next(Empty(), e), [f]) == s;
  }
}
