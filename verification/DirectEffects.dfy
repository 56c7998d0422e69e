/**
 What the tables of direct messages hold after any run, read off the history of writes, deliveries and wipes.
 */
module DirectEffects {
  import opened Conversations
  import opened DirectErasure

  /** A write of this row, sender and receiver in order, under this key. */
  predicate Writes(e: Event, k: MessageKey, row: Row) {
    e == Write(row.sender, row.receiver, k.createdAt, k.id) && k.conversation == Conversation(row.sender, row.receiver)
  }

  predicate WritesKey(e: Event, k: MessageKey) { e.Write? && Writes(e, k, Row(e.sender, e.receiver)) }

  /** The event at i wrote the row, nothing was written under the key since, and neither party was wiped since. */
  predicate LastWrite(history: seq<Event>, i: nat, k: MessageKey, row: Row) {
    i < |history| && Writes(history[i], k, row) &&
    forall j :: i < j < |history| ==> !WritesKey(history[j], k) && history[j] != Wipe(row.sender) && history[j] != Wipe(row.receiver)
  }

  ghost predicate Stands(history: seq<Event>, k: MessageKey, row: Row) { exists i: nat :: LastWrite(history, i, k, row) }

  lemma StandsStep(history: seq<Event>, e: Event, k: MessageKey, row: Row)
    ensures Stands(history + [e], k, row) <==>
            Writes(e, k, row) || (Stands(history, k, row) && !WritesKey(e, k) && e != Wipe(row.sender) && e != Wipe(row.receiver))
  {
    var more := history + [e];
    if Writes(e, k, row) { assert LastWrite(more, |history|, k, row); }
    if Stands(history, k, row) && !WritesKey(e, k) && e != Wipe(row.sender) && e != Wipe(row.receiver) {
      var i: nat :| LastWrite(history, i, k, row);
      assert LastWrite(more, i, k, row);
    }
    if Stands(more, k, row) && !Writes(e, k, row) {
      var i: nat :| LastWrite(more, i, k, row);
      assert more[|history|] == e && i != |history|;
      assert forall j :: 0 <= j < |history| ==> more[j] == history[j];
      assert LastWrite(history, i, k, row);
    }
  }

  ghost predicate MessagesOk(s: State) {
    forall k, row :: k in s.t.messages && s.t.messages[k] == row <==> Stands(s.history, k, row)
  }

  /** A deletion-index row is there for a party of a stored message and for nobody else. */
  ghost predicate IndexExact(t: Tables) {
    forall x: Uin, k :: (x, k) in t.index <==> k in t.messages && (x == t.messages[k].sender || x == t.messages[k].receiver)
  }

  /** A wipe takes a stored message exactly if the user is one of its parties. */
  lemma WipeTakesExactly(s: State, uin: Uin, k: MessageKey)
    requires Inv(s) && IndexExact(s.t) && k in s.t.messages
    ensures
      var row := s.t.messages[k];
      k in Erased(s.t, uin).messages <==> uin != row.sender && uin != row.receiver
  {
  }

  lemma IndexStep(s: State, e: Event)
    requires Inv(s) && IndexExact(s.t)
    ensures IndexExact(Next(s, e).t)
  {
    var n := Next(s, e);
    match e
    case Wipe(uin) =>
      forall x: Uin, k ensures (x, k) in n.t.index <==> k in n.t.messages && (x == n.t.messages[k].sender || x == n.t.messages[k].receiver) {
        WipedIndex(s, uin, x, k);
      }
    case Write(sender, receiver, createdAt, id) =>
      forall x: Uin, k ensures (x, k) in n.t.index <==> k in n.t.messages && (x == n.t.messages[k].sender || x == n.t.messages[k].receiver) {
        WrittenIndex(s, sender, receiver, createdAt, id, x, k);
      }
    case Delivered(_) =>
  }

  lemma WrittenIndex(s: State, sender: Uin, receiver: Uin, createdAt: Time, id: MessageId, x: Uin, k: MessageKey)
    requires Inv(s) && IndexExact(s.t)
    ensures
      var t := WriteNext(s.t, sender, receiver, createdAt, id);
      (x, k) in t.index <==> k in t.messages && (x == t.messages[k].sender || x == t.messages[k].receiver)
  {
    if k.conversation == Conversation(sender, receiver) && (x, k) in s.t.index { ForeignKey(s, x, k, sender, receiver); }
  }

  lemma WipedIndex(s: State, uin: Uin, x: Uin, k: MessageKey)
    requires Inv(s) && IndexExact(s.t)
    ensures
      var t := Erased(s.t, uin);
      (x, k) in t.index <==> k in t.messages && (x == t.messages[k].sender || x == t.messages[k].receiver)
  {
    if (x, k) in Erased(s.t, uin).index {
      LeftRowIsForeign(s, uin, x, k);
    } else if k in Erased(s.t, uin).messages && (x, k) in s.t.index {
      assert MessageOk(s, k) && (uin, k) !in s.t.index;
    }
  }

  lemma MessagesStep(s: State, e: Event)
    requires Inv(s) && IndexExact(s.t) && MessagesOk(s)
    ensures MessagesOk(Next(s, e))
  {
    var n := Next(s, e);
    forall k, row ensures k in n.t.messages && n.t.messages[k] == row <==> Stands(n.history, k, row) {
      StandsStep(s.history, e, k, row);
      assert k in s.t.messages && s.t.messages[k] == row <==> Stands(s.history, k, row);
    }
  }

  // The outbox

  predicate WritesOut(e: Event, o: OutboxKey, row: Row) {
    e == Write(row.sender, row.receiver, o.createdAt, o.id) && o.bucket == o.id % 16
  }

  /** The event at i wrote the row, and since then nothing was written under the key, it was not drained, and no account was
      wiped that something had been written to or from under the key. */
  ghost predicate LastOut(history: seq<Event>, i: nat, o: OutboxKey, row: Row) {
    i < |history| && WritesOut(history[i], o, row) &&
    forall j :: i < j < |history| ==> OutKept(history[..j], history[j], o)
  }

  ghost predicate OutKept(before: seq<Event>, e: Event, o: OutboxKey) {
    e != Delivered(o) && !(e.Write? && WritesOut(e, o, Row(e.sender, e.receiver))) && (e.Wipe? ==> !Touched(before, e.uin, o))
  }

  ghost predicate Pending(history: seq<Event>, o: OutboxKey, row: Row) { exists i: nat :: LastOut(history, i, o, row) }

  lemma PendingStep(history: seq<Event>, e: Event, o: OutboxKey, row: Row)
    ensures Pending(history + [e], o, row) <==> WritesOut(e, o, row) || (Pending(history, o, row) && OutKept(history, e, o))
  {
    var more := history + [e];
    assert more[..|history|] == history && more[|history|] == e;
    assert forall j :: 0 <= j < |history| ==> more[..j] == history[..j] && more[j] == history[j];
    if WritesOut(e, o, row) { assert LastOut(more, |history|, o, row); }
    if Pending(history, o, row) && OutKept(history, e, o) {
      var i: nat :| LastOut(history, i, o, row);
      assert LastOut(more, i, o, row);
    }
    if Pending(more, o, row) && !WritesOut(e, o, row) {
      var i: nat :| LastOut(more, i, o, row);
      assert i != |history|;
      forall j | i < j < |history| ensures OutKept(history[..j], history[j], o) { assert OutKept(more[..j], more[j], o); }
      assert LastOut(history, i, o, row);
    }
  }

  ghost predicate PendingOk(s: State) {
    forall o, row :: o in s.t.outbox && s.t.outbox[o] == row <==> Pending(s.history, o, row)
  }

  lemma OutboxStep(s: State, e: Event)
    requires TouchedOk(s) && PendingOk(s)
    ensures PendingOk(Next(s, e))
  {
    var n := Next(s, e);
    forall o, row ensures o in n.t.outbox && n.t.outbox[o] == row <==> Pending(n.history, o, row) {
      PendingStep(s.history, e, o, row);
      assert o in s.t.outbox && s.t.outbox[o] == row <==> Pending(s.history, o, row);
    }
  }

  lemma {:induction false} RunTables(s: State, events: seq<Event>)
    requires Inv(s) && TouchedOk(s) && IndexExact(s.t) && MessagesOk(s) && PendingOk(s)
    ensures IndexExact(Run(s, events).t) && MessagesOk(Run(s, events)) && PendingOk(Run(s, events))
    decreases |events|
  {
    if events != [] {
      var n := Next(s, events[0]);
      StepKeeps(s, events[0]);
      TouchedStep(s, events[0]);
      IndexStep(s, events[0]);
      MessagesStep(s, events[0]);
      OutboxStep(s, events[0]);
      RunTables(n, events[1..]);
    }
  }

  lemma ReachableTables(s: State)
    requires Reachable(s)
    ensures IndexExact(s.t) && MessagesOk(s) && PendingOk(s)
  {
    var events :| s == Run(Empty(), events);
    RunTables(Empty(), events);
  }

  /** Over every run a key holds a message row exactly if a write under it was followed by no other one and by no wipe of its
      sender or receiver; it is that write's row. */
  lemma MessageStandsExactlyWhen(s: State, k: MessageKey, row: Row)
    requires Reachable(s)
    ensures k in s.t.messages && s.t.messages[k] == row <==>
            exists i: nat :: LastWrite(s.history, i, k, row)
  {
    ReachableTables(s);
    assert Stands(s.history, k, row) <==> exists i: nat :: LastWrite(s.history, i, k, row);
  }

  /** The deletion index holds a row for each party of each stored message, and no other row. */
  lemma IndexRowExactlyWhen(s: State, x: Uin, k: MessageKey)
    requires Reachable(s)
    ensures (x, k) in s.t.index <==> k in s.t.messages && (x == s.t.messages[k].sender || x == s.t.messages[k].receiver)
  {
    ReachableTables(s);
  }

  /** The same for the outbox, which a drain empties too, and which a wipe of anybody who shares the key empties. */
  lemma OutboxStandsExactlyWhen(s: State, o: OutboxKey, row: Row)
    requires Reachable(s)
    ensures o in s.t.outbox && s.t.outbox[o] == row <==> exists i: nat :: LastOut(s.history, i, o, row)
  {
    ReachableTables(s);
    assert Pending(s.history, o, row) <==> exists i: nat :: LastOut(s.history, i, o, row);
  }
}
