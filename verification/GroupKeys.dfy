/**
 Sender-key distributions in every reachable state: exactly those of the current epoch are active, and
 no recipient holds more than four of one sender per epoch, so the rank filter of a read hides nothing.
 */
module GroupKeys {
  import opened Options
  import opened Groups
  import opened Sets

  /** A distribution belongs to an existing group and is active exactly in the group's current epoch. */
  ghost predicate DistsOk(s: State) {
    forall k :: k in s.dists ==>
      k.group in s.groups && k.epoch <= s.groups[k.group].epoch &&
      (s.dists[k].retiredAt == None <==> k.epoch == s.groups[k.group].epoch)
  }

  ghost predicate SlotsOk(s: State) { forall k :: |Slot(s.dists, k)| <= SENDER_LIMIT }

  lemma AddDists(s: State, g: Gid, uin: Uin, now: Time)
    requires GroupsOk(s) && DistsOk(s) && g in s.groups
    ensures DistsOk(AddNext(s, g, uin, now))
  {
  }

  lemma RemoveDists(s: State, g: Gid, uin: Uin, now: Time)
    requires GroupsOk(s) && DistsOk(s) && g in s.groups
    ensures DistsOk(RemoveNext(s, g, uin, now))
  {
  }

  lemma WipeDists(s: State, uin: Uin, now: Time)
    requires GroupsOk(s) && DistsOk(s)
    ensures DistsOk(WipeNext(s, uin, now))
  {
  }

  lemma StepDists(s: State, e: Event)
    requires GroupsOk(s) && DistsOk(s)
    ensures DistsOk(Next(s, e))
  {
    match e
    case Add(g, actor, uin, now) => if g in s.groups { AddDists(s, g, uin, now); }
    case Remove(g, actor, uin, now) => if g in s.groups { RemoveDists(s, g, uin, now); }
    case WipeMember(uin, now) => WipeDists(s, uin, now);
    case _ =>
  }

  // At most four per slot

  /** Some key of a non-empty slot has all the others above it. */
  lemma {:induction false} OldestExists(dists: map<DistKey, Dist>, keys: set<DistKey>, key: DistKey)
    requires keys <= dists.Keys && keys != {} && forall k :: k in keys ==> SameSlot(k, key)
    ensures exists k :: k in keys && Above(dists, keys, k) == keys - {k}
    decreases |keys|
  {
    var x :| x in keys;
    var rest := keys - {x};
    if rest == {} {
      assert keys == {x};
      assert Above(dists, keys, x) == keys - {x};
    } else {
      OldestExists(dists, rest, key);
      var y :| y in rest && Above(dists, rest, y) == rest - {y};
      var oldest := if Newer(dists, x, y) then y else x;
      forall k | k in keys && k != oldest ensures Newer(dists, k, oldest) {
        if k != x { assert k == y || k in Above(dists, rest, y); }
      }
      assert Above(dists, keys, oldest) == keys - {oldest};
    }
  }

  /** Deleting from rank four on leaves at most three. */
  lemma TrimLeavesThree(dists: map<DistKey, Dist>, key: DistKey)
    ensures |ActiveSlot(dists, key) - Trimmed(dists, key)| <= SENDER_LIMIT - 1
  {
    var active := ActiveSlot(dists, key);
    var kept := active - Trimmed(dists, key);
    if kept != {} {
      OldestExists(dists, kept, key);
      var k :| k in kept && Above(dists, kept, k) == kept - {k};
      SubsetSize(Above(dists, kept, k), Above(dists, active, k));
    }
  }

  lemma FreshSlot(s: State, key: DistKey, ciphertext: string, now: Time, k: DistKey)
    requires DistsOk(s) && Eligible(s, key) && key !in s.dists && SameSlot(key, k)
    ensures |Slot(PutDists(s, key, ciphertext, now), k)| <= SENDER_LIMIT
  {
    var after, kept := Slot(PutDists(s, key, ciphertext, now), k), ActiveSlot(s.dists, key) - Trimmed(s.dists, key);
    forall o | o in after && o != key ensures o in kept {
      assert o in s.dists && SameSlot(o, key);
    }
    SubsetSize(after, kept + {key});
    TrimLeavesThree(s.dists, key);
  }

  lemma PutSlots(s: State, key: DistKey, ciphertext: string, now: Time)
    requires DistsOk(s) && SlotsOk(s)
    ensures SlotsOk(s.(dists := PutDists(s, key, ciphertext, now)))
  {
    var dists := PutDists(s, key, ciphertext, now);
    forall k ensures |Slot(dists, k)| <= SENDER_LIMIT {
      if Eligible(s, key) && key !in s.dists && SameSlot(key, k) {
        FreshSlot(s, key, ciphertext, now, k);
      } else {
        assert Slot(dists, k) <= Slot(s.dists, k);
        SubsetSize(Slot(dists, k), Slot(s.dists, k));
      }
    }
  }

  /** Every other statement only deletes or retires distributions. */
  lemma OtherSlots(s: State, e: Event)
    requires SlotsOk(s) && !e.Put?
    ensures SlotsOk(Next(s, e))
  {
    forall k ensures |Slot(Next(s, e).dists, k)| <= SENDER_LIMIT {
      OnlyPutAdds(s, e);
      SubsetSize(Slot(Next(s, e).dists, k), Slot(s.dists, k));
    }
  }

  lemma OnlyPutAdds(s: State, e: Event)
    requires !e.Put?
    ensures Next(s, e).dists.Keys <= s.dists.Keys
  {
  }

  lemma {:induction false} RunKeys(s: State, events: seq<Event>)
    requires GroupsOk(s) && DistsOk(s) && SlotsOk(s)
    ensures GroupsOk(Run(s, events)) && DistsOk(Run(s, events)) && SlotsOk(Run(s, events))
    decreases |events|
  {
    if events != [] {
      var e := events[0];
      StepGroups(s, e);
      StepDists(s, e);
      if e.Put? { PutSlots(s, e.key, e.ciphertext, e.now); } else { OtherSlots(s, e); }
      RunKeys(Next(s, e), events[1..]);
    }
  }

  lemma ReachableKeys(s: State)
    requires Reachable(s)
    ensures GroupsOk(s) && DistsOk(s) && SlotsOk(s)
  {
    var empty := State(map[], map[], 0);
    var events :| s == Run(empty, events);
    forall k ensures |Slot(empty.dists, k)| <= SENDER_LIMIT { assert Slot(empty.dists, k) == {}; }
    RunKeys(empty, events);
  }

  /** A distribution is unretired exactly when its epoch is its group's current one. */
  lemma UnretiredExactlyCurrent(s: State, k: DistKey)
    requires Reachable(s) && k in s.dists
    ensures k.group in s.groups
    ensures s.dists[k].retiredAt == None <==> k.epoch == s.groups[k.group].epoch
  {
    ReachableKeys(s);
  }

  lemma AtMostFourPerSender(s: State, k: DistKey)
    requires Reachable(s)
    ensures |Slot(s.dists, k)| <= SENDER_LIMIT
  {
    ReachableKeys(s);
  }

  // Reads

  /** The rows a read considers; the epoch argument was read by an earlier statement. */
  predicate Considered(s: State, g: Gid, recipient: Uin, epoch: nat, now: Time, k: DistKey) {
    k in s.dists && k.group == g && k.recipient == recipient &&
    (k.epoch == epoch || (s.dists[k].retiredAt.Some? && now < s.dists[k].retiredAt.value + DAY))
  }

  /** Rank within sender and epoch, newest first. */
  ghost function Rank(s: State, g: Gid, recipient: Uin, epoch: nat, now: Time, k: DistKey): nat
    requires k in s.dists
  {
    |set o | o in s.dists && Considered(s, g, recipient, epoch, now, o) && SameSlot(o, k) && Newer(s.dists, o, k)| + 1
  }

  /** The rank filter of a read hides no row. */
  lemma RankFilterHidesNothing(s: State, g: Gid, recipient: Uin, epoch: nat, now: Time, k: DistKey)
    requires Reachable(s) && Considered(s, g, recipient, epoch, now, k)
    ensures Rank(s, g, recipient, epoch, now, k) <= SENDER_LIMIT
  {
    ReachableKeys(s);
    var above := set o | o in s.dists && Considered(s, g, recipient, epoch, now, o) && SameSlot(o, k) && Newer(s.dists, o, k);
    SubsetSize(above + {k}, Slot(s.dists, k));
    assert k !in above;
  }
}
