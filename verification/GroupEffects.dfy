/**
 What each group statement does and when, in the fields of the tables: who is in a group, which distributions are kept,
 retired and deleted, and in which order an inbox lists them.
 */
module GroupEffects {
  import opened Options
  import opened Groups
  import opened GroupKeys
  import opened InboxReads
  import opened Listings
  import opened Sets
  import SenderKeyInbox

  // Membership

  lemma CreatesGroup(s: State, owner: Uin, now: Time)
    ensures
      var t := Next(s, Create(owner, now));
      t.groups == s.groups[s.nextGid := Group(owner, 1, map[owner := Member(true, now)])] && t.dists == s.dists && t.nextGid == s.nextGid + 1
  {
  }

  /** A member is added exactly by an admin of the group, and only if it is not in it; it is no admin, the epoch moves by one,
      and the distributions of the epoch that ends are retired now. */
  lemma AddsExactlyWhen(s: State, g: Gid, actor: Uin, uin: Uin, now: Time)
    ensures
      var t := Next(s, Add(g, actor, uin, now));
      if g in s.groups && actor in s.groups[g].members && s.groups[g].members[actor].admin && uin !in s.groups[g].members then
        var group := s.groups[g];
        t.groups == s.groups[g := Group(group.owner, group.epoch + 1, group.members[uin := Member(false, now)])] &&
        t.dists.Keys == s.dists.Keys && t.nextGid == s.nextGid &&
        forall k :: k in s.dists ==>
          t.dists[k] == if k.group == g && k.epoch == group.epoch && s.dists[k].retiredAt == None then s.dists[k].(retiredAt := Some(now)) else s.dists[k]
      else t == s
  {
  }

  /** Who is in the group after somebody left it. */
  ghost predicate Left(group: Group, after: Group, uin: Uin) {
    after.epoch == group.epoch + 1 && after.members.Keys == group.members.Keys - {uin} &&
    (forall u :: u in after.members ==> after.members[u].joinedAt == group.members[u].joinedAt) &&
    if group.owner != uin then
      after.owner == group.owner && forall u :: u in after.members ==> after.members[u].admin == group.members[u].admin
    else
      after.owner in after.members && after.members[after.owner].admin &&
      (forall u :: u in after.members && u != after.owner ==>
         after.members[u].admin == group.members[u].admin &&
         (group.members[after.owner].joinedAt < group.members[u].joinedAt ||
          (group.members[after.owner].joinedAt == group.members[u].joinedAt && after.owner < u)))
  }

  lemma LeaveMeans(group: Group, uin: Uin)
    ensures (exists u :: u in group.members && u != uin) <==> Leave(group, uin).Some?
    ensures Leave(group, uin).Some? ==> Left(group, Leave(group, uin).value, uin)
  {
    var rest := group.members - {uin};
    if u :| u in group.members && u != uin { assert u in rest; }
    if rest != map[] {
      var u :| u in rest.Keys;
      assert u in group.members;
      assert IsFirst(rest, First(rest));
    }
  }

  /** A member is removed exactly by itself or by an admin of the group. The longest-standing member succeeds a leaving owner, a
      group nobody is left in is gone with its distributions, and those of a group that stays are retired now. */
  lemma RemovesExactlyWhen(s: State, g: Gid, actor: Uin, uin: Uin, now: Time)
    ensures
      var t := Next(s, Remove(g, actor, uin, now));
      if g in s.groups && uin in s.groups[g].members &&
         (actor == uin || (actor in s.groups[g].members && s.groups[g].members[actor].admin)) then
        t.groups - {g} == s.groups - {g} && t.nextGid == s.nextGid &&
        (g in t.groups <==> exists u :: u in s.groups[g].members && u != uin) &&
        (g in t.groups ==> Left(s.groups[g], t.groups[g], uin)) &&
        (forall k :: k in s.dists && k.group != g && k.group in s.groups ==> k in t.dists && t.dists[k] == s.dists[k]) &&
        (forall k :: k in s.dists && k.group == g ==>
           (k in t.dists <==> g in t.groups) &&
           (k in t.dists ==> t.dists[k] == if s.dists[k].retiredAt == None then s.dists[k].(retiredAt := Some(now)) else s.dists[k]))
      else t == s
  {
    if g in s.groups { LeaveMeans(s.groups[g], uin); }
  }

  /** Only the owner deletes a group, and its distributions go with it. */
  lemma DeletesExactlyWhen(s: State, g: Gid, actor: Uin)
    ensures
      var t := Next(s, Delete(g, actor));
      if g in s.groups && s.groups[g].owner == actor then
        t.groups == s.groups - {g} && t.nextGid == s.nextGid &&
        forall k :: k in s.dists && k.group in s.groups ==> (k in t.dists <==> k.group != g) && (k in t.dists ==> t.dists[k] == s.dists[k])
      else t == s
  {
  }

  // Distributions

  predicate CreatedAfter(dists: map<DistKey, Dist>, a: DistKey, b: DistKey)
    requires a in dists && b in dists
  {
    dists[a].createdAt > dists[b].createdAt || (dists[a].createdAt == dists[b].createdAt && a.id > b.id)
  }

  predicate SameSender(a: DistKey, b: DistKey) {
    a.group == b.group && a.epoch == b.epoch && a.recipient == b.recipient && a.sender == b.sender
  }

  /** The active distributions beside the key that the put may delete. */
  function Candidates(dists: map<DistKey, Dist>, key: DistKey): set<DistKey> {
    set k | k in dists && SameSender(k, key) && dists[k].retiredAt == None
  }

  function Kept(s: State, t: State, key: DistKey): set<DistKey> { set k | k in Candidates(s.dists, key) && k in t.dists }

  /** What an inserting put leaves: the key is stored, of the active distributions of its sender the newest three, and everything
      else but what had been retired for more than a day. */
  ghost predicate PutLeaves(s: State, t: State, key: DistKey, ciphertext: string, now: Time) {
    key in t.dists && t.dists[key] == Dist(now, None, ciphertext) && t.groups == s.groups &&
    (forall k, d :: k in Kept(s, t, key) && d in Candidates(s.dists, key) && d !in t.dists ==> CreatedAfter(s.dists, k, d)) &&
    |Kept(s, t, key)| == (if |Candidates(s.dists, key)| < 3 then |Candidates(s.dists, key)| else 3) &&
    (forall k :: k in t.dists && k != key ==> k in s.dists && t.dists[k] == s.dists[k]) &&
    (forall k :: k in s.dists && k !in Candidates(s.dists, key) ==>
       (k !in t.dists <==> k.group == key.group && k.recipient == key.recipient && s.dists[k].retiredAt.Some? && s.dists[k].retiredAt.value + 86_400_000_000 < now))
  }

  lemma Fewer(dists: map<DistKey, Dist>, key: DistKey, d: DistKey)
    requires d in ActiveSlot(dists, key)
    ensures |Above(dists, ActiveSlot(dists, key), d)| < |ActiveSlot(dists, key)|
  {
    SubsetSize(Above(dists, ActiveSlot(dists, key), d) + {d}, ActiveSlot(dists, key));
  }

  /** What is newer than a survivor survives. */
  lemma NewerSurvives(dists: map<DistKey, Dist>, key: DistKey, k: DistKey, d: DistKey)
    requires k in ActiveSlot(dists, key) && d in Trimmed(dists, key) && CreatedAfter(dists, d, k)
    ensures k in Trimmed(dists, key)
  {
    var active := ActiveSlot(dists, key);
    assert Above(dists, active, d) <= Above(dists, active, k);
    SubsetSize(Above(dists, active, d), Above(dists, active, k));
  }

  /** If the trim deletes anything, three survive: those above the newest one it deletes. */
  lemma ThreeSurvive(dists: map<DistKey, Dist>, key: DistKey)
    requires Trimmed(dists, key) != {}
    ensures |ActiveSlot(dists, key) - Trimmed(dists, key)| == 3
  {
    var active, gone := ActiveSlot(dists, key), Trimmed(dists, key);
    var less := (a: DistKey, b: DistKey) => a in dists && b in dists && CreatedAfter(dists, a, b);
    assert StrictOrder(less);
    assert TotalOn(gone, less);
    var d := LeastExists(gone, less);
    forall k | k in Above(dists, active, d) ensures k in active - gone {
      assert !less(d, k);
    }
    SubsetSize(Above(dists, active, d), active - gone);
    TrimLeavesThree(dists, key);
  }

  lemma PutInserts(s: State, key: DistKey, ciphertext: string, now: Time)
    requires key.group in s.groups && s.groups[key.group].epoch == key.epoch && key.sender in s.groups[key.group].members
    requires key.recipient in s.groups[key.group].members && key !in s.dists
    ensures PutLeaves(s, Next(s, Put(key, ciphertext, now)), key, ciphertext, now)
  {
    var t := Next(s, Put(key, ciphertext, now));
    var active, gone := ActiveSlot(s.dists, key), Trimmed(s.dists, key);
    assert Candidates(s.dists, key) == active;
    assert Kept(s, t, key) == active - gone;
    forall k, d | k in active - gone && d in gone ensures CreatedAfter(s.dists, k, d) {
      if !CreatedAfter(s.dists, k, d) { NewerSurvives(s.dists, key, k, d); }
    }
    if gone == {} {
      assert active - gone == active;
      if |active| > 3 { TrimLeavesThree(s.dists, key); }
    } else {
      ThreeSurvive(s.dists, key);
      var d :| d in gone;
      Fewer(s.dists, key, d);
    }
  }

  /** A put is stored exactly for two members at the group's current epoch, and a stored key is never overwritten. */
  lemma PutsExactlyWhen(s: State, key: DistKey, ciphertext: string, now: Time)
    ensures
      var t := Next(s, Put(key, ciphertext, now));
      var eligible := key.group in s.groups && s.groups[key.group].epoch == key.epoch && key.sender in s.groups[key.group].members &&
                      key.recipient in s.groups[key.group].members;
      if eligible && key !in s.dists then PutLeaves(s, t, key, ciphertext, now)
      else
        t.groups == s.groups && (forall k :: k in t.dists ==> k in s.dists && t.dists[k] == s.dists[k]) &&
        forall k :: k in s.dists ==>
          (k !in t.dists <==> k.group == key.group && k.recipient == key.recipient && s.dists[k].retiredAt.Some? && s.dists[k].retiredAt.value + 86_400_000_000 < now)
  {
    if Eligible(s, key) && key !in s.dists { PutInserts(s, key, ciphertext, now); }
  }

  /** A read deletes exactly what has been retired for more than a day in the inbox it reads, the erasure of an account what it
      sent or received. */
  lemma DeletionsExactlyWhen(s: State, g: Gid, uin: Uin, now: Time, k: DistKey)
    requires k in s.dists
    ensures
      k !in Next(s, Sweep(g, uin, now)).dists <==>
      k.group == g && k.recipient == uin && s.dists[k].retiredAt.Some? && s.dists[k].retiredAt.value + 86_400_000_000 < now
    ensures
      k !in Next(s, UserErased(uin)).dists <==>
      (k.sender == uin || k.recipient == uin) && forall h :: h in s.groups ==> uin !in s.groups[h].members
  {
  }

  // The order of an inbox

  /** The rows of a read: those of its epoch, and those retired within the last day. */
  predicate InInbox(s: State, inbox: Inbox, now: Time, k: DistKey) {
    k in s.dists && k.group == inbox.g && k.recipient == inbox.recipient &&
    (k.epoch == inbox.epoch || (s.dists[k].retiredAt.Some? && now < s.dists[k].retiredAt.value + 86_400_000_000))
  }

  /** How many rows of the same sender and epoch were created after this one. */
  ghost function LaterOnes(s: State, inbox: Inbox, now: Time, k: DistKey): nat
    requires k in s.dists
  {
    |set o | o in s.dists && InInbox(s, inbox, now, o) && SameSender(o, k) && CreatedAfter(s.dists, o, k)|
  }

  /** First the newest row of each sender and epoch, then the second newest, and so on; among those the later epoch first, then the
      smaller sender. */
  ghost predicate Precedes(s: State, inbox: Inbox, now: Time, a: DistKey, b: DistKey)
    requires a in s.dists && b in s.dists
  {
    var m, n := LaterOnes(s, inbox, now, a), LaterOnes(s, inbox, now, b);
    m < n || (m == n && (a.epoch > b.epoch || (a.epoch == b.epoch && (a.sender < b.sender || (a.sender == b.sender && CreatedAfter(s.dists, a, b))))))
  }

  lemma SameRanks(s: State, inbox: Inbox, now: Time, k: DistKey)
    requires k in s.dists
    ensures Rank(s, inbox.g, inbox.recipient, inbox.epoch, now, k) == LaterOnes(s, inbox, now, k) + 1
  {
    assert (set o | o in s.dists && Considered(s, inbox.g, inbox.recipient, inbox.epoch, now, o) && SameSlot(o, k) && Newer(s.dists, o, k)) ==
           (set o | o in s.dists && InInbox(s, inbox, now, o) && SameSender(o, k) && CreatedAfter(s.dists, o, k));
  }

  lemma PairInOrder(s: State, inbox: Inbox, now: Time, a: DistKey, b: DistKey)
    requires Before(s, inbox, now, a, b)
    ensures a in s.dists && b in s.dists && Precedes(s, inbox, now, a, b)
  {
    SameRanks(s, inbox, now, a);
    SameRanks(s, inbox, now, b);
  }

  /** The listing of every reachable inbox has exactly its rows. */
  lemma InboxListsItsRows(s: State, inbox: Inbox, now: Time, listing: seq<DistKey>)
    requires Reachable(s) && IsInbox(s, inbox, now, listing)
    ensures forall k :: k in listing <==> InInbox(s, inbox, now, k)
  {
    forall k ensures k in listing <==> InInbox(s, inbox, now, k) {
      if InInbox(s, inbox, now, k) { RankFilterHidesNothing(s, inbox.g, inbox.recipient, inbox.epoch, now, k); }
    }
  }

  /** Of any two rows of a listing the first one precedes. */
  lemma InboxListsInOrder(s: State, inbox: Inbox, now: Time, listing: seq<DistKey>, i: nat, j: nat)
    requires IsInbox(s, inbox, now, listing) && i < j < |listing|
    ensures listing[i] in s.dists && listing[j] in s.dists && Precedes(s, inbox, now, listing[i], listing[j])
  {
    var less := (a, b) => Before(s, inbox, now, a, b);
    assert less(listing[i], listing[j]);
    PairInOrder(s, inbox, now, listing[i], listing[j]);
  }

  /** The older of two rows of one sender has more later ones. */
  lemma OlderCountsMore(s: State, inbox: Inbox, now: Time, a: DistKey, b: DistKey)
    requires InInbox(s, inbox, now, a) && InInbox(s, inbox, now, b) && SameSender(a, b) && CreatedAfter(s.dists, b, a)
    ensures LaterOnes(s, inbox, now, b) < LaterOnes(s, inbox, now, a)
  {
    var above := set o | o in s.dists && InInbox(s, inbox, now, o) && SameSender(o, a) && CreatedAfter(s.dists, o, a);
    var below := set o | o in s.dists && InInbox(s, inbox, now, o) && SameSender(o, b) && CreatedAfter(s.dists, o, b);
    assert below + {b} <= above && b !in below;
    SubsetSize(below + {b}, above);
  }

  /** Of two rows of one sender and epoch the later created is listed first. */
  lemma NewestFirst(s: State, inbox: Inbox, now: Time, listing: seq<DistKey>, i: nat, j: nat)
    requires Reachable(s) && IsInbox(s, inbox, now, listing) && i < j < |listing| && SameSender(listing[i], listing[j])
    ensures listing[i] in s.dists && listing[j] in s.dists && CreatedAfter(s.dists, listing[i], listing[j])
  {
    var a, b := listing[i], listing[j];
    InboxListsInOrder(s, inbox, now, listing, i, j);
    InboxListsItsRows(s, inbox, now, listing);
    assert a in listing && b in listing;
    if !CreatedAfter(s.dists, a, b) {
      assert a != b;
      OlderCountsMore(s, inbox, now, a, b);
    }
  }
}
