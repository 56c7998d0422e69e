/**
 The group statements as updates of the tables in place, and the recipient snapshot of a group message.
 */
module GroupTables {
  import opened Options
  import opened Groups
  import opened GroupEffects
  import opened Listings

  class GroupDatabase {
    var groups: map<Gid, Group>
    var dists: map<DistKey, Dist>
    var nextGid: Gid

    ghost function Contents(): State
      reads this
    {
      State(groups, dists, nextGid)
    }

    constructor ()
      ensures Contents() == State(map[], map[], 0)
    {
      groups, dists, nextGid := map[], map[], 0;
    }

    /** The group row and the owner's membership, in one transaction. */
    method CreateGroup(owner: Uin, now: Time) returns (g: Gid)
      modifies this
      ensures Contents() == Next(old(Contents()), Create(owner, now))
      ensures g in groups && groups[g].owner == owner && groups[g].epoch == 1
    {
      g := nextGid;
      nextGid := nextGid + 1;
      groups := groups[g := Group(owner, 1, map[])];
      groups := groups[g := groups[g].(members := map[owner := Member(true, now)])];
    }

    /** qInsertGroupMember. */
    method InsertGroupMember(g: Gid, actor: Uin, uin: Uin, now: Time) returns (authorized: bool, inserted: bool)
      modifies this
      ensures Contents() == Next(old(Contents()), Add(g, actor, uin, now))
      ensures authorized <==> g in old(groups) && actor in old(groups)[g].members && old(groups)[g].members[actor].admin
      ensures inserted <==> authorized && uin !in old(groups)[g].members
    {
      authorized := g in groups && actor in groups[g].members && groups[g].members[actor].admin;
      inserted := authorized && uin !in groups[g].members;
      if inserted {
        var locked := groups[g].epoch;
        groups := groups[g := groups[g].(members := groups[g].members[uin := Member(false, now)])];
        groups := groups[g := groups[g].(epoch := locked + 1)];
        dists := map k | k in dists :: if k.group == g && k.epoch == locked then RetiredAt(dists[k], now) else dists[k];
      }
    }

    /** qRemoveGroupMemberAtomically: leave or kick, succession, epoch, retirement and the end of an empty group. */
    method RemoveGroupMember(g: Gid, actor: Uin, uin: Uin, now: Time) returns (removed: bool, remaining: nat)
      modifies this
      ensures Contents() == Next(old(Contents()), Remove(g, actor, uin, now))
      ensures removed <==> Removes(old(Contents()), g, actor, uin)
      ensures remaining == if g in old(groups) then |old(groups)[g].members - {uin}| else 0
      ensures removed ==> (g in groups <==> remaining > 0) && (g in groups ==> Left(old(groups)[g], groups[g], uin))
    {
      if g in groups { LeaveMeans(groups[g], uin); }
      removed, remaining := false, 0;
      if g in groups {
        var group := groups[g];
        var rest := group.members - {uin};
        remaining := |rest|;
        removed := uin in group.members && (actor == uin || (actor in group.members && group.members[actor].admin));
        if removed && remaining > 0 {
          assert rest != map[];
          FirstExists(rest);
          var heir: Uin :| heir in rest && IsFirst(rest, heir);
          FirstUnique(rest, heir, First(rest));
          if group.owner == uin {
            rest := rest[heir := rest[heir].(admin := true)];
          }
          groups := groups[g := Group(if group.owner == uin then heir else group.owner, group.epoch + 1, rest)];
        } else if removed {
          assert rest == map[];
          groups := groups - {g};
        }
        if removed {
          dists := Retired(dists, {g}, now);
          dists := OfGroups(dists, groups);
        }
      }
    }

    /** qPutSenderKeyDistribution: of a sender's active distributions the newest three stay beside an inserted one. */
    method PutDistribution(key: DistKey, ciphertext: string, now: Time) returns (eligible: bool, inserted: bool)
      modifies this
      ensures Contents() == Next(old(Contents()), Put(key, ciphertext, now))
      ensures eligible <==> Eligible(old(Contents()), key)
      ensures inserted <==> eligible && key !in old(dists)
      ensures inserted ==> PutLeaves(old(Contents()), Contents(), key, ciphertext, now)
    {
      PutsExactlyWhen(Contents(), key, ciphertext, now);
      eligible := key.group in groups && groups[key.group].epoch == key.epoch && key.sender in groups[key.group].members &&
                  key.recipient in groups[key.group].members;
      inserted := eligible && key !in dists;
      var trimmed := if inserted then Trimmed(dists, key) else {};
      dists := Swept(dists, key.group, key.recipient, now);
      dists := dists - trimmed;
      if inserted {
        dists := dists[key := Dist(now, None, ciphertext)];
      }
    }
  }

  /** A wipe does to every group of the account what leaving it would do, and nothing to the other groups. */
  lemma WipeIsLeavingEveryGroup(s: State, uin: Uin, now: Time, g: Gid)
    requires g in s.groups
    ensures
      var wiped, left := WipeNext(s, uin, now), RemoveNext(s, g, uin, now);
      if uin in s.groups[g].members then
        (g in wiped.groups <==> g in left.groups) && (g in wiped.groups ==> wiped.groups[g] == left.groups[g]) &&
        (forall k: DistKey :: k.group == g ==> (k in wiped.dists <==> k in left.dists)) &&
        (forall k: DistKey :: k.group == g && k in wiped.dists ==> wiped.dists[k] == left.dists[k])
      else
        g in wiped.groups && wiped.groups[g] == s.groups[g] &&
        (forall k: DistKey :: k.group == g && k in s.dists ==> k in wiped.dists && wiped.dists[k] == s.dists[k])
  {
  }

  // Recipient snapshots

  /** What the snapshot query selects. */
  ghost function Selected(s: State, g: Gid, epoch: nat): iset<Uin> {
    iset u | g in s.groups && s.groups[g].epoch == epoch && u in s.groups[g].members
  }

  function Ascending(a: Uin, b: Uin): bool { a < b }

  /** snapshotGroupRecipients over the rows of its query: all of them, if the sender is among them. */
  method SnapshotGroupRecipients(rows: seq<Uin>, sender: Uin) returns (recipients: Option<seq<Uin>>)
    ensures recipients == if sender in rows then Some(rows) else None
  {
    var collected, senderPresent := [], false;
    var i := 0;
    while i < |rows|
      invariant i <= |rows| && collected == rows[..i] && (senderPresent <==> sender in rows[..i])
    {
      assert rows[..i + 1] == rows[..i] + [rows[i]];
      collected := collected + [rows[i]];
      senderPresent := senderPresent || rows[i] == sender;
      i := i + 1;
    }
    assert rows[..i] == rows;
    recipients := if !senderPresent || |collected| == 0 then None else Some(collected);
  }

  /** Two snapshots of a group at one epoch are identical, whatever happened to the tables in between. */
  lemma SnapshotsAgree(s: State, events: seq<Event>, g: Gid, epoch: nat, first: seq<Uin>, second: seq<Uin>)
    requires Reachable(s) && IsListing(first, Selected(s, g, epoch), Ascending)
    requires IsListing(second, Selected(Run(s, events), g, epoch), Ascending)
    ensures first != [] && second != [] ==> first == second
  {
    if first != [] && second != [] {
      assert first[0] in first && second[0] in second;
      assert first[0] in Selected(s, g, epoch) && second[0] in Selected(Run(s, events), g, epoch);
      EpochDeterminesMembers(s, events, g);
      SameSelection(s, Run(s, events), g, epoch, first, second);
      ListingUnique(first, second, Ascending);
    }
  }

  lemma SameSelection(s: State, t: State, g: Gid, epoch: nat, first: seq<Uin>, second: seq<Uin>)
    requires g in s.groups && g in t.groups && s.groups[g].epoch == epoch && t.groups[g].epoch == epoch
    requires s.groups[g].members.Keys == t.groups[g].members.Keys
    requires IsListing(first, Selected(s, g, epoch), Ascending) && IsListing(second, Selected(t, g, epoch), Ascending)
    ensures forall u :: u in first <==> u in second
  {
    forall u ensures u in first <==> u in second {
      assert u in s.groups[g].members.Keys <==> u in t.groups[g].members.Keys;
      assert u in Selected(s, g, epoch) <==> u in s.groups[g].members;
      assert u in Selected(t, g, epoch) <==> u in t.groups[g].members;
    }
  }
}
