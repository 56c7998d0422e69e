/**
 Rows that reference user rows, and data kept in other stores, in every reachable state.
 */
module AccountsRecords {
  import opened Options
  import opened Accounts
  import opened AccountsWipe

  // References

  /** Foreign keys hold: whatever is referenced exists. */
  ghost predicate RefsOk(s: Auth) {
    (forall u :: u in s.db.refs.members ==> u in s.db.users) && (forall u :: u in s.db.refs.own ==> u in s.db.users) &&
    (forall e :: e in s.db.refs.contacts ==> e.0 in s.db.users && e.1 in s.db.users)
  }

  lemma EraseRefs(s: Auth, w: WorkerId)
    requires RefsOk(s) && Erasable(s, w)
    ensures RefsOk(EraseNext(s, w))
  {
  }

  /** Only final erasure deletes a user row. */
  lemma UsersKept(s: Auth, e: Event)
    requires !(e.Erase? && Erasable(s, e.w))
    ensures forall u :: u in s.db.users ==> u in Next(s, e).db.users
  {
    SessionFrame(s, e);
    assert forall u :: u in s.db.users ==> u in s.db.users.Keys && (u in SessionNext(s, e).db.users.Keys ==> u in SessionNext(s, e).db.users);
  }

  lemma RefsStep(s: Auth, e: Event)
    requires RefsOk(s)
    ensures RefsOk(Next(s, e))
  {
    if e.Erase? && Erasable(s, e.w) {
      EraseRefs(s, e.w);
    } else {
      UsersKept(s, e);
      RefsChange(s, e);
    }
  }

  /** References change only through their own statements and through a committed wipe, which drops the account's. */
  lemma RefsChange(s: Auth, e: Event)
    ensures Next(s, e).db.refs ==
            if RefsEvent(e) then RefsNext(s.db, e)
            else if Commits(s, e) then RefsWithout(s.db.refs, s.procs.wipes[e.r].uin)
            else s.db.refs
  {
    SessionFrame(s, e);
  }

  // Stored data

  /** The newest entry for the account and the store is a write. */
  predicate LastIsStored(traffic: seq<Traffic>, u: Uin, k: nat)
    decreases |traffic|
  {
    traffic != [] &&
    var last, before := traffic[|traffic| - 1], traffic[..|traffic| - 1];
    if last == Stored(u, k) then true else if last == Cleared(u, k) then false else LastIsStored(before, u, k)
  }

  ghost predicate DataOk(s: Auth) {
    forall u: Uin, k: nat :: (u, k) in s.data <==> LastIsStored(s.log.traffic, u, k)
  }

  lemma Appended(traffic: seq<Traffic>, t: Traffic, u: Uin, k: nat)
    ensures LastIsStored(traffic + [t], u, k) <==>
            t == Stored(u, k) || (t != Cleared(u, k) && LastIsStored(traffic, u, k))
  {
    assert (traffic + [t])[..|traffic|] == traffic;
  }

  lemma DataStep(s: Auth, e: Event)
    requires DataOk(s)
    ensures DataOk(Next(s, e))
  {
    var t := Next(s, e);
    DataChange(s, e);
    forall u: Uin, k: nat ensures (u, k) in t.data <==> LastIsStored(t.log.traffic, u, k) {
      if |t.log.traffic| > |s.log.traffic| { Appended(s.log.traffic, t.log.traffic[|s.log.traffic|], u, k); }
    }
  }

  /** Data and its traffic change together, by one entry. */
  lemma DataChange(s: Auth, e: Event)
    ensures
      var t := Next(s, e);
      (t.data == s.data && t.log.traffic == s.log.traffic) ||
      (exists u: Uin, k: nat :: e == StoreData(u, k) && t.data == s.data + {(u, k)} && t.log.traffic == s.log.traffic + [Stored(u, k)]) ||
      (exists u: Uin, k: nat :: t.data == s.data - {(u, k)} && t.log.traffic == s.log.traffic + [Cleared(u, k)])
  {
    SessionFrame(s, e);
  }

  /** The newest entry is a write exactly when some write has no cleanup after it. */
  lemma {:induction false} StoredExactlyWhen(traffic: seq<Traffic>, u: Uin, k: nat)
    ensures LastIsStored(traffic, u, k) <==>
            exists i :: 0 <= i < |traffic| && traffic[i] == Stored(u, k) && NotClearedSince(traffic, i, u, k)
    decreases |traffic|
  {
    if traffic != [] {
      var n := |traffic| - 1;
      var before := traffic[..n];
      StoredExactlyWhen(before, u, k);
      if traffic[n] == Stored(u, k) {
        assert NotClearedSince(traffic, n, u, k);
      } else if traffic[n] != Cleared(u, k) {
        if i :| 0 <= i < n && before[i] == Stored(u, k) && NotClearedSince(before, i, u, k) {
          assert traffic[i] == Stored(u, k) && NotClearedSince(traffic, i, u, k);
        }
        if i :| 0 <= i < |traffic| && traffic[i] == Stored(u, k) && NotClearedSince(traffic, i, u, k) {
          assert before[i] == Stored(u, k) && NotClearedSince(before, i, u, k);
        }
      }
    }
  }

  predicate NotClearedSince(traffic: seq<Traffic>, i: nat, u: Uin, k: nat) {
    forall j :: i < j < |traffic| ==> traffic[j] != Cleared(u, k)
  }

  // Runs

  lemma {:induction false} RunRecords(s: Auth, events: seq<Event>)
    requires RefsOk(s) && DataOk(s)
    ensures RefsOk(Run(s, events)) && DataOk(Run(s, events))
    decreases |events|
  {
    if events != [] {
      RefsStep(s, events[0]);
      DataStep(s, events[0]);
      RunRecords(Next(s, events[0]), events[1..]);
    }
  }

  lemma ReachableRecords(s: Auth)
    requires Reachable(s)
    ensures RefsOk(s) && DataOk(s)
  {
    var config, events :| s == Run(Initial(config), events);
    RunRecords(Initial(config), events);
  }

  /** A write logged during a run is an event of that run. */
  lemma {:induction false} StoredInRun(s: Auth, events: seq<Event>, i: nat, u: Uin, k: nat)
    requires |s.log.traffic| <= i < |Run(s, events).log.traffic| && Run(s, events).log.traffic[i] == Stored(u, k)
    ensures StoreData(u, k) in events
    decreases |events|
  {
    var t := Next(s, events[0]);
    DataChange(s, events[0]);
    TrafficGrows(t, events[1..]);
    if i < |t.log.traffic| {
      assert t.log.traffic[i] == Stored(u, k);
    } else {
      StoredInRun(t, events[1..], i, u, k);
    }
  }

  lemma {:induction false} TrafficGrows(s: Auth, events: seq<Event>)
    ensures s.log.traffic <= Run(s, events).log.traffic
    decreases |events|
  {
    if events != [] {
      DataChange(s, events[0]);
      TrafficGrows(Next(s, events[0]), events[1..]);
    }
  }

  /** A referenced account exists in every reachable state: as long as a wiped account is referenced its erasure does not go
      through, and its marker and a wipe job stay. */
  lemma ReferenceHoldsUpErasure(s: Auth, u: Uin)
    requires Reachable(s) && Referenced(s.db.refs, u)
    ensures u in s.db.users
    ensures u in s.log.wiped ==> u in s.db.markers && exists j :: j in s.db.jobs && s.db.jobs[j].uin == u
  {
    ReachableRecords(s);
    ReachableKeeps(s);
  }

  /** A contact edge goes exactly when its owner deletes it or a wipe of one of its ends commits. */
  lemma ContactGoesExactlyWhen(s: Auth, e: Event, owner: Uin, target: Uin)
    requires (owner, target) in s.db.refs.contacts
    ensures (owner, target) !in Next(s, e).db.refs.contacts <==>
            e == RemoveContact(owner, target) || CommitsFor(s, e, owner) || CommitsFor(s, e, target)
  {
    RefsChange(s, e);
  }
}
