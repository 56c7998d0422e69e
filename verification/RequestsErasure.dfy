/**
 Who can free a closed account from the rows that reference it, so that it can be erased.

 Requests of closed accounts that were admitted before the wipe are leftovers. The account can be erased exactly
 when a wipe of its own is still pending, or some leftovers, carried out in some order, leave only rows that an
 open account can remove: edges to an open account, memberships in groups of an open owner. What open accounts do
 in between does not help: from any run that frees the account the leftovers alone are kept, and followed
 through in a shadow run.
 */
module RequestsErasure {
  import opened Options
  import G = Groups
  import opened Requests
  import opened Sets

  /** A wipe of the account has been admitted and has not committed. */
  ghost predicate WipePending(s: State, u: Uin) {
    (exists id :: id in s.admitted && s.admitted[id] == Wipe(u)) || (exists id :: id in s.wipes && s.wipes[id] == u)
  }

  /** Time, registration, an admitted request of a closed account, the commit of a further wipe of one. */
  predicate Leftover(s: State, e: Event) {
    e.Tick? || e.Register? || (e.Act? && e.id in s.admitted && s.admitted[e.id].actor in s.closed) ||
    (e.Commit? && Commits(s, e.id) && s.wipes[e.id] in s.closed)
  }

  ghost predicate Leftovers(s: State, events: seq<Event>)
    decreases |events|
  {
    events == [] || (Leftover(s, events[0]) && Leftovers(Next(s, events[0]), events[1..]))
  }

  /** Open accounts can remove every row that references the account. */
  ghost predicate Freeable(s: State, u: Uin) {
    u !in s.own && (forall e :: e in s.contacts && Touches(e, u) ==> Open(s, Other(e, u))) &&
    (forall g :: InGroup(s.groups.groups, u, g) ==> Open(s, s.groups.groups[g].owner))
  }

  lemma {:induction false} LeftoversAppend(s: State, first: seq<Event>, second: seq<Event>)
    requires Leftovers(s, first) && Leftovers(Run(s, first), second)
    ensures Leftovers(s, first + second)
    decreases |first|
  {
    if first == [] {
      assert first + second == second;
    } else {
      assert (first + second)[1..] == first[1..] + second;
      LeftoversAppend(Next(s, first[0]), first[1..], second);
    }
  }

  // The groups of a run and of its shadow

  /** The shadow group has the same owner and closed members; open members may have stayed on, and none joined later. */
  ghost predicate Same(m: G.Group, n: G.Group, c: set<Uin>) {
    m.owner == n.owner &&
    (forall x :: x in m.members ==> x in n.members && n.members[x].joinedAt <= m.members[x].joinedAt &&
                                    (x in c ==> n.members[x].joinedAt == m.members[x].joinedAt)) &&
    (forall x :: x in n.members && x in c ==> x in m.members)
  }

  ghost predicate Tied(full: map<G.Gid, G.Group>, shadow: map<G.Gid, G.Group>, g: G.Gid, c: set<Uin>)
    requires g in shadow
  {
    shadow[g].owner !in c || (g in full && Same(full[g], shadow[g], c))
  }

  /** Every shadow group the account is in has an open owner or is tied to the run's own. */
  ghost predicate GroupsTied(full: G.State, shadow: G.State, u: Uin, c: set<Uin>) {
    G.GroupsOk(full) && G.GroupsOk(shadow) && shadow.nextGid <= full.nextGid && u in c &&
    forall g :: InGroup(shadow.groups, u, g) ==> Tied(full.groups, shadow.groups, g, c)
  }

  /** A closed member leaves both: the heirs agree, or the shadow's is open. */
  lemma LeaveBoth(m: G.Group, n: G.Group, c: set<Uin>, x: Uin, u: Uin)
    requires G.GroupOk(m) && G.GroupOk(n) && Same(m, n, c) && u in n.members && u in c && x in m.members && x != u
    ensures G.Leave(n, x).Some? && (G.Leave(n, x).value.owner in c ==> G.Leave(m, x).Some? && Same(G.Leave(m, x).value, G.Leave(n, x).value, c))
  {
    LeaveKeepsRows(m, x);
    LeaveKeepsRows(n, x);
    var rm, rn := m.members - {x}, n.members - {x};
    assert u in rm && u in rn;
    if n.owner == x && G.First(rn) in c { HeirsAgree(rm, rn, G.First(rn), c); }
  }

  lemma HeirsAgree(rm: map<Uin, G.Member>, rn: map<Uin, G.Member>, h: Uin, c: set<Uin>)
    requires G.IsFirst(rn, h) && h in c && h in rm
    requires forall x :: x in rm ==> x in rn && rn[x].joinedAt <= rm[x].joinedAt && (x in c ==> rn[x].joinedAt == rm[x].joinedAt)
    ensures G.First(rm) == h
  {
    assert rm != map[];
    assert G.IsFirst(rm, h);
    G.FirstUnique(rm, h, G.First(rm));
  }

  /** An open member leaves the run's group of a closed owner. */
  lemma LeaveReal(m: G.Group, n: G.Group, c: set<Uin>, x: Uin)
    requires G.GroupOk(m) && Same(m, n, c) && x in m.members && x !in c && m.owner in c
    ensures G.Leave(m, x).Some? && Same(G.Leave(m, x).value, n, c)
  {
    LeaveKeepsRows(m, x);
    assert m.owner in m.members - {x};
  }

  /** A member that only the shadow still has is removed from it. */
  lemma LeaveShadow(m: G.Group, n: G.Group, c: set<Uin>, x: Uin)
    requires G.GroupOk(m) && G.GroupOk(n) && Same(m, n, c) && x !in m.members
    ensures G.Leave(n, x).Some? && Same(m, G.Leave(n, x).value, c)
  {
    LeaveKeepsRows(n, x);
    assert n.owner in n.members - {x};
  }

  lemma RemoveBoth(full: G.State, shadow: G.State, g: G.Gid, a: Uin, x: Uin, now: Time, u: Uin, c: set<Uin>)
    requires GroupsTied(full, shadow, u, c) && a in c
    ensures GroupsTied(G.Next(full, G.Remove(g, a, x, now)), G.Next(shadow, G.Remove(g, a, x, now)), u, c)
  {
    var e := G.Remove(g, a, x, now);
    G.StepGroups(full, e);
    G.StepGroups(shadow, e);
    var r, t := G.Next(full, e), G.Next(shadow, e);
    forall k | InGroup(t.groups, u, k) ensures Tied(r.groups, t.groups, k, c) {
      if k == g && G.Removes(shadow, g, a, x) {
        LeaveKeepsRows(shadow.groups[g], x);
        assert InGroup(shadow.groups, u, g) && x != u;
        RemoveTied(full, shadow, g, a, x, now, u, c);
      } else {
        assert InGroup(shadow.groups, u, k) && t.groups[k] == shadow.groups[k];
        if shadow.groups[k].owner in c && k == g { NoRemoval(full, shadow, g, a, x, c); }
      }
    }
  }

  /** What the shadow does not do to a tied group, the run's own does not do either. */
  lemma NoRemoval(full: G.State, shadow: G.State, g: G.Gid, a: Uin, x: Uin, c: set<Uin>)
    requires G.GroupsOk(full) && G.GroupsOk(shadow) && g in full.groups && g in shadow.groups && Same(full.groups[g], shadow.groups[g], c)
    requires !G.Removes(shadow, g, a, x)
    ensures !G.Removes(full, g, a, x)
  {
  }

  lemma RemoveTied(full: G.State, shadow: G.State, g: G.Gid, a: Uin, x: Uin, now: Time, u: Uin, c: set<Uin>)
    requires GroupsTied(full, shadow, u, c) && a in c && InGroup(shadow.groups, u, g) && x != u && G.Removes(shadow, g, a, x)
    ensures g in G.Next(shadow, G.Remove(g, a, x, now)).groups
    ensures Tied(G.Next(full, G.Remove(g, a, x, now)).groups, G.Next(shadow, G.Remove(g, a, x, now)).groups, g, c)
  {
    assert Tied(full.groups, shadow.groups, g, c);
    LeaveKeepsRows(shadow.groups[g], x);
    assert u in shadow.groups[g].members - {x};
    if shadow.groups[g].owner in c {
      var m, n := full.groups[g], shadow.groups[g];
      if x in m.members {
        assert G.Removes(full, g, a, x);
        LeaveBoth(m, n, c, x, u);
      } else {
        LeaveShadow(m, n, c, x);
      }
    } else {
      assert x != shadow.groups[g].owner;
    }
  }

  lemma RemoveReal(full: G.State, shadow: G.State, g: G.Gid, a: Uin, x: Uin, now: Time, u: Uin, c: set<Uin>)
    requires GroupsTied(full, shadow, u, c) && a !in c
    ensures GroupsTied(G.Next(full, G.Remove(g, a, x, now)), shadow, u, c)
  {
    var e := G.Remove(g, a, x, now);
    G.StepGroups(full, e);
    forall k | InGroup(shadow.groups, u, k) ensures Tied(G.Next(full, e).groups, shadow.groups, k, c) {
      assert Tied(full.groups, shadow.groups, k, c);
      if k == g && shadow.groups[g].owner in c && G.Removes(full, g, a, x) {
        assert a == x;
        LeaveReal(full.groups[g], shadow.groups[g], c, x);
      }
    }
  }

  lemma AddTied(full: G.State, shadow: G.State, g: G.Gid, a: Uin, x: Uin, now: Time, c: set<Uin>)
    requires G.GroupsOk(full) && G.GroupsOk(shadow) && g in full.groups && g in shadow.groups && Same(full.groups[g], shadow.groups[g], c)
    requires x in shadow.groups[g].members ==> shadow.groups[g].members[x].joinedAt <= now
    ensures g in G.Next(full, G.Add(g, a, x, now)).groups && g in G.Next(shadow, G.Add(g, a, x, now)).groups
    ensures Same(G.Next(full, G.Add(g, a, x, now)).groups[g], G.Next(shadow, G.Add(g, a, x, now)).groups[g], c)
  {
  }

  lemma AddBoth(full: G.State, shadow: G.State, g: G.Gid, a: Uin, x: Uin, now: Time, u: Uin, c: set<Uin>)
    requires GroupsTied(full, shadow, u, c) && x != u
    requires forall k, y :: InGroup(shadow.groups, y, k) ==> shadow.groups[k].members[y].joinedAt <= now
    ensures GroupsTied(G.Next(full, G.Add(g, a, x, now)), G.Next(shadow, G.Add(g, a, x, now)), u, c)
  {
    var e := G.Add(g, a, x, now);
    G.StepGroups(full, e);
    G.StepGroups(shadow, e);
    forall k | InGroup(G.Next(shadow, e).groups, u, k) ensures Tied(G.Next(full, e).groups, G.Next(shadow, e).groups, k, c) {
      assert InGroup(shadow.groups, u, k);
      assert Tied(full.groups, shadow.groups, k, c);
      assert x in shadow.groups[k].members ==> InGroup(shadow.groups, x, k);
      if k == g && shadow.groups[g].owner in c { AddTied(full, shadow, g, a, x, now, c); }
    }
  }

  /** An open actor, or one that adds the account itself, does nothing to a tied group. */
  lemma AddReal(full: G.State, shadow: G.State, g: G.Gid, a: Uin, x: Uin, now: Time, u: Uin, c: set<Uin>)
    requires GroupsTied(full, shadow, u, c) && (a !in c || x == u)
    ensures GroupsTied(G.Next(full, G.Add(g, a, x, now)), shadow, u, c)
  {
    var e := G.Add(g, a, x, now);
    G.StepGroups(full, e);
    forall k | InGroup(shadow.groups, u, k) ensures Tied(G.Next(full, e).groups, shadow.groups, k, c) {
      assert Tied(full.groups, shadow.groups, k, c);
    }
  }

  lemma CreateReal(full: G.State, shadow: G.State, a: Uin, now: Time, u: Uin, c: set<Uin>)
    requires GroupsTied(full, shadow, u, c)
    ensures GroupsTied(G.Next(full, G.Create(a, now)), shadow, u, c)
  {
    var e := G.Create(a, now);
    G.StepGroups(full, e);
    forall k | InGroup(shadow.groups, u, k) ensures Tied(G.Next(full, e).groups, shadow.groups, k, c) {
      assert Tied(full.groups, shadow.groups, k, c);
    }
  }

  lemma DeleteBoth(full: G.State, shadow: G.State, g: G.Gid, a: Uin, u: Uin, c: set<Uin>)
    requires GroupsTied(full, shadow, u, c)
    ensures a in c ==> GroupsTied(G.Next(full, G.Delete(g, a)), G.Next(shadow, G.Delete(g, a)), u, c)
    ensures a !in c ==> GroupsTied(G.Next(full, G.Delete(g, a)), shadow, u, c)
  {
    var e := G.Delete(g, a);
    G.StepGroups(full, e);
    G.StepGroups(shadow, e);
    forall k | InGroup(G.Next(shadow, e).groups, u, k) ensures InGroup(shadow.groups, u, k) {}
    forall k | InGroup(shadow.groups, u, k) ensures Tied(full.groups, shadow.groups, k, c) {}
  }

  lemma WipeBoth(full: G.State, shadow: G.State, x: Uin, now: Time, u: Uin, c: set<Uin>)
    requires GroupsTied(full, shadow, u, c) && x in c && x != u
    ensures GroupsTied(G.Next(full, G.WipeMember(x, now)), G.Next(shadow, G.WipeMember(x, now)), u, c)
  {
    var e := G.WipeMember(x, now);
    G.StepGroups(full, e);
    G.StepGroups(shadow, e);
    var r, t := G.Next(full, e), G.Next(shadow, e);
    forall k | InGroup(t.groups, u, k) ensures Tied(r.groups, t.groups, k, c) {
      LeaveKeepsRows(shadow.groups[k], x);
      assert InGroup(shadow.groups, u, k);
      assert Tied(full.groups, shadow.groups, k, c);
      if x in shadow.groups[k].members && shadow.groups[k].owner in c { LeaveBoth(full.groups[k], shadow.groups[k], c, x, u); }
    }
  }

  lemma WipeReal(full: G.State, shadow: G.State, x: Uin, now: Time, u: Uin, c: set<Uin>)
    requires GroupsTied(full, shadow, u, c) && x !in c
    ensures GroupsTied(G.Next(full, G.WipeMember(x, now)), shadow, u, c)
  {
    var e := G.WipeMember(x, now);
    G.StepGroups(full, e);
    forall k | InGroup(shadow.groups, u, k) ensures Tied(G.Next(full, e).groups, shadow.groups, k, c) {
      assert Tied(full.groups, shadow.groups, k, c);
      if shadow.groups[k].owner in c && x in full.groups[k].members { LeaveReal(full.groups[k], shadow.groups[k], c, x); }
    }
  }

  // A run and its shadow

  /** The shadow still has every request and wipe of a closed account that the run has. */
  ghost predicate RequestsKept(s: State, t: State) {
    (forall id :: id in s.admitted && s.admitted[id].actor in t.closed ==> id in t.admitted && t.admitted[id] == s.admitted[id]) &&
    (forall id :: id in s.wipes && s.wipes[id] in t.closed ==> id in t.wipes && t.wipes[id] == s.wipes[id])
  }

  /** What references the account in the shadow references it in the run, or leads to an open account. */
  ghost predicate RowsTied(s: State, t: State, u: Uin) {
    (u in t.own ==> u in s.own) &&
    (forall e :: e in t.contacts && Touches(e, u) ==> Other(e, u) !in t.closed || e in s.contacts)
  }

  ghost predicate Shadows(s: State, t: State, u: Uin) {
    Ok(s) && Ok(t) && t.closed <= s.closed && s.nextUin == t.nextUin && s.users <= t.users && s.clock == t.clock &&
    RequestsKept(s, t) && RowsTied(s, t, u) && GroupsTied(s.groups, t.groups, u, t.closed)
  }

  /** Once nothing references the account in the run, open accounts can free it in the shadow. */
  lemma UnreferencedFreeable(s: State, t: State, u: Uin)
    requires Shadows(s, t, u) && !Referenced(s, u)
    ensures Freeable(t, u)
  {
    forall g | InGroup(t.groups.groups, u, g) ensures Open(t, t.groups.groups[g].owner) {
      assert Tied(s.groups.groups, t.groups.groups, g, t.closed);
      assert !InGroup(s.groups.groups, u, g);
      assert InGroup(t.groups.groups, t.groups.groups[g].owner, g);
    }
  }

  /** A request of an open account changes nothing that the shadow has to follow. */
  lemma OpenActs(s: State, t: State, u: Uin, id: Id)
    requires Shadows(s, t, u) && id in s.admitted && s.admitted[id].actor !in t.closed
    ensures Shadows(Next(s, Act(id)), t, u)
  {
    StepOk(s, Act(id));
    var c := t.closed;
    match s.admitted[id]
    case CreateGroup(a) => CreateReal(s.groups, t.groups, a, s.clock, u, c);
    case AddMember(a, g, x) => AddReal(s.groups, t.groups, g, a, x, s.clock, u, c);
    case RemoveMember(a, g, x) => RemoveReal(s.groups, t.groups, g, a, x, s.clock, u, c);
    case DeleteGroup(a, g) => DeleteBoth(s.groups, t.groups, g, a, u, c);
    case _ =>
  }

  /** The requests of closed accounts that the shadow leaves out: they only add rows, or would add the account itself. */
  predicate Adds(s: State, req: Request, u: Uin) {
    req.AddContact? || req.BlockContact? || req.StoreRow? || req.CreateGroup? ||
    (req.AddMember? && (req.uin == u || req.uin !in s.users))
  }

  lemma AddsLeftOut(s: State, t: State, u: Uin, id: Id)
    requires Shadows(s, t, u) && id in s.admitted && Adds(s, s.admitted[id], u)
    ensures Shadows(Next(s, Act(id)), t, u)
  {
    StepOk(s, Act(id));
    match s.admitted[id]
    case CreateGroup(a) => CreateReal(s.groups, t.groups, a, s.clock, u, t.closed);
    case AddMember(a, g, x) => if x == u { AddReal(s.groups, t.groups, g, a, x, s.clock, u, t.closed); }
    case _ =>
  }

  lemma ClosedActs(s: State, t: State, u: Uin, id: Id)
    requires Shadows(s, t, u) && id in s.admitted && s.admitted[id].actor in t.closed && !Adds(s, s.admitted[id], u)
    requires s.admitted[id] != Wipe(u)
    ensures Leftover(t, Act(id)) && Shadows(Next(s, Act(id)), Next(t, Act(id)), u)
  {
    StepOk(s, Act(id));
    StepOk(t, Act(id));
    match s.admitted[id]
    case AddMember(a, g, x) => AddBoth(s.groups, t.groups, g, a, x, s.clock, u, t.closed);
    case RemoveMember(a, g, x) => RemoveBoth(s.groups, t.groups, g, a, x, s.clock, u, t.closed);
    case DeleteGroup(a, g) => DeleteBoth(s.groups, t.groups, g, a, u, t.closed);
    case _ =>
  }

  lemma CommitMirrored(s: State, t: State, u: Uin, id: Id)
    requires Shadows(s, t, u) && Commits(s, id) && s.wipes[id] != u
    ensures s.wipes[id] in t.closed ==> Leftover(t, Commit(id)) && Shadows(Next(s, Commit(id)), Next(t, Commit(id)), u)
    ensures s.wipes[id] !in t.closed ==> Shadows(Next(s, Commit(id)), t, u)
  {
    StepOk(s, Commit(id));
    var x := s.wipes[id];
    if x in t.closed {
      StepOk(t, Commit(id));
      WipeBoth(s.groups, t.groups, x, s.clock, u, t.closed);
      assert t.closed + {x} == t.closed;
    } else {
      WipeReal(s.groups, t.groups, x, s.clock, u, t.closed);
    }
  }

  /** Each step of a run is followed by at most one of the shadow, and that is a leftover. */
  lemma Follow(s: State, t: State, u: Uin, e: Event) returns (steps: seq<Event>)
    requires Shadows(s, t, u) && !WipePending(s, u)
    ensures Leftovers(t, steps) && Shadows(Next(s, e), Run(t, steps), u)
  {
    StepOk(s, e);
    StepOk(t, e);
    RunOne(t, e);
    steps := [];
    match e
    case Tick(_) => steps := [e];
    case Register => steps := [e];
    case Act(id) =>
      if id in s.admitted {
        if s.admitted[id].actor !in t.closed {
          OpenActs(s, t, u, id);
        } else if Adds(s, s.admitted[id], u) {
          AddsLeftOut(s, t, u, id);
        } else {
          ClosedActs(s, t, u, id);
          steps := [e];
        }
      }
    case Commit(id) =>
      if Commits(s, id) {
        CommitMirrored(s, t, u, id);
        if s.wipes[id] in t.closed { steps := [e]; }
      }
    case _ =>
  }

  /** A closed account gets no new wipe. */
  lemma PendingBefore(s: State, e: Event, u: Uin)
    requires u in s.closed && WipePending(Next(s, e), u)
    ensures WipePending(s, u)
  {
  }

  /** Some leftovers leave only rows that open accounts can remove. */
  ghost predicate LeftoversFree(s: State, u: Uin) { exists drain :: Leftovers(s, drain) && Freeable(Run(s, drain), u) }

  lemma FreeLater(s: State, steps: seq<Event>, u: Uin)
    requires Leftovers(s, steps) && LeftoversFree(Run(s, steps), u)
    ensures LeftoversFree(s, u)
  {
    var drain :| Leftovers(Run(s, steps), drain) && Freeable(Run(Run(s, steps), drain), u);
    LeftoversAppend(s, steps, drain);
    RunAppend(s, steps, drain);
  }

  lemma FreeNow(s: State, u: Uin)
    requires Freeable(s, u)
    ensures LeftoversFree(s, u)
  {
    assert Leftovers(s, []) && Run(s, []) == s;
  }

  lemma ReferencedStays(s: State, e: Event, u: Uin)
    requires u in s.users && Referenced(s, u)
    ensures u in Next(s, e).users
  {
  }

  lemma {:induction false} FreedMeans(s: State, t: State, u: Uin, events: seq<Event>)
    requires Shadows(s, t, u) && u in s.users && u !in Run(s, events).users
    ensures WipePending(s, u) || LeftoversFree(t, u)
    decreases |events|
  {
    if !Referenced(s, u) {
      UnreferencedFreeable(s, t, u);
      FreeNow(t, u);
    } else if !WipePending(s, u) {
      var e := events[0];
      var steps := Follow(s, t, u, e);
      ReferencedStays(s, e, u);
      FreedMeans(Next(s, e), Run(t, steps), u, events[1..]);
      if WipePending(Next(s, e), u) { PendingBefore(s, e, u); } else { FreeLater(t, steps, u); }
    }
  }

  lemma ShadowsItself(s: State, u: Uin)
    requires Ok(s) && u in s.closed
    ensures Shadows(s, s, u)
  {
    forall g | InGroup(s.groups.groups, u, g) ensures Tied(s.groups.groups, s.groups.groups, g, s.closed) {
      assert Same(s.groups.groups[g], s.groups.groups[g], s.closed);
    }
  }

  // Freeing an account

  /** The events erase nobody and abandon no wipe. */
  predicate Acting(events: seq<Event>) { forall e :: e in events ==> !e.Erase? && !e.Abort? }

  function GroupsWith(s: State, u: Uin): set<G.Gid> { set g | g in s.groups.groups && u in s.groups.groups[g].members }

  /** The open owner of a group is admitted to remove the account, and does. */
  lemma KickOne(s: State, u: Uin, g: G.Gid) returns (t: State)
    requires Ok(s) && u in s.closed && Freeable(s, u) && InGroup(s.groups.groups, u, g)
    ensures t == Run(s, [Admit(RemoveMember(s.groups.groups[g].owner, g, u)), Act(s.next)])
    ensures Ok(t) && u in t.closed && Freeable(t, u) && GroupsWith(t, u) == GroupsWith(s, u) - {g}
  {
    var o := s.groups.groups[g].owner;
    var req := RemoveMember(o, g, u);
    RunTwo(s, Admit(req), Act(s.next));
    AdmittedActs(s, req);
    t := s.(groups := G.Next(s.groups, G.Remove(g, o, u, s.clock)), next := s.next + 1);
    RemoveOk(s, g, o, u);
    assert Ok(t);
    KickEffect(s, u, g);
    KickedFreeable(s, G.Next(s.groups, G.Remove(g, o, u, s.clock)), u, g);
  }

  lemma KickedFreeable(s: State, groups: G.State, u: Uin, g: G.Gid)
    requires Freeable(s, u) && g in groups.groups && u !in groups.groups[g].members && groups.groups.Keys == s.groups.groups.Keys
    requires forall k :: k in groups.groups && k != g ==> groups.groups[k] == s.groups.groups[k]
    ensures
      var t := s.(groups := groups, next := s.next + 1);
      Freeable(t, u) && GroupsWith(t, u) == GroupsWith(s, u) - {g}
  {
    forall k | InGroup(groups.groups, u, k) ensures Open(s, groups.groups[k].owner) { assert InGroup(s.groups.groups, u, k); }
    assert forall k :: k in groups.groups <==> k in s.groups.groups.Keys;
  }

  /** An open account's removal request, admitted and carried out at once. */
  lemma AdmittedActs(s: State, req: Request)
    requires Ok(s) && Open(s, req.actor) && req.RemoveMember?
    ensures
      var t := Next(Next(s, Admit(req)), Act(s.next));
      t == s.(groups := G.Next(s.groups, G.Remove(req.g, req.actor, req.uin, s.clock)), next := s.next + 1)
  {
    assert s.admitted[s.next := req] - {s.next} == s.admitted;
  }

  lemma KickEffect(s: State, u: Uin, g: G.Gid)
    requires Ok(s) && InGroup(s.groups.groups, u, g) && s.groups.groups[g].owner != u
    ensures
      var t := G.Next(s.groups, G.Remove(g, s.groups.groups[g].owner, u, s.clock));
      g in t.groups && u !in t.groups[g].members && t.groups.Keys == s.groups.groups.Keys &&
      forall k :: k in t.groups && k != g ==> t.groups[k] == s.groups.groups[k]
  {
    LeaveKeepsRows(s.groups.groups[g], u);
    assert s.groups.groups[g].owner in s.groups.groups[g].members - {u};
  }

  lemma RunTwo(s: State, e: Event, f: Event)
    ensures Run(s, [e, f]) == Next(Next(s, e), f)
  {
    RunOne(s, e);
    RunOne(Next(s, e), f);
    RunAppend(s, [e], [f]);
    assert [e] + [f] == [e, f];
  }

  lemma {:induction false} KickAll(s: State, u: Uin) returns (events: seq<Event>)
    requires Ok(s) && u in s.closed && Freeable(s, u)
    ensures Acting(events)
    ensures var t := Run(s, events); Ok(t) && u in t.closed && Freeable(t, u) && GroupsWith(t, u) == {}
    decreases |GroupsWith(s, u)|
  {
    if GroupsWith(s, u) == {} {
      events := [];
    } else {
      var g :| g in GroupsWith(s, u);
      var first := [Admit(RemoveMember(s.groups.groups[g].owner, g, u)), Act(s.next)];
      var t := KickOne(s, u, g);
      var rest := KickAll(t, u);
      RunAppend(s, first, rest);
      events := first + rest;
    }
  }

  function EdgesOf(s: State, u: Uin): set<(Uin, Uin)> { set e | e in s.contacts && Touches(e, u) }

  /** A wipe of an open account takes its edges with it. */
  lemma WipeEnd(s: State, u: Uin, x: Uin) returns (t: State)
    requires Ok(s) && u in s.closed && Freeable(s, u) && GroupsWith(s, u) == {} && Open(s, x)
    ensures t == Run(s, [Admit(Wipe(x)), Act(s.next)] + [Commit(s.next)])
    ensures Ok(t) && u in t.closed && Freeable(t, u) && GroupsWith(t, u) == {} && EdgesOf(t, u) == (set e | e in EdgesOf(s, u) && !Touches(e, x))
  {
    var a := Next(s, Admit(Wipe(x)));
    var b := Next(a, Act(s.next));
    RunTwo(s, Admit(Wipe(x)), Act(s.next));
    RunAppend(s, [Admit(Wipe(x)), Act(s.next)], [Commit(s.next)]);
    RunOne(b, Commit(s.next));
    StepOk(s, Admit(Wipe(x)));
    StepOk(a, Act(s.next));
    StepOk(b, Commit(s.next));
    t := Next(b, Commit(s.next));
    assert Commits(b, s.next) && b.wipes[s.next] == x;
    WipeJoins(s.groups, x, s.clock);
    forall g | g in t.groups.groups ensures u !in t.groups.groups[g].members {
      assert g !in GroupsWith(s, u);
    }
  }

  lemma {:induction false} WipeEnds(s: State, u: Uin) returns (events: seq<Event>)
    requires Ok(s) && u in s.closed && Freeable(s, u) && GroupsWith(s, u) == {}
    ensures Acting(events) && !Referenced(Run(s, events), u) && Ok(Run(s, events))
    decreases |EdgesOf(s, u)|
  {
    if EdgesOf(s, u) == {} {
      events := [];
      forall e | e in s.contacts ensures !Touches(e, u) { assert e !in EdgesOf(s, u); }
      forall g ensures !InGroup(s.groups.groups, u, g) { assert g !in GroupsWith(s, u); }
    } else {
      var e :| e in EdgesOf(s, u);
      var x := Other(e, u);
      var first := [Admit(Wipe(x)), Act(s.next)] + [Commit(s.next)];
      var t := WipeEnd(s, u, x);
      assert e !in EdgesOf(t, u) && EdgesOf(t, u) <= EdgesOf(s, u) - {e};
      SubsetSize(EdgesOf(t, u), EdgesOf(s, u) - {e});
      var rest := WipeEnds(t, u);
      RunAppend(s, first, rest);
      events := first + rest;
    }
  }

  /** A pending wipe of the account drops whatever references it. */
  lemma OwnWipe(s: State, u: Uin) returns (events: seq<Event>)
    requires Ok(s) && u in s.closed && u in s.users && WipePending(s, u)
    ensures Acting(events) && !Referenced(Run(s, events), u) && Ok(Run(s, events))
  {
    if id :| id in s.admitted && s.admitted[id] == Wipe(u) {
      var a := Next(s, Act(id));
      StepOk(s, Act(id));
      events := [Act(id), Commit(id)];
      RunTwo(s, Act(id), Commit(id));
      CommitFrees(a, u, id);
    } else {
      var id :| id in s.wipes && s.wipes[id] == u;
      events := [Commit(id)];
      RunOne(s, Commit(id));
      CommitFrees(s, u, id);
    }
  }

  lemma CommitFrees(s: State, u: Uin, id: Id)
    requires Ok(s) && Commits(s, id) && s.wipes[id] == u
    ensures !Referenced(Next(s, Commit(id)), u) && Ok(Next(s, Commit(id)))
  {
    StepOk(s, Commit(id));
    WipeJoins(s.groups, u, s.clock);
  }

  lemma {:induction false} LeftoversAct(s: State, events: seq<Event>)
    requires Leftovers(s, events) && Ok(s)
    ensures Acting(events) && Ok(Run(s, events)) && s.closed <= Run(s, events).closed
    decreases |events|
  {
    if events != [] {
      StepOk(s, events[0]);
      LeftoversAct(Next(s, events[0]), events[1..]);
      assert forall e :: e in events ==> e == events[0] || e in events[1..];
    }
  }

  /** The run that frees the account: its own wipe, or the leftovers, then the owners of its groups, then its contacts. */
  lemma Freeing(s: State, u: Uin) returns (events: seq<Event>)
    requires Ok(s) && u in s.closed && (WipePending(s, u) || LeftoversFree(s, u))
    ensures Acting(events) && !Referenced(Run(s, events), u)
  {
    if u !in s.users {
      events := [];
    } else if WipePending(s, u) {
      events := OwnWipe(s, u);
    } else {
      var drain :| Leftovers(s, drain) && Freeable(Run(s, drain), u);
      LeftoversAct(s, drain);
      var kicks := KickAll(Run(s, drain), u);
      var wipes := WipeEnds(Run(Run(s, drain), kicks), u);
      RunAppend(s, drain, kicks);
      RunAppend(s, drain + kicks, wipes);
      events := drain + kicks + wipes;
    }
  }

  /** A closed account can be erased exactly when a wipe of it is pending or leftovers leave only rows of open accounts. */
  lemma ErasableExactlyWhen(s: State, u: Uin)
    requires Reachable(s) && u in s.closed
    ensures (exists events :: u !in Run(s, events).users) <==> WipePending(s, u) || LeftoversFree(s, u)
  {
    ReachableOk(s);
    if WipePending(s, u) || LeftoversFree(s, u) {
      var events := Freeing(s, u);
      StaysClosed(s, events, u);
      RunAppend(s, events, [Erase(u)]);
      RunOne(Run(s, events), Erase(u));
      assert u !in Run(s, events + [Erase(u)]).users;
    }
    if events :| u !in Run(s, events).users {
      if u in s.users {
        ShadowsItself(s, u);
        FreedMeans(s, s, u, events);
      } else {
        FreeNow(s, u);
      }
    }
  }

  lemma {:induction false} StaysClosed(s: State, events: seq<Event>, u: Uin)
    requires u in s.closed
    ensures u in Run(s, events).closed
    decreases |events|
  {
    if events != [] {
      ClosedNotAdmitted(s, events[0], u);
      StaysClosed(Next(s, events[0]), events[1..], u);
    }
  }

  // Without leftovers

  /** No closed account has a request or a wipe under way. */
  ghost predicate Quiet(s: State) {
    (forall id :: id in s.admitted ==> s.admitted[id].actor !in s.closed) && (forall id :: id in s.wipes ==> s.wipes[id] !in s.closed)
  }

  lemma QuietStep(s: State, e: Event, u: Uin)
    requires Ok(s) && Quiet(s) && Leftover(s, e)
    ensures Quiet(Next(s, e)) && Ok(Next(s, e)) && (Freeable(Next(s, e), u) ==> Freeable(s, u))
  {
    StepOk(s, e);
    assert e.Tick? || e.Register?;
    if Freeable(Next(s, e), u) {
      forall g | InGroup(s.groups.groups, u, g) ensures Open(s, s.groups.groups[g].owner) {
        assert InGroup(s.groups.groups, s.groups.groups[g].owner, g);
      }
    }
  }

  lemma {:induction false} QuietRun(s: State, events: seq<Event>, u: Uin)
    requires Ok(s) && Quiet(s) && Leftovers(s, events) && Freeable(Run(s, events), u)
    ensures Freeable(s, u)
    decreases |events|
  {
    if events != [] {
      QuietStep(s, events[0], u);
      QuietRun(Next(s, events[0]), events[1..], u);
    }
  }

  /** If nothing of a closed account is under way, a closed account can be erased exactly when every edge of it leads to an
      open account, every group it is in has an open owner, and it has no row of its own. */
  lemma QuietErasableExactlyWhen(s: State, u: Uin)
    requires Reachable(s) && u in s.closed && Quiet(s)
    ensures (exists events :: u !in Run(s, events).users) <==> Freeable(s, u)
  {
    ReachableOk(s);
    ErasableExactlyWhen(s, u);
    if LeftoversFree(s, u) {
      var drain :| Leftovers(s, drain) && Freeable(Run(s, drain), u);
      QuietRun(s, drain, u);
    }
    if Freeable(s, u) { FreeNow(s, u); }
  }
}
