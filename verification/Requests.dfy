/**
 Authenticated requests and the rows they leave that reference accounts.

 A request is admitted while its account is open, that is registered and not wiped; verification rejects it
 afterwards (AccountsSessions.NoTokenVerifiesAfterWipe). An admitted request acts once, at any later time, also
 after its account has been wiped. None of the statements it then executes reads the wiped-account marker. A join is
 dated with the time of its step.
 */
module Requests {
  import opened Options
  import G = Groups

  type Uin = nat
  type Time = nat
  type Id = nat

  datatype Request =
    | AddContact(actor: Uin, target: Uin)
    | BlockContact(actor: Uin, target: Uin)
    | RemoveContact(actor: Uin, target: Uin)
    | StoreRow(actor: Uin)
    | CreateGroup(actor: Uin)
    | AddMember(actor: Uin, g: G.Gid, uin: Uin)
    | RemoveMember(actor: Uin, g: G.Gid, uin: Uin)
    | DeleteGroup(actor: Uin, g: G.Gid)
    | Wipe(actor: Uin)

  /** closed: accounts whose wipe has committed; wipes: wipe requests whose transaction has not committed yet. */
  datatype State = State(users: set<Uin>, closed: set<Uin>, contacts: set<(Uin, Uin)>, own: set<Uin>, groups: G.State,
                         admitted: map<Id, Request>, wipes: map<Id, Uin>, next: Id, nextUin: Uin, clock: Time)

  datatype Event =
    | Tick(elapsed: Time)
    | Register
    | Admit(req: Request)
    | Act(id: Id)
    | Commit(id: Id)
    | Abort(id: Id)
    | Erase(uin: Uin)

  predicate Open(s: State, u: Uin) { u in s.users && u !in s.closed }

  function MembersOf(groups: map<G.Gid, G.Group>): set<Uin> {
    set g, u | g in groups && u in groups[g].members :: u
  }

  predicate Touches(e: (Uin, Uin), u: Uin) { e.0 == u || e.1 == u }

  /** The other end of an edge. */
  function Other(e: (Uin, Uin), u: Uin): Uin { if e.0 == u then e.1 else e.0 }

  predicate InGroup(groups: map<G.Gid, G.Group>, u: Uin, g: G.Gid) { g in groups && u in groups[g].members }

  ghost predicate Referenced(s: State, u: Uin) {
    u in s.own || (exists e :: e in s.contacts && Touches(e, u)) || (exists g :: InGroup(s.groups.groups, u, g))
  }

  /** What an admitted request does. */
  ghost function Perform(s: State, id: Id, req: Request): State {
    match req
    case AddContact(a, t) =>
      if a != t && a in s.users && t in s.users then s.(contacts := s.contacts + {(a, t), (t, a)}) else s
    case BlockContact(a, t) => if a in s.users && t in s.users then s.(contacts := s.contacts + {(a, t)}) else s
    case RemoveContact(a, t) => s.(contacts := s.contacts - {(a, t)})
    case StoreRow(a) => if a in s.users then s.(own := s.own + {a}) else s
    case CreateGroup(a) => if a in s.users then s.(groups := G.Next(s.groups, G.Create(a, s.clock))) else s
    case AddMember(a, g, u) => if u in s.users then s.(groups := G.Next(s.groups, G.Add(g, a, u, s.clock))) else s
    case RemoveMember(a, g, u) => s.(groups := G.Next(s.groups, G.Remove(g, a, u, s.clock)))
    case DeleteGroup(a, g) => s.(groups := G.Next(s.groups, G.Delete(g, a)))
    case Wipe(a) => s.(wipes := s.wipes[id := a])
  }

  predicate Commits(s: State, id: Id) { id in s.wipes && s.wipes[id] in s.users }

  /** The transaction of a wipe: the account is closed and its rows are gone. */
  ghost function CommitNext(s: State, id: Id): State
    requires Commits(s, id)
  {
    var u := s.wipes[id];
    s.(closed := s.closed + {u}, contacts := (set e | e in s.contacts && !Touches(e, u)), own := s.own - {u},
       groups := G.Next(s.groups, G.WipeMember(u, s.clock)), wipes := s.wipes - {id})
  }

  ghost function Next(s: State, e: Event): State {
    match e
    case Tick(elapsed) => s.(clock := s.clock + elapsed)
    case Register => s.(users := s.users + {s.nextUin}, nextUin := s.nextUin + 1)
    case Admit(req) => if Open(s, req.actor) then s.(admitted := s.admitted[s.next := req], next := s.next + 1) else s
    case Act(id) => if id in s.admitted then Perform(s.(admitted := s.admitted - {id}), id, s.admitted[id]) else s
    case Commit(id) => if Commits(s, id) then CommitNext(s, id) else s
    case Abort(id) => s.(wipes := s.wipes - {id})
    case Erase(u) => if u in s.closed && !Referenced(s, u) then s.(users := s.users - {u}) else s
  }

  ghost function Run(s: State, events: seq<Event>): State
    decreases |events|
  {
    if events == [] then s else Run(Next(s, events[0]), events[1..])
  }

  function Initial(): State { State({}, {}, {}, {}, G.State(map[], map[], 0), map[], map[], 0, 0, 0) }

  ghost predicate Reachable(s: State) { exists events :: s == Run(Initial(), events) }

  lemma {:induction false} RunAppend(s: State, first: seq<Event>, second: seq<Event>)
    ensures Run(s, first + second) == Run(Run(s, first), second)
    decreases |first|
  {
    if first == [] {
      assert first + second == second;
    } else {
      assert (first + second)[1..] == first[1..] + second;
      RunAppend(Next(s, first[0]), first[1..], second);
    }
  }

  lemma RunOne(s: State, e: Event)
    ensures Run(s, [e]) == Next(s, e)
  {
    assert Run(s, [e]) == Run(Next(s, e), [e][1..]);
  }

  // What every run keeps

  ghost predicate IdsOk(s: State) {
    (forall u :: u in s.users || u in s.closed ==> u < s.nextUin) &&
    (forall id :: id in s.admitted ==> id < s.next && id !in s.wipes) && (forall id :: id in s.wipes ==> id < s.next)
  }

  /** Foreign keys hold. */
  ghost predicate KeysOk(s: State) {
    (forall u :: u in s.own ==> u in s.users) && (forall e :: e in s.contacts ==> e.0 in s.users && e.1 in s.users) &&
    (forall g, u :: InGroup(s.groups.groups, u, g) ==> u in s.users)
  }

  /** Groups are as the group statements keep them, and nobody has joined in the future. */
  ghost predicate GroupsOk(s: State) {
    G.GroupsOk(s.groups) && forall g, u :: InGroup(s.groups.groups, u, g) ==> s.groups.groups[g].members[u].joinedAt <= s.clock
  }

  ghost predicate Ok(s: State) { IdsOk(s) && KeysOk(s) && GroupsOk(s) }

  /** No one is in the groups after a step who was not, or is named as joining. */
  ghost predicate Joined(s: G.State, t: G.State, u: Uin, now: Time) {
    forall g, x :: g in t.groups && x in t.groups[g].members ==>
      (g in s.groups && x in s.groups[g].members && t.groups[g].members[x].joinedAt == s.groups[g].members[x].joinedAt) ||
      (x == u && t.groups[g].members[x].joinedAt == now)
  }

  lemma CreateJoins(s: G.State, u: Uin, now: Time)
    ensures Joined(s, G.Next(s, G.Create(u, now)), u, now)
  {
  }

  lemma AddJoins(s: G.State, g: G.Gid, a: Uin, u: Uin, now: Time)
    ensures Joined(s, G.Next(s, G.Add(g, a, u, now)), u, now)
  {
  }

  lemma LeaveKeepsRows(group: G.Group, u: Uin)
    ensures
      var left := G.Leave(group, u);
      left.Some? ==> left.value.members.Keys == group.members.Keys - {u} &&
                     forall x :: x in left.value.members ==> left.value.members[x].joinedAt == group.members[x].joinedAt
  {
  }

  lemma RemoveJoins(s: G.State, g: G.Gid, a: Uin, u: Uin, now: Time)
    ensures Joined(s, G.Next(s, G.Remove(g, a, u, now)), u, now)
  {
    if g in s.groups { LeaveKeepsRows(s.groups[g], u); }
  }

  lemma WipeJoins(s: G.State, u: Uin, now: Time)
    ensures Joined(s, G.Next(s, G.WipeMember(u, now)), u, now)
    ensures forall g :: g in G.Next(s, G.WipeMember(u, now)).groups ==> u !in G.Next(s, G.WipeMember(u, now)).groups[g].members
  {
    forall g | g in s.groups ensures
      var left := G.Leave(s.groups[g], u);
      left.Some? ==> left.value.members.Keys == s.groups[g].members.Keys - {u} &&
                     forall x :: x in left.value.members ==> left.value.members[x].joinedAt == s.groups[g].members[x].joinedAt
    {
      LeaveKeepsRows(s.groups[g], u);
    }
  }

  /** A group statement that lets at most an existing account join keeps the invariant. */
  lemma GroupStepOk(s: State, groups: G.State, u: Uin)
    requires Ok(s) && u in s.users && G.GroupsOk(groups) && Joined(s.groups, groups, u, s.clock)
    ensures Ok(s.(groups := groups))
  {
  }

  /** Nobody joins: the account of a leave need not exist. */
  ghost predicate NobodyJoined(s: G.State, t: G.State) {
    forall g, x :: g in t.groups && x in t.groups[g].members ==>
      g in s.groups && x in s.groups[g].members && t.groups[g].members[x].joinedAt == s.groups[g].members[x].joinedAt
  }

  lemma LeaveStepOk(s: State, groups: G.State)
    requires Ok(s) && G.GroupsOk(groups) && NobodyJoined(s.groups, groups)
    ensures Ok(s.(groups := groups))
  {
  }

  lemma RemoveOk(s: State, g: G.Gid, a: Uin, u: Uin)
    requires Ok(s)
    ensures Ok(s.(groups := G.Next(s.groups, G.Remove(g, a, u, s.clock))))
  {
    var t := G.Next(s.groups, G.Remove(g, a, u, s.clock));
    G.StepGroups(s.groups, G.Remove(g, a, u, s.clock));
    if g in s.groups.groups { LeaveKeepsRows(s.groups.groups[g], u); }
    assert NobodyJoined(s.groups, t);
    LeaveStepOk(s, t);
  }

  lemma DeleteOk(s: State, g: G.Gid, a: Uin)
    requires Ok(s)
    ensures Ok(s.(groups := G.Next(s.groups, G.Delete(g, a))))
  {
    G.StepGroups(s.groups, G.Delete(g, a));
    LeaveStepOk(s, G.Next(s.groups, G.Delete(g, a)));
  }

  lemma JoinOk(s: State, e: G.Event, u: Uin)
    requires Ok(s) && u in s.users && Joined(s.groups, G.Next(s.groups, e), u, s.clock)
    ensures Ok(s.(groups := G.Next(s.groups, e)))
  {
    G.StepGroups(s.groups, e);
    GroupStepOk(s, G.Next(s.groups, e), u);
  }

  lemma PerformOk(s: State, id: Id, req: Request)
    requires Ok(s) && id !in s.admitted && id !in s.wipes && id < s.next
    ensures Ok(Perform(s, id, req))
  {
    match req
    case CreateGroup(a) =>
      CreateJoins(s.groups, a, s.clock);
      if a in s.users { JoinOk(s, G.Create(a, s.clock), a); }
    case AddMember(a, g, u) =>
      AddJoins(s.groups, g, a, u, s.clock);
      if u in s.users { JoinOk(s, G.Add(g, a, u, s.clock), u); }
    case RemoveMember(a, g, u) => RemoveOk(s, g, a, u);
    case DeleteGroup(a, g) => DeleteOk(s, g, a);
    case _ =>
  }

  lemma CommitOk(s: State, id: Id)
    requires Ok(s) && Commits(s, id)
    ensures Ok(CommitNext(s, id))
  {
    var u := s.wipes[id];
    WipeJoins(s.groups, u, s.clock);
    JoinOk(s, G.WipeMember(u, s.clock), u);
  }

  lemma StepOk(s: State, e: Event)
    requires Ok(s)
    ensures Ok(Next(s, e))
  {
    match e
    case Act(id) => if id in s.admitted { PerformOk(s.(admitted := s.admitted - {id}), id, s.admitted[id]); }
    case Commit(id) => if Commits(s, id) { CommitOk(s, id); }
    case Erase(u) => if u in s.closed && !Referenced(s, u) { EraseOk(s, u); }
    case _ =>
  }

  lemma EraseOk(s: State, u: Uin)
    requires Ok(s) && !Referenced(s, u)
    ensures Ok(s.(users := s.users - {u}))
  {
    assert forall e :: e in s.contacts ==> !Touches(e, u);
  }

  lemma {:induction false} RunOk(s: State, events: seq<Event>)
    requires Ok(s)
    ensures Ok(Run(s, events))
    decreases |events|
  {
    if events != [] {
      StepOk(s, events[0]);
      RunOk(Next(s, events[0]), events[1..]);
    }
  }

  lemma ReachableOk(s: State)
    requires Reachable(s)
    ensures Ok(s)
  {
    var events :| s == Run(Initial(), events);
    RunOk(Initial(), events);
  }

  /** A closed account is never admitted again. */
  lemma ClosedNotAdmitted(s: State, e: Event, u: Uin)
    requires u in s.closed
    ensures u in Next(s, e).closed
    ensures forall id :: id in Next(s, e).admitted && Next(s, e).admitted[id].actor == u ==> id in s.admitted && s.admitted[id] == Next(s, e).admitted[id]
  {
  }
}
