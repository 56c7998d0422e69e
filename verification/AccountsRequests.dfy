/**
 The auth service, the groups and the admitted requests together. Every run of the whole is a run of the account
 machine and a run of the request machine, so what is proved of either holds of it; and a wipe job can be
 completed exactly when the request machine can free its account.
 */
module AccountsRequests {
  import opened Options
  import A = Accounts
  import G = Groups
  import R = Requests
  import opened AccountsWipe
  import opened AccountsRecords
  import opened AccountsSessions
  import opened AccountsLease
  import E = RequestsErasure

  datatype State = State(auth: A.Auth, groups: G.State, admitted: map<R.Id, R.Request>, next: R.Id)

  /** A request is admitted or acts; everything else is a step of the auth service. */
  datatype Event = Admit(req: R.Request) | Act(id: R.Id) | Service(e: A.Event)

  /** A group statement, and the members it leaves in groups. */
  ghost function Grouped(s: State, e: G.Event): State {
    var groups := G.Next(s.groups, e);
    s.(groups := groups, auth := A.Next(s.auth, A.GroupChange(R.MembersOf(groups.groups))))
  }

  ghost function Perform(s: State, id: R.Id, req: R.Request): State {
    match req
    case AddContact(a, t) => s.(auth := A.Next(s.auth, A.AddContact(a, t)))
    case BlockContact(a, t) => s.(auth := A.Next(s.auth, A.BlockContact(a, t)))
    case RemoveContact(a, t) => s.(auth := A.Next(s.auth, A.RemoveContact(a, t)))
    case StoreRow(a) => s.(auth := A.Next(s.auth, A.OwnRow(a)))
    case CreateGroup(a) => if a in s.auth.db.users then Grouped(s, G.Create(a, s.auth.clock)) else s
    case AddMember(a, g, u) => if u in s.auth.db.users then Grouped(s, G.Add(g, a, u, s.auth.clock)) else s
    case RemoveMember(a, g, u) => Grouped(s, G.Remove(g, a, u, s.auth.clock))
    case DeleteGroup(a, g) => Grouped(s, G.Delete(g, a))
    case Wipe(a) => s.(auth := A.Next(s.auth, A.WipeStart(id, a)))
  }

  /** Steps that only an admitted request takes. */
  predicate Requested(e: A.Event) { A.RefsEvent(e) || e.WipeStart? }

  ghost function Next(s: State, e: Event): State {
    match e
    case Admit(req) => if A.Open(s.auth.db, req.actor) then s.(admitted := s.admitted[s.next := req], next := s.next + 1) else s
    case Act(id) => if id in s.admitted then Perform(s.(admitted := s.admitted - {id}), id, s.admitted[id]) else s
    case Service(e) =>
      if Requested(e) then s
      else
        s.(auth := A.Next(s.auth, e),
           groups := if A.Commits(s.auth, e) then G.Next(s.groups, G.WipeMember(s.auth.procs.wipes[e.r].uin, s.auth.clock)) else s.groups)
  }

  ghost function Run(s: State, events: seq<Event>): State
    decreases |events|
  {
    if events == [] then s else Run(Next(s, events[0]), events[1..])
  }

  function Initial(config: A.Config): State { State(A.Initial(config), G.State(map[], map[], 0), map[], 0) }

  ghost predicate Reachable(s: State) { exists config, events :: s == Run(Initial(config), events) }

  lemma {:induction false} RunAppend(s: State, first: seq<Event>, second: seq<Event>)
    ensures Run(s, first + second) == Run(Run(s, first), second)
    decreases |first|
  {
    if first == [] {
      assert first + second == second;
    } else {
      assert (first + second)[1..] == first[1..] + second;
      RunAppend(Next(s, first[0]), first[1..], second);
    }
  }

  // The two machines in the whole

  /** What the request machine sees. */
  function View(s: State): R.State {
    R.State(s.auth.db.users.Keys, s.auth.log.wiped.Keys, s.auth.db.refs.contacts, s.auth.db.refs.own, s.groups, s.admitted,
            Wipes(s.auth), s.next, s.auth.ids.uin, s.auth.clock)
  }

  function Wipes(auth: A.Auth): map<R.Id, A.Uin> {
    map r | r in auth.procs.wipes && !auth.procs.wipes[r].sent :: auth.procs.wipes[r].uin
  }

  /** The step as a step of the account machine. */
  ghost function AsAccounts(s: State, e: Event): A.Event {
    match e
    case Admit(_) => A.Tick(0)
    case Act(id) =>
      if id !in s.admitted then A.Tick(0)
      else
        var members := A.GroupChange(R.MembersOf(Next(s, e).groups.groups));
        (match s.admitted[id]
         case AddContact(a, t) => A.AddContact(a, t)
         case BlockContact(a, t) => A.BlockContact(a, t)
         case RemoveContact(a, t) => A.RemoveContact(a, t)
         case StoreRow(a) => A.OwnRow(a)
         case CreateGroup(a) => if a in s.auth.db.users then members else A.Tick(0)
         case AddMember(_, _, u) => if u in s.auth.db.users then members else A.Tick(0)
         case RemoveMember(_, _, _) => members
         case DeleteGroup(_, _) => members
         case Wipe(a) => A.WipeStart(id, a))
    case Service(e) => if Requested(e) then A.Tick(0) else e
  }

  lemma StepIsAccounts(s: State, e: Event)
    ensures Next(s, e).auth == A.Next(s.auth, AsAccounts(s, e))
  {
  }

  /** The step as a step of the request machine. */
  function AsRequests(s: State, e: Event): R.Event {
    match e
    case Admit(req) => R.Admit(req)
    case Act(id) => R.Act(id)
    case Service(e) =>
      match e
      case Tick(elapsed) => R.Tick(elapsed)
      case Register => R.Register
      case WipeCommit(r, _, _) => if A.Commits(s.auth, e) then R.Commit(r) else R.Tick(0)
      case WipeAbort(r, _) => R.Abort(r)
      case Erase(w) => if A.Erasable(s.auth, w) then R.Erase(s.auth.procs.runs[w].uin) else R.Tick(0)
      case _ => R.Tick(0)
  }

  ghost predicate Ok(s: State) {
    A.Reachable(s.auth) && R.Ok(View(s)) && s.auth.db.refs.members == R.MembersOf(s.groups.groups) &&
    (forall r :: r in s.auth.procs.wipes ==> r < s.next && r !in s.admitted)
  }

  lemma MembersAre(s: State, u: A.Uin)
    requires s.auth.db.refs.members == R.MembersOf(s.groups.groups)
    ensures u in s.auth.db.refs.members <==> exists g :: R.InGroup(s.groups.groups, u, g)
    ensures A.Referenced(s.auth.db.refs, u) <==> R.Referenced(View(s), u)
  {
    if u in s.auth.db.refs.members {
      var g :| g in s.groups.groups && u in s.groups.groups[g].members;
      assert R.InGroup(s.groups.groups, u, g);
    }
    if A.Referenced(s.auth.db.refs, u) && u !in s.auth.db.refs.members && u !in s.auth.db.refs.own {
      var e :| e in s.auth.db.refs.contacts && (e.0 == u || e.1 == u);
      assert R.Touches(e, u);
    }
  }

  lemma MembersExist(v: R.State)
    requires R.KeysOk(v)
    ensures R.MembersOf(v.groups.groups) <= v.users
  {
    forall u | u in R.MembersOf(v.groups.groups) ensures u in v.users {
      var g :| g in v.groups.groups && u in v.groups.groups[g].members;
      assert R.InGroup(v.groups.groups, u, g);
    }
  }

  // Requests

  lemma AdmitView(s: State, req: R.Request)
    requires Ok(s)
    ensures View(Next(s, Admit(req))) == R.Next(View(s), R.Admit(req)) && Synced(Next(s, Admit(req)))
  {
    ReachableKeeps(s.auth);
  }

  /** The parts of the invariant that tie the two machines. */
  ghost predicate Synced(s: State) {
    s.auth.db.refs.members == R.MembersOf(s.groups.groups) && (forall r :: r in s.auth.procs.wipes ==> r < s.next && r !in s.admitted)
  }

  lemma GroupedView(s: State, e: G.Event)
    requires R.MembersOf(G.Next(s.groups, e).groups) <= s.auth.db.users.Keys
    ensures View(Grouped(s, e)) == View(s).(groups := G.Next(s.groups, e))
    ensures Grouped(s, e).auth.db.refs.members == R.MembersOf(Grouped(s, e).groups.groups)
    ensures Grouped(s, e).auth.procs == s.auth.procs && Grouped(s, e).admitted == s.admitted && Grouped(s, e).next == s.next
  {
    assert Wipes(Grouped(s, e).auth) == Wipes(s.auth);
  }

  lemma RowsView(s: State, e: A.Event)
    requires e.AddContact? || e.BlockContact? || e.RemoveContact? || e.OwnRow?
    ensures
      var t := s.(auth := A.Next(s.auth, e));
      View(t) == View(s).(contacts := t.auth.db.refs.contacts, own := t.auth.db.refs.own) &&
      t.auth.db.refs.members == s.auth.db.refs.members && t.auth.procs == s.auth.procs
  {
    assert Wipes(A.Next(s.auth, e)) == Wipes(s.auth);
  }

  lemma WipeView(s: State, id: R.Id, a: A.Uin)
    requires id !in s.auth.procs.wipes
    ensures
      var t := s.(auth := A.Next(s.auth, A.WipeStart(id, a)));
      View(t) == View(s).(wipes := View(s).wipes[id := a]) && t.auth.db == s.auth.db &&
      t.auth.procs.wipes == s.auth.procs.wipes[id := A.WipeRequest(a, false)]
  {
    var auth := A.Next(s.auth, A.WipeStart(id, a));
    assert Wipes(auth) == Wipes(s.auth)[id := a];
  }

  lemma PerformView(s: State, id: R.Id, req: R.Request)
    requires Synced(s) && R.Ok(View(s)) && id !in s.admitted && id !in s.auth.procs.wipes && id < s.next
    ensures View(Perform(s, id, req)) == R.Perform(View(s), id, req) && Synced(Perform(s, id, req))
  {
    R.PerformOk(View(s), id, req);
    MembersExist(R.Perform(View(s), id, req));
    match req
    case AddContact(a, t) => RowsView(s, A.AddContact(a, t));
    case BlockContact(a, t) => RowsView(s, A.BlockContact(a, t));
    case RemoveContact(a, t) => RowsView(s, A.RemoveContact(a, t));
    case StoreRow(a) => RowsView(s, A.OwnRow(a));
    case CreateGroup(a) => if a in s.auth.db.users { GroupedView(s, G.Create(a, s.auth.clock)); }
    case AddMember(a, g, u) => if u in s.auth.db.users { GroupedView(s, G.Add(g, a, u, s.auth.clock)); }
    case RemoveMember(a, g, u) => GroupedView(s, G.Remove(g, a, u, s.auth.clock));
    case DeleteGroup(a, g) => GroupedView(s, G.Delete(g, a));
    case Wipe(a) => WipeView(s, id, a);
  }

  lemma ActView(s: State, id: R.Id)
    requires Ok(s)
    ensures View(Next(s, Act(id))) == R.Next(View(s), R.Act(id)) && Synced(Next(s, Act(id)))
  {
    if id in s.admitted { PerformView(s.(admitted := s.admitted - {id}), id, s.admitted[id]); }
  }

  // Steps of the auth service

  /** A step that is neither requested nor one of these leaves what the request machine sees. */
  predicate Visible(auth: A.Auth, e: A.Event) {
    e.Tick? || e.Register? || e.WipeAbort? || A.Commits(auth, e) || (e.Erase? && A.Erasable(auth, e.w))
  }

  lemma HiddenView(s: State, e: A.Event)
    requires !Requested(e) && !Visible(s.auth, e)
    ensures View(Next(s, Service(e))) == View(s) && Next(s, Service(e)).auth.db.refs == s.auth.db.refs
    ensures Next(s, Service(e)).auth.procs.wipes == s.auth.procs.wipes
  {
    SessionFrame(s.auth, e);
    SessionClock(s.auth, e);
  }

  lemma SessionClock(s: A.Auth, e: A.Event)
    ensures A.SessionNext(s, e).clock == s.clock
  {
  }

  lemma CommitView(s: State, e: A.Event)
    requires Ok(s) && A.Commits(s.auth, e)
    ensures View(Next(s, Service(e))) == R.Next(View(s), R.Commit(e.r)) && Synced(Next(s, Service(e)))
  {
    var t, u := Next(s, Service(e)), s.auth.procs.wipes[e.r].uin;
    assert R.Commits(View(s), e.r);
    assert Wipes(t.auth) == Wipes(s.auth) - {e.r};
    assert t.auth.db.users.Keys == s.auth.db.users.Keys && t.auth.log.wiped.Keys == s.auth.log.wiped.Keys + {u};
    assert t.auth.db.refs.contacts == (set x | x in s.auth.db.refs.contacts && !R.Touches(x, u));
    R.WipeJoins(s.groups, u, s.auth.clock);
    WipeMembers(s.groups, u, s.auth.clock);
  }

  /** After a wipe the members of groups are the others. */
  lemma WipeMembers(groups: G.State, u: A.Uin, now: A.Time)
    ensures R.MembersOf(G.Next(groups, G.WipeMember(u, now)).groups) == R.MembersOf(groups.groups) - {u}
  {
    var t := G.Next(groups, G.WipeMember(u, now));
    R.WipeJoins(groups, u, now);
    forall x | x in R.MembersOf(groups.groups) && x != u ensures x in R.MembersOf(t.groups) {
      var g :| g in groups.groups && x in groups.groups[g].members;
      R.LeaveKeepsRows(groups.groups[g], u);
      assert x in groups.groups[g].members - {u};
      assert g in t.groups && x in t.groups[g].members;
    }
    forall x | x in R.MembersOf(t.groups) ensures x in R.MembersOf(groups.groups) && x != u {
      var g :| g in t.groups && x in t.groups[g].members;
      assert g in groups.groups && x in groups.groups[g].members;
    }
  }

  lemma EraseView(s: State, w: A.WorkerId)
    requires Ok(s) && A.Erasable(s.auth, w)
    ensures View(Next(s, Service(A.Erase(w)))) == R.Next(View(s), R.Erase(s.auth.procs.runs[w].uin))
    ensures Synced(Next(s, Service(A.Erase(w))))
  {
    var u := s.auth.procs.runs[w].uin;
    ReachableKeeps(s.auth);
    assert RunOk(s.auth, s.auth.procs.runs[w]);
    MembersAre(s, u);
    assert Wipes(Next(s, Service(A.Erase(w))).auth) == Wipes(s.auth);
  }

  lemma AbortView(s: State, r: R.Id, removed: bool)
    requires Synced(s)
    ensures View(Next(s, Service(A.WipeAbort(r, removed)))) == R.Next(View(s), R.Abort(r)) && Synced(Next(s, Service(A.WipeAbort(r, removed))))
  {
    assert Wipes(A.Next(s.auth, A.WipeAbort(r, removed))) == Wipes(s.auth) - {r};
  }

  lemma ClockView(s: State, e: A.Event)
    requires Synced(s) && (e.Tick? || e.Register?)
    ensures View(Next(s, Service(e))) == R.Next(View(s), AsRequests(s, Service(e))) && Synced(Next(s, Service(e)))
  {
    assert Wipes(A.Next(s.auth, e)) == Wipes(s.auth);
  }

  lemma ServiceView(s: State, e: A.Event)
    requires Ok(s) && !Requested(e)
    ensures View(Next(s, Service(e))) == R.Next(View(s), AsRequests(s, Service(e))) && Synced(Next(s, Service(e)))
  {
    if !Visible(s.auth, e) {
      HiddenView(s, e);
      assert AsRequests(s, Service(e)) == R.Tick(0);
    } else if A.Commits(s.auth, e) {
      CommitView(s, e);
    } else if e.Erase? {
      EraseView(s, e.w);
    } else if e.WipeAbort? {
      AbortView(s, e.r, e.removed);
    } else {
      ClockView(s, e);
    }
  }

  /** Each step of the whole is one step of either machine. */
  lemma StepProjects(s: State, e: Event)
    requires Ok(s)
    ensures Ok(Next(s, e)) && View(Next(s, e)) == R.Next(View(s), AsRequests(s, e)) && Next(s, e).auth == A.Next(s.auth, AsAccounts(s, e))
  {
    StepIsAccounts(s, e);
    ReachableNext(s.auth, AsAccounts(s, e));
    R.StepOk(View(s), AsRequests(s, e));
    match e
    case Admit(req) => AdmitView(s, req);
    case Act(id) => ActView(s, id);
    case Service(step) => if !Requested(step) { ServiceView(s, step); }
  }

  lemma InitialOk(config: A.Config)
    ensures Ok(Initial(config)) && R.Reachable(View(Initial(config)))
  {
    assert A.Run(A.Initial(config), []) == A.Initial(config);
    assert R.Run(R.Initial(), []) == R.Initial();
    assert View(Initial(config)) == R.Initial();
  }

  lemma {:induction false} RunProjects(s: State, events: seq<Event>) returns (requests: seq<R.Event>)
    requires Ok(s)
    ensures Ok(Run(s, events)) && View(Run(s, events)) == R.Run(View(s), requests)
    decreases |events|
  {
    if events == [] {
      requests := [];
    } else {
      StepProjects(s, events[0]);
      var rest := RunProjects(Next(s, events[0]), events[1..]);
      requests := [AsRequests(s, events[0])] + rest;
      assert requests[1..] == rest;
    }
  }

  /** In every reachable state the auth service is in a reachable state of the account machine, the requests and groups in one
      of the request machine, and the two agree on who is in a group. */
  lemma ReachableProjects(s: State)
    requires Reachable(s)
    ensures A.Reachable(s.auth) && R.Reachable(View(s)) && Ok(s)
  {
    var config, events :| s == Run(Initial(config), events);
    InitialOk(config);
    var requests := RunProjects(Initial(config), events);
    assert View(s) == R.Run(R.Initial(), requests) by { assert View(Initial(config)) == R.Initial(); }
  }
}
