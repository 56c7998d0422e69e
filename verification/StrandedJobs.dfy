/**
 Runs that leave rows nobody can remove: a wipe job that no run completes.
 */
module StrandedJobs {
  import opened Options
  import A = Accounts
  import G = Groups
  import opened Requests
  import E = RequestsErasure
  import S = AccountsRequests
  import opened AccountsCompletion
  import AccountsWipe

  /** The state is the end of this run, and the run erases nobody. */
  ghost predicate EndsIn(events: seq<Event>, s: State) { E.Acting(events) && s == Run(Initial(), events) }

  lemma Then(events: seq<Event>, s: State, e: Event) returns (longer: seq<Event>)
    requires EndsIn(events, s) && !e.Erase? && !e.Abort?
    ensures EndsIn(longer, Next(s, e))
  {
    longer := events + [e];
    RunAppend(Initial(), events, [e]);
    RunOne(s, e);
  }

  /** An open account's request is admitted and acts. */
  lemma Requesting(events: seq<Event>, s: State, req: Request) returns (longer: seq<Event>, t: State)
    requires EndsIn(events, s) && Open(s, req.actor) && s.next !in s.admitted
    ensures EndsIn(longer, t) && t == Perform(s.(next := s.next + 1), s.next, req)
  {
    var a := Next(s, Admit(req));
    var more := Then(events, s, Admit(req));
    longer := Then(more, a, Act(s.next));
    t := Next(a, Act(s.next));
    assert s.admitted[s.next := req] - {s.next} == s.admitted;
    assert a.(admitted := a.admitted - {s.next}) == s.(next := s.next + 1);
  }

  lemma Wiping(events: seq<Event>, s: State, u: Uin) returns (longer: seq<Event>, t: State)
    requires EndsIn(events, s) && Open(s, u) && s.next !in s.admitted && s.next !in s.wipes
    ensures EndsIn(longer, t)
    ensures t == s.(next := s.next + 1, closed := s.closed + {u}, contacts := (set e | e in s.contacts && !Touches(e, u)),
                    own := s.own - {u}, groups := G.Next(s.groups, G.WipeMember(u, s.clock)))
  {
    var more, a := Requesting(events, s, Wipe(u));
    longer := Then(more, a, Commit(s.next));
    t := Next(a, Commit(s.next));
    assert a.wipes - {s.next} == s.wipes;
  }

  function Below(n: nat): set<Uin> { if n == 0 then {} else Below(n - 1) + {n - 1} }

  /** Accounts 0 to n - 1, some of them wiped, and no rows. */
  function Blank(n: nat, closed: set<Uin>, next: Id): State {
    State(Below(n), closed, {}, {}, G.State(map[], map[], 0), map[], map[], next, n, 0)
  }

  lemma {:induction false} Registered(n: nat) returns (events: seq<Event>)
    ensures EndsIn(events, Blank(n, {}, 0))
  {
    if n == 0 {
      events := [];
    } else {
      var before := Registered(n - 1);
      events := Then(before, Blank(n - 1, {}, 0), Register);
    }
  }

  lemma EmptyWipe(u: Uin, now: Time)
    ensures G.Next(G.State(map[], map[], 0), G.WipeMember(u, now)) == G.State(map[], map[], 0)
  {
  }

  lemma BlankWiped(n: nat, closed: set<Uin>, next: Id, u: Uin, before: seq<Event>) returns (events: seq<Event>)
    requires EndsIn(before, Blank(n, closed, next)) && u in Below(n) && u !in closed
    ensures EndsIn(events, Blank(n, closed + {u}, next + 1))
  {
    var longer, t := Wiping(before, Blank(n, closed, next), u);
    EmptyWipe(u, 0);
    assert (set e | e in Blank(n, closed, next).contacts && !Touches(e, u)) == {};
    events := longer;
  }

  // From a state of the request machine to a wipe job

  /** The job stays, whatever anybody does. */
  ghost predicate Stranded(s: S.State, j: A.JobId, u: Uin) {
    S.Reachable(s) && j in s.auth.db.jobs && s.auth.db.jobs[j].uin == u && forall events :: j in S.Run(s, events).auth.db.jobs
  }

  lemma Strand(config: A.Config, events: seq<Event>, v: State) returns (s: S.State)
    requires EndsIn(events, v) && E.Quiet(v)
    ensures S.Reachable(s) && S.View(s) == v
    ensures forall u :: u in v.closed && u in v.users && !E.Freeable(v, u) ==> exists j :: Stranded(s, j, u)
  {
    S.InitialOk(config);
    assert S.View(S.Initial(config)) == Initial();
    var run := LiftRun(S.Initial(config), events);
    s := S.Run(S.Initial(config), run);
    forall u | u in v.closed && u in v.users && !E.Freeable(v, u) ensures exists j :: Stranded(s, j, u) {
      AccountsWipe.ReachableKeeps(s.auth);
      var j := s.auth.log.wiped[u];
      QuietJobCompletesExactlyWhen(s, j);
      assert Stranded(s, j, u);
    }
  }

  // Scenarios

  /** A request of the account that was admitted before its wipe and stores a row after it. */
  lemma LateRowStrandsJob(config: A.Config) returns (s: S.State, j: A.JobId)
    ensures Stranded(s, j, 0)
  {
    var events := Registered(1);
    var a := Blank(1, {}, 0);
    var first := Then(events, a, Admit(StoreRow(0)));
    var b := Next(a, Admit(StoreRow(0)));
    var second, c := Wiping(first, b, 0);
    EmptyWipe(0, 0);
    var third := Then(second, c, Act(0));
    var v := Next(c, Act(0));
    assert c.admitted == map[0 := StoreRow(0)] && v.admitted == map[];
    assert v.own == {0};
    s := Strand(config, third, v);
    j :| Stranded(s, j, 0);
  }

  /** A contact request that was admitted before both accounts were wiped strands both jobs. */
  lemma LateContactStrandsBoth(config: A.Config) returns (s: S.State, j: A.JobId, k: A.JobId)
    ensures Stranded(s, j, 0) && Stranded(s, k, 1) && (0, 1) in s.auth.db.refs.contacts
  {
    var events := Registered(2);
    var a := Blank(2, {}, 0);
    var first := Then(events, a, Admit(AddContact(1, 0)));
    var b := Next(a, Admit(AddContact(1, 0)));
    var second, c := Wiping(first, b, 0);
    EmptyWipe(0, 0);
    var third, d := Wiping(second, c, 1);
    EmptyWipe(1, 0);
    var fourth := Then(third, d, Act(0));
    var v := Next(d, Act(0));
    assert d.admitted == map[0 := AddContact(1, 0)] && v.admitted == map[];
    assert v.contacts == {(1, 0), (0, 1)};
    assert Touches((0, 1), 0) && Other((0, 1), 0) == 1 && Touches((0, 1), 1) && Other((0, 1), 1) == 0;
    s := Strand(config, fourth, v);
    j :| Stranded(s, j, 0);
    k :| Stranded(s, k, 1);
  }

  /** Accounts 0 and 1 are wiped, account 2 is open. */
  lemma TwoWiped() returns (events: seq<Event>)
    ensures EndsIn(events, Blank(3, {0, 1}, 2)) && Below(3) == {0, 1, 2}
  {
    var first := Registered(3);
    assert Below(1) == {0} && Below(2) == {0, 1} && Below(3) == {0, 1, 2};
    var second := BlankWiped(3, {}, 0, 0, first);
    events := BlankWiped(3, {0}, 1, 1, second);
  }

  function Joined(members: map<Uin, G.Member>, u: Uin): map<Uin, G.Member> { members[u := G.Member(false, 0)] }

  /** A state with one group and nothing else. */
  function OneGroup(owner: Uin, epoch: nat, members: map<Uin, G.Member>, next: Id): State {
    Blank(3, {0, 1}, next).(groups := G.State(map[0 := G.Group(owner, epoch, members)], map[], 1))
  }

  lemma CreateOne(before: seq<Event>) returns (events: seq<Event>)
    requires EndsIn(before, Blank(3, {0, 1}, 2)) && Below(3) == {0, 1, 2}
    ensures EndsIn(events, OneGroup(2, 1, map[2 := G.Member(true, 0)], 3))
  {
    var longer, t := Requesting(before, Blank(3, {0, 1}, 2), CreateGroup(2));
    events := longer;
  }

  /** The open owner adds an account, wiped or not. */
  lemma AddOne(before: seq<Event>, epoch: nat, members: map<Uin, G.Member>, next: Id, u: Uin) returns (events: seq<Event>)
    requires EndsIn(before, OneGroup(2, epoch, members, next)) && Below(3) == {0, 1, 2} && u < 3
    requires 2 in members && members[2].admin && u !in members
    ensures EndsIn(events, OneGroup(2, epoch + 1, Joined(members, u), next + 1))
  {
    var s := OneGroup(2, epoch, members, next);
    var longer, t := Requesting(before, s, AddMember(2, 0, u));
    assert G.Inserts(s.groups, 0, 2, u);
    assert t.groups == G.AddNext(s.groups, 0, u, 0);
    assert t.groups.dists == map[];
    events := longer;
  }

  /** Both wiped accounts are members, with the same join time. */
  lemma BothAdded() returns (events: seq<Event>, members: map<Uin, G.Member>)
    ensures members == map[2 := G.Member(true, 0), 0 := G.Member(false, 0), 1 := G.Member(false, 0)]
    ensures EndsIn(events, OneGroup(2, 3, members, 5)) && Below(3) == {0, 1, 2}
  {
    var first := TwoWiped();
    var second := CreateOne(first);
    var alone := map[2 := G.Member(true, 0)];
    var third := AddOne(second, 1, alone, 3, 0);
    events := AddOne(third, 2, Joined(alone, 0), 4, 1);
    members := Joined(Joined(alone, 0), 1);
  }

  /** The owner leaves; of the two wiped members the one with the smaller number inherits the group. */
  lemma OwnerLeft() returns (events: seq<Event>, v: State)
    ensures EndsIn(events, v) && E.Quiet(v) && v.users == {0, 1, 2} && v.closed == {0, 1}
    ensures InGroup(v.groups.groups, 0, 0) && InGroup(v.groups.groups, 1, 0) && v.groups.groups[0].owner == 0
  {
    var before, members := BothAdded();
    var s := OneGroup(2, 3, members, 5);
    events, v := Requesting(before, s, RemoveMember(2, 0, 2));
    assert G.Removes(s.groups, 0, 2, 2);
    var rest := members - {2};
    assert rest == map[0 := G.Member(false, 0), 1 := G.Member(false, 0)];
    assert G.IsFirst(rest, 0);
    G.FirstUnique(rest, 0, G.First(rest));
    assert v.groups == G.RemoveNext(s.groups, 0, 2, 0);
    assert v.groups.groups[0] == G.Leave(s.groups.groups[0], 2).value;
  }

  /** An open owner adds two wiped accounts to its group and leaves: one of them inherits the group, and nobody can ever
      remove either. Both jobs are stranded without a request of either account. */
  lemma InheritanceStrandsJobs(config: A.Config) returns (s: S.State, j: A.JobId, k: A.JobId)
    ensures Stranded(s, j, 0) && Stranded(s, k, 1)
    ensures InGroup(s.groups.groups, 1, 0) && s.groups.groups[0].owner == 0
  {
    var events, v := OwnerLeft();
    s := Strand(config, events, v);
    assert !E.Freeable(v, 0) && !E.Freeable(v, 1);
    j :| Stranded(s, j, 0);
    k :| Stranded(s, k, 1);
  }

  // Rows that an open account can still remove

  /** Adding a member does not ask whether the account is wiped: the membership holds up its erasure until the owner removes it. */
  lemma WipedAccountJoinsGroup(config: A.Config) returns (s: S.State)
    ensures S.Reachable(s) && 0 in s.auth.log.wiped && A.Referenced(s.auth.db.refs, 0) && E.Freeable(S.View(s), 0)
  {
    var events, members := BothAdded();
    var v := OneGroup(2, 3, members, 5);
    s := Strand(config, events, v);
    S.ReachableProjects(s);
    assert InGroup(v.groups.groups, 0, 0);
    S.MembersAre(s, 0);
  }

  /** Nor does adding a contact. The edge of the wiped account to the open one is beyond the open one's reach: it goes only if
      one of the two is wiped. */
  lemma WipedAccountAddedAsContact(config: A.Config) returns (s: S.State)
    ensures S.Reachable(s) && 0 in s.auth.log.wiped && A.Open(s.auth.db, 2) && (0, 2) in s.auth.db.refs.contacts
    ensures (0, 2) in A.Next(s.auth, A.RemoveContact(2, 0)).db.refs.contacts && E.Freeable(S.View(s), 0)
  {
    var before := TwoWiped();
    var events, v := Requesting(before, Blank(3, {0, 1}, 2), AddContact(2, 0));
    assert v.contacts == {(2, 0), (0, 2)};
    s := Strand(config, events, v);
    S.ReachableProjects(s);
    AccountsWipe.ReachableKeeps(s.auth);
    assert 2 in S.View(s).users && 2 !in S.View(s).closed && 0 in S.View(s).closed;
  }
}
