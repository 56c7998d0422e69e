/**
 When a wipe job can be completed: whatever crashed where, exactly when requests that are or may still be admitted
 can free its account from the rows that reference it.
 */
module AccountsCompletion {
  import opened Options
  import A = Accounts
  import R = Requests
  import opened AccountsWipe
  import opened AccountsSessions
  import opened AccountsLease
  import opened AccountsRequests
  import E = RequestsErasure

  // The job goes only after the user row

  lemma {:induction false} GoneMeansErased(s: State, events: seq<Event>, j: A.JobId)
    requires Ok(s) && j in s.auth.db.jobs && j !in Run(s, events).auth.db.jobs
    ensures s.auth.db.jobs[j].uin !in Run(s, events).auth.db.users
    decreases |events|
  {
    var e := events[0];
    StepProjects(s, e);
    ReachableKeeps(s.auth);
    StepKeeps(s.auth, AsAccounts(s, e));
    if j in Next(s, e).auth.db.jobs {
      GoneMeansErased(Next(s, e), events[1..], j);
    } else {
      JobDeletedLast(s.auth, AsAccounts(s, e), j);
      StaysErased(Next(s, e), events[1..], s.auth.db.jobs[j].uin);
    }
  }

  lemma {:induction false} StaysErased(s: State, events: seq<Event>, u: A.Uin)
    requires Ok(s) && u in s.auth.log.wiped && u !in s.auth.db.users
    ensures u !in Run(s, events).auth.db.users
    decreases |events|
  {
    if events != [] {
      StepProjects(s, events[0]);
      ReachableKeeps(s.auth);
      StepKeeps(s.auth, AsAccounts(s, events[0]));
      StaysErased(Next(s, events[0]), events[1..], u);
    }
  }

  // Runs of the request machine in the whole

  /** The step of the whole that does what the request machine does. */
  function Lifted(e: R.Event): Event {
    match e
    case Tick(elapsed) => Service(A.Tick(elapsed))
    case Register => Service(A.Register)
    case Admit(req) => Admit(req)
    case Act(id) => Act(id)
    case Commit(id) => Service(A.WipeCommit(id, 0, true))
    case _ => Service(A.Tick(0))
  }

  ghost predicate JobsKept(s: A.Auth, t: A.Auth) {
    forall j :: j in s.db.jobs ==> j in t.db.jobs && t.db.jobs[j].uin == s.db.jobs[j].uin
  }

  lemma OnlyDeleteDrops(s: A.Auth, e: A.Event)
    requires A.Reachable(s) && !e.DeleteJob?
    ensures JobsKept(s, A.Next(s, e))
  {
    ReachableKeeps(s);
    StepKeeps(s, e);
    forall j | j in s.db.jobs ensures j in A.Next(s, e).db.jobs {
      if j !in A.Next(s, e).db.jobs { JobDeletedLast(s, e, j); }
    }
  }

  lemma LiftMeans(s: State, e: R.Event)
    requires Ok(s) && !e.Erase? && !e.Abort?
    ensures R.Next(View(s), AsRequests(s, Lifted(e))) == R.Next(View(s), e) && !AsAccounts(s, Lifted(e)).DeleteJob?
  {
    if e.Commit? { assert A.Commits(s.auth, A.WipeCommit(e.id, 0, true)) <==> R.Commits(View(s), e.id); }
  }

  lemma LiftStep(s: State, e: R.Event)
    requires Ok(s) && !e.Erase? && !e.Abort?
    ensures Ok(Next(s, Lifted(e))) && View(Next(s, Lifted(e))) == R.Next(View(s), e) && JobsKept(s.auth, Next(s, Lifted(e)).auth)
  {
    StepProjects(s, Lifted(e));
    LiftMeans(s, e);
    OnlyDeleteDrops(s.auth, AsAccounts(s, Lifted(e)));
  }

  lemma {:induction false} LiftRun(s: State, requests: seq<R.Event>) returns (events: seq<Event>)
    requires Ok(s) && E.Acting(requests)
    ensures Ok(Run(s, events)) && View(Run(s, events)) == R.Run(View(s), requests) && JobsKept(s.auth, Run(s, events).auth)
    decreases |requests|
  {
    if requests == [] {
      events := [];
    } else {
      assert requests[0] in requests && forall e :: e in requests[1..] ==> e in requests;
      LiftStep(s, requests[0]);
      var rest := LiftRun(Next(s, Lifted(requests[0])), requests[1..]);
      events := [Lifted(requests[0])] + rest;
      assert events[1..] == rest;
    }
  }

  lemma {:induction false} LiftWorkers(s: State, work: seq<A.Event>) returns (events: seq<Event>)
    requires OnlyWorkers(work)
    ensures Run(s, events).auth == A.Run(s.auth, work)
    decreases |work|
  {
    if work == [] {
      events := [];
    } else {
      assert work[0] in work && forall e :: e in work[1..] ==> e in work;
      var rest := LiftWorkers(Next(s, Service(work[0])), work[1..]);
      events := [Service(work[0])] + rest;
      assert events[1..] == rest;
    }
  }

  // Completion

  /** A wipe of the account is pending, or leftover requests leave only rows that open accounts can remove. */
  ghost predicate CanBeFreed(s: State, u: A.Uin) { E.WipePending(View(s), u) || E.LeftoversFree(View(s), u) }

  lemma Completing(s: State, j: A.JobId) returns (events: seq<Event>)
    requires Ok(s) && j in s.auth.db.jobs && CanBeFreed(s, s.auth.db.jobs[j].uin)
    ensures j !in Run(s, events).auth.db.jobs && Erased(Run(s, events).auth, s.auth.db.jobs[j].uin)
  {
    var u := s.auth.db.jobs[j].uin;
    ReachableKeeps(s.auth);
    var requests := E.Freeing(View(s), u);
    var free := LiftRun(s, requests);
    var t := Run(s, free);
    MembersAre(t, u);
    var work := WorkersComplete(t.auth, j);
    var rest := LiftWorkers(t, work);
    RunAppend(s, free, rest);
    events := free + rest;
  }

  /** From a reachable state a wipe job can be completed exactly when its account can be freed; the account is then erased. */
  lemma JobCompletesExactlyWhen(s: State, j: A.JobId)
    requires Reachable(s) && j in s.auth.db.jobs
    ensures (exists events :: j !in Run(s, events).auth.db.jobs) <==> CanBeFreed(s, s.auth.db.jobs[j].uin)
    ensures CanBeFreed(s, s.auth.db.jobs[j].uin) ==>
              exists events :: j !in Run(s, events).auth.db.jobs && Erased(Run(s, events).auth, s.auth.db.jobs[j].uin)
  {
    var u := s.auth.db.jobs[j].uin;
    ReachableProjects(s);
    ReachableKeeps(s.auth);
    E.ErasableExactlyWhen(View(s), u);
    if CanBeFreed(s, u) {
      var events := Completing(s, j);
    }
    if events :| j !in Run(s, events).auth.db.jobs {
      GoneMeansErased(s, events, j);
      var requests := RunProjects(s, events);
      assert u !in R.Run(View(s), requests).users;
    }
  }

  /** If nothing of a wiped account is under way: a wipe job can be completed exactly when its account has no row of its own,
      every edge of it leads to an open account and every group it is in has an open owner. */
  lemma QuietJobCompletesExactlyWhen(s: State, j: A.JobId)
    requires Reachable(s) && j in s.auth.db.jobs && E.Quiet(View(s))
    ensures (exists events :: j !in Run(s, events).auth.db.jobs) <==> E.Freeable(View(s), s.auth.db.jobs[j].uin)
  {
    var u := s.auth.db.jobs[j].uin;
    ReachableProjects(s);
    ReachableKeeps(s.auth);
    JobCompletesExactlyWhen(s, j);
    E.ErasableExactlyWhen(View(s), u);
    E.QuietErasableExactlyWhen(View(s), u);
  }
}
