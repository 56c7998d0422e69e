/**
 What every step keeps about wiped accounts: the marker brackets the wipe, nothing about a wiped
 account comes back, and a job row disappears only after everything else has.
 */
module AccountsWipe {
  import opened Options
  import opened Accounts

  ghost predicate IdsOk(s: Auth) {
    (forall u :: u in s.db.users ==> u < s.ids.uin) &&
    (forall u :: u in s.log.wiped ==> u < s.ids.uin) &&
    (forall j :: j in s.db.jobs ==> j < s.ids.job && s.db.jobs[j].uin in s.log.wiped)
  }

  /** A marked account is a wiped account with a user row, and such an account has its marker and its newest job. */
  ghost predicate Bracketed(s: Auth) {
    (forall u :: u in s.db.markers ==> u in s.db.users && u in s.log.wiped) &&
    (forall u :: u in s.log.wiped && u in s.db.users ==>
       u in s.db.markers && s.log.wiped[u] in s.db.jobs && s.db.jobs[s.log.wiped[u]].uin == u)
  }

  /** The first n milestones are the confirmations of the cleanup phases 0 to n - 1, in order. */
  predicate CleanedUpTo(trail: seq<Milestone>, n: nat) {
    n <= |trail| && forall i :: 0 <= i < n ==> trail[i].Cleaned? && trail[i].store == i
  }

  /** Every phase, then the deletion of the user row, then the deletion of the key. */
  predicate FullTrail(trail: seq<Milestone>, stores: nat) {
    |trail| == stores + 2 && CleanedUpTo(trail, stores) && trail[stores] == UserDeleted && trail[stores + 1] == KeyDeleted
  }

  /** What a run has confirmed by each stage, in order. */
  ghost predicate TrailOk(run: WorkerRun, stores: nat) {
    match run.stage
    case Cleaning(next, failed) => next <= stores && (!failed ==> |run.trail| == next && CleanedUpTo(run.trail, next))
    case Unblocking => |run.trail| == stores + 1 && CleanedUpTo(run.trail, stores) && run.trail[stores] == UserDeleted
    case DeletingJob => FullTrail(run.trail, stores)
  }

  /** Each confirmed cleanup of the run is in the traffic, after the claim. */
  predicate TrailInTraffic(run: WorkerRun, traffic: seq<Traffic>) {
    forall i :: 0 <= i < |run.trail| && run.trail[i].Cleaned? ==>
      run.since <= run.trail[i].at < |traffic| && traffic[run.trail[i].at] == Cleared(run.uin, run.trail[i].store)
  }

  ghost predicate RunOk(s: Auth, run: WorkerRun) {
    run.uin in s.log.wiped && run.job < s.ids.job && TrailOk(run, s.config.stores) && TrailInTraffic(run, s.log.traffic) &&
    run.since <= |s.log.traffic| &&
    (run.job in s.db.jobs ==> s.db.jobs[run.job].uin == run.uin) &&
    (!run.stage.Cleaning? ==> run.uin !in s.db.users) &&
    (run.stage == DeletingJob && s.config.redis && run.uin in s.redis.blocked ==> run.uin in s.log.late)
  }

  ghost predicate RunsOk(s: Auth) {
    forall w :: w in s.procs.runs ==> RunOk(s, s.procs.runs[w])
  }

  ghost predicate WipeInv(s: Auth) { IdsOk(s) && Bracketed(s) && RunsOk(s) }

  /** What a run's facts rest on: wiped accounts stay wiped and gain nothing. */
  ghost predicate Settled(s: Auth, t: Auth) {
    t.config == s.config && s.ids.job <= t.ids.job &&
    (forall u :: u in s.log.wiped ==> u in t.log.wiped) &&
    (forall u :: u in s.log.wiped && u in t.db.users ==> u in s.db.users) &&
    (forall j :: j in t.db.jobs && j < s.ids.job ==> j in s.db.jobs && t.db.jobs[j].uin == s.db.jobs[j].uin) &&
    s.log.traffic <= t.log.traffic &&
    (forall u :: u in s.log.wiped && u in t.redis.blocked && u !in s.redis.blocked ==> u in s.db.users || u in t.log.late) &&
    s.log.late <= t.log.late
  }

  lemma RunKept(s: Auth, t: Auth, run: WorkerRun)
    requires RunOk(s, run) && Settled(s, t)
    ensures RunOk(t, run)
  {
  }

  lemma SettledTwice(s: Auth, t: Auth, v: Auth)
    requires IdsOk(s) && Settled(s, t) && Settled(t, v)
    ensures Settled(s, v)
  {
  }

  /** A session step touches neither markers nor jobs nor stored data; only registration adds a user row. */
  lemma SessionFrame(s: Auth, e: Event)
    ensures
      var t := SessionNext(s, e);
      t.config == s.config && t.db.markers == s.db.markers && t.db.jobs == s.db.jobs && t.data == s.data && t.db.refs == s.db.refs && t.log.traffic == s.log.traffic && t.procs == s.procs &&
      t.redis.blocked == s.redis.blocked && t.log.wiped == s.log.wiped && t.log.late == s.log.late && t.ids.job == s.ids.job &&
      (if e.Register? then t.ids.uin == s.ids.uin + 1 && t.db.users.Keys == s.db.users.Keys + {s.ids.uin}
       else t.ids.uin == s.ids.uin && t.db.users.Keys == s.db.users.Keys)
  {
  }

  lemma SessionSettles(s: Auth, e: Event)
    requires WipeInv(s)
    ensures IdsOk(SessionNext(s, e)) && Bracketed(SessionNext(s, e)) && Settled(s, SessionNext(s, e))
    ensures SessionNext(s, e).procs == s.procs
  {
    var t := SessionNext(s, e);
    SessionFrame(s, e);
    assert forall u :: u in t.db.users <==> u in t.db.users.Keys;
    assert forall u :: u in s.db.users <==> u in s.db.users.Keys;
  }

  lemma CommitSettles(s: Auth, r: RequestId, began: Time, replied: bool)
    requires WipeInv(s) && r in s.procs.wipes && s.procs.wipes[r].uin in s.db.users
    ensures
      var t := WipeCommitNext(s, r, began, replied);
      IdsOk(t) && Bracketed(t) && Settled(s, t) && t.procs.runs == s.procs.runs
  {
  }

  lemma WipeSettles(s: Auth, e: Event)
    requires WipeInv(s)
    ensures IdsOk(WipeNext(s, e)) && Bracketed(WipeNext(s, e)) && Settled(s, WipeNext(s, e))
    ensures WipeNext(s, e).procs.runs == s.procs.runs
  {
    if Commits(s, e) { CommitSettles(s, e.r, e.began, e.replied); }
  }

  /** A worker step changes at most the worker's own run. */
  lemma OthersRun(s: Auth, t: Auth, w: WorkerId)
    requires RunsOk(s) && Settled(s, t)
    requires t.procs.runs - {w} == s.procs.runs - {w}
    requires w in t.procs.runs ==> RunOk(t, t.procs.runs[w])
    ensures RunsOk(t)
  {
    forall v | v in t.procs.runs && v != w ensures RunOk(t, t.procs.runs[v]) {
      assert v in t.procs.runs - {w} && v in s.procs.runs - {w} && t.procs.runs[v] == s.procs.runs[v];
      RunKept(s, t, s.procs.runs[v]);
    }
  }

  lemma ClaimKeeps(s: Auth, w: WorkerId, j: JobId, lease: Time)
    requires WipeInv(s) && w !in s.procs.runs && j in s.db.jobs
    ensures WipeInv(ClaimNext(s, w, j, lease)) && Settled(s, ClaimNext(s, w, j, lease))
  {
    OthersRun(s, ClaimNext(s, w, j, lease), w);
  }

  lemma RenewKeeps(s: Auth, j: JobId, job: Job)
    requires WipeInv(s) && j in s.db.jobs && job.uin == s.db.jobs[j].uin
    ensures WipeInv(PutJob(s, j, job)) && Settled(s, PutJob(s, j, job))
  {
    var t := PutJob(s, j, job);
    forall w | w in t.procs.runs ensures RunOk(t, t.procs.runs[w]) { RunKept(s, t, s.procs.runs[w]); }
  }

  lemma EndKeeps(s: Auth, w: WorkerId)
    requires WipeInv(s)
    ensures WipeInv(EndRun(s, w)) && Settled(s, EndRun(s, w))
  {
    OthersRun(s, EndRun(s, w), w);
  }

  lemma PhaseKeeps(s: Auth, w: WorkerId, ok: bool)
    requires WipeInv(s) && w in s.procs.runs && s.procs.runs[w].stage.Cleaning?
    requires s.procs.runs[w].stage.next < s.config.stores
    ensures WipeInv(PhaseNext(s, w, ok)) && Settled(s, PhaseNext(s, w, ok))
  {
    var t := PhaseNext(s, w, ok);
    OthersRun(s, t, w) by {
      assert RunOk(s, s.procs.runs[w]);
    }
  }

  lemma EraseKeeps(s: Auth, w: WorkerId)
    requires WipeInv(s) && w in s.procs.runs && s.procs.runs[w].stage == Cleaning(s.config.stores, false)
    ensures WipeInv(EraseNext(s, w)) && Settled(s, EraseNext(s, w))
  {
    assert RunOk(s, s.procs.runs[w]);
    OthersRun(s, EraseNext(s, w), w);
  }

  lemma DeleteKeyKeeps(s: Auth, w: WorkerId)
    requires WipeInv(s) && w in s.procs.runs && s.procs.runs[w].stage == Unblocking
    ensures WipeInv(DeleteKeyNext(s, w)) && Settled(s, DeleteKeyNext(s, w))
  {
    assert RunOk(s, s.procs.runs[w]);
    OthersRun(s, DeleteKeyNext(s, w), w);
  }

  lemma DeleteJobKeeps(s: Auth, w: WorkerId)
    requires WipeInv(s) && w in s.procs.runs && s.procs.runs[w].stage == DeletingJob
    ensures WipeInv(DeleteJobNext(s, w)) && Settled(s, DeleteJobNext(s, w))
  {
    assert RunOk(s, s.procs.runs[w]);
    OthersRun(s, DeleteJobNext(s, w), w);
  }

  lemma RescheduledKeeps(s: Auth, w: WorkerId, at: Time)
    requires WipeInv(s) && w in s.procs.runs
    ensures WipeInv(Rescheduled(s, w, at)) && Settled(s, Rescheduled(s, w, at))
  {
    if Named(s, w) {
      var run := s.procs.runs[w];
      var job := s.db.jobs[run.job];
      RenewKeeps(s, run.job, Job(job.uin, Retrying, job.retries + 1, at + Backoff(run.retries), None, None));
    }
  }

  lemma RetryKeeps(s: Auth, w: WorkerId, at: Time)
    requires WipeInv(s) && w in s.procs.runs
    ensures WipeInv(RetryNext(s, w, at)) && Settled(s, RetryNext(s, w, at))
  {
    RescheduledKeeps(s, w, at);
    EndKeeps(Rescheduled(s, w, at), w);
  }

  lemma ClaimEventKeeps(s: Auth, e: Event)
    requires WipeInv(s) && (e.Claim? || e.Renew?)
    ensures WipeInv(WorkerNext(s, e)) && Settled(s, WorkerNext(s, e))
  {
    match e
    case Claim(w, j, now, lease) => if w !in s.procs.runs && j in s.db.jobs { ClaimKeeps(s, w, j, lease); }
    case Renew(w, now, lease) =>
      if Renewable(s, w, now) {
        RenewKeeps(s, s.procs.runs[w].job, s.db.jobs[s.procs.runs[w].job].(lease := Some(lease)));
      }
  }

  lemma EndEventKeeps(s: Auth, e: Event)
    requires WipeInv(s) && (e.Retry? || e.Stop?)
    ensures WipeInv(WorkerNext(s, e)) && Settled(s, WorkerNext(s, e))
  {
    match e
    case Retry(w, at) => if w in s.procs.runs { RetryKeeps(s, w, at); }
    case Stop(w) => EndKeeps(s, w);
  }

  lemma UserEventKeeps(s: Auth, e: Event)
    requires WipeInv(s) && (e.Phase? || e.Erase?)
    ensures WipeInv(WorkerNext(s, e)) && Settled(s, WorkerNext(s, e))
  {
    var w := e.w;
    if w in s.procs.runs && s.procs.runs[w].stage.Cleaning? {
      if e.Phase? && s.procs.runs[w].stage.next < s.config.stores { PhaseKeeps(s, w, e.ok); }
      if e.Erase? && Erasable(s, w) { EraseKeeps(s, w); }
    }
  }

  lemma DeleteEventKeeps(s: Auth, e: Event)
    requires WipeInv(s) && (e.DeleteKey? || e.DeleteJob?)
    ensures WipeInv(WorkerNext(s, e)) && Settled(s, WorkerNext(s, e))
  {
    var w := e.w;
    if w in s.procs.runs {
      if e.DeleteKey? && s.procs.runs[w].stage == Unblocking { DeleteKeyKeeps(s, w); }
      if e.DeleteJob? && s.procs.runs[w].stage == DeletingJob { DeleteJobKeeps(s, w); }
    }
  }

  lemma WorkerKeeps(s: Auth, e: Event)
    requires WipeInv(s)
    ensures WipeInv(WorkerNext(s, e)) && Settled(s, WorkerNext(s, e))
  {
    if e.Claim? || e.Renew? {
      ClaimEventKeeps(s, e);
    } else if e.Retry? || e.Stop? {
      EndEventKeeps(s, e);
    } else if e.Phase? || e.Erase? {
      UserEventKeeps(s, e);
    } else if e.DeleteKey? || e.DeleteJob? {
      DeleteEventKeeps(s, e);
    }
  }

  lemma StepKeeps(s: Auth, e: Event)
    requires WipeInv(s)
    ensures WipeInv(Next(s, e)) && Settled(s, Next(s, e))
  {
    var t := Next(s, e);
    if t == WorkerNext(s, e) {
      WorkerKeeps(s, e);
    } else {
      SessionSettles(s, e);
      WipeSettles(s, e);
      assert IdsOk(t) && Bracketed(t) && Settled(s, t) && t.procs.runs == s.procs.runs;
      forall w | w in t.procs.runs ensures RunOk(t, t.procs.runs[w]) { RunKept(s, t, s.procs.runs[w]); }
    }
  }

  lemma {:induction false} RunKeeps(s: Auth, events: seq<Event>)
    requires WipeInv(s)
    ensures WipeInv(Run(s, events)) && Settled(s, Run(s, events))
    decreases |events|
  {
    if events != [] {
      StepKeeps(s, events[0]);
      RunKeeps(Next(s, events[0]), events[1..]);
      SettledTwice(s, Next(s, events[0]), Run(s, events));
    }
  }

  lemma ReachableKeeps(s: Auth)
    requires Reachable(s)
    ensures WipeInv(s)
  {
    var config, events :| s == Run(Initial(config), events);
    RunKeeps(Initial(config), events);
  }

  /** A marker exists exactly while the user row and some wipe job of the account exist. */
  lemma MarkerBracketsWipe(s: Auth, u: Uin)
    requires Reachable(s)
    ensures u in s.db.markers <==> u in s.db.users && exists j :: j in s.db.jobs && s.db.jobs[j].uin == u
  {
    ReachableKeeps(s);
  }

  /** From the commit of a wipe on, in every later state, the account is closed; a deleted user row stays deleted. */
  lemma WipedStaysClosed(s: Auth, events: seq<Event>, u: Uin)
    requires Reachable(s) && u in s.log.wiped
    ensures u in Run(s, events).log.wiped && !Open(Run(s, events).db, u)
    ensures u !in s.db.users ==> u !in Run(s, events).db.users && u !in Run(s, events).db.markers
  {
    ReachableKeeps(s);
    RunKeeps(s, events);
  }

  /** A job row disappears only through the delete of the worker it names, in a run that before that confirmed every
      cleanup phase, then the deletion of the user row, then the deletion of the key. */
  lemma JobDeletedLast(s: Auth, e: Event, j: JobId)
    requires Reachable(s) && j in s.db.jobs && j !in Next(s, e).db.jobs
    ensures e.DeleteJob? && Named(s, e.w) && s.procs.runs[e.w].job == j && s.procs.runs[e.w].uin == s.db.jobs[j].uin
    ensures FullTrail(s.procs.runs[e.w].trail, s.config.stores) && TrailInTraffic(s.procs.runs[e.w], s.log.traffic)
    ensures
      var u := s.db.jobs[j].uin;
      u !in s.db.users && u !in s.db.markers && (s.config.redis && u in s.redis.blocked ==> u in s.log.late)
  {
    ReachableKeeps(s);
    OnlyDeleteRemoves(s, e, j);
    assert RunOk(s, s.procs.runs[e.w]);
  }

  lemma OnlyDeleteRemoves(s: Auth, e: Event, j: JobId)
    requires j in s.db.jobs && j !in Next(s, e).db.jobs
    ensures e.DeleteJob? && Named(s, e.w) && s.procs.runs[e.w].job == j && s.procs.runs[e.w].stage == DeletingJob
  {
    SessionFrame(s, e);
  }

  predicate WorkerEvent(e: Event) {
    e.Claim? || e.Renew? || e.Phase? || e.Erase? || e.DeleteKey? || e.DeleteJob? || e.Retry? || e.Stop?
  }

  /** While the user row of a wiped account exists, no worker removes its key; the key goes early exactly when it
      expires or when the recovery of a wipe request for the account removes it: of another request, or of the committed
      one itself if the reply to its commit was lost. */
  lemma KeyGoesEarlyExactlyWhen(s: Auth, e: Event, u: Uin)
    requires Reachable(s) && u in s.log.wiped && u in s.db.users && u in s.redis.blocked
    ensures u !in Next(s, e).redis.blocked <==>
            e == KeyExpires(u) || (e.WipeAbort? && e.removed && e.r in s.procs.wipes && s.procs.wipes[e.r].uin == u)
    ensures WorkerEvent(e) ==> u in Next(s, e).redis.blocked
  {
    ReachableKeeps(s);
    SessionFrame(s, e);
    if WorkerEvent(e) { WorkerKeepsKey(s, e, u); }
  }

  lemma WorkerKeepsKey(s: Auth, e: Event, u: Uin)
    requires WipeInv(s) && u in s.db.users && u in s.redis.blocked && WorkerEvent(e)
    ensures u in WorkerNext(s, e).redis.blocked
  {
    if e.w in s.procs.runs { assert RunOk(s, s.procs.runs[e.w]); }
  }
}
