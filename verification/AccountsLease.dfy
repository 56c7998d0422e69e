/**
 Leases of wipe jobs: who may change a job row, when it can be claimed again, how long a retry waits,
 and that from every reachable state every job can still be completed.
 */
module AccountsLease {
  import opened Options
  import opened Accounts
  import opened AccountsWipe
  import opened AccountsRecords
  import opened AccountsSessions

  // Delays, in 64-bit arithmetic

  const MAX_INT64: int := 0x7FFF_FFFF_FFFF_FFFF
  const MAX_SAFE_SHIFT := 62

  type int64 = x: int | -0x8000_0000_0000_0000 <= x <= 0x7FFF_FFFF_FFFF_FFFF

  function Wrap64(x: int): int64 {
    var m := x % 0x1_0000_0000_0000_0000;
    if m <= MAX_INT64 then m else m - 0x1_0000_0000_0000_0000
  }

  /** saturatedBackoff */
  function SaturatedBackoff(base: int64, retryCount: int64, maxBackoff: int64): int64
    requires base > 0
  {
    var n := if retryCount < 0 then 0 else retryCount;
    if n >= MAX_SAFE_SHIFT then maxBackoff
    else Capped(base, Wrap64(Pow2(n)), maxBackoff)
  }

  function Capped(base: int64, shifted: int64, maxBackoff: int64): int64
    requires base > 0
  {
    if shifted > MAX_INT64 / base then maxBackoff
    else
      var backoff := Wrap64(base * shifted);
      if backoff > maxBackoff then maxBackoff else backoff
  }

  lemma {:induction false} Pow2Grows(m: nat, n: nat)
    requires m <= n
    ensures 1 <= Pow2(m) <= Pow2(n)
    decreases n
  {
    if m < n { Pow2Grows(m, n - 1); } else if 0 < m { Pow2Grows(m - 1, m - 1); }
  }

  lemma {:induction false} Pow2Sum(m: nat, n: nat)
    ensures Pow2(m + n) == Pow2(m) * Pow2(n)
    decreases m
  {
    if 0 < m { Pow2Sum(m - 1, n); }
  }

  lemma Pow2At62()
    ensures Pow2(62) == 0x4000_0000_0000_0000
  {
    Pow2Sum(1, 1);
    Pow2Sum(2, 2);
    Pow2Sum(4, 4);
    Pow2Sum(8, 8);
    Pow2Sum(16, 16);
    Pow2Sum(2, 4);
    Pow2Sum(6, 8);
    Pow2Sum(14, 16);
    Pow2Sum(30, 32);
  }

  lemma QuotientBound(shifted: nat, base: nat, limit: nat)
    requires base > 0
    ensures shifted > limit / base <==> shifted * base > limit
  {
    var q, r := limit / base, limit % base;
    assert limit == q * base + r;
    if shifted > q { assert shifted * base >= (q + 1) * base; } else { assert shifted * base <= q * base; }
  }

  lemma LargeShift(base: nat, n: nat)
    requires base > 0 && n >= 62
    ensures base * Pow2(n) >= Pow2(62)
    ensures base > 1 || n > 62 ==> base * Pow2(n) > MAX_INT64
  {
    Pow2At62();
    Pow2Grows(62, n);
    assert base * Pow2(n) >= Pow2(n) by { assert (base - 1) * Pow2(n) >= 0; }
    if n > 62 {
      Pow2Grows(63, n);
      assert Pow2(63) == 2 * Pow2(62);
    } else if base > 1 {
      assert base * Pow2(62) >= 2 * Pow2(62);
    }
  }

  lemma WrapIdentity(x: int)
    requires 0 <= x <= MAX_INT64
    ensures Wrap64(x) == x
  {
  }

  /** Below the shift bound nothing overflows that the guard does not catch. */
  lemma SmallShift(base: int64, n: nat, maxBackoff: int64)
    requires base > 0 && n < 62
    ensures SaturatedBackoff(base, n, maxBackoff) == (if base * Pow2(n) < maxBackoff then base * Pow2(n) else maxBackoff)
  {
    Pow2At62();
    Pow2Grows(n, 62);
    WrapIdentity(Pow2(n));
    CappedProduct(base, Pow2(n), maxBackoff);
  }

  lemma CappedProduct(base: int64, shifted: int64, maxBackoff: int64)
    requires base > 0 && shifted > 0
    ensures Capped(base, shifted, maxBackoff) == (if base * shifted < maxBackoff then base * shifted else maxBackoff)
  {
    QuotientBound(shifted, base, MAX_INT64);
    assert base * shifted >= 0;
    if base * shifted <= MAX_INT64 { WrapIdentity(base * shifted); }
  }

  /** The delay is min(base * 2^n, max) for every base, count and cap but one: base 1, count 62, cap above 2^62. */
  lemma BackoffIsCappedPower(base: int64, retryCount: int64, maxBackoff: int64)
    requires base > 0
    ensures
      var n := if retryCount < 0 then 0 else retryCount;
      var power := base * Pow2(n);
      SaturatedBackoff(base, retryCount, maxBackoff) == (if power < maxBackoff then power else maxBackoff) <==>
      !(base == 1 && n == 62 && maxBackoff > 0x4000_0000_0000_0000)
  {
    var n: nat := if retryCount < 0 then 0 else retryCount;
    if n >= MAX_SAFE_SHIFT {
      Pow2At62();
      LargeShift(base, n);
    } else {
      SmallShift(base, n, maxBackoff);
      assert SaturatedBackoff(base, retryCount, maxBackoff) == SaturatedBackoff(base, n, maxBackoff);
    }
  }

  /** With the configured constants, in nanoseconds, the delay is the machine's delay. */
  lemma ConfiguredBackoff(retryCount: nat)
    requires retryCount <= MAX_INT64
    ensures SaturatedBackoff(10_000_000_000, retryCount, 600_000_000_000) == 1000 * Backoff(retryCount)
  {
    BackoffIsCappedPower(10_000_000_000, retryCount, 600_000_000_000);
  }

  // Leases

  /** Only a processing job has a lease and a worker; a run that its row names knows the row's retry count. */
  ghost predicate JobsOk(s: Auth) {
    (forall j :: j in s.db.jobs ==>
       (if s.db.jobs[j].status == Processing then s.db.jobs[j].lease.Some? && s.db.jobs[j].worker.Some?
        else s.db.jobs[j].lease == None && s.db.jobs[j].worker == None)) &&
    (forall w :: Named(s, w) ==> s.db.jobs[s.procs.runs[w].job].retries == s.procs.runs[w].retries)
  }

  /** Every run of t is a run of s with the same claim. */
  ghost predicate SameClaims(s: Auth, t: Auth) {
    forall w :: w in t.procs.runs ==>
      w in s.procs.runs && t.procs.runs[w].job == s.procs.runs[w].job && t.procs.runs[w].retries == s.procs.runs[w].retries
  }

  lemma SameJobs(s: Auth, t: Auth)
    requires JobsOk(s) && t.db.jobs == s.db.jobs
    requires SameClaims(s, t)
    ensures JobsOk(t)
  {
    forall w | Named(t, w) ensures t.db.jobs[t.procs.runs[w].job].retries == t.procs.runs[w].retries {
      assert Named(s, w);
    }
  }

  lemma ClaimJobs(s: Auth, w: WorkerId, j: JobId, lease: Time)
    requires JobsOk(s) && j in s.db.jobs && w !in s.procs.runs
    ensures JobsOk(ClaimNext(s, w, j, lease))
  {
    var t := ClaimNext(s, w, j, lease);
    forall v | Named(t, v) ensures t.db.jobs[t.procs.runs[v].job].retries == t.procs.runs[v].retries {
      if v != w { assert Named(s, v); }
    }
  }

  lemma RenewJobs(s: Auth, w: WorkerId, lease: Time)
    requires JobsOk(s) && Named(s, w)
    ensures JobsOk(PutJob(s, s.procs.runs[w].job, s.db.jobs[s.procs.runs[w].job].(lease := Some(lease))))
  {
    var t := PutJob(s, s.procs.runs[w].job, s.db.jobs[s.procs.runs[w].job].(lease := Some(lease)));
    forall v | Named(t, v) ensures t.db.jobs[t.procs.runs[v].job].retries == t.procs.runs[v].retries {
      assert Named(s, v);
    }
  }

  lemma RescheduleJobs(s: Auth, w: WorkerId, at: Time)
    requires JobsOk(s) && w in s.procs.runs
    ensures JobsOk(Rescheduled(s, w, at))
  {
    var t := Rescheduled(s, w, at);
    forall v | Named(t, v) ensures t.db.jobs[t.procs.runs[v].job].retries == t.procs.runs[v].retries {
      assert Named(s, v);
    }
  }

  lemma CommitJobs(s: Auth, r: RequestId, began: Time, replied: bool)
    requires WipeInv(s) && JobsOk(s) && r in s.procs.wipes && s.procs.wipes[r].uin in s.db.users
    ensures JobsOk(WipeCommitNext(s, r, began, replied))
  {
    var t := WipeCommitNext(s, r, began, replied);
    forall v | Named(t, v) ensures t.db.jobs[t.procs.runs[v].job].retries == t.procs.runs[v].retries {
      assert Named(s, v);
    }
  }

  lemma DeleteJobs(s: Auth, w: WorkerId)
    requires JobsOk(s) && w in s.procs.runs
    ensures JobsOk(DeleteJobNext(s, w))
  {
    var t := DeleteJobNext(s, w);
    forall v | Named(t, v) ensures t.db.jobs[t.procs.runs[v].job].retries == t.procs.runs[v].retries {
      assert Named(s, v);
    }
  }

  predicate ChangesJobs(e: Event) { e.Claim? || e.Renew? || e.Retry? || e.DeleteJob? || e.WipeCommit? }

  lemma OtherEvents(s: Auth, e: Event)
    requires !ChangesJobs(e)
    ensures Next(s, e).db.jobs == s.db.jobs && SameClaims(s, Next(s, e))
  {
    SessionFrame(s, e);
  }

  lemma JobEvents(s: Auth, e: Event)
    requires WipeInv(s) && JobsOk(s) && ChangesJobs(e)
    ensures JobsOk(Next(s, e))
  {
    if e.WipeCommit? {
      if Commits(s, e) { CommitJobs(s, e.r, e.began, e.replied); }
    } else if e.Claim? || e.Renew? {
      HoldJobs(s, e);
    } else {
      EndJobs(s, e);
    }
  }

  lemma HoldJobs(s: Auth, e: Event)
    requires JobsOk(s) && (e.Claim? || e.Renew?)
    ensures JobsOk(WorkerNext(s, e))
  {
    match e
    case Claim(w, j, now, lease) => if w !in s.procs.runs && j in s.db.jobs { ClaimJobs(s, w, j, lease); }
    case Renew(w, now, lease) => if Named(s, w) { RenewJobs(s, w, lease); }
  }

  lemma EndJobs(s: Auth, e: Event)
    requires JobsOk(s) && (e.Retry? || e.DeleteJob?)
    ensures JobsOk(WorkerNext(s, e))
  {
    if e.w in s.procs.runs {
      if e.Retry? { RetryJobs(s, e.w, e.at); } else { DeleteJobs(s, e.w); }
    }
  }

  lemma RetryJobs(s: Auth, w: WorkerId, at: Time)
    requires JobsOk(s) && w in s.procs.runs
    ensures JobsOk(RetryNext(s, w, at))
  {
    RescheduleJobs(s, w, at);
    SameJobs(Rescheduled(s, w, at), RetryNext(s, w, at));
  }

  lemma StepJobs(s: Auth, e: Event)
    requires WipeInv(s) && JobsOk(s)
    ensures JobsOk(Next(s, e))
  {
    if ChangesJobs(e) {
      JobEvents(s, e);
    } else {
      OtherEvents(s, e);
      SameJobs(s, Next(s, e));
    }
  }

  lemma {:induction false} RunJobs(s: Auth, events: seq<Event>)
    requires WipeInv(s) && JobsOk(s)
    ensures JobsOk(Run(s, events))
    decreases |events|
  {
    if events != [] {
      StepJobs(s, events[0]);
      StepKeeps(s, events[0]);
      RunJobs(Next(s, events[0]), events[1..]);
    }
  }

  lemma ReachableJobs(s: Auth)
    requires Reachable(s)
    ensures WipeInv(s) && JobsOk(s)
  {
    var config, events :| s == Run(Initial(config), events);
    RunKeeps(Initial(config), events);
    RunJobs(Initial(config), events);
  }

  /** A job row changes only through a claim of a claimable job, or through a renewal, retry or delete by the worker the row
      names; a renewal needs an unexpired lease. */
  lemma JobChangesOwned(s: Auth, e: Event, j: JobId)
    requires Reachable(s) && j in s.db.jobs && (j !in Next(s, e).db.jobs || Next(s, e).db.jobs[j] != s.db.jobs[j])
    ensures (e.Claim? && e.job == j && e.now <= s.clock && Claimable(s.db.jobs[j], e.now)) ||
            ((e.Renew? || e.Retry? || e.DeleteJob?) && Named(s, e.w) && s.procs.runs[e.w].job == j)
    ensures e.Renew? ==> s.db.jobs[j].status == Processing && s.db.jobs[j].lease.Some? && e.now < s.db.jobs[j].lease.value
  {
    ReachableJobs(s);
    if !ChangesJobs(e) { OtherEvents(s, e); }
  }

  /** A worker that no job row names is named by none until it claims again, so it changes no job row till then. */
  lemma LostLeaseStaysLost(s: Auth, events: seq<Event>, w: WorkerId)
    requires Reachable(s) && !Named(s, w)
    requires forall e :: e in events ==> !(e.Claim? && e.w == w)
    ensures !Named(Run(s, events), w)
  {
    ReachableJobs(s);
    LostLeaseRun(s, events, w);
  }

  lemma {:induction false} LostLeaseRun(s: Auth, events: seq<Event>, w: WorkerId)
    requires WipeInv(s) && JobsOk(s) && !Named(s, w)
    requires forall e :: e in events ==> !(e.Claim? && e.w == w)
    ensures !Named(Run(s, events), w)
    decreases |events|
  {
    if events != [] {
      assert events[0] in events && forall e :: e in events[1..] ==> e in events;
      LostLeaseStep(s, events[0], w);
      StepJobs(s, events[0]);
      StepKeeps(s, events[0]);
      LostLeaseRun(Next(s, events[0]), events[1..], w);
    }
  }

  lemma LostLeaseStep(s: Auth, e: Event, w: WorkerId)
    requires WipeInv(s) && JobsOk(s) && !Named(s, w) && !(e.Claim? && e.w == w)
    ensures !Named(Next(s, e), w)
  {
    if w in s.procs.runs { assert RunOk(s, s.procs.runs[w]); }
    if !ChangesJobs(e) {
      OtherEvents(s, e);
    } else if e.WipeCommit? {
      LostLeaseCommit(s, e, w);
    } else {
      LostLeaseWorker(s, e, w);
    }
  }

  /** A committed wipe adds a job no worker has claimed. */
  lemma LostLeaseCommit(s: Auth, e: Event, w: WorkerId)
    requires !Named(s, w) && e.WipeCommit?
    ensures !Named(WipeNext(s, e), w)
  {
  }

  lemma LostLeaseWorker(s: Auth, e: Event, w: WorkerId)
    requires !Named(s, w) && !(e.Claim? && e.w == w) && ChangesJobs(e)
    ensures !Named(WorkerNext(s, e), w)
  {
  }

  /** The delay of a retry is min(base * 2^n, cap) for the retry count n the row had. */
  lemma RetryDelay(s: Auth, w: WorkerId, at: Time)
    requires Reachable(s) && Named(s, w)
    ensures
      var j := s.procs.runs[w].job;
      var was, power := s.db.jobs[j], BASE_WAIT * Pow2(s.db.jobs[j].retries);
      var t := Next(s, Retry(w, at));
      j in t.db.jobs &&
      t.db.jobs[j] == Job(was.uin, Retrying, was.retries + 1, at + (if power < MAX_WAIT then power else MAX_WAIT), None, None)
  {
    ReachableJobs(s);
  }

  /** From when on the job can be claimed, if nothing touches it. */
  function ClaimableFrom(job: Job): Time {
    if job.status == Processing && job.lease.Some? then job.lease.value + 1 else job.nextRetryAt
  }

  /** Every job row becomes claimable at a finite time and stays so. */
  lemma NoJobStranded(s: Auth, j: JobId, now: Time)
    requires Reachable(s) && j in s.db.jobs
    ensures Claimable(s.db.jobs[j], now) <==> ClaimableFrom(s.db.jobs[j]) <= now
  {
    ReachableJobs(s);
  }

  // Completion by the workers alone

  /** Only workers and the clock take steps. */
  predicate OnlyWorkers(events: seq<Event>) { forall e :: e in events ==> WorkerEvent(e) || e.Tick? }

  function Phases(n: nat): (events: seq<Event>)
    ensures OnlyWorkers(events)
  {
    if n == 0 then [] else [Phase(0, true)] + Phases(n - 1)
  }

  /** Worker 0 runs the job at the given stage, and nothing references the account. */
  predicate At(s: Auth, j: JobId, stage: Stage) {
    Named(s, 0) && s.procs.runs[0].job == j && s.procs.runs[0].stage == stage && !Referenced(s.db.refs, s.procs.runs[0].uin)
  }

  /** The stores below n hold no data of the account. */
  predicate CleanBelow(s: Auth, u: Uin, n: nat) { forall k :: 0 <= k < n ==> (u, k) !in s.data }

  lemma {:induction false} PhasesComplete(s: Auth, j: JobId, n: nat)
    requires n <= s.config.stores && At(s, j, Cleaning(s.config.stores - n, false))
    requires CleanBelow(s, s.procs.runs[0].uin, s.config.stores - n)
    ensures
      var t := Run(s, Phases(n));
      t.config == s.config && At(t, j, Cleaning(t.config.stores, false)) && t.procs.runs[0].uin == s.procs.runs[0].uin &&
      CleanBelow(t, s.procs.runs[0].uin, t.config.stores)
    decreases n
  {
    if 0 < n {
      var t := Next(s, Phase(0, true));
      assert Phases(n)[0] == Phase(0, true) && Phases(n)[1..] == Phases(n - 1);
      PhasesComplete(t, j, n - 1);
    }
  }

  lemma ErasureCompletes(s: Auth, j: JobId)
    requires At(s, j, Cleaning(s.config.stores, false))
    ensures
      var u := s.procs.runs[0].uin;
      var t := Next(Next(s, Erase(0)), DeleteKey(0, true));
      var end := Next(t, DeleteJob(0));
      At(t, j, DeletingJob) && j !in end.db.jobs && end.data == s.data && t.procs.runs[0].uin == u && end.config == s.config &&
      (s.config.redis ==> u !in end.redis.blocked)
  {
    var a := Next(s, Erase(0));
    assert At(a, j, Unblocking);
  }

  lemma ClaimStep(s: Auth, j: JobId)
    requires j in s.db.jobs && 0 !in s.procs.runs && !Referenced(s.db.refs, s.db.jobs[j].uin)
    requires Claimable(s.db.jobs[j], ClaimableFrom(s.db.jobs[j])) && ClaimableFrom(s.db.jobs[j]) <= s.clock
    ensures
      var t := Next(s, Claim(0, j, ClaimableFrom(s.db.jobs[j]), 0));
      t.config == s.config && At(t, j, Cleaning(0, false)) && t.procs.runs[0].uin == s.db.jobs[j].uin
  {
  }

  /** Worker 0 idle and the clock far enough on. */
  lemma Waited(s: Auth, j: JobId) returns (events: seq<Event>)
    requires j in s.db.jobs
    ensures OnlyWorkers(events)
    ensures
      var t := Run(s, events);
      t.db == s.db && t.config == s.config && 0 !in t.procs.runs && ClaimableFrom(s.db.jobs[j]) <= t.clock
  {
    var wait := Tick(ClaimableFrom(s.db.jobs[j]));
    events := [] + [Stop(0)] + [wait];
    RunSnoc(s, [], Stop(0));
    RunSnoc(s, [] + [Stop(0)], wait);
    assert Run(s, []) == s;
  }

  lemma ClaimCompletes(s: Auth, j: JobId) returns (events: seq<Event>)
    requires j in s.db.jobs && JobsOk(s) && !Referenced(s.db.refs, s.db.jobs[j].uin)
    ensures OnlyWorkers(events)
    ensures
      var t := Run(s, events);
      t.config == s.config && At(t, j, Cleaning(0, false)) && t.procs.runs[0].uin == s.db.jobs[j].uin
  {
    var wait := Waited(s, j);
    var claim := Claim(0, j, ClaimableFrom(s.db.jobs[j]), 0);
    RunSnoc(s, wait, claim);
    ClaimStep(Run(s, wait), j);
    events := wait + [claim];
  }

  /** No row of the account is left, its key is gone and no store holds its data. */
  ghost predicate Erased(s: Auth, u: Uin) {
    RowsGone(s, u) && CleanBelow(s, u, s.config.stores) && (s.config.redis ==> u !in s.redis.blocked)
  }

  lemma WorkersComplete(s: Auth, j: JobId) returns (events: seq<Event>)
    requires Reachable(s) && j in s.db.jobs && !Referenced(s.db.refs, s.db.jobs[j].uin)
    ensures OnlyWorkers(events) && j !in Run(s, events).db.jobs && Erased(Run(s, events), s.db.jobs[j].uin)
  {
    ReachableJobs(s);
    var claim := ClaimCompletes(s, j);
    var phases := Phases(s.config.stores);
    var a := Run(s, claim);
    PhasesComplete(a, j, a.config.stores);
    var b := Run(a, phases);
    ErasureCompletes(b, j);
    var last := ([Erase(0)] + [DeleteKey(0, true)]);
    RunTwo(b, Erase(0), DeleteKey(0, true));
    var d := Run(b, last);
    events := claim + phases + last + [DeleteJob(0)];
    RunAppend(s, claim, phases);
    RunAppend(s, claim + phases, last);
    RunSnoc(s, claim + phases + last, DeleteJob(0));
    FinishedLeavesNothing(s, claim + phases + last, d, j);
  }

  lemma RunTwo(s: Auth, e: Event, f: Event)
    ensures Run(s, [e] + [f]) == Next(Next(s, e), f)
  {
    RunSnoc(s, [], e);
    RunSnoc(s, [] + [e], f);
    assert [] + [e] + [f] == [e] + [f] && Run(s, []) == s;
  }

  lemma FinishedLeavesNothing(s: Auth, events: seq<Event>, d: Auth, j: JobId)
    requires Reachable(s) && j in s.db.jobs && d == Run(s, events) && j in d.db.jobs
    requires j !in Next(d, DeleteJob(0)).db.jobs
    ensures RowsGone(Next(d, DeleteJob(0)), s.db.jobs[j].uin)
  {
    ReachableKeeps(s);
    RunKeeps(s, events);
    ReachableOn(s, events);
    CompletedWipeLeavesNothing(d, DeleteJob(0), j, []);
  }

  /** Workers leave references alone. */
  lemma {:induction false} ReferencedKeepsJob(s: Auth, events: seq<Event>, j: JobId)
    requires Reachable(s) && j in s.db.jobs && OnlyWorkers(events) && Referenced(s.db.refs, s.db.jobs[j].uin)
    ensures j in Run(s, events).db.jobs
    decreases |events|
  {
    if events != [] {
      var t := Next(s, events[0]);
      assert events[0] in events && forall e :: e in events[1..] ==> e in events;
      RefsChange(s, events[0]);
      JobStays(s, events[0], j);
      ReachableNext(s, events[0]);
      ReferencedKeepsJob(t, events[1..], j);
    }
  }

  /** The job of a referenced account is not deleted. */
  lemma JobStays(s: Auth, e: Event, j: JobId)
    requires Reachable(s) && j in s.db.jobs && Referenced(s.db.refs, s.db.jobs[j].uin)
    ensures j in Next(s, e).db.jobs && Next(s, e).db.jobs[j].uin == s.db.jobs[j].uin
  {
    ReachableRecords(s);
    if j !in Next(s, e).db.jobs { JobDeletedLast(s, e, j); }
    ReachableKeeps(s);
    StepKeeps(s, e);
  }

  lemma ReachableNext(s: Auth, e: Event)
    requires Reachable(s)
    ensures Reachable(Next(s, e))
  {
    ReachableOn(s, [e]);
    RunSnoc(s, [], e);
    assert [] + [e] == [e] && Run(s, []) == s;
  }

  /** From a reachable state, whatever crashed where, the workers can complete a job on their own exactly when nothing
      references its account; the account is then erased. */
  lemma WorkersCompleteExactlyWhen(s: Auth, j: JobId)
    requires Reachable(s) && j in s.db.jobs
    ensures (exists events :: OnlyWorkers(events) && j !in Run(s, events).db.jobs) <==> !Referenced(s.db.refs, s.db.jobs[j].uin)
    ensures !Referenced(s.db.refs, s.db.jobs[j].uin) ==>
              exists events :: OnlyWorkers(events) && j !in Run(s, events).db.jobs && Erased(Run(s, events), s.db.jobs[j].uin)
  {
    if Referenced(s.db.refs, s.db.jobs[j].uin) {
      forall events | OnlyWorkers(events) ensures j in Run(s, events).db.jobs { ReferencedKeepsJob(s, events, j); }
    } else {
      var events := WorkersComplete(s, j);
    }
  }
}
