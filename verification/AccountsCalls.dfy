/**
 Whole calls of the auth service against tables that other processes keep changing: PanicWipe with its
 recovery, one processOneJob with its phase and key-deletion loops, and one refresh request. What other
 processes do between two statements, and which statements fail, are arguments of the call.
 */
module AccountsCalls {
  import opened Options
  import opened Accounts
  import opened AccountsWipe
  import opened AccountsRecords
  import opened AccountsSessions
  import opened AccountsLease
  import opened AccountsEffects

  /** Events of other processes: none runs this worker or this wipe request. */
  predicate Foreign(events: seq<Event>, w: Option<WorkerId>, r: Option<RequestId>) {
    forall e :: e in events ==>
      (WorkerEvent(e) ==> Some(e.w) != w) && (e.WipeStart? || e.WipeCommit? || e.WipeAbort? ==> Some(e.r) != r)
  }

  predicate AllForeign(schedule: seq<seq<Event>>, w: Option<WorkerId>, r: Option<RequestId>) {
    forall i :: 0 <= i < |schedule| ==> Foreign(schedule[i], w, r)
  }

  /** What runs before the i-th own statement. */
  function Before(schedule: seq<seq<Event>>, i: nat): seq<Event> { if i < |schedule| then schedule[i] else [] }

  /** Outcomes are given for the statements that have one; the others succeed. */
  function Succeeds(outcomes: seq<bool>, i: nat): bool { i < |outcomes| ==> outcomes[i] }

  predicate SameRun(s: Auth, t: Auth, w: Option<WorkerId>) {
    w.Some? ==> (w.value in s.procs.runs <==> w.value in t.procs.runs) &&
                (w.value in s.procs.runs ==> t.procs.runs[w.value] == s.procs.runs[w.value])
  }

  predicate SameRequest(s: Auth, t: Auth, r: Option<RequestId>) {
    r.Some? ==> (r.value in s.procs.wipes <==> r.value in t.procs.wipes) &&
                (r.value in s.procs.wipes ==> t.procs.wipes[r.value] == s.procs.wipes[r.value])
  }

  /** The worker still runs the job it claimed. */
  predicate SameClaim(s: Auth, t: Auth, w: WorkerId) {
    w in s.procs.runs && w in t.procs.runs && t.procs.runs[w].job == s.procs.runs[w].job && t.procs.runs[w].uin == s.procs.runs[w].uin &&
    t.procs.runs[w].since == s.procs.runs[w].since && t.procs.runs[w].retries == s.procs.runs[w].retries
  }

  lemma ForeignStep(s: Auth, e: Event, w: Option<WorkerId>, r: Option<RequestId>)
    requires Foreign([e], w, r)
    ensures SameRun(s, Next(s, e), w) && SameRequest(s, Next(s, e), r)
    ensures Next(s, e).config == s.config && s.clock <= Next(s, e).clock
  {
    var own := [e][0];
    SessionFrame(s, e);
    if e.Retry? && e.w in s.procs.runs { RetryKeepsProcs(s, e.w, e.at); }
  }

  lemma RetryKeepsProcs(s: Auth, w: WorkerId, at: Time)
    requires w in s.procs.runs
    ensures
      var t := RetryNext(s, w, at);
      t.procs == s.procs.(runs := s.procs.runs - {w}) && t.config == s.config && t.clock == s.clock
  {
  }

  lemma {:induction false} ForeignKeeps(s: Auth, events: seq<Event>, w: Option<WorkerId>, r: Option<RequestId>)
    requires Foreign(events, w, r)
    ensures SameRun(s, Run(s, events), w) && SameRequest(s, Run(s, events), r)
    ensures Run(s, events).config == s.config && s.clock <= Run(s, events).clock
    decreases |events|
  {
    if events != [] {
      assert events[0] in events && forall e :: e in events[1..] ==> e in events;
      ForeignStep(s, events[0], w, r);
      ForeignKeeps(Next(s, events[0]), events[1..], w, r);
    }
  }

  /** The events hold no commit of the request. */
  predicate NoCommit(events: seq<Event>, r: RequestId) { forall e :: e in events ==> !(e.WipeCommit? && e.r == r) }

  datatype WipeResult = Wiped(job: JobId) | WipeFailed

  /** Where a wipe request fails, if it does; a commit may apply although its reply is lost. */
  datatype WipeFailure = SettingKey | BeforeTransaction | InTransaction | CommitReplyLost | NoFailure

  /** A transaction is applied and its reply arrives, is refused or rolled back, or is applied while its reply is lost. */
  datatype Reply = Replied | RolledBack | ReplyLost

  datatype JobResult = NothingClaimed | Rescheduled | ShutDown | Completed | TakenOver

  /** The failures of one processOneJob call: the phase before which the lease is found lost, the outcomes of the phases,
      of the final transaction, of the key deletions and of the job deletion, and whether the service is shutting down. */
  datatype Script = Script(leaseLost: Option<nat>, phases: seq<bool>, erase: Reply, keys: seq<bool>, remove: Reply, shutdown: bool)

  const MAX_BLOCKLIST_RETRIES := 5

  /** The lease is found lost before one of the phases or before the final transaction. */
  predicate LosesLease(script: Script, stores: nat) { script.leaseLost.Some? && script.leaseLost.value <= stores }

  /** One of the five attempts to delete the key goes through; without Redis there is no key. */
  predicate KeyGoes(script: Script, redis: bool) { !redis || exists i :: 0 <= i < 5 && Succeeds(script.keys, i) }

  /** The run gets to its final transaction, and that is not rolled back. */
  predicate Reaches(script: Script, stores: nat) {
    !LosesLease(script, stores) && (forall k :: 0 <= k < stores ==> Succeeds(script.phases, k)) && script.erase != RolledBack
  }

  /** The worker's row still names it and is as the worker read it. */
  predicate Holds(s: Auth, w: WorkerId) {
    Named(s, w) &&
    var run := s.procs.runs[w];
    s.db.jobs[run.job].uin == run.uin && s.db.jobs[run.job].retries == run.retries
  }

  /** The job is put off: its row waits for the delay of its retry count and belongs to nobody. */
  predicate PutOff(jobs: map<JobId, Job>, j: JobId, was: Job, at: Time) {
    j in jobs && jobs[j] == Job(was.uin, Retrying, was.retries + 1, at + Backoff(was.retries), None, None)
  }

  /** How the end of an undisturbed run turns out, its cleanup confirmed and its final transaction not rolled back. */
  ghost predicate FinishesAs(s: Auth, t: Auth, w: WorkerId, script: Script, result: JobResult)
    requires Named(s, w)
  {
    var run := s.procs.runs[w];
    var was, erases := s.db.jobs[run.job], !Referenced(s.db.refs, run.uin);
    var removes := erases && script.erase == Replied && KeyGoes(script, s.config.redis) && script.remove != RolledBack;
    (result == Completed <==> removes && script.remove == Replied) && (result == Rescheduled <==> result != Completed) &&
    t.db.users == (if erases then s.db.users - {run.uin} else s.db.users) &&
    t.db.jobs == if removes then s.db.jobs - {run.job}
                 else s.db.jobs[run.job := Job(was.uin, Retrying, was.retries + 1, s.clock + Backoff(run.retries), None, None)]
  }

  /** What an undisturbed run for a due job comes to. It completes exactly if every statement goes through and nothing references
      the account; it is rescheduled otherwise, unless the service shuts down once the lease is lost. The user row goes whenever
      the final transaction does, and the job row goes with completion only, or with a deletion that is not answered. */
  ghost predicate EndsAs(s: Auth, t: Auth, j: JobId, script: Script, result: JobResult)
    requires j in s.db.jobs
  {
    var was := s.db.jobs[j];
    var erases := Reaches(script, s.config.stores) && !Referenced(s.db.refs, was.uin);
    var removes := erases && script.erase == Replied && KeyGoes(script, s.config.redis) && script.remove != RolledBack;
    (result == Completed <==> removes && script.remove == Replied) &&
    (result == ShutDown <==> LosesLease(script, s.config.stores) && script.shutdown) &&
    (result == Rescheduled <==> result != Completed && result != ShutDown) &&
    (was.uin in t.db.users <==> was.uin in s.db.users && !erases) && (j in t.db.jobs <==> !removes) &&
    (result == Rescheduled && !removes ==> PutOff(t.db.jobs, j, was, s.clock))
  }

  /** The phases below n that do not confirm deletion, in order. */
  function FailedPhases(outcomes: seq<bool>, n: nat): seq<nat> {
    if n == 0 then [] else FailedPhases(outcomes, n - 1) + if Succeeds(outcomes, n - 1) then [] else [n - 1]
  }

  lemma {:induction false} NoFailedPhases(outcomes: seq<bool>, n: nat)
    ensures FailedPhases(outcomes, n) == [] <==> forall k :: 0 <= k < n ==> Succeeds(outcomes, k)
  {
    if 0 < n { NoFailedPhases(outcomes, n - 1); }
  }

  /** Whatever data of the account the stores hold was written after the given point of the traffic. */
  ghost predicate DataIsLater(s: Auth, u: Uin, since: nat) {
    forall k :: 0 <= k < s.config.stores && (u, k) in s.data ==>
      exists i :: since <= i < |s.log.traffic| && s.log.traffic[i] == Stored(u, k)
  }

  lemma FinishIsEnd(s: Auth, t: Auth, w: WorkerId, script: Script, result: JobResult)
    requires Holds(s, w) && Reaches(script, s.config.stores) && FinishesAs(s, t, w, script, result)
    ensures EndsAs(s, t, s.procs.runs[w].job, script, result)
  {
  }

  lemma CompletionLeavesNothing(s: Auth, trace: seq<Event>, w: WorkerId)
    requires Reachable(s)
    requires var t := Run(s, trace); Named(t, w) && t.procs.runs[w].stage == DeletingJob
    ensures
      var t := Run(s, trace);
      var after, run := Next(t, DeleteJob(w)), t.procs.runs[w];
      run.job !in after.db.jobs && RowsGone(after, run.uin) && DataIsLater(after, run.uin, run.since)
  {
    var t := Run(s, trace);
    var after, run := Next(t, DeleteJob(w)), t.procs.runs[w];
    ReachableOn(s, trace);
    ReachableKeeps(t);
    assert RunOk(t, run);
    CompletedWipeLeavesNothing(t, DeleteJob(w), run.job, []);
    forall k | 0 <= k < after.config.stores && (run.uin, k) in after.data
      ensures exists i :: run.since <= i < |after.log.traffic| && after.log.traffic[i] == Stored(run.uin, k)
    {
      StoredDataExactlyWhen(t, DeleteJob(w), run.job, [], k);
      assert run.trail[k].Cleaned?;
    }
  }

  /** Data written after the beginning of a run was written by an event of the run. */
  lemma LaterDataInTrace(s: Auth, trace: seq<Event>, u: Uin, since: nat)
    requires DataIsLater(Run(s, trace), u, since) && |s.log.traffic| <= since
    ensures forall k :: 0 <= k < Run(s, trace).config.stores && (u, k) in Run(s, trace).data ==> StoreData(u, k) in trace
  {
    var t := Run(s, trace);
    forall k | 0 <= k < t.config.stores && (u, k) in t.data ensures StoreData(u, k) in trace {
      var i :| since <= i < |t.log.traffic| && t.log.traffic[i] == Stored(u, k);
      StoredInRun(s, trace, i, u, k);
    }
  }

  lemma IssuedKept(s: Auth, events: seq<Event>, jti: Jti)
    requires jti < |s.log.issued|
    ensures jti < |Run(s, events).log.issued| && Run(s, events).log.issued[jti] == s.log.issued[jti]
  {
    IssuedGrows(s, events);
  }

  /** A verification that passed did not start after a wipe of its account. */
  lemma PassedMeansOpen(s: Auth, schedule: seq<seq<Event>>, jti: Jti, at: Time)
    requires Reachable(s) && jti < |s.log.issued|
    requires
      var s1 := Run(s, Before(schedule, 0));
      var s2 := Run(s1, Before(schedule, 1));
      var token := s.log.issued[jti].token;
      PassesClaims(token, Refresh, at) && PassesMarker(s1, token) && PassesBlocklist(s2, jti) &&
      PassesEpoch(Run(s2, Before(schedule, 2)), token)
    ensures s.log.issued[jti].token.uin !in s.log.wiped
  {
    IssuedKept(s, Before(schedule, 0), jti);
    if s.log.issued[jti].token.uin in s.log.wiped {
      NoTokenVerifiesAfterWipe(s, Before(schedule, 0), Before(schedule, 1), Before(schedule, 2), jti, Refresh, at);
    }
  }

  /** The row of the presented token gives way to the row of a new refresh token of the same account; nothing else changes. */
  ghost predicate Swapped(s: Auth, t: Auth, jti: Jti) {
    var n := |s.log.issued|;
    jti < n && jti in s.db.refresh && Open(s.db, s.log.issued[jti].token.uin) &&
    t.log.consumed == s.log.consumed + [jti] && |t.log.issued| == n + 2 && s.log.issued <= t.log.issued &&
    t.log.issued[n + 1].token.kind == Refresh && t.log.issued[n + 1].token.uin == s.log.issued[jti].token.uin &&
    t.db.refresh.Keys == s.db.refresh.Keys - {jti} + {n + 1} && t.db.users == s.db.users &&
    t.db.refresh[n + 1].uin == s.log.issued[jti].token.uin
  }

  /** The worker's run ended with its job: no row of the account is left, and stored data of it is from after the claim. */
  ghost predicate Finished(s: Auth, t: Auth, w: WorkerId) {
    w in s.procs.runs && s.procs.runs[w].job !in t.db.jobs && RowsGone(t, s.procs.runs[w].uin) &&
    DataIsLater(t, s.procs.runs[w].uin, s.procs.runs[w].since)
  }

  /** The wipe is in the tables: the account is closed and marked, its job is pending, its sessions and references are gone. */
  ghost predicate Committed(s: Auth, uin: Uin, job: JobId) {
    uin in s.log.wiped && !Open(s.db, uin) && uin in s.db.markers && !Referenced(s.db.refs, uin) &&
    job in s.db.jobs && s.db.jobs[job].uin == uin && s.db.jobs[job].status == Pending &&
    forall j :: j in s.db.refresh ==> s.db.refresh[j].uin != uin
  }

  class AuthService {
    var state: Auth

    constructor (config: Config)
      ensures state == Initial(config)
    {
      state := Initial(config);
    }

    /** Other processes run between two statements of a call. */
    method Interfere(events: seq<Event>, w: Option<WorkerId>, r: Option<RequestId>, ghost start: Auth, ghost before: seq<Event>)
      returns (ghost trace: seq<Event>)
      requires state == Run(start, before) && Foreign(events, w, r)
      modifies this
      ensures state == Run(start, trace) && trace == before + events && state == Run(old(state), events)
      ensures SameRun(old(state), state, w) && SameRequest(old(state), state, r)
      ensures state.config == old(state).config && old(state).clock <= state.clock
    {
      var i := 0;
      while i < |events|
        invariant i <= |events| && Run(state, events[i..]) == Run(old(state), events)
      {
        assert events[i..][1..] == events[i + 1..];
        state := Next(state, events[i]);
        i := i + 1;
      }
      assert events[i..] == [];
      trace := before + events;
      RunAppend(start, before, events);
      ForeignKeeps(old(state), events, w, r);
    }

    /** One own statement. */
    method Own(e: Event, ghost start: Auth, ghost before: seq<Event>) returns (ghost trace: seq<Event>)
      requires state == Run(start, before)
      modifies this
      ensures state == Next(old(state), e) && state == Run(start, trace) && trace == before + [e]
    {
      state := Next(state, e);
      trace := before + [e];
      RunSnoc(start, before, e);
    }

    /** The locked transaction of a wipe request. */
    method CommitWipe(r: RequestId, uin: Uin, began: Time, replied: bool, ghost start: Auth, ghost before: seq<Event>)
      returns (job: JobId, ghost trace: seq<Event>)
      requires state == Run(start, before) && r in state.procs.wipes && state.procs.wipes[r] == WipeRequest(uin, false)
      requires uin in state.db.users && began <= state.clock
      modifies this
      ensures state == Run(start, trace) && trace == before + [WipeCommit(r, began, replied)]
      ensures if replied then r !in state.procs.wipes else r in state.procs.wipes && state.procs.wipes[r].uin == uin
      ensures Committed(state, uin, job) && job == old(state).ids.job
      ensures WipedIn(old(state), state, uin, began) && state.redis == old(state).redis
    {
      job := state.ids.job;
      trace := Own(WipeCommit(r, began, replied), start, before);
    }

    /** The recovery of a request that failed, or believes it did. */
    method Recover(r: RequestId, uin: Uin, recovered: bool, ghost start: Auth, ghost before: seq<Event>) returns (ghost trace: seq<Event>)
      requires state == Run(start, before) && r in state.procs.wipes && state.procs.wipes[r].uin == uin
      modifies this
      ensures state == Run(start, trace) && trace == before + [WipeAbort(r, recovered)] && r !in state.procs.wipes
      ensures state.db == old(state).db && state.log == old(state).log && (recovered ==> uin !in state.redis.blocked)
      ensures state.redis.blocked == (if recovered then old(state).redis.blocked - {uin} else old(state).redis.blocked)
      ensures state.data == old(state).data && state.ids == old(state).ids
    {
      trace := Own(WipeAbort(r, recovered), start, before);
    }

    /** The key is set, then others run while the request prepares its transaction. */
    method Prepare(r: RequestId, uin: Uin, schedule: seq<seq<Event>>) returns (began: Time, ghost trace: seq<Event>)
      requires r !in state.procs.wipes && AllForeign(schedule, None, Some(r))
      modifies this
      ensures state == Run(old(state), trace) && NoCommit(trace, r) && began <= state.clock
      ensures r in state.procs.wipes && state.procs.wipes[r] == WipeRequest(uin, false)
      ensures schedule == [] ==> state.db == old(state).db && state.ids == old(state).ids && state.data == old(state).data &&
                                 began == old(state).clock && state.redis.blocked == old(state).redis.blocked + {uin}
    {
      trace := Interfere(Before(schedule, 0), None, Some(r), old(state), []);
      trace := Own(WipeStart(r, uin), old(state), trace);
      began := state.clock;
      trace := Interfere(Before(schedule, 1), None, Some(r), old(state), trace);
    }

    /** Others run, then the request recovers. */
    method RecoverLater(r: RequestId, uin: Uin, recovered: bool, events: seq<Event>, ghost start: Auth, ghost before: seq<Event>)
      returns (ghost trace: seq<Event>)
      requires state == Run(start, before) && r in state.procs.wipes && state.procs.wipes[r].uin == uin && Foreign(events, None, Some(r))
      requires Reachable(start)
      modifies this
      ensures state == Run(start, trace) && r !in state.procs.wipes && (NoCommit(before, r) ==> NoCommit(trace, r))
      ensures recovered ==> uin !in state.redis.blocked
      ensures uin in old(state).log.wiped ==> uin in state.log.wiped && !Open(state.db, uin)
      ensures events == [] ==> state.db == old(state).db && state.log == old(state).log && state.data == old(state).data &&
                               state.ids == old(state).ids &&
                               state.redis.blocked == (if recovered then old(state).redis.blocked - {uin} else old(state).redis.blocked)
    {
      ReachableOn(start, before);
      if uin in state.log.wiped { WipedStaysClosed(state, events, uin); }
      trace := Interfere(events, None, Some(r), start, before);
      trace := Recover(r, uin, recovered, start, trace);
    }

    /** PanicWipe. Success means the wipe is committed and the account closed. A failure takes the key away again if the
        recovery works; it leaves no wipe of this request behind unless the reply to the commit was lost, and then the account
        is wiped although a failure is reported. */
    method PanicWipe(r: RequestId, uin: Uin, failure: WipeFailure, recovered: bool, schedule: seq<seq<Event>>)
      returns (result: WipeResult, ghost committed: bool, ghost trace: seq<Event>)
      requires Reachable(state) && r !in state.procs.wipes && AllForeign(schedule, None, Some(r))
      modifies this
      ensures state == Run(old(state), trace) && r !in state.procs.wipes
      ensures result.Wiped? <==> committed && failure == NoFailure
      ensures failure == SettingKey ==> state == old(state)
      ensures result.Wiped? ==> Committed(state, uin, result.job)
      ensures if committed then failure == NoFailure || failure == CommitReplyLost else NoCommit(trace, r)
      ensures committed ==> uin in state.log.wiped && !Open(state.db, uin)
      ensures result.WipeFailed? && failure != SettingKey && recovered ==> uin !in state.redis.blocked
      ensures schedule == [] && uin in old(state).db.users ==>
                (committed <==> failure == NoFailure || failure == CommitReplyLost) &&
                (committed ==> Committed(state, uin, old(state).ids.job))
      ensures schedule == [] ==>
                (if committed then WipedIn(old(state), state, uin, old(state).clock) else state.db == old(state).db) &&
                (failure != SettingKey ==> (uin in state.redis.blocked <==> result.Wiped? || !recovered)) &&
                state.redis.blocked - {uin} == old(state).redis.blocked - {uin}
    {
      result, committed, trace := WipeFailed, false, [];
      if failure == SettingKey {
        return;
      }
      var began;
      began, trace := Prepare(r, uin, schedule);
      if (failure == NoFailure || failure == CommitReplyLost) && uin in state.db.users {
        committed := true;
        var job;
        job, trace := CommitWipe(r, uin, began, failure == NoFailure, old(state), trace);
        if failure == NoFailure {
          result := Wiped(job);
          return;
        }
      }
      trace := RecoverLater(r, uin, recovered, Before(schedule, 2), old(state), trace);
    }

    /** Others run, then one cleanup phase. */
    method RunPhase(w: WorkerId, ok: bool, events: seq<Event>, ghost start: Auth, ghost before: seq<Event>)
      returns (ghost trace: seq<Event>)
      requires state == Run(start, before) && Foreign(events, Some(w), None)
      requires w in state.procs.runs && state.procs.runs[w].stage.Cleaning? && state.procs.runs[w].stage.next < state.config.stores
      modifies this
      ensures state == Run(start, trace) && state.config == old(state).config && SameClaim(old(state), state, w)
      ensures
        var was := old(state).procs.runs[w].stage;
        state.procs.runs[w].stage == Cleaning(was.next + 1, was.failed || !ok)
      ensures events == [] ==> state.db == old(state).db && state.clock == old(state).clock
    {
      trace := Interfere(events, Some(w), None, start, before);
      trace := Own(Phase(w, ok), start, trace);
    }

    /** The cleanup phases run one after the other; a failed one does not stop the rest, a lost lease does. */
    method CleanUp(w: WorkerId, script: Script, schedule: seq<seq<Event>>, ghost start: Auth, ghost before: seq<Event>)
      returns (failed: seq<nat>, lost: bool, ghost trace: seq<Event>)
      requires state == Run(start, before) && AllForeign(schedule, Some(w), None)
      requires w in state.procs.runs && state.procs.runs[w].stage == Cleaning(0, false)
      modifies this
      ensures state == Run(start, trace) && state.config == old(state).config && SameClaim(old(state), state, w)
      ensures lost <==> LosesLease(script, state.config.stores)
      ensures !lost ==> failed == FailedPhases(script.phases, state.config.stores) &&
                        state.procs.runs[w].stage == Cleaning(state.config.stores, failed != [])
      ensures schedule == [] ==> state.db == old(state).db && state.clock == old(state).clock
    {
      failed, trace := [], before;
      var k := 0;
      while k < state.config.stores && script.leaseLost != Some(k)
        invariant 0 <= k <= state.config.stores && state.config == old(state).config && state == Run(start, trace)
        invariant SameClaim(old(state), state, w)
        invariant failed == FailedPhases(script.phases, k) && state.procs.runs[w].stage == Cleaning(k, failed != [])
        invariant script.leaseLost.Some? ==> k <= script.leaseLost.value
        invariant schedule == [] ==> state.db == old(state).db && state.clock == old(state).clock
        decreases state.config.stores - k
      {
        trace := RunPhase(w, Succeeds(script.phases, k), Before(schedule, k + 1), start, trace);
        if !Succeeds(script.phases, k) {
          failed := failed + [k];
        }
        k := k + 1;
      }
      lost := script.leaseLost == Some(k);
    }

    /** Others run, then one attempt to delete the key. */
    method KeyAttempt(w: WorkerId, ok: bool, events: seq<Event>, ghost start: Auth, ghost before: seq<Event>)
      returns (ghost trace: seq<Event>)
      requires state == Run(start, before) && Foreign(events, Some(w), None)
      requires w in state.procs.runs && state.procs.runs[w].stage == Unblocking
      modifies this
      ensures state == Run(start, trace) && state.config == old(state).config && SameClaim(old(state), state, w)
      ensures state.procs.runs[w].stage == if ok || !state.config.redis then DeletingJob else Unblocking
      ensures events == [] ==> state.db == old(state).db && state.clock == old(state).clock
    {
      trace := Interfere(events, Some(w), None, start, before);
      trace := Own(DeleteKey(w, ok), start, trace);
    }

    /** Up to five attempts to delete the blocklist key. */
    method DeleteBlocklistKey(w: WorkerId, script: Script, schedule: seq<seq<Event>>, ghost start: Auth, ghost before: seq<Event>)
      returns (deleted: bool, attempts: nat, ghost trace: seq<Event>)
      requires state == Run(start, before) && AllForeign(schedule, Some(w), None)
      requires w in state.procs.runs && state.procs.runs[w].stage == Unblocking
      modifies this
      ensures state == Run(start, trace) && state.config == old(state).config && SameClaim(old(state), state, w)
      ensures attempts <= 5 && (deleted <==> state.procs.runs[w].stage == DeletingJob) && (deleted <==> KeyGoes(script, state.config.redis))
      ensures forall i :: 0 <= i < attempts - 1 ==> !Succeeds(script.keys, i)
      ensures !deleted ==> attempts == 5
      ensures schedule == [] ==> state.db == old(state).db && state.clock == old(state).clock
    {
      deleted, attempts, trace := false, 0, before;
      while attempts < MAX_BLOCKLIST_RETRIES && !deleted
        invariant attempts <= MAX_BLOCKLIST_RETRIES && state.config == old(state).config && state == Run(start, trace)
        invariant SameClaim(old(state), state, w)
        invariant state.procs.runs[w].stage == if deleted then DeletingJob else Unblocking
        invariant !deleted ==> (forall i :: 0 <= i < attempts ==> !Succeeds(script.keys, i)) && (0 < attempts ==> state.config.redis)
        invariant deleted ==> 0 < attempts && (Succeeds(script.keys, attempts - 1) || !state.config.redis) &&
                              forall i :: 0 <= i < attempts - 1 ==> !Succeeds(script.keys, i)
        invariant schedule == [] ==> state.db == old(state).db && state.clock == old(state).clock
      {
        trace := KeyAttempt(w, Succeeds(script.keys, attempts), Before(schedule, attempts + 2 + state.config.stores), start, trace);
        deleted := state.procs.runs[w].stage == DeletingJob;
        attempts := attempts + 1;
      }
    }

    /** scheduleRetry: only the worker the row names puts the job off. */
    method ScheduleRetry(w: WorkerId, ghost start: Auth, ghost before: seq<Event>) returns (result: JobResult, ghost trace: seq<Event>)
      requires state == Run(start, before) && w in state.procs.runs
      modifies this
      ensures state == Run(start, trace) && w !in state.procs.runs && result == Rescheduled && state.config == old(state).config
      ensures
        var run := old(state).procs.runs[w];
        state.db == old(state).db.(jobs := state.db.jobs) &&
        if run.job in old(state).db.jobs && old(state).db.jobs[run.job].worker == Some(w) then
          var was := old(state).db.jobs[run.job];
          state.db.jobs == old(state).db.jobs[run.job := Job(was.uin, Retrying, was.retries + 1, old(state).clock + Backoff(run.retries), None, None)]
        else state.db.jobs == old(state).db.jobs
    {
      trace := Own(Retry(w, state.clock), start, before);
      result := Rescheduled;
    }

    /** The final transaction; it fails while a row references the user row. */
    method EraseUser(w: WorkerId, events: seq<Event>, ghost start: Auth, ghost before: seq<Event>)
      returns (erased: bool, ghost trace: seq<Event>)
      requires state == Run(start, before) && Foreign(events, Some(w), None)
      requires w in state.procs.runs && state.procs.runs[w].stage == Cleaning(state.config.stores, false)
      modifies this
      ensures state == Run(start, trace) && state.config == old(state).config && SameClaim(old(state), state, w)
      ensures erased ==> state.procs.runs[w].stage == Unblocking
      ensures events == [] ==>
                (erased <==> !Referenced(old(state).db.refs, old(state).procs.runs[w].uin)) && state.db.jobs == old(state).db.jobs &&
                state.db.users == (if erased then old(state).db.users - {old(state).procs.runs[w].uin} else old(state).db.users) &&
                state.clock == old(state).clock
    {
      trace := Interfere(events, Some(w), None, start, before);
      erased := !Referenced(state.db.refs, state.procs.runs[w].uin);
      trace := Own(Erase(w), start, trace);
    }

    /** The deletion of the job row, by the worker it names. */
    method RemoveJob(w: WorkerId, events: seq<Event>, ghost start: Auth, ghost before: seq<Event>)
      returns (result: JobResult, ghost trace: seq<Event>)
      requires state == Run(start, before) && Reachable(start) && Foreign(events, Some(w), None)
      requires w in state.procs.runs && state.procs.runs[w].stage == DeletingJob
      modifies this
      ensures state == Run(start, trace) && state.config == old(state).config && w !in state.procs.runs
      ensures result == Completed || result == TakenOver
      ensures result == Completed ==> Finished(old(state), state, w)
      ensures events == [] && Named(old(state), w) ==>
                result == Completed && state.db == old(state).db.(jobs := old(state).db.jobs - {old(state).procs.runs[w].job})
    {
      trace := Interfere(events, Some(w), None, start, before);
      result := if Named(state, w) then Completed else TakenOver;
      if result == Completed { CompletionLeavesNothing(start, trace, w); }
      trace := Own(DeleteJob(w), start, trace);
    }

    /** The last two phases, once the user row is gone: the key, then the job row. */
    method FinishDeletion(w: WorkerId, script: Script, schedule: seq<seq<Event>>, ghost start: Auth, ghost before: seq<Event>)
      returns (result: JobResult, attempts: nat, ghost trace: seq<Event>)
      requires state == Run(start, before) && Reachable(start) && AllForeign(schedule, Some(w), None)
      requires w in state.procs.runs && state.procs.runs[w].stage == Unblocking
      modifies this
      ensures state == Run(start, trace) && w !in state.procs.runs && attempts <= 5 && state.config == old(state).config
      ensures result == Completed ==> Finished(old(state), state, w)
      ensures result == Completed || result == TakenOver || result == Rescheduled
      ensures result != Rescheduled ==> script.remove == Replied
      ensures schedule == [] && Named(old(state), w) ==>
                var run := old(state).procs.runs[w];
                var was, removes := old(state).db.jobs[run.job], KeyGoes(script, old(state).config.redis) && script.remove != RolledBack;
                (result == Completed <==> removes && script.remove == Replied) && (result == Rescheduled <==> result != Completed) &&
                state.db == old(state).db.(jobs :=
                  if removes then old(state).db.jobs - {run.job}
                  else old(state).db.jobs[run.job := Job(was.uin, Retrying, was.retries + 1, old(state).clock + Backoff(run.retries), None, None)])
    {
      var deleted;
      deleted, attempts, trace := DeleteBlocklistKey(w, script, schedule, start, before);
      if !deleted || script.remove == RolledBack {
        result, trace := ScheduleRetry(w, start, trace);
        return;
      }
      result, trace := RemoveJob(w, Before(schedule, state.config.stores + 7), start, trace);
      if script.remove == ReplyLost {
        result := Rescheduled;
      }
    }

    /** Final erasure after every phase has confirmed: user row, then key, then job row. A transaction whose reply is lost
        has been applied, but the job is rescheduled as if it had failed. */
    method Finish(w: WorkerId, script: Script, schedule: seq<seq<Event>>, ghost start: Auth, ghost before: seq<Event>)
      returns (result: JobResult, attempts: nat, ghost trace: seq<Event>)
      requires state == Run(start, before) && Reachable(start) && AllForeign(schedule, Some(w), None)
      requires w in state.procs.runs && state.procs.runs[w].stage == Cleaning(state.config.stores, false)
      modifies this
      ensures state == Run(start, trace) && w !in state.procs.runs && attempts <= 5
      ensures state.config == old(state).config
      ensures result == Completed ==> Finished(old(state), state, w)
      ensures result == Completed || result == TakenOver ==> script.erase != ReplyLost && script.remove == Replied
      ensures schedule == [] && Named(old(state), w) && script.erase != RolledBack ==> FinishesAs(old(state), state, w, script, result)
    {
      attempts := 0;
      var erased;
      erased, trace := EraseUser(w, Before(schedule, state.config.stores + 1), start, before);
      if !erased || script.erase == ReplyLost {
        result, trace := ScheduleRetry(w, start, trace);
        return;
      }
      result, attempts, trace := FinishDeletion(w, script, schedule, start, trace);
    }

    /** The claim statement of an idle worker. */
    method ClaimJob(w: WorkerId, job: JobId, lease: Time, events: seq<Event>) returns (claimed: bool, ghost trace: seq<Event>)
      requires w !in state.procs.runs && Foreign(events, Some(w), None)
      modifies this
      ensures state == Run(old(state), trace) && state.config == old(state).config && (claimed <==> w in state.procs.runs)
      ensures claimed ==> Named(state, w) && state.procs.runs[w].job == job && state.procs.runs[w].stage == Cleaning(0, false) &&
                          |old(state).log.traffic| <= state.procs.runs[w].since
      ensures (events == [] && job in old(state).db.jobs) ==>
                (claimed <==> Claimable(old(state).db.jobs[job], old(state).clock)) && state.db.refs == old(state).db.refs &&
                state.db.users == old(state).db.users && state.clock == old(state).clock &&
                (claimed ==>
                   var was := old(state).db.jobs[job];
                   state.procs.runs[w].uin == was.uin && state.procs.runs[w].retries == was.retries &&
                   state.db.jobs == old(state).db.jobs[job := Job(was.uin, Processing, was.retries, was.nextRetryAt, Some(old(state).clock + lease), Some(w))])
      ensures events == [] && !claimed ==> state == old(state)
      ensures events == [] && job !in old(state).db.jobs ==> !claimed
    {
      TrafficGrows(state, events);
      trace := Interfere(events, Some(w), None, old(state), []);
      trace := Own(Claim(w, job, state.clock, state.clock + lease), old(state), trace);
      claimed := w in state.procs.runs;
    }

    /** The run of a claimed job. */
    method RunJob(w: WorkerId, script: Script, schedule: seq<seq<Event>>, ghost start: Auth, ghost before: seq<Event>)
      returns (result: JobResult, failed: seq<nat>, attempts: nat, ghost trace: seq<Event>)
      requires state == Run(start, before) && Reachable(start) && AllForeign(schedule, Some(w), None)
      requires w in state.procs.runs && state.procs.runs[w].stage == Cleaning(0, false)
      modifies this
      ensures state == Run(start, trace) && w !in state.procs.runs && attempts <= 5 && state.config == old(state).config
      ensures result == Completed ==> Finished(old(state), state, w) && failed == []
      ensures result == Completed || result == TakenOver ==>
                Reaches(script, state.config.stores) && script.erase == Replied && script.remove == Replied
      ensures schedule == [] && Holds(old(state), w) ==> EndsAs(old(state), state, old(state).procs.runs[w].job, script, result)
    {
      attempts := 0;
      var lost;
      failed, lost, trace := CleanUp(w, script, schedule, start, before);
      NoFailedPhases(script.phases, state.config.stores);
      if lost && script.shutdown {
        trace := Own(Stop(w), start, trace);
        result := ShutDown;
      } else if lost || failed != [] || script.erase == RolledBack {
        result, trace := ScheduleRetry(w, start, trace);
      } else {
        ghost var cleaned := state;
        result, attempts, trace := Finish(w, script, schedule, start, trace);
        if schedule == [] && Holds(cleaned, w) { FinishIsEnd(cleaned, state, w, script, result); }
      }
    }

    /** processOneJob. Whatever others do meanwhile, the run ends. If it reports completion, the job row is gone, no row of its
        account is left, and data of the account is stored only where somebody wrote it during the call. Undisturbed, it
        claims exactly a due job, and ends as EndsAs says. */
    method ProcessOneJob(w: WorkerId, job: JobId, lease: Time, script: Script, schedule: seq<seq<Event>>)
      returns (result: JobResult, uin: Uin, failed: seq<nat>, attempts: nat, ghost trace: seq<Event>)
      requires Reachable(state) && w !in state.procs.runs && AllForeign(schedule, Some(w), None)
      modifies this
      ensures state == Run(old(state), trace) && w !in state.procs.runs && attempts <= 5
      ensures result == Completed ==> job !in state.db.jobs && RowsGone(state, uin) && failed == [] &&
                                      forall k :: 0 <= k < state.config.stores && (uin, k) in state.data ==> StoreData(uin, k) in trace
      ensures result == Completed || result == TakenOver ==>
                Reaches(script, old(state).config.stores) && script.erase == Replied && script.remove == Replied
      ensures schedule == [] ==>
                if job in old(state).db.jobs && IsDue(old(state).db.jobs[job], old(state).clock) then
                  uin == old(state).db.jobs[job].uin && EndsAs(old(state), state, job, script, result)
                else result == NothingClaimed && state == old(state)
    {
      failed, attempts, uin := [], 0, 0;
      var claimed;
      claimed, trace := ClaimJob(w, job, lease, Before(schedule, 0));
      if !claimed {
        result := NothingClaimed;
        return;
      }
      uin := state.procs.runs[w].uin;
      ghost var since := state.procs.runs[w].since;
      result, failed, attempts, trace := RunJob(w, script, schedule, old(state), trace);
      if result == Completed { LaterDataInTrace(old(state), trace, uin, since); }
    }

    /** The rotation transaction of an issued refresh token. */
    method RotateToken(jti: Jti, began: Time, ghost start: Auth, ghost before: seq<Event>)
      returns (rotation: Rotation, ghost trace: seq<Event>)
      requires state == Run(start, before) && jti < |state.log.issued| && state.log.issued[jti].token.kind == Refresh
      requires began <= state.clock
      modifies this
      ensures state == Run(start, trace) && trace == before + [Rotate(jti, began, old(state).clock)]
      ensures rotation == Rejected ==> state == old(state)
      ensures rotation == Rotated ==> Swapped(old(state), state, jti)
      ensures Reachable(old(state)) ==> RotatesTo(old(state), state, jti, began, old(state).clock, rotation)
    {
      if Reachable(state) { RotationMeans(state, jti, began, state.clock); }
      rotation := RotationOf(state, jti, state.clock);
      trace := Own(Rotate(jti, began, state.clock), start, before);
    }

    /** Verify: three reads with others running in between. It passes exactly when the token fits and none of the reads objects. */
    method VerifyToken(jti: Jti, schedule: seq<seq<Event>>) returns (passed: bool, ghost trace: seq<Event>)
      requires Reachable(state) && jti < |state.log.issued| && AllForeign(schedule, None, None)
      modifies this
      ensures state == Run(old(state), trace) && trace == Before(schedule, 0) + Before(schedule, 1) + Before(schedule, 2)
      ensures old(state).log.issued[jti].token.uin in old(state).log.wiped ==> !passed
      ensures passed ==> old(state).log.issued[jti].token.kind == Refresh
      ensures
        var s1 := Run(old(state), Before(schedule, 0));
        var s2 := Run(s1, Before(schedule, 1));
        state == Run(s2, Before(schedule, 2)) &&
        (passed <==> PassesReads(old(state).log.issued[jti].token, jti, Refresh, old(state).clock, s1, s2, state))
    {
      trace := [];
      var at, token := state.clock, state.log.issued[jti].token;
      trace := Interfere(Before(schedule, 0), None, None, old(state), trace);
      passed := PassesClaims(token, Refresh, at) && PassesMarker(state, token);
      trace := Interfere(Before(schedule, 1), None, None, old(state), trace);
      passed := passed && PassesBlocklist(state, jti);
      trace := Interfere(Before(schedule, 2), None, None, old(state), trace);
      passed := passed && PassesEpoch(state, token);
      if passed { PassedMeansOpen(old(state), schedule, jti, at); }
    }

    /** A refresh request: verification, then the rotation transaction. It gets past verification exactly when VerifyToken says,
        in particular never once the account is wiped; what it reports is what RotatesTo says of the state it finds. A reported
        rotation swaps the presented token's row for a new one; a request that reports none changed nothing, unless the reply to
        its transaction was lost: then the transaction has been applied. */
    method RefreshRequest(jti: Jti, reply: Reply, schedule: seq<seq<Event>>)
      returns (result: Option<Rotation>, ghost verified: bool, ghost trace: seq<Event>)
      requires Reachable(state) && jti < |state.log.issued| && AllForeign(schedule, None, None)
      modifies this
      ensures state == Run(old(state), trace)
      ensures old(state).log.issued[jti].token.uin in old(state).log.wiped ==> result == None && !verified
      ensures result.Some? <==> verified && reply == Replied
      ensures
        var others := Before(schedule, 0) + Before(schedule, 1) + Before(schedule, 2) + Before(schedule, 3);
        if verified && reply != RolledBack then exists began, at :: trace == others + [Rotate(jti, began, at)] else trace == others
      ensures result == Some(Rotated) ==>
                exists before :: Swapped(before, state, jti) && before.log.issued[jti] == old(state).log.issued[jti]
      ensures
        var s1 := Run(old(state), Before(schedule, 0));
        var s2 := Run(s1, Before(schedule, 1));
        var s3 := Run(s2, Before(schedule, 2));
        (verified <==> PassesReads(old(state).log.issued[jti].token, jti, Refresh, old(state).clock, s1, s2, s3)) &&
        (result.Some? ==>
           var s4 := Run(s3, Before(schedule, 3));
           jti < |s4.log.issued| && RotatesTo(s4, state, jti, s3.clock, s4.clock, result.value))
    {
      result := None;
      var passed;
      passed, trace := VerifyToken(jti, schedule);
      verified := passed;
      var began := state.clock;
      trace := Interfere(Before(schedule, 3), None, None, old(state), trace);
      IssuedKept(old(state), trace, jti);
      ghost var others := trace;
      if passed && reply != RolledBack {
        var rotation;
        ghost var before := state;
        rotation, trace := RotateToken(jti, began, old(state), trace);
        result := if reply == Replied then Some(rotation) else None;
        assert result == Some(Rotated) ==> Swapped(before, state, jti);
        ReachableOn(old(state), others);
      }
    }
  }
}
