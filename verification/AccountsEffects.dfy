/**
 What each statement of the auth service does and when, in the fields of its tables: verification, sessions, refresh
 rotation, wipes and the statements of a wipe worker.
 */
module AccountsEffects {
  import opened Options
  import opened Accounts
  import opened AccountsWipe
  import opened AccountsRecords
  import opened AccountsSessions
  import opened AccountsLease

  // Verification

  /** A token passes exactly when its kind and times fit, its account has no marker at the first read, the token is not
      blocklisted at the second, and the epoch of its account's row is no later than the token at the third. */
  predicate PassesReads(token: Token, jti: Jti, kind: Kind, at: Time, s1: Auth, s2: Auth, s3: Auth) {
    token.kind == kind && token.iat <= at && at < token.exp && token.uin !in s1.db.markers && jti !in s2.redis.revoked &&
    token.uin in s3.db.users && s3.db.users[token.uin] <= token.iat
  }

  lemma VerifiesExactlyWhen(s1: Auth, s2: Auth, s3: Auth, jti: Jti, kind: Kind, at: Time)
    requires jti < |s1.log.issued|
    ensures Verifies(s1, s2, s3, jti, kind, at) <==> PassesReads(s1.log.issued[jti].token, jti, kind, at, s1, s2, s3)
  {
  }

  lemma {:induction false} RevokedStays(s: Auth, events: seq<Event>, jti: Jti)
    requires jti in s.redis.revoked
    ensures jti in Run(s, events).redis.revoked
    decreases |events|
  {
    if events != [] {
      RevokedStep(s, events[0], jti);
      RevokedStays(Next(s, events[0]), events[1..], jti);
    }
  }

  /** Nothing but a revocation changes the blocklist of tokens, and it only adds to it. */
  lemma RevokedStep(s: Auth, e: Event, jti: Jti)
    ensures jti in Next(s, e).redis.revoked <==> jti in s.redis.revoked || e == RevokeToken(jti)
  {
  }

  /** Once a token has been revoked no verification of it that starts passes, wherever its reads fall. */
  lemma RevokedNeverVerifies(s: Auth, jti: Jti, e1: seq<Event>, e2: seq<Event>, e3: seq<Event>, kind: Kind, at: Time)
    ensures
      var s1 := Run(Next(s, RevokeToken(jti)), e1);
      !Verifies(s1, Run(s1, e2), Run(Run(s1, e2), e3), jti, kind, at)
  {
    RevokedStays(Next(s, RevokeToken(jti)), e1, jti);
    RevokedStays(Run(Next(s, RevokeToken(jti)), e1), e2, jti);
  }

  // Sessions

  /** A pair of tokens of the account, signed in the second of the given time: the access token for a quarter of an hour, the
      refresh token for seven days. */
  predicate IssuedPair(s: Auth, t: Auth, uin: Uin, at: Time, locked: bool) {
    var n := |s.log.issued|;
    var second := at - at % 1_000_000;
    |t.log.issued| == n + 2 && t.log.issued[..n] == s.log.issued &&
    t.log.issued[n] == Issue(Token(uin, Access, second, second + 900_000_000), at, locked) &&
    t.log.issued[n + 1] == Issue(Token(uin, Refresh, second, second + 604_800_000_000), at, locked)
  }

  lemma SignedPair(s: Auth, uin: Uin, at: Time, locked: bool, refresh: map<Jti, RefreshRow>)
    ensures IssuedPair(s, IssueSession(s, uin, at, locked, refresh), uin, at, locked)
  {
    assert (at + 900_000_000) % 1_000_000 == at % 1_000_000;
    assert (at + 604_800_000_000) % 1_000_000 == at % 1_000_000;
  }

  /** A login issues a pair and a refresh row exactly when the account is there and unmarked. */
  lemma LoginIssuesExactlyWhen(s: Auth, uin: Uin, at: Time)
    requires at <= s.clock
    ensures
      var t := Next(s, Login(uin, at));
      if uin in s.db.users && uin !in s.db.markers then
        IssuedPair(s, t, uin, at, true) && t.db == s.db.(refresh := s.db.refresh[|s.log.issued| + 1 := RefreshRow(uin, at + 604_800_000_000)])
      else t == s
  {
    if Open(s.db, uin) { SignedPair(s, uin, at, true, s.db.refresh); }
  }

  /** The session of a registration asks for the account only. */
  lemma RegistrationIssuesExactlyWhen(s: Auth, uin: Uin, at: Time)
    requires at <= s.clock
    ensures
      var t := Next(s, RegisterSession(uin, at));
      if uin in s.db.users then
        IssuedPair(s, t, uin, at, false) && t.db == s.db.(refresh := s.db.refresh[|s.log.issued| + 1 := RefreshRow(uin, at + 604_800_000_000)])
      else t == s
  {
    if uin in s.db.users { SignedPair(s, uin, at, false, s.db.refresh); }
  }

  /** A registration adds one account, under a number never used before, with the lowest epoch. */
  lemma RegistrationAddsAccount(s: Auth)
    requires Reachable(s)
    ensures
      var t := Next(s, Register);
      s.ids.uin !in s.db.users && s.ids.uin !in s.log.wiped && t.db == s.db.(users := s.db.users[s.ids.uin := 0]) &&
      t.redis == s.redis && t.log == s.log && t.procs == s.procs && t.ids == s.ids.(uin := s.ids.uin + 1)
  {
    ReachableKeeps(s);
  }

  /** What the rotation of a refresh token reports and leaves: rejected for an account that is gone or marked; reuse if the token
      has no row, which ends every session; expired if the row's time is over, which takes the row; otherwise a new pair. */
  ghost predicate RotatesTo(s: Auth, t: Auth, jti: Jti, began: Time, at: Time, rotation: Rotation)
    requires jti < |s.log.issued|
  {
    var u := s.log.issued[jti].token.uin;
    if u !in s.db.users || u in s.db.markers then rotation == Rejected && t == s
    else if jti !in s.db.refresh then
      rotation == Reused && t.log == s.log && t.redis == s.redis && t.db.markers == s.db.markers && t.db.jobs == s.db.jobs &&
      t.db.users == s.db.users[u := if began <= s.db.users[u] then s.db.users[u] + 1 else began] &&
      (forall j :: j in t.db.refresh <==> j in s.db.refresh && s.db.refresh[j].uin != u) &&
      (forall j :: j in t.db.refresh ==> t.db.refresh[j] == s.db.refresh[j])
    else if s.db.refresh[jti].expiresAt < at then
      rotation == Rotation.Expired && t.db == s.db.(refresh := s.db.refresh - {jti}) && t.log == s.log.(consumed := s.log.consumed + [jti])
    else
      rotation == Rotated && IssuedPair(s, t, u, at, true) && t.log.consumed == s.log.consumed + [jti] &&
      t.db == s.db.(refresh := (s.db.refresh - {jti})[|s.log.issued| + 1 := RefreshRow(u, at + 604_800_000_000)])
  }

  lemma RotationMeans(s: Auth, jti: Jti, began: Time, at: Time)
    requires Reachable(s) && jti < |s.log.issued| && s.log.issued[jti].token.kind == Refresh && began <= at <= s.clock
    ensures RotatesTo(s, Next(s, Rotate(jti, began, at)), jti, began, at, RotationOf(s, jti, at))
  {
    var u := s.log.issued[jti].token.uin;
    ReachableSessions(s);
    if RotationOf(s, jti, at) == Rotated {
      var used := s.(log := s.log.(consumed := s.log.consumed + [jti]));
      SignedPair(used, u, at, true, s.db.refresh - {jti});
    }
  }

  /** In any state at all: an access token rotates nothing, and a row of another account is consumed and costs the presented
      token's account its sessions. */
  lemma OddRotations(s: Auth, jti: Jti, began: Time, at: Time)
    requires jti < |s.log.issued|
    ensures s.log.issued[jti].token.kind == Access ==> Next(s, Rotate(jti, began, at)) == s
    ensures
      var t, u := Next(s, Rotate(jti, began, at)), s.log.issued[jti].token.uin;
      s.log.issued[jti].token.kind == Refresh && began <= at <= s.clock && u in s.db.users && u !in s.db.markers &&
      jti in s.db.refresh && s.db.refresh[jti].expiresAt >= at && s.db.refresh[jti].uin != u ==>
        t.log.consumed == s.log.consumed + [jti] && u in t.db.users && t.db.users[u] > s.db.users[u] && t.db.users[u] >= began &&
        jti !in t.db.refresh && forall j :: j in t.db.refresh ==> t.db.refresh[j].uin != u
  {
  }

  /** Logout's statements: the epoch takes the statement's start, the refresh rows of the account go. */
  lemma LogoutStatements(s: Auth, uin: Uin, began: Time)
    requires began <= s.clock
    ensures Next(s, BumpEpoch(uin, began)) == if uin in s.db.users then s.(db := s.db.(users := s.db.users[uin := began])) else s
    ensures
      var t := Next(s, DropRefresh(uin));
      t.(db := s.db) == s && t.db.(refresh := s.db.refresh) == s.db &&
      (forall j :: j in t.db.refresh <==> j in s.db.refresh && s.db.refresh[j].uin != uin) &&
      (forall j :: j in t.db.refresh ==> t.db.refresh[j] == s.db.refresh[j])
  {
  }

  // Wipes

  /** The transaction of a wipe in the tables: marker, epoch, job, and no sessions nor references. */
  ghost predicate WipedIn(s: Auth, t: Auth, uin: Uin, began: Time) {
    t.db.users == s.db.users[uin := began] && t.db.markers == s.db.markers + {uin} &&
    t.db.jobs == s.db.jobs[s.ids.job := Job(uin, Pending, 0, began, None, None)] && t.ids.job == s.ids.job + 1 &&
    (forall j :: j in t.db.refresh <==> j in s.db.refresh && s.db.refresh[j].uin != uin) &&
    (forall j :: j in t.db.refresh ==> t.db.refresh[j] == s.db.refresh[j]) &&
    t.db.refs.members == s.db.refs.members - {uin} && t.db.refs.own == s.db.refs.own - {uin} &&
    (forall e :: e in t.db.refs.contacts <==> e in s.db.refs.contacts && e.0 != uin && e.1 != uin) && t.data == s.data
  }

  /** A wipe commits exactly when its request has not committed before and the account is there. */
  lemma CommitsExactlyWhen(s: Auth, r: RequestId, began: Time, replied: bool)
    requires began <= s.clock
    ensures
      var t := Next(s, WipeCommit(r, began, replied));
      if r in s.procs.wipes && !s.procs.wipes[r].sent && s.procs.wipes[r].uin in s.db.users then
        WipedIn(s, t, s.procs.wipes[r].uin, began) && t.redis == s.redis && (r in t.procs.wipes <==> !replied)
      else t == s
  {
  }

  /** A request sets the key first; its recovery takes the key away if that works; the key's own expiry takes it too. */
  lemma KeyStatements(s: Auth, r: RequestId, uin: Uin, removed: bool)
    ensures
      r !in s.procs.wipes ==>
        var t := Next(s, WipeStart(r, uin));
        t.redis.blocked == s.redis.blocked + {uin} && t.procs.wipes == s.procs.wipes[r := WipeRequest(uin, false)] && t.db == s.db
    ensures
      r in s.procs.wipes ==>
        var t := Next(s, WipeAbort(r, removed));
        t.redis.blocked == (if removed then s.redis.blocked - {s.procs.wipes[r].uin} else s.redis.blocked) &&
        t.procs.wipes == s.procs.wipes - {r} && t.db == s.db
    ensures Next(s, KeyExpires(uin)) == s.(redis := s.redis.(blocked := s.redis.blocked - {uin}))
  {
  }

  // Workers

  /** Who can take the job at this time: anybody once it is due, or once the lease it is held under has run out. */
  predicate IsDue(job: Job, now: Time) {
    (job.status != Processing && job.nextRetryAt <= now) || (job.status == Processing && job.lease.Some? && job.lease.value < now)
  }

  /** A claim takes exactly a due job; the row then names the worker and holds the lease asked for, and the run starts with the
      row's retry count. */
  lemma ClaimsExactlyWhen(s: Auth, w: WorkerId, j: JobId, now: Time, lease: Time)
    requires Reachable(s) && w !in s.procs.runs && now <= s.clock
    ensures
      var t := Next(s, Claim(w, j, now, lease));
      (w in t.procs.runs <==> j in s.db.jobs && IsDue(s.db.jobs[j], now)) &&
      if w in t.procs.runs then
        var job := s.db.jobs[j];
        t.db == s.db.(jobs := s.db.jobs[j := Job(job.uin, Processing, job.retries, job.nextRetryAt, Some(lease), Some(w))]) &&
        t.procs.runs[w] == WorkerRun(j, job.uin, job.retries, Cleaning(0, false), [], |s.log.traffic|) && t.data == s.data && t.redis == s.redis
      else t == s
  {
    ReachableKeeps(s);
    if j in s.db.jobs && s.db.jobs[j].uin in s.db.users { assert s.db.markers + {s.db.jobs[j].uin} == s.db.markers; }
  }

  /** Whatever the tables held before, a claim leaves the account of a registered user marked as wiped. */
  lemma ClaimMarks(s: Auth, w: WorkerId, j: JobId, now: Time, lease: Time)
    requires w !in s.procs.runs && w in Next(s, Claim(w, j, now, lease)).procs.runs
    ensures s.db.jobs[j].uin in s.db.users ==> s.db.jobs[j].uin in Next(s, Claim(w, j, now, lease)).db.markers
  {
  }

  /** So a claimed job is nobody else's until its lease has run out. */
  lemma ClaimHolds(s: Auth, w: WorkerId, j: JobId, now: Time, lease: Time, v: WorkerId, later: Time)
    requires Reachable(s) && w !in s.procs.runs && j in s.db.jobs && IsDue(s.db.jobs[j], now) && now <= s.clock
    requires v !in s.procs.runs && v != w && later <= s.clock
    ensures
      var t := Next(s, Claim(w, j, now, lease));
      v in Next(t, Claim(v, j, later, lease)).procs.runs <==> lease < later
  {
    ClaimsExactlyWhen(s, w, j, now, lease);
    ReachableNext(s, Claim(w, j, now, lease));
    ClaimsExactlyWhen(Next(s, Claim(w, j, now, lease)), v, j, later, lease);
  }

  /** A renewal moves the lease exactly while the row names the worker and the lease has not run out. */
  lemma RenewsExactlyWhen(s: Auth, w: WorkerId, now: Time, lease: Time)
    requires w in s.procs.runs && now <= s.clock
    ensures
      var j := s.procs.runs[w].job;
      var t := Next(s, Renew(w, now, lease));
      if j in s.db.jobs && s.db.jobs[j].worker == Some(w) && s.db.jobs[j].status == Processing && s.db.jobs[j].lease.Some? &&
         now < s.db.jobs[j].lease.value then
        t == s.(db := s.db.(jobs := s.db.jobs[j := s.db.jobs[j].(lease := Some(lease))]))
      else t == s
  {
  }

  /** A cleanup phase that succeeds clears the account's data from its store, one that fails nothing; either way the next phase
      comes up, and a failure is remembered. */
  lemma PhaseMeans(s: Auth, w: WorkerId, ok: bool)
    requires w in s.procs.runs && s.procs.runs[w].stage.Cleaning? && s.procs.runs[w].stage.next < s.config.stores
    ensures
      var run, t := s.procs.runs[w], Next(s, Phase(w, ok));
      t.db == s.db && t.redis == s.redis && w in t.procs.runs && t.procs.runs - {w} == s.procs.runs - {w} &&
      t.data == (if ok then s.data - {(run.uin, run.stage.next)} else s.data) &&
      t.procs.runs[w].stage == Cleaning(run.stage.next + 1, run.stage.failed || !ok) &&
      t.procs.runs[w].job == run.job && t.procs.runs[w].uin == run.uin && t.procs.runs[w].retries == run.retries
  {
  }

  /** Final erasure goes through exactly when all phases have confirmed and nothing references the account. */
  lemma ErasesExactlyWhen(s: Auth, w: WorkerId)
    requires w in s.procs.runs
    ensures
      var u, t := s.procs.runs[w].uin, Next(s, Erase(w));
      var refs := s.db.refs;
      if s.procs.runs[w].stage == Cleaning(s.config.stores, false) && u !in refs.members && u !in refs.own &&
         (forall e :: e in refs.contacts ==> e.0 != u && e.1 != u) then
        t.db.users == s.db.users - {u} && t.db.markers == s.db.markers - {u} && t.db.jobs == s.db.jobs && t.db.refs == refs &&
        (forall j :: j in t.db.refresh <==> j in s.db.refresh && s.db.refresh[j].uin != u) &&
        t.data == s.data && t.redis == s.redis && w in t.procs.runs && t.procs.runs[w].stage == Unblocking
      else t == s
  {
  }

  /** The last two statements: the key after the user row, the job row after the key. */
  lemma LastStatements(s: Auth, w: WorkerId, ok: bool)
    requires w in s.procs.runs
    ensures
      var run, t := s.procs.runs[w], Next(s, DeleteKey(w, ok));
      if run.stage == Unblocking && (ok || !s.config.redis) then
        t.db == s.db && t.data == s.data && w in t.procs.runs && t.procs.runs[w].stage == DeletingJob &&
        t.redis.blocked == (if s.config.redis then s.redis.blocked - {run.uin} else s.redis.blocked)
      else t == s
    ensures
      var run, t := s.procs.runs[w], Next(s, DeleteJob(w));
      if run.stage == DeletingJob then
        w !in t.procs.runs && t.redis == s.redis && t.data == s.data &&
        t.db == (if run.job in s.db.jobs && s.db.jobs[run.job].worker == Some(w) then s.db.(jobs := s.db.jobs - {run.job}) else s.db)
      else t == s
  {
  }

  /** A retry frees the row exactly if it still names the worker, and ends the run; a worker that stops leaves the row as it is. */
  lemma RunEnds(s: Auth, w: WorkerId, at: Time)
    requires Reachable(s) && w in s.procs.runs
    ensures
      var j, t := s.procs.runs[w].job, Next(s, Retry(w, at));
      t.procs.runs == s.procs.runs - {w} && t.data == s.data && t.redis == s.redis &&
      if j in s.db.jobs && s.db.jobs[j].worker == Some(w) then
        var job := s.db.jobs[j];
        j in t.db.jobs && t.db.jobs - {j} == s.db.jobs - {j} && t.db.users == s.db.users && t.db.markers == s.db.markers &&
        t.db.jobs[j].status == Retrying && t.db.jobs[j].retries == job.retries + 1 && t.db.jobs[j].worker == None && t.db.jobs[j].lease == None
      else t.db == s.db
    ensures Next(s, Stop(w)) == s.(procs := s.procs.(runs := s.procs.runs - {w}))
  {
  }

  // Rows that reference accounts

  /** A contact edge appears exactly through an addition by either end, which adds both directions, or a block by its owner. */
  lemma ContactAppearsExactlyWhen(s: Auth, e: Event, owner: Uin, target: Uin)
    requires (owner, target) !in s.db.refs.contacts
    ensures (owner, target) in Next(s, e).db.refs.contacts <==>
            owner in s.db.users && target in s.db.users &&
            (e == BlockContact(owner, target) || (owner != target && (e == AddContact(owner, target) || e == AddContact(target, owner))))
  {
    RefsChange(s, e);
  }

  /** A row of its own appears exactly when an existing account stores one, and goes exactly with a wipe of the account. */
  lemma OwnRowExactlyWhen(s: Auth, e: Event, u: Uin)
    ensures u in Next(s, e).db.refs.own <==> (u in s.db.refs.own && !CommitsFor(s, e, u)) || (e == OwnRow(u) && u in s.db.users)
  {
    RefsChange(s, e);
  }

  /** Data enters a configured store by a write and by nothing else. */
  lemma DataAppearsExactlyWhen(s: Auth, e: Event, u: Uin, k: nat)
    requires (u, k) !in s.data
    ensures (u, k) in Next(s, e).data <==> e == StoreData(u, k) && k < s.config.stores
  {
    SessionFrame(s, e);
  }
}
