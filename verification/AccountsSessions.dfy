/**
 Sessions: what login, refresh rotation, revocation and verification guarantee in every run.
 */
module AccountsSessions {
  import opened Accounts
  import opened AccountsWipe
  import opened AccountsRecords

  ghost predicate IssuesOk(s: Auth) {
    forall i :: 0 <= i < |s.log.issued| ==>
      var it := s.log.issued[i];
      it.at <= s.clock && it.token == Sign(it.token.uin, it.token.kind, it.at)
  }

  /** Every refresh row belongs to an issued refresh token of the same account, whose user row exists. */
  ghost predicate RowsOk(s: Auth) {
    forall j :: j in s.db.refresh ==>
      j < |s.log.issued| && s.log.issued[j].token.kind == Refresh && s.log.issued[j].token.uin == s.db.refresh[j].uin &&
      s.db.refresh[j].uin in s.db.users
  }

  ghost predicate ConsumedOk(s: Auth) {
    (forall i :: 0 <= i < |s.log.consumed| ==> s.log.consumed[i] < |s.log.issued| && s.log.consumed[i] !in s.db.refresh) &&
    (forall i, k :: 0 <= i < k < |s.log.consumed| ==> s.log.consumed[i] != s.log.consumed[k])
  }

  ghost predicate SessionInv(s: Auth) { IssuesOk(s) && RowsOk(s) && ConsumedOk(s) }

  /** No row is added, tokens and their uses stay as they were. */
  ghost predicate RowsShrink(s: Auth, t: Auth) {
    t.log.issued == s.log.issued && t.log.consumed == s.log.consumed && s.clock <= t.clock &&
    (forall j :: j in t.db.refresh ==> j in s.db.refresh && t.db.refresh[j] == s.db.refresh[j]) &&
    (forall j :: j in t.db.refresh && t.db.refresh[j].uin in s.db.users ==> t.db.refresh[j].uin in t.db.users)
  }

  lemma ShrinkKeeps(s: Auth, t: Auth)
    requires SessionInv(s) && RowsShrink(s, t)
    ensures SessionInv(t)
  {
  }

  lemma WorkerShrinks(s: Auth, e: Event)
    ensures RowsShrink(s, WorkerNext(s, e))
  {
    match e
    case Erase(w) =>
    case Retry(w, at) => if w in s.procs.runs { RetryShrinks(s, w, at); }
    case _ =>
  }

  lemma RetryShrinks(s: Auth, w: WorkerId, at: Time)
    requires w in s.procs.runs
    ensures RowsShrink(s, RetryNext(s, w, at))
  {
  }

  lemma WipeShrinks(s: Auth, e: Event)
    ensures RowsShrink(s, WipeNext(s, e))
  {
  }

  lemma IssueKeeps(s: Auth, uin: Uin, at: Time, locked: bool, refresh: map<Jti, RefreshRow>)
    requires SessionInv(s.(db := s.db.(refresh := refresh))) && uin in s.db.users && at <= s.clock
    ensures SessionInv(IssueSession(s, uin, at, locked, refresh))
  {
  }

  lemma RevokeKeeps(s: Auth, uin: Uin, began: Time)
    requires SessionInv(s) && uin in s.db.users
    ensures SessionInv(s.(db := RevokeAll(s.db, uin, began)))
    ensures forall j :: j in RevokeAll(s.db, uin, began).refresh ==> s.db.refresh[j].uin != uin
  {
    ShrinkKeeps(s, s.(db := RevokeAll(s.db, uin, began)));
  }

  /** Deleting the presented row and noting the token as used. */
  lemma ConsumeKeeps(s: Auth, jti: Jti)
    requires SessionInv(s) && jti in s.db.refresh
    ensures SessionInv(s.(db := s.db.(refresh := s.db.refresh - {jti}), log := s.log.(consumed := s.log.consumed + [jti])))
  {
  }

  lemma RotateKeeps(s: Auth, jti: Jti, began: Time, at: Time)
    requires SessionInv(s) && jti < |s.log.issued| && at <= s.clock
    ensures SessionInv(RotateNext(s, jti, began, at))
  {
    var uin := s.log.issued[jti].token.uin;
    match RotationOf(s, jti, at)
    case Rejected =>
    case Reused => RevokeKeeps(s, uin, began);
    case Expired => ConsumeKeeps(s, jti);
    case Mismatched => assert false;
    case Rotated =>
      ConsumeKeeps(s, jti);
      var used := s.(log := s.log.(consumed := s.log.consumed + [jti]));
      assert used.(db := used.db.(refresh := s.db.refresh - {jti})) ==
             s.(db := s.db.(refresh := s.db.refresh - {jti}), log := s.log.(consumed := s.log.consumed + [jti]));
      IssueKeeps(used, uin, at, true, s.db.refresh - {jti});
  }

  lemma SessionKeeps(s: Auth, e: Event)
    requires SessionInv(s)
    ensures SessionInv(SessionNext(s, e))
  {
    match e
    case RegisterSession(uin, at) =>
      if uin in s.db.users && at <= s.clock { IssueKeeps(s, uin, at, false, s.db.refresh); }
    case Login(uin, at) =>
      if Open(s.db, uin) && at <= s.clock { IssueKeeps(s, uin, at, true, s.db.refresh); }
    case Rotate(jti, began, at) =>
      if jti < |s.log.issued| && at <= s.clock { RotateKeeps(s, jti, began, at); }
    case _ => ShrinkKeeps(s, SessionNext(s, e));
  }

  lemma StepKeepsSessions(s: Auth, e: Event)
    requires SessionInv(s)
    ensures SessionInv(Next(s, e))
  {
    if Next(s, e) == SessionNext(s, e) {
      SessionKeeps(s, e);
    } else {
      WorkerShrinks(s, e);
      WipeShrinks(s, e);
      assert RowsShrink(s, Next(s, e));
      ShrinkKeeps(s, Next(s, e));
    }
  }

  lemma {:induction false} RunKeepsSessions(s: Auth, events: seq<Event>)
    requires SessionInv(s)
    ensures SessionInv(Run(s, events))
    decreases |events|
  {
    if events != [] {
      StepKeepsSessions(s, events[0]);
      RunKeepsSessions(Next(s, events[0]), events[1..]);
    }
  }

  lemma ReachableSessions(s: Auth)
    requires Reachable(s)
    ensures SessionInv(s)
  {
    var config, events :| s == Run(Initial(config), events);
    RunKeepsSessions(Initial(config), events);
  }

  lemma ReachableOn(s: Auth, events: seq<Event>)
    requires Reachable(s)
    ensures Reachable(Run(s, events))
  {
    var config, before :| s == Run(Initial(config), before);
    RunAppend(Initial(config), before, events);
    assert Run(s, events) == Run(Initial(config), before + events);
  }

  // Wiped accounts

  /** Issued tokens keep their numbers. */
  lemma {:induction false} IssuedGrows(s: Auth, events: seq<Event>)
    ensures s.log.issued <= Run(s, events).log.issued
    decreases |events|
  {
    if events != [] {
      IssuedGrowsStep(s, events[0]);
      IssuedGrows(Next(s, events[0]), events[1..]);
    }
  }

  lemma IssuedGrowsStep(s: Auth, e: Event)
    ensures s.log.issued <= Next(s, e).log.issued
  {
    WorkerShrinks(s, e);
    WipeShrinks(s, e);
  }

  /** From the commit of a wipe on, no verification that starts passes, however its three reads interleave with
      claims, retries, final erasure, crashes, new wipe requests or anything else. */
  lemma NoTokenVerifiesAfterWipe(s: Auth, e1: seq<Event>, e2: seq<Event>, e3: seq<Event>, jti: Jti, kind: Kind, at: Time)
    requires Reachable(s)
    requires jti < |Run(s, e1).log.issued| && Run(s, e1).log.issued[jti].token.uin in s.log.wiped
    ensures !Verifies(Run(s, e1), Run(Run(s, e1), e2), Run(Run(Run(s, e1), e2), e3), jti, kind, at)
  {
    var s1 := Run(s, e1);
    var u := s1.log.issued[jti].token.uin;
    WipedStaysClosed(s, e1, u);
    ReachableOn(s, e1);
    WipedStaysClosed(s1, e2 + e3, u);
    RunAppend(s1, e2, e3);
  }

  /** Since state s, every token and refresh row the account gained came from a registration's unlocked issue. */
  ghost predicate NothingGained(s: Auth, t: Auth, u: Uin) {
    s.log.issued <= t.log.issued &&
    (forall i :: |s.log.issued| <= i < |t.log.issued| && t.log.issued[i].token.uin == u ==> !t.log.issued[i].locked) &&
    (forall j :: j in t.db.refresh && t.db.refresh[j].uin == u ==>
       j in s.db.refresh || (|s.log.issued| <= j < |t.log.issued| && !t.log.issued[j].locked))
  }

  lemma ClosedStepGainsNothing(s: Auth, e: Event, u: Uin)
    requires SessionInv(s) && !Open(s.db, u)
    ensures NothingGained(s, Next(s, e), u)
  {
    WorkerShrinks(s, e);
    WipeShrinks(s, e);
    if e.Rotate? && e.jti < |s.log.issued| {
      ClosedRotation(s, e.jti, e.began, e.at, u);
    }
  }

  lemma ClosedRotation(s: Auth, jti: Jti, began: Time, at: Time, u: Uin)
    requires SessionInv(s) && !Open(s.db, u) && jti < |s.log.issued|
    ensures NothingGained(s, RotateNext(s, jti, began, at), u)
  {
  }

  lemma GainedTwice(s: Auth, t: Auth, v: Auth, u: Uin)
    requires NothingGained(s, t, u) && NothingGained(t, v, u) && SessionInv(t) && SessionInv(v)
    ensures NothingGained(s, v, u)
  {
    forall i | |s.log.issued| <= i < |v.log.issued| && v.log.issued[i].token.uin == u ensures !v.log.issued[i].locked {
      if i < |t.log.issued| { assert v.log.issued[i] == t.log.issued[i]; }
    }
    forall j | j in v.db.refresh && v.db.refresh[j].uin == u
      ensures j in s.db.refresh || (|s.log.issued| <= j < |v.log.issued| && !v.log.issued[j].locked)
    {
      if j in t.db.refresh { assert v.log.issued[j] == t.log.issued[j]; }
    }
  }

  lemma {:induction false} ClosedRunGainsNothing(s: Auth, events: seq<Event>, u: Uin)
    requires WipeInv(s) && SessionInv(s) && u in s.log.wiped
    ensures NothingGained(s, Run(s, events), u)
    decreases |events|
  {
    if events != [] {
      var t := Next(s, events[0]);
      ClosedStepGainsNothing(s, events[0], u);
      StepKeeps(s, events[0]);
      StepKeepsSessions(s, events[0]);
      ClosedRunGainsNothing(t, events[1..], u);
      RunKeepsSessions(t, events[1..]);
      GainedTwice(s, t, Run(t, events[1..]), u);
    }
  }

  /** From the commit of a wipe on, neither login nor refresh issues a token of the account or adds a refresh row. */
  lemma NoSessionAfterWipe(s: Auth, commit: Event, events: seq<Event>)
    requires Reachable(s) && Commits(s, commit)
    ensures
      var u, done := s.procs.wipes[commit.r].uin, Next(s, commit);
      var t := Run(done, events);
      u in done.log.wiped && NothingGained(done, t, u) &&
      (forall j :: j in t.db.refresh && t.db.refresh[j].uin == u ==>
         |done.log.issued| <= j < |t.log.issued| && !t.log.issued[j].locked)
  {
    var u, done := s.procs.wipes[commit.r].uin, Next(s, commit);
    ReachableKeeps(s);
    ReachableSessions(s);
    StepKeeps(s, commit);
    StepKeepsSessions(s, commit);
    ClosedRunGainsNothing(done, events, u);
    RunKeepsSessions(done, events);
    var t := Run(done, events);
    forall j | j in t.db.refresh && t.db.refresh[j].uin == u
      ensures |done.log.issued| <= j < |t.log.issued| && !t.log.issued[j].locked
    {
      if j in done.db.refresh { SameAccount(done, t, j); }
    }
  }

  lemma SameAccount(s: Auth, t: Auth, j: Jti)
    requires SessionInv(s) && SessionInv(t) && s.log.issued <= t.log.issued && j in s.db.refresh && j in t.db.refresh
    ensures s.db.refresh[j].uin == t.db.refresh[j].uin
  {
    assert t.log.issued[j] == s.log.issued[j];
  }

  /** A step gives a wiped account a token or a refresh row exactly when it is the unlocked session of a registration. */
  lemma WipedGainsSessionExactlyWhen(s: Auth, e: Event, u: Uin)
    requires Reachable(s) && u in s.log.wiped
    ensures (exists i :: |s.log.issued| <= i < |Next(s, e).log.issued| && Next(s, e).log.issued[i].token.uin == u) <==>
            e.RegisterSession? && e.uin == u && u in s.db.users && e.at <= s.clock
  {
    ReachableKeeps(s);
    ReachableSessions(s);
    WorkerShrinks(s, e);
    WipeShrinks(s, e);
    if e.Rotate? && e.jti < |s.log.issued| { RotationIssues(s, e.jti, e.began, e.at); }
    if e.RegisterSession? && e.uin == u && u in s.db.users && e.at <= s.clock {
      assert Next(s, e).log.issued[|s.log.issued|].token.uin == u;
    }
  }

  lemma RotationIssues(s: Auth, jti: Jti, began: Time, at: Time)
    requires jti < |s.log.issued|
    ensures
      var t, uin := RotateNext(s, jti, began, at), s.log.issued[jti].token.uin;
      t.log.issued == (if RotationOf(s, jti, at) == Rotated then s.log.issued + Session(uin, at, true) else s.log.issued)
  {
  }

  /** No row of the account is left in the database: no user row, marker, refresh row or reference. */
  ghost predicate RowsGone(s: Auth, u: Uin) {
    u !in s.db.users && u !in s.db.markers && (forall j :: j in s.db.refresh ==> s.db.refresh[j].uin != u) &&
    !Referenced(s.db.refs, u)
  }

  /** When a job row goes, no row of its account is left, then or ever after, and the key is there only if a later wipe
      request set it. A crash at any earlier point only delays this. */
  lemma CompletedWipeLeavesNothing(s: Auth, e: Event, j: JobId, later: seq<Event>)
    requires Reachable(s) && j in s.db.jobs && j !in Next(s, e).db.jobs
    ensures
      var u, t := s.db.jobs[j].uin, Next(s, e);
      RowsGone(t, u) && RowsGone(Run(t, later), u) && (s.config.redis && u in t.redis.blocked ==> u in t.log.late)
  {
    var u, t := s.db.jobs[j].uin, Next(s, e);
    JobDeletedLast(s, e, j);
    ReachableKeeps(s);
    ReachableSessions(s);
    ReachableRecords(s);
    StepKeeps(s, e);
    StepKeepsSessions(s, e);
    RefsStep(s, e);
    DataStep(s, e);
    RunKeeps(t, later);
    RunKeepsSessions(t, later);
    RunRecords(t, later);
  }

  /** Data of the account is in a store, when its job row goes or ever after, exactly when it was written there after the run
      that deleted the job confirmed the store clean, and not cleaned again since. */
  lemma StoredDataExactlyWhen(s: Auth, e: Event, j: JobId, later: seq<Event>, k: nat)
    requires Reachable(s) && j in s.db.jobs && j !in Next(s, e).db.jobs && k < s.config.stores
    ensures e.DeleteJob? && e.w in s.procs.runs && FullTrail(s.procs.runs[e.w].trail, s.config.stores)
    ensures
      var u, end := s.db.jobs[j].uin, Run(Next(s, e), later);
      var confirmed, traffic := s.procs.runs[e.w].trail[k].at, end.log.traffic;
      (u, k) in end.data <==>
      exists i :: confirmed < i < |traffic| && traffic[i] == Stored(u, k) && NotClearedSince(traffic, i, u, k)
  {
    var u, t := s.db.jobs[j].uin, Next(s, e);
    JobDeletedLast(s, e, j);
    ReachableRecords(s);
    RefsStep(s, e);
    DataStep(s, e);
    RunRecords(t, later);
    TrafficGrows(t, later);
    DataChange(s, e);
    var traffic := Run(t, later).log.traffic;
    StoredExactlyWhen(traffic, u, k);
    var confirmed := s.procs.runs[e.w].trail[k].at;
    assert traffic[confirmed] == Cleared(u, k);
    if i :| 0 <= i < |traffic| && traffic[i] == Stored(u, k) && NotClearedSince(traffic, i, u, k) {
      assert confirmed < i;
    }
  }

  // Refresh rotation

  /** Over every interleaving a refresh token is consumed at most once, and a consumed one has no row. */
  lemma ConsumedAtMostOnce(s: Auth, i: nat, k: nat)
    requires Reachable(s) && i < |s.log.consumed| && k < |s.log.consumed|
    ensures s.log.consumed[i] == s.log.consumed[k] ==> i == k
    ensures s.log.consumed[i] !in s.db.refresh
  {
    ReachableSessions(s);
  }

  /** The account check of a rotation never finds another account's row. */
  lemma RowsNeverMismatch(s: Auth, jti: Jti, at: Time)
    requires Reachable(s) && jti < |s.log.issued|
    ensures RotationOf(s, jti, at) != Mismatched
  {
    ReachableSessions(s);
  }

  /** Presenting a refresh token that has no row (a consumed one has none) for an open account: no refresh row of the
      account is left, and a token signed before the revoking transaction began passes no later epoch read, unless a
      statement writes an epoch no later than the second the token was signed in - and then it does. */
  lemma ReuseRevokesAll(s: Auth, jti: Jti, began: Time, at: Time, later: seq<Event>, i: Jti)
    requires Reachable(s) && jti < |s.log.issued| && s.log.issued[jti].token.kind == Refresh && jti !in s.db.refresh
    requires Open(s.db, s.log.issued[jti].token.uin) && began <= at <= s.clock
    requires i < |s.log.issued| && s.log.issued[i].token.uin == s.log.issued[jti].token.uin && s.log.issued[i].at < began
    ensures
      var t, before := Next(s, Rotate(jti, began, at)), s.log.issued[i].token;
      (forall j :: j in t.db.refresh ==> t.db.refresh[j].uin != before.uin) &&
      !PassesEpoch(t, before) && (EverPasses(t, later, before) <==> EverReopens(t, later, before))
  {
    var token, t := s.log.issued[i].token, Next(s, Rotate(jti, began, at));
    ReachableSessions(s);
    ReachableKeeps(s);
    StepKeeps(s, Rotate(jti, began, at));
    assert RotationOf(s, jti, at) == Reused;
    assert token.iat < t.db.users[token.uin];
    PassesExactlyWhenReopened(t, later, token);
  }

  /** A logout or a wipe whose statement began no later than the token's second writes the epoch of its account. */
  predicate Reopens(s: Auth, e: Event, token: Token) {
    WritesEpoch(s, e, token.uin) && e.began <= token.iat
  }

  predicate EverReopens(s: Auth, events: seq<Event>, token: Token)
    decreases |events|
  {
    events != [] && (Reopens(s, events[0], token) || EverReopens(Next(s, events[0]), events[1..], token))
  }

  predicate EverPasses(s: Auth, events: seq<Event>, token: Token)
    decreases |events|
  {
    PassesEpoch(s, token) || (events != [] && EverPasses(Next(s, events[0]), events[1..], token))
  }

  /** The step writes its transaction's start time as the epoch of the account. */
  predicate WritesEpoch(s: Auth, e: Event, u: Uin) {
    (e.BumpEpoch? && e.uin == u && e.began <= s.clock && u in s.db.users) || CommitsFor(s, e, u)
  }

  /** Any other step leaves an existing account's epoch or raises it. */
  lemma EpochChange(s: Auth, e: Event, u: Uin)
    requires IdsOk(s) && u in Next(s, e).db.users && u < s.ids.uin
    ensures u in s.db.users
    ensures if WritesEpoch(s, e, u) then Next(s, e).db.users[u] == e.began else s.db.users[u] <= Next(s, e).db.users[u]
  {
  }

  lemma PassesStep(s: Auth, e: Event, token: Token)
    requires WipeInv(s) && token.uin < s.ids.uin && !PassesEpoch(s, token)
    ensures PassesEpoch(Next(s, e), token) <==> Reopens(s, e, token)
    ensures token.uin < Next(s, e).ids.uin
  {
    if token.uin in Next(s, e).db.users { EpochChange(s, e, token.uin); }
    UinsGrow(s, e, token.uin);
  }

  lemma UinsGrow(s: Auth, e: Event, u: Uin)
    ensures s.ids.uin <= Next(s, e).ids.uin
    ensures WritesEpoch(s, e, u) ==> u in Next(s, e).db.users
  {
    SessionFrame(s, e);
  }

  lemma {:induction false} PassesExactlyWhenReopened(s: Auth, events: seq<Event>, token: Token)
    requires WipeInv(s) && token.uin < s.ids.uin && !PassesEpoch(s, token)
    ensures EverPasses(s, events, token) <==> EverReopens(s, events, token)
    decreases |events|
  {
    if events != [] {
      PassesStep(s, events[0], token);
      StepKeeps(s, events[0]);
      if !Reopens(s, events[0], token) {
        PassesExactlyWhenReopened(Next(s, events[0]), events[1..], token);
      }
    }
  }

  /** An epoch falls exactly when a statement that began before the current epoch writes its own NOW(). */
  lemma EpochFallsExactlyWhen(s: Auth, e: Event, u: Uin)
    requires Reachable(s) && u in s.db.users && u in Next(s, e).db.users
    ensures Next(s, e).db.users[u] < s.db.users[u] <==>
            WritesEpoch(s, e, u) && e.began < s.db.users[u]
  {
    ReachableKeeps(s);
    EpochChange(s, e, u);
  }
}
