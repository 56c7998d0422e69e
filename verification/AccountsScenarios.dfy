/**
 Runs that show where the sessions and wipes promise less than they seem to.
 */
module AccountsScenarios {
  import opened Options
  import opened Accounts
  import opened AccountsWipe
  import opened AccountsRecords
  import opened AccountsSessions
  import opened AccountsLease

  lemma Start(config: Config) returns (s: Auth)
    ensures Reachable(s) && s.clock == SECOND && s.config == config && s.ids == Sequences(1, 0)
    ensures s.db == Tables(map[0 := 0], {}, map[], map[], References({}, {}, {}))
    ensures s.redis == Redis({}, {}) && s.procs == Processes(map[], map[]) && s.log == Log([], map[], [], {}, [])
  {
    s := Initial(config);
    assert Run(s, []) == s;
    ReachableNext(s, Tick(SECOND));
    ReachableNext(Next(s, Tick(SECOND)), Register);
    s := Next(Next(s, Tick(SECOND)), Register);
  }

  /** At one second, account 0 has logged in. */
  lemma LoggedIn(config: Config) returns (s: Auth)
    ensures Reachable(s) && s.clock == SECOND && s.db.users == map[0 := 0] && s.db.markers == {}
    ensures s.redis.revoked == {} && s.log.issued == Session(0, SECOND, true) && s.db.refresh == map[1 := RefreshRow(0, SECOND + REFRESH_TTL)]
  {
    s := Start(config);
    ReachableNext(s, Login(0, SECOND));
    s := Next(s, Login(0, SECOND));
  }

  /** Its refresh token is then rotated. */
  lemma Rotation(config: Config) returns (s: Auth)
    ensures Reachable(s) && s.clock == SECOND && s.db.users == map[0 := 0] && s.db.markers == {} && 1 !in s.db.refresh
    ensures s.redis.revoked == {} && |s.log.issued| == 4 && s.log.issued[..2] == Session(0, SECOND, true)
  {
    var a := LoggedIn(config);
    assert RotationOf(a, 1, SECOND) == Rotated;
    ReachableNext(a, Rotate(1, SECOND, SECOND));
    s := Next(a, Rotate(1, SECOND, SECOND));
  }

  /** A second passes. */
  lemma RotationAged(config: Config) returns (s: Auth)
    ensures Reachable(s) && s.clock == 2 * SECOND && s.db.users == map[0 := 0] && s.db.markers == {} && 1 !in s.db.refresh
    ensures s.redis.revoked == {} && |s.log.issued| == 4
    ensures s.log.issued[0] == Issue(Sign(0, Access, SECOND), SECOND, true)
    ensures s.log.issued[1] == Issue(Sign(0, Refresh, SECOND), SECOND, true)
  {
    var a := Rotation(config);
    assert a.log.issued[0] == a.log.issued[..2][0] && a.log.issued[1] == a.log.issued[..2][1];
    ReachableNext(a, Tick(SECOND));
    s := Next(a, Tick(SECOND));
  }

  /** Reuse of a refresh token revokes every session; a logout statement that had begun a second earlier and commits
      afterwards moves the epoch back, and the access token from before the revocation verifies again. */
  lemma LateLogoutRevivesToken(config: Config) returns (revoked: Auth, revived: Auth)
    ensures Reachable(revoked) && revived == Next(revoked, BumpEpoch(0, SECOND))
    ensures |revoked.log.issued| > 0 && revoked.log.issued[0].at < 2 * SECOND
    ensures forall at :: !Verifies(revoked, revoked, revoked, 0, Access, at)
    ensures Verifies(revived, revived, revived, 0, Access, 2 * SECOND)
  {
    var s := RotationAged(config);
    assert RotationOf(s, 1, 2 * SECOND) == Reused;
    revoked := Next(s, Rotate(1, 2 * SECOND, 2 * SECOND));
    ReachableNext(s, Rotate(1, 2 * SECOND, 2 * SECOND));
    assert revoked == s.(db := RevokeAll(s.db, 0, 2 * SECOND));
    revived := Next(revoked, BumpEpoch(0, SECOND));
  }

  /** Account 0 is wiped: its job is pending, its user row exists. */
  lemma Wiped(config: Config, replied: bool) returns (s: Auth)
    ensures Reachable(s) && s.clock == SECOND && s.config == config && s.ids == Sequences(1, 1)
    ensures s.db == Tables(map[0 := SECOND], {0}, map[0 := Job(0, Pending, 0, SECOND, None, None)], map[], References({}, {}, {}))
    ensures s.redis.blocked == {0} && s.procs.runs == map[] && s.log.wiped == map[0 := 0] && s.log.issued == [] && s.log.traffic == []
    ensures s.procs.wipes == if replied then map[] else map[0 := WipeRequest(0, true)]
  {
    s := Start(config);
    var a := Next(s, WipeStart(0, 0));
    ReachableNext(s, WipeStart(0, 0));
    s := Next(a, WipeCommit(0, SECOND, replied));
    ReachableNext(a, WipeCommit(0, SECOND, replied));
  }

  /** A second wipe request that fails takes the key away although the first wipe has committed and the user row exists. */
  lemma FailedSecondWipeDropsKey(config: Config) returns (s: Auth)
    ensures Reachable(s) && 0 in s.log.wiped && 0 in s.db.users && 0 !in s.redis.blocked
  {
    var b := Wiped(config, true);
    var c := Next(b, WipeStart(1, 0));
    ReachableNext(b, WipeStart(1, 0));
    s := Next(c, WipeAbort(1, true));
    ReachableNext(c, WipeAbort(1, true));
  }

  /** So does the only wipe request itself when the reply to its commit is lost. */
  lemma LostReplyDropsKey(config: Config) returns (s: Auth)
    ensures Reachable(s) && 0 in s.log.wiped && 0 in s.db.users && 0 !in s.redis.blocked && s.ids.job == 1
  {
    var b := Wiped(config, false);
    s := Next(b, WipeAbort(0, true));
    ReachableNext(b, WipeAbort(0, true));
  }

  /** The session of a registration is issued without the row lock: it can add a refresh row after the wipe committed. */
  lemma RegistrationIssuesAfterWipe(config: Config) returns (s: Auth)
    ensures Reachable(s) && 0 in s.log.wiped && exists j :: j in s.db.refresh && s.db.refresh[j].uin == 0
  {
    var b := Wiped(config, true);
    s := Next(b, RegisterSession(0, SECOND));
    ReachableNext(b, RegisterSession(0, SECOND));
    assert 1 in s.db.refresh;
  }

  /** Writes do not ask whether the account is wiped either: data of an erased account can be stored after its job is gone. */
  lemma StoredAfterErasure(config: Config) returns (s: Auth)
    requires config.stores > 0
    ensures Reachable(s) && RowsGone(s, 0) && 0 !in s.db.jobs && (0, 0) in s.data
  {
    var b := Wiped(config, true);
    var events := WorkersComplete(b, 0);
    var c := Run(b, events);
    ReachableOn(b, events);
    ReachableKeeps(b);
    RunKeeps(b, events);
    s := Next(c, StoreData(0, 0));
    ReachableNext(c, StoreData(0, 0));
  }
}
