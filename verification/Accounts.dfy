/**
 Accounts, sessions and account wipes of the auth service as one machine of atomic steps.

 One step is one PostgreSQL statement or locked transaction, or one Redis call. NOW() inside a
 transaction is the time the transaction began, which may lie before the time it commits; both are
 arguments of the step. Readings of a service's own clock are arguments too. A process that is never
 scheduled again has crashed. The log is history only: no step reads it to decide what to do.
 */
module Accounts {
  import opened Options

  type Uin = nat
  type Time = nat
  type JobId = nat
  type Jti = nat
  type WorkerId = nat
  type RequestId = nat

  const SECOND: Time := 1_000_000
  const ACCESS_TTL: Time := 900 * SECOND
  const REFRESH_TTL: Time := 604_800 * SECOND

  datatype Kind = Access | Refresh
  datatype Token = Token(uin: Uin, kind: Kind, iat: Time, exp: Time)
  datatype Issue = Issue(token: Token, at: Time, locked: bool)

  datatype Status = Pending | Processing | Retrying
  datatype Job = Job(uin: Uin, status: Status, retries: nat, nextRetryAt: Time, lease: Option<Time>, worker: Option<WorkerId>)
  datatype RefreshRow = RefreshRow(uin: Uin, expiresAt: Time)

  /** A confirmed cleanup points at its entry in the traffic of stored data. */
  datatype Milestone = Cleaned(store: nat, at: nat) | UserDeleted | KeyDeleted
  datatype Stage = Cleaning(next: nat, failed: bool) | Unblocking | DeletingJob

  /** One processOneJob call after its claim; trail lists what it has confirmed, in order; since is the length of the
      traffic at the claim. */
  datatype WorkerRun = WorkerRun(job: JobId, uin: Uin, retries: nat, stage: Stage, trail: seq<Milestone>, since: nat)

  /** PanicWipe after its key is set; sent: its transaction committed but the reply was lost. */
  datatype WipeRequest = WipeRequest(uin: Uin, sent: bool)

  datatype Config = Config(stores: nat, redis: bool)
  datatype Sequences = Sequences(uin: Uin, job: JobId)

  /** Rows that reference a user row without cascading: group memberships, directed contact edges, and rows only a wipe of the
      account removes (its prekey bundle, its security settings). */
  datatype References = References(members: set<Uin>, contacts: set<(Uin, Uin)>, own: set<Uin>)

  datatype Tables = Tables(users: map<Uin, Time>, markers: set<Uin>, jobs: map<JobId, Job>, refresh: map<Jti, RefreshRow>,
                           refs: References)
  datatype Redis = Redis(blocked: set<Uin>, revoked: set<Jti>)
  datatype Processes = Processes(runs: map<WorkerId, WorkerRun>, wipes: map<RequestId, WipeRequest>)

  /** Writes of an account's data to a store, and confirmed cleanups of it. */
  datatype Traffic = Stored(uin: Uin, store: nat) | Cleared(uin: Uin, store: nat)

  /** wiped: the newest job of every committed wipe; late: wipe requests for a user row already deleted. */
  datatype Log = Log(issued: seq<Issue>, wiped: map<Uin, JobId>, consumed: seq<Jti>, late: set<Uin>, traffic: seq<Traffic>)

  datatype Auth = Auth(config: Config, clock: Time, ids: Sequences, db: Tables, redis: Redis, data: set<(Uin, nat)>,
                       procs: Processes, log: Log)

  datatype Event =
    | Tick(elapsed: Time)
    | Register
    | RegisterSession(uin: Uin, at: Time)
    | Login(uin: Uin, at: Time)
    | Rotate(jti: Jti, began: Time, at: Time)
    | RevokeToken(jti: Jti)
    | BumpEpoch(uin: Uin, began: Time)
    | DropRefresh(uin: Uin)
    | StoreData(uin: Uin, store: nat)
    | GroupChange(members: set<Uin>)
    | AddContact(owner: Uin, target: Uin)
    | BlockContact(owner: Uin, target: Uin)
    | RemoveContact(owner: Uin, target: Uin)
    | OwnRow(uin: Uin)
    | WipeStart(r: RequestId, uin: Uin)
    | WipeCommit(r: RequestId, began: Time, replied: bool)
    | WipeAbort(r: RequestId, removed: bool)
    | KeyExpires(uin: Uin)
    | Claim(w: WorkerId, job: JobId, now: Time, lease: Time)
    | Renew(w: WorkerId, now: Time, lease: Time)
    | Phase(w: WorkerId, ok: bool)
    | Erase(w: WorkerId)
    | DeleteKey(w: WorkerId, ok: bool)
    | DeleteJob(w: WorkerId)
    | Retry(w: WorkerId, at: Time)
    | Stop(w: WorkerId)

  function Initial(config: Config): Auth {
    Auth(config, 0, Sequences(0, 0), Tables(map[], {}, map[], map[], References({}, {}, {})), Redis({}, {}), {},
         Processes(map[], map[]), Log([], map[], [], {}, []))
  }

  // Sessions

  function Floor(at: Time): Time { at - at % SECOND }

  function Sign(uin: Uin, kind: Kind, at: Time): Token {
    Token(uin, kind, Floor(at), Floor(at + if kind == Access then ACCESS_TTL else REFRESH_TTL))
  }

  function Session(uin: Uin, at: Time, locked: bool): seq<Issue> {
    [Issue(Sign(uin, Access, at), at, locked), Issue(Sign(uin, Refresh, at), at, locked)]
  }

  /** Signs a pair and inserts the refresh row under the hash of the refresh token, here its number. */
  function IssueSession(s: Auth, uin: Uin, at: Time, locked: bool, refresh: map<Jti, RefreshRow>): Auth {
    var n := |s.log.issued|;
    s.(db := s.db.(refresh := refresh[n + 1 := RefreshRow(uin, at + REFRESH_TTL)]),
       log := s.log.(issued := s.log.issued + Session(uin, at, locked)))
  }

  function RowsWithout(refresh: map<Jti, RefreshRow>, uin: Uin): map<Jti, RefreshRow> {
    map j | j in refresh && refresh[j].uin != uin :: refresh[j]
  }

  function Max(a: Time, b: Time): Time { if a < b then b else a }

  /** The one-statement revocation of every session on refresh reuse. */
  function RevokeAll(db: Tables, uin: Uin, began: Time): Tables
    requires uin in db.users
  {
    db.(users := db.users[uin := Max(began, db.users[uin] + 1)], refresh := RowsWithout(db.refresh, uin))
  }

  /** The locked session-issue transaction accepts this account. */
  predicate Open(db: Tables, uin: Uin) { uin in db.users && uin !in db.markers }

  datatype Rotation = Rejected | Reused | Expired | Mismatched | Rotated

  function RotationOf(s: Auth, jti: Jti, at: Time): Rotation
    requires jti < |s.log.issued|
  {
    var uin := s.log.issued[jti].token.uin;
    if !Open(s.db, uin) then Rejected
    else if jti !in s.db.refresh then Reused
    else if s.db.refresh[jti].expiresAt < at then Expired
    else if s.db.refresh[jti].uin != uin then Mismatched
    else Rotated
  }

  /** The refresh transaction of a presented refresh token. */
  function RotateNext(s: Auth, jti: Jti, began: Time, at: Time): Auth
    requires jti < |s.log.issued|
  {
    var uin := s.log.issued[jti].token.uin;
    var left := s.db.refresh - {jti};
    var used := s.(log := s.log.(consumed := s.log.consumed + [jti]));
    match RotationOf(s, jti, at)
    case Rejected => s
    case Reused => s.(db := RevokeAll(s.db, uin, began))
    case Expired => used.(db := s.db.(refresh := left))
    case Mismatched => used.(db := RevokeAll(s.db.(refresh := left), uin, began))
    case Rotated => IssueSession(used, uin, at, true, left)
  }

  // Verification reads the marker, the blocklist and the epoch one after the other.

  predicate PassesClaims(token: Token, kind: Kind, at: Time) {
    token.kind == kind && token.iat <= at < token.exp
  }

  predicate PassesMarker(s: Auth, token: Token) { token.uin !in s.db.markers }
  predicate PassesBlocklist(s: Auth, jti: Jti) { jti !in s.redis.revoked }
  predicate PassesEpoch(s: Auth, token: Token) {
    token.uin in s.db.users && s.db.users[token.uin] <= token.iat
  }

  /** Verify of an issued token, its three reads made in the given states. */
  predicate Verifies(s1: Auth, s2: Auth, s3: Auth, jti: Jti, kind: Kind, at: Time) {
    jti < |s1.log.issued| &&
    var token := s1.log.issued[jti].token;
    PassesClaims(token, kind, at) && PassesMarker(s1, token) && PassesBlocklist(s2, jti) && PassesEpoch(s3, token)
  }

  // Account wipes

  /** The references left when the rows of an account are deleted. */
  function RefsWithout(refs: References, uin: Uin): References {
    References(refs.members - {uin}, (set e | e in refs.contacts && e.0 != uin && e.1 != uin), refs.own - {uin})
  }

  predicate Referenced(refs: References, uin: Uin) {
    uin in refs.members || uin in refs.own || exists e :: e in refs.contacts && (e.0 == uin || e.1 == uin)
  }

  /** The locked transaction of a wipe request. If its reply is lost the request still recovers. */
  function WipeCommitNext(s: Auth, r: RequestId, began: Time, replied: bool): Auth
    requires r in s.procs.wipes && s.procs.wipes[r].uin in s.db.users
  {
    var uin := s.procs.wipes[r].uin;
    var job := Job(uin, Pending, 0, began, None, None);
    s.(ids := s.ids.(job := s.ids.job + 1),
       db := Tables(s.db.users[uin := began], s.db.markers + {uin}, s.db.jobs[s.ids.job := job], RowsWithout(s.db.refresh, uin),
                    RefsWithout(s.db.refs, uin)),
       procs := s.procs.(wipes := if replied then s.procs.wipes - {r} else s.procs.wipes[r := WipeRequest(uin, true)]),
       log := s.log.(wiped := s.log.wiped[uin := s.ids.job]))
  }

  predicate Claimable(job: Job, now: Time) {
    if job.status == Processing then job.lease.Some? && job.lease.value < now else job.nextRetryAt <= now
  }

  function ClaimNext(s: Auth, w: WorkerId, j: JobId, lease: Time): Auth
    requires j in s.db.jobs
  {
    var job := s.db.jobs[j];
    s.(db := s.db.(jobs := s.db.jobs[j := job.(status := Processing, lease := Some(lease), worker := Some(w))],
                   markers := if job.uin in s.db.users then s.db.markers + {job.uin} else s.db.markers),
       procs := s.procs.(runs := s.procs.runs[w := WorkerRun(j, job.uin, job.retries, Cleaning(0, false), [], |s.log.traffic|)]))
  }

  /** The row of the worker's job names the worker. */
  predicate Named(s: Auth, w: WorkerId) {
    w in s.procs.runs && s.procs.runs[w].job in s.db.jobs && s.db.jobs[s.procs.runs[w].job].worker == Some(w)
  }

  predicate Renewable(s: Auth, w: WorkerId, now: Time) {
    Named(s, w) &&
    var job := s.db.jobs[s.procs.runs[w].job];
    job.status == Processing && job.lease.Some? && now < job.lease.value
  }

  function PutJob(s: Auth, j: JobId, job: Job): Auth { s.(db := s.db.(jobs := s.db.jobs[j := job])) }

  function PutRun(s: Auth, w: WorkerId, run: WorkerRun): Auth {
    s.(procs := s.procs.(runs := s.procs.runs[w := run]))
  }

  function EndRun(s: Auth, w: WorkerId): Auth { s.(procs := s.procs.(runs := s.procs.runs - {w})) }

  function Advance(run: WorkerRun, stage: Stage, done: seq<Milestone>): WorkerRun {
    run.(stage := stage, trail := run.trail + done)
  }

  function PhaseNext(s: Auth, w: WorkerId, ok: bool): Auth
    requires w in s.procs.runs && s.procs.runs[w].stage.Cleaning?
  {
    var run := s.procs.runs[w];
    var k := run.stage.next;
    var stage := Cleaning(k + 1, run.stage.failed || !ok);
    if ok then
      PutRun(s.(data := s.data - {(run.uin, k)}, log := s.log.(traffic := s.log.traffic + [Cleared(run.uin, k)])), w,
             Advance(run, stage, [Cleaned(k, |s.log.traffic|)]))
    else PutRun(s, w, Advance(run, stage, []))
  }

  /** Final erasure goes through: every phase has confirmed and no row references the user row. */
  predicate Erasable(s: Auth, w: WorkerId) {
    w in s.procs.runs && s.procs.runs[w].stage == Cleaning(s.config.stores, false) && !Referenced(s.db.refs, s.procs.runs[w].uin)
  }

  /** Final erasure commits; it is not conditional on the worker still holding the lease. */
  function EraseNext(s: Auth, w: WorkerId): Auth
    requires w in s.procs.runs
  {
    var run := s.procs.runs[w];
    PutRun(s.(db := s.db.(users := s.db.users - {run.uin}, markers := s.db.markers - {run.uin},
                          refresh := RowsWithout(s.db.refresh, run.uin))),
           w, Advance(run, Unblocking, [UserDeleted]))
  }

  function DeleteKeyNext(s: Auth, w: WorkerId): Auth
    requires w in s.procs.runs
  {
    var run := s.procs.runs[w];
    PutRun(s.(redis := s.redis.(blocked := if s.config.redis then s.redis.blocked - {run.uin} else s.redis.blocked)),
           w, Advance(run, DeletingJob, [KeyDeleted]))
  }

  function DeleteJobNext(s: Auth, w: WorkerId): Auth
    requires w in s.procs.runs
  {
    EndRun(s.(db := s.db.(jobs := if Named(s, w) then s.db.jobs - {s.procs.runs[w].job} else s.db.jobs)), w)
  }

  const BASE_WAIT: Time := 10 * SECOND
  const MAX_WAIT: Time := 600 * SECOND

  function Pow2(n: nat): nat { if n == 0 then 1 else 2 * Pow2(n - 1) }

  /** min(base * 2^n, cap) */
  function Backoff(n: nat): Time { if BASE_WAIT * Pow2(n) < MAX_WAIT then BASE_WAIT * Pow2(n) else MAX_WAIT }

  /** scheduleRetry: the delay uses the retry count read at the claim. */
  function Rescheduled(s: Auth, w: WorkerId, at: Time): Auth
    requires w in s.procs.runs
  {
    if !Named(s, w) then s
    else
      var run := s.procs.runs[w];
      var job := s.db.jobs[run.job];
      PutJob(s, run.job, Job(job.uin, Retrying, job.retries + 1, at + Backoff(run.retries), None, None))
  }

  function RetryNext(s: Auth, w: WorkerId, at: Time): Auth
    requires w in s.procs.runs
  {
    EndRun(Rescheduled(s, w, at), w)
  }

  function WorkerNext(s: Auth, e: Event): Auth {
    match e
    case Claim(w, j, now, lease) =>
      if w !in s.procs.runs && j in s.db.jobs && now <= s.clock && Claimable(s.db.jobs[j], now) then ClaimNext(s, w, j, lease) else s
    case Renew(w, now, lease) =>
      if Renewable(s, w, now) && now <= s.clock then
        PutJob(s, s.procs.runs[w].job, s.db.jobs[s.procs.runs[w].job].(lease := Some(lease)))
      else s
    case Phase(w, ok) =>
      if w in s.procs.runs && s.procs.runs[w].stage.Cleaning? && s.procs.runs[w].stage.next < s.config.stores then PhaseNext(s, w, ok)
      else s
    case Erase(w) => if Erasable(s, w) then EraseNext(s, w) else s
    case DeleteKey(w, ok) =>
      if w in s.procs.runs && s.procs.runs[w].stage == Unblocking && (ok || !s.config.redis) then DeleteKeyNext(s, w) else s
    case DeleteJob(w) =>
      if w in s.procs.runs && s.procs.runs[w].stage == DeletingJob then DeleteJobNext(s, w) else s
    case Retry(w, at) => if w in s.procs.runs then RetryNext(s, w, at) else s
    case Stop(w) => EndRun(s, w)
    case _ => s
  }

  function SessionNext(s: Auth, e: Event): Auth {
    match e
    case Register => s.(ids := s.ids.(uin := s.ids.uin + 1), db := s.db.(users := s.db.users[s.ids.uin := 0]))
    case RegisterSession(uin, at) =>
      if uin in s.db.users && at <= s.clock then IssueSession(s, uin, at, false, s.db.refresh) else s
    case Login(uin, at) =>
      if Open(s.db, uin) && at <= s.clock then IssueSession(s, uin, at, true, s.db.refresh) else s
    case Rotate(jti, began, at) =>
      if jti < |s.log.issued| && s.log.issued[jti].token.kind == Refresh && began <= at <= s.clock then RotateNext(s, jti, began, at)
      else s
    case RevokeToken(jti) => s.(redis := s.redis.(revoked := s.redis.revoked + {jti}))
    case BumpEpoch(uin, began) =>
      if uin in s.db.users && began <= s.clock then s.(db := s.db.(users := s.db.users[uin := began])) else s
    case DropRefresh(uin) => s.(db := s.db.(refresh := RowsWithout(s.db.refresh, uin)))
    case _ => s
  }

  /** The step commits a wipe: the request has not committed before and the user row exists. */
  predicate Commits(s: Auth, e: Event) {
    e.WipeCommit? && e.r in s.procs.wipes && !s.procs.wipes[e.r].sent && s.procs.wipes[e.r].uin in s.db.users && e.began <= s.clock
  }

  predicate CommitsFor(s: Auth, e: Event, uin: Uin) { Commits(s, e) && s.procs.wipes[e.r].uin == uin }

  /** Rows that reference user rows; none of these statements reads the wiped-account markers. */
  function RefsNext(db: Tables, e: Event): References {
    var refs := db.refs;
    match e
    case GroupChange(members) => if members <= db.users.Keys then refs.(members := members) else refs
    case AddContact(owner, target) =>
      if owner != target && owner in db.users && target in db.users then
        refs.(contacts := refs.contacts + {(owner, target), (target, owner)})
      else refs
    case BlockContact(owner, target) =>
      if owner in db.users && target in db.users then refs.(contacts := refs.contacts + {(owner, target)}) else refs
    case RemoveContact(owner, target) => refs.(contacts := refs.contacts - {(owner, target)})
    case OwnRow(uin) => if uin in db.users then refs.(own := refs.own + {uin}) else refs
    case _ => refs
  }

  predicate RefsEvent(e: Event) {
    e.GroupChange? || e.AddContact? || e.BlockContact? || e.RemoveContact? || e.OwnRow?
  }

  function WipeNext(s: Auth, e: Event): Auth {
    match e
    case WipeStart(r, uin) =>
      if r in s.procs.wipes then s
      else s.(redis := s.redis.(blocked := s.redis.blocked + {uin}),
              procs := s.procs.(wipes := s.procs.wipes[r := WipeRequest(uin, false)]),
              log := s.log.(late := if uin in s.db.users then s.log.late else s.log.late + {uin}))
    case WipeCommit(r, began, replied) => if Commits(s, e) then WipeCommitNext(s, r, began, replied) else s
    case WipeAbort(r, removed) =>
      if r in s.procs.wipes then
        s.(redis := s.redis.(blocked := if removed then s.redis.blocked - {s.procs.wipes[r].uin} else s.redis.blocked),
           procs := s.procs.(wipes := s.procs.wipes - {r}))
      else s
    case KeyExpires(uin) => s.(redis := s.redis.(blocked := s.redis.blocked - {uin}))
    case _ => s
  }

  function Next(s: Auth, e: Event): Auth {
    match e
    case Tick(elapsed) => s.(clock := s.clock + elapsed)
    case StoreData(uin, k) =>
      if k < s.config.stores then s.(data := s.data + {(uin, k)}, log := s.log.(traffic := s.log.traffic + [Stored(uin, k)])) else s
    case _ =>
      if RefsEvent(e) then s.(db := s.db.(refs := RefsNext(s.db, e)))
      else if e.WipeStart? || e.WipeCommit? || e.WipeAbort? || e.KeyExpires? then WipeNext(s, e)
      else if e.Claim? || e.Renew? || e.Phase? || e.Erase? || e.DeleteKey? || e.DeleteJob? || e.Retry? || e.Stop? then WorkerNext(s, e)
      else SessionNext(s, e)
  }

  function Run(s: Auth, events: seq<Event>): Auth
    decreases |events|
  {
    if events == [] then s else Run(Next(s, events[0]), events[1..])
  }

  lemma {:induction false} RunAppend(s: Auth, first: seq<Event>, second: seq<Event>)
    ensures Run(s, first + second) == Run(Run(s, first), second)
    decreases |first|
  {
    if first == [] {
      assert first + second == second;
    } else {
      assert (first + second)[1..] == first[1..] + second;
      RunAppend(Next(s, first[0]), first[1..], second);
    }
  }

  lemma RunSnoc(s: Auth, trace: seq<Event>, e: Event)
    ensures Run(s, trace + [e]) == Next(Run(s, trace), e)
  {
    RunAppend(s, trace, [e]);
    var d := Run(s, trace);
    assert Run(d, [e]) == Run(Next(d, e), [e][1..]) == Next(d, e);
  }

  ghost predicate Reachable(s: Auth) { exists config, events :: s == Run(Initial(config), events) }
}
