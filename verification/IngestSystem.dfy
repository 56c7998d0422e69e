/**
 All idempotency keys together. Keys share only the clock, so a run of the whole system looks, from one
 key, like a run of that key's cell: every theorem about cells holds for every key of the system.
 */
module IngestSystem {
  import opened IngestTypes
  import opened Ingest

  datatype Key = Key(sender: Uin, clientId: string)

  type System = map<Key, Cell>

  datatype SystemEvent = Clock(to: Time) | Local(key: Key, event: Event)

  function NextAll(s: System, e: SystemEvent): System {
    match e
    case Clock(to) => map k | k in s :: Next(s[k], Tick(to))
    case Local(key, event) => if key in s && !event.Tick? then s[key := Next(s[key], event)] else s
  }

  function RunAll(s: System, events: seq<SystemEvent>): System
    decreases |events|
  {
    if events == [] then s else RunAll(NextAll(s, events[0]), events[1..])
  }

  /** What one key sees of a run of the system. */
  function Project(events: seq<SystemEvent>, key: Key): seq<Event> {
    if events == [] then []
    else
      var rest := Project(events[1..], key);
      match events[0]
      case Clock(to) => [Tick(to)] + rest
      case Local(k, event) => if k == key && !event.Tick? then [event] + rest else rest
  }

  lemma {:induction false} KeysAreIndependent(s: System, events: seq<SystemEvent>, key: Key)
    requires key in s
    ensures key in RunAll(s, events) && RunAll(s, events)[key] == Run(s[key], Project(events, key))
    decreases |events|
  {
    if events != [] {
      var head, rest := Project(events, key), Project(events[1..], key);
      KeysAreIndependent(NextAll(s, events[0]), events[1..], key);
      if |head| > |rest| {
        assert head[1..] == rest;
      }
    }
  }

  /** The clock moves for every key at once, and nothing else moves it; a step of one key changes no other. */
  lemma OnlyClockIsShared(s: System, e: SystemEvent, key: Key)
    requires key in s
    ensures NextAll(s, e).Keys == s.Keys
    ensures NextAll(s, e)[key].clock == if e.Clock? && s[key].clock <= e.to then e.to else s[key].clock
    ensures e.Local? && e.key != key ==> NextAll(s, e)[key] == s[key]
  {
    if e.Local? && e.key == key && !e.event.Tick? { ClockKept(s[key], e.event); }
  }

  lemma ClockKept(c: Cell, e: Event)
    requires !e.Tick?
    ensures Next(c, e).clock == c.clock
  {
    match e
    case Step(w) =>
      if Running(c, w) { WorkerKeepsClock(c, w); }
    case StepLost(w) =>
      if Running(c, w) { WorkerKeepsClock(c, w); }
    case _ =>
  }

  lemma WorkerKeepsClock(c: Cell, w: ProcessId)
    ensures WorkerStep(c, w).clock == c.clock
  {
  }

  /** A system whose keys all start empty keeps every key's cell reachable. */
  lemma EveryKeyReachable(s: System, lease: Time, clock: Time, events: seq<SystemEvent>, key: Key)
    requires key in s && exists messageId :: s[key] == Initial(key.sender, messageId, lease, clock)
    ensures key in RunAll(s, events) && Reachable(RunAll(s, events)[key])
  {
    KeysAreIndependent(s, events, key);
    var messageId :| s[key] == Initial(key.sender, messageId, lease, clock);
    assert RunAll(s, events)[key] == Run(Initial(key.sender, messageId, lease, clock), Project(events, key));
  }
}
