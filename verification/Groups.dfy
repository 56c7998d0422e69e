/**
 Groups, their members and epochs, and the sender-key distributions stored for them.

 One step is one SQL statement; every sub-select of a statement reads the tables as they were before
 it. Group identifiers are never reused. Distribution identifiers are numbers here: only their
 identity and their order matter.
 */
module Groups {
  import opened Options

  type Uin = nat
  type Time = nat
  type Gid = nat

  const DAY: Time := 86_400_000_000
  const SENDER_LIMIT := 4

  datatype Member = Member(admin: bool, joinedAt: Time)
  datatype Group = Group(owner: Uin, epoch: nat, members: map<Uin, Member>)
  datatype DistKey = DistKey(group: Gid, epoch: nat, recipient: Uin, sender: Uin, id: nat)
  datatype Dist = Dist(createdAt: Time, retiredAt: Option<Time>, ciphertext: string)
  datatype State = State(groups: map<Gid, Group>, dists: map<DistKey, Dist>, nextGid: Gid)

  datatype Event =
    | Create(owner: Uin, now: Time)
    | Add(g: Gid, actor: Uin, uin: Uin, now: Time)
    | Remove(g: Gid, actor: Uin, uin: Uin, now: Time)
    | WipeMember(uin: Uin, now: Time)
    | Delete(g: Gid, actor: Uin)
    | Put(key: DistKey, ciphertext: string, now: Time)
    | Sweep(g: Gid, uin: Uin, now: Time)
    | UserErased(uin: Uin)

  // Succession: the longest-standing member, the smaller UIN on a tie.

  predicate Earlier(members: map<Uin, Member>, a: Uin, b: Uin)
    requires a in members && b in members
  {
    members[a].joinedAt < members[b].joinedAt || (members[a].joinedAt == members[b].joinedAt && a < b)
  }

  predicate IsFirst(members: map<Uin, Member>, x: Uin) {
    x in members && forall y :: y in members && y != x ==> Earlier(members, x, y)
  }

  lemma {:induction false} FirstExists(members: map<Uin, Member>)
    requires members != map[]
    ensures exists x :: IsFirst(members, x)
    decreases |members|
  {
    var x :| x in members;
    var rest := members - {x};
    if rest == map[] {
      assert forall y :: y in members && y != x ==> y in rest;
      assert IsFirst(members, x);
    } else {
      FirstExists(rest);
      var y :| IsFirst(rest, y);
      assert forall z :: z in members && z != x ==> z in rest;
      assert IsFirst(members, if Earlier(members, x, y) then x else y);
    }
  }

  lemma FirstUnique(members: map<Uin, Member>, x: Uin, y: Uin)
    requires IsFirst(members, x) && IsFirst(members, y)
    ensures x == y
  {
  }

  ghost function First(members: map<Uin, Member>): (x: Uin)
    requires members != map[]
    ensures IsFirst(members, x)
  {
    FirstExists(members);
    var x :| IsFirst(members, x);
    x
  }

  /** The group without the member: the heir takes over from a leaving owner, an empty group is gone. */
  ghost function Leave(group: Group, uin: Uin): Option<Group> {
    var rest := group.members - {uin};
    if rest == map[] then None
    else if group.owner != uin then Some(Group(group.owner, group.epoch + 1, rest))
    else Some(Group(First(rest), group.epoch + 1, rest[First(rest) := rest[First(rest)].(admin := true)]))
  }

  // Distributions

  function RetiredAt(d: Dist, now: Time): Dist {
    if d.retiredAt.Some? then d else d.(retiredAt := Some(now))
  }

  /** Distributions of the groups are retired if they are not yet. */
  function Retired(dists: map<DistKey, Dist>, groups: set<Gid>, now: Time): map<DistKey, Dist> {
    map k | k in dists :: if k.group in groups then RetiredAt(dists[k], now) else dists[k]
  }

  function OfGroups(dists: map<DistKey, Dist>, groups: map<Gid, Group>): map<DistKey, Dist> {
    map k | k in dists && k.group in groups :: dists[k]
  }

  predicate Expired(d: Dist, now: Time) { d.retiredAt.Some? && d.retiredAt.value + DAY < now }

  function Swept(dists: map<DistKey, Dist>, g: Gid, recipient: Uin, now: Time): map<DistKey, Dist> {
    map k | k in dists && !(k.group == g && k.recipient == recipient && Expired(dists[k], now)) :: dists[k]
  }

  predicate SameSlot(a: DistKey, b: DistKey) {
    a.group == b.group && a.epoch == b.epoch && a.recipient == b.recipient && a.sender == b.sender
  }

  function Slot(dists: map<DistKey, Dist>, key: DistKey): set<DistKey> {
    set k | k in dists && SameSlot(k, key)
  }

  predicate Newer(dists: map<DistKey, Dist>, a: DistKey, b: DistKey)
    requires a in dists && b in dists
  {
    dists[a].createdAt > dists[b].createdAt || (dists[a].createdAt == dists[b].createdAt && a.id > b.id)
  }

  /** The keys of a set that come before the key in newest-first order. */
  function Above(dists: map<DistKey, Dist>, keys: set<DistKey>, key: DistKey): set<DistKey>
    requires keys <= dists.Keys && key in dists
  {
    set k | k in keys && Newer(dists, k, key)
  }

  function ActiveSlot(dists: map<DistKey, Dist>, key: DistKey): set<DistKey> {
    set k | k in dists && SameSlot(k, key) && dists[k].retiredAt == None
  }

  /** What a put deletes: the active distributions of the slot from rank four on. */
  function Trimmed(dists: map<DistKey, Dist>, key: DistKey): set<DistKey> {
    set k | k in dists && SameSlot(k, key) && dists[k].retiredAt == None &&
            |Above(dists, ActiveSlot(dists, key), k)| + 1 >= SENDER_LIMIT
  }

  predicate Eligible(s: State, key: DistKey) {
    key.group in s.groups && s.groups[key.group].epoch == key.epoch && key.sender in s.groups[key.group].members &&
    key.recipient in s.groups[key.group].members
  }

  function PutDists(s: State, key: DistKey, ciphertext: string, now: Time): map<DistKey, Dist> {
    var swept := Swept(s.dists, key.group, key.recipient, now);
    if !Eligible(s, key) then swept
    else if key in s.dists then swept
    else (swept - Trimmed(s.dists, key))[key := Dist(now, None, ciphertext)]
  }

  // Steps

  function CreateNext(s: State, owner: Uin, now: Time): State {
    s.(groups := s.groups[s.nextGid := Group(owner, 1, map[owner := Member(true, now)])], nextGid := s.nextGid + 1)
  }

  predicate Inserts(s: State, g: Gid, actor: Uin, uin: Uin) {
    g in s.groups && actor in s.groups[g].members && s.groups[g].members[actor].admin && uin !in s.groups[g].members
  }

  /** Adding retires the distributions of the epoch that ends. */
  function AddNext(s: State, g: Gid, uin: Uin, now: Time): State
    requires g in s.groups
  {
    var group := s.groups[g];
    s.(groups := s.groups[g := Group(group.owner, group.epoch + 1, group.members[uin := Member(false, now)])],
       dists := map k | k in s.dists ::
         if k.group == g && k.epoch == group.epoch then RetiredAt(s.dists[k], now) else s.dists[k])
  }

  predicate Removes(s: State, g: Gid, actor: Uin, uin: Uin) {
    g in s.groups && uin in s.groups[g].members &&
    (actor == uin || (actor in s.groups[g].members && s.groups[g].members[actor].admin))
  }

  ghost function RemoveNext(s: State, g: Gid, uin: Uin, now: Time): State
    requires g in s.groups
  {
    var left := Leave(s.groups[g], uin);
    var groups := if left.Some? then s.groups[g := left.value] else s.groups - {g};
    s.(groups := groups, dists := OfGroups(Retired(s.dists, {g}, now), groups))
  }

  function Affected(s: State, uin: Uin): set<Gid> { set g | g in s.groups && uin in s.groups[g].members }

  ghost function WipeNext(s: State, uin: Uin, now: Time): State {
    var groups := map g | g in s.groups && (uin in s.groups[g].members ==> Leave(s.groups[g], uin).Some?) ::
      if uin in s.groups[g].members then Leave(s.groups[g], uin).value else s.groups[g];
    s.(groups := groups, dists := OfGroups(Retired(s.dists, Affected(s, uin), now), groups))
  }

  function DeleteNext(s: State, g: Gid): State {
    s.(groups := s.groups - {g}, dists := OfGroups(s.dists, s.groups - {g}))
  }

  ghost function Next(s: State, e: Event): State {
    match e
    case Create(owner, now) => CreateNext(s, owner, now)
    case Add(g, actor, uin, now) => if Inserts(s, g, actor, uin) then AddNext(s, g, uin, now) else s
    case Remove(g, actor, uin, now) => if Removes(s, g, actor, uin) then RemoveNext(s, g, uin, now) else s
    case WipeMember(uin, now) => WipeNext(s, uin, now)
    case Delete(g, actor) => if g in s.groups && s.groups[g].owner == actor then DeleteNext(s, g) else s
    case Put(key, ciphertext, now) => s.(dists := PutDists(s, key, ciphertext, now))
    case Sweep(g, uin, now) => s.(dists := Swept(s.dists, g, uin, now))
    case UserErased(uin) =>
      if forall g :: g in s.groups ==> uin !in s.groups[g].members then
        s.(dists := map k | k in s.dists && k.sender != uin && k.recipient != uin :: s.dists[k])
      else s
  }

  ghost function Run(s: State, events: seq<Event>): State
    decreases |events|
  {
    if events == [] then s else Run(Next(s, events[0]), events[1..])
  }

  ghost predicate Reachable(s: State) { exists events :: s == Run(State(map[], map[], 0), events) }

  // Membership

  /** The owner is a member, and the only admin. */
  ghost predicate GroupOk(group: Group) {
    group.owner in group.members && group.epoch >= 1 && forall u :: u in group.members ==> (group.members[u].admin <==> u == group.owner)
  }

  ghost predicate GroupsOk(s: State) { forall g :: g in s.groups ==> g < s.nextGid && GroupOk(s.groups[g]) }

  lemma LeaveOk(group: Group, uin: Uin)
    requires GroupOk(group)
    ensures Leave(group, uin).Some? ==> GroupOk(Leave(group, uin).value)
  {
  }

  lemma StepGroups(s: State, e: Event)
    requires GroupsOk(s)
    ensures GroupsOk(Next(s, e))
  {
    forall g, u | g in s.groups ensures Leave(s.groups[g], u).Some? ==> GroupOk(Leave(s.groups[g], u).value) {
      LeaveOk(s.groups[g], u);
    }
  }

  /** Groups carry on or disappear; a membership change raises the epoch. */
  ghost predicate Evolves(s: State, t: State) {
    s.nextGid <= t.nextGid &&
    (forall g :: g in t.groups && g < s.nextGid ==> g in s.groups) &&
    (forall g :: g in s.groups && g in t.groups ==>
       s.groups[g].epoch <= t.groups[g].epoch &&
       (s.groups[g].epoch == t.groups[g].epoch ==> s.groups[g].members.Keys == t.groups[g].members.Keys))
  }

  lemma StepEvolves(s: State, e: Event)
    requires GroupsOk(s)
    ensures Evolves(s, Next(s, e))
  {
  }

  lemma EvolvesTwice(s: State, t: State, v: State)
    requires Evolves(s, t) && Evolves(t, v) && GroupsOk(s)
    ensures Evolves(s, v)
  {
  }

  lemma {:induction false} RunEvolves(s: State, events: seq<Event>)
    requires GroupsOk(s)
    ensures GroupsOk(Run(s, events)) && Evolves(s, Run(s, events))
    decreases |events|
  {
    if events != [] {
      StepGroups(s, events[0]);
      StepEvolves(s, events[0]);
      RunEvolves(Next(s, events[0]), events[1..]);
      EvolvesTwice(s, Next(s, events[0]), Run(s, events));
    }
  }

  lemma ReachableGroups(s: State)
    requires Reachable(s)
    ensures GroupsOk(s)
  {
    var events :| s == Run(State(map[], map[], 0), events);
    RunEvolves(State(map[], map[], 0), events);
  }

  /** The owner is a member, so no group is empty, and exactly the owner has role admin. */
  lemma OwnerIsAdmin(s: State, g: Gid)
    requires Reachable(s) && g in s.groups
    ensures s.groups[g].owner in s.groups[g].members && s.groups[g].members != map[]
    ensures forall u :: u in s.groups[g].members ==> (s.groups[g].members[u].admin <==> u == s.groups[g].owner)
  {
    ReachableGroups(s);
  }

  /** When an owner leaves or is removed and others remain, the longest-standing of them owns the group as an admin; the others
      keep their rows, and the epoch moves by one. */
  lemma HeirTakesOver(s: State, g: Gid, actor: Uin, now: Time)
    requires g in s.groups && Removes(s, g, actor, s.groups[g].owner) && s.groups[g].members - {s.groups[g].owner} != map[]
    ensures
      var owner, rest := s.groups[g].owner, s.groups[g].members - {s.groups[g].owner};
      var t := Next(s, Remove(g, actor, owner, now));
      g in t.groups && t.groups[g].owner in rest &&
      (forall u :: u in rest && u != t.groups[g].owner ==>
         var heir := t.groups[g].owner;
         rest[heir].joinedAt < rest[u].joinedAt || (rest[heir].joinedAt == rest[u].joinedAt && heir < u)) &&
      t.groups[g].epoch == s.groups[g].epoch + 1 &&
      t.groups[g].members.Keys == rest.Keys && t.groups[g].members[t.groups[g].owner].admin &&
      forall u :: u in rest && u != t.groups[g].owner ==> t.groups[g].members[u] == rest[u]
  {
    var rest := s.groups[g].members - {s.groups[g].owner};
    assert rest[First(rest) := rest[First(rest)].(admin := true)].Keys == rest.Keys;
  }

  /** The epoch never falls, and at equal epochs the members are the same. */
  lemma EpochDeterminesMembers(s: State, events: seq<Event>, g: Gid)
    requires Reachable(s) && g in s.groups && g in Run(s, events).groups
    ensures s.groups[g].epoch <= Run(s, events).groups[g].epoch
    ensures s.groups[g].epoch == Run(s, events).groups[g].epoch ==>
              s.groups[g].members.Keys == Run(s, events).groups[g].members.Keys
  {
    ReachableGroups(s);
    RunEvolves(s, events);
  }

  /** A group once deleted never comes back. */
  lemma DeletedStaysDeleted(s: State, events: seq<Event>, g: Gid)
    requires Reachable(s) && g < s.nextGid && g !in s.groups
    ensures g !in Run(s, events).groups
  {
    ReachableGroups(s);
    RunEvolves(s, events);
  }
}
