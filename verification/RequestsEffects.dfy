/**
 What one step of the request machine does to accounts, contact edges, own rows and pending wipes, edge by edge.
 */
module RequestsEffects {
  import opened Requests
  import G = Groups

  /** An account goes exactly if it was wiped and nothing names it; nothing else changes. */
  lemma ErasesExactlyWhen(s: State, u: Uin)
    ensures
      var t := Next(s, Erase(u));
      t == s.(users := t.users) &&
      t.users == if u in s.closed && u !in s.own && (forall x :: (u, x) !in s.contacts && (x, u) !in s.contacts) &&
                    (forall g :: g in s.groups.groups ==> u !in s.groups.groups[g].members) then s.users - {u} else s.users
  {
    if Referenced(s, u) && u !in s.own && (exists e :: e in s.contacts && Touches(e, u)) {
      var e :| e in s.contacts && Touches(e, u);
      assert e == (e.0, e.1);
    }
    if exists g :: InGroup(s.groups.groups, u, g) {
      var g :| InGroup(s.groups.groups, u, g);
      assert g in s.groups.groups && u in s.groups.groups[g].members;
    }
    if g :| g in s.groups.groups && u in s.groups.groups[g].members { assert InGroup(s.groups.groups, u, g); }
    if x :| (u, x) in s.contacts { assert Touches((u, x), u); }
    if x :| (x, u) in s.contacts { assert Touches((x, u), u); }
  }

  /** A request is admitted exactly while its account is registered and not wiped. */
  lemma AdmitsExactlyWhen(s: State, req: Request)
    ensures
      var t := Next(s, Admit(req));
      if req.actor in s.users && req.actor !in s.closed then t == s.(admitted := s.admitted[s.next := req], next := s.next + 1) else t == s
  {
  }

  /** A request that has acted does not act again. */
  lemma ActsOnce(s: State, id: Id)
    ensures id !in Next(s, Act(id)).admitted && Next(Next(s, Act(id)), Act(id)) == Next(s, Act(id))
  {
  }

  /** Which edges a request leaves. */
  lemma EdgeExactlyWhen(s: State, id: Id, x: Uin, y: Uin)
    requires id in s.admitted
    ensures
      var was, req := (x, y) in s.contacts, s.admitted[id];
      (x, y) in Next(s, Act(id)).contacts <==>
      match req
      case AddContact(a, t) => was || (a != t && a in s.users && t in s.users && ((x == a && y == t) || (x == t && y == a)))
      case BlockContact(a, t) => was || (a in s.users && t in s.users && x == a && y == t)
      case RemoveContact(a, t) => was && !(x == a && y == t)
      case _ => was
  {
  }

  lemma OwnRowExactlyWhen(s: State, id: Id, x: Uin)
    requires id in s.admitted
    ensures x in Next(s, Act(id)).own <==> x in s.own || (s.admitted[id] == StoreRow(x) && x in s.users)
  {
  }

  /** Which group statement a request executes, and when; no other request touches the groups. */
  lemma GroupStatement(s: State, id: Id)
    requires id in s.admitted
    ensures
      Next(s, Act(id)).groups ==
      match s.admitted[id]
      case CreateGroup(a) => if a in s.users then G.Next(s.groups, G.Create(a, s.clock)) else s.groups
      case AddMember(a, g, u) => if u in s.users then G.Next(s.groups, G.Add(g, a, u, s.clock)) else s.groups
      case RemoveMember(a, g, u) => G.Next(s.groups, G.Remove(g, a, u, s.clock))
      case DeleteGroup(a, g) => G.Next(s.groups, G.Delete(g, a))
      case _ => s.groups
  {
  }

  /** A wipe request waits for its transaction, and no request closes an account by itself. */
  lemma RequestKeeps(s: State, id: Id)
    requires id in s.admitted
    ensures
      var t := Next(s, Act(id));
      t.users == s.users && t.closed == s.closed && t.clock == s.clock && t.nextUin == s.nextUin && t.next == s.next &&
      t.wipes == if s.admitted[id].Wipe? then s.wipes[id := s.admitted[id].actor] else s.wipes
  {
  }

  /** The transaction of a wipe closes a registered account, and takes its edges, its rows and its memberships. */
  lemma CommitsExactlyWhen(s: State, id: Id)
    ensures
      var t := Next(s, Commit(id));
      if id in s.wipes && s.wipes[id] in s.users then
        var u := s.wipes[id];
        t.users == s.users && t.closed == s.closed + {u} && t.own == s.own - {u} && t.wipes == s.wipes - {id} && t.admitted == s.admitted &&
        (forall x, y :: (x, y) in t.contacts <==> (x, y) in s.contacts && x != u && y != u) &&
        (forall g :: g in t.groups.groups ==> u !in t.groups.groups[g].members) &&
        (forall g :: g in s.groups.groups && u !in s.groups.groups[g].members ==>
           g in t.groups.groups && t.groups.groups[g] == s.groups.groups[g])
      else t == s
  {
    if id in s.wipes && s.wipes[id] in s.users { WipeJoins(s.groups, s.wipes[id], s.clock); }
  }
}
