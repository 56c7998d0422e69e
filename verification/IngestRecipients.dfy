/**
 The recipient list of a group row under concurrent wipes: it is always the first claim's list with
 some wiped UINs taken out, in the original order, and a sanitize call that succeeded has lasting effect.
 */
module IngestRecipients {
  import opened Options
  import opened IngestTypes
  import opened Ingest
  import opened IngestIdentity

  /** One running sanitize call: its UIN is under wipe and its snapshot names it. */
  predicate SanitizerOk(c: Cell, sanitizer: Sanitizer) {
    sanitizer.uin in c.log.wipes.wiped &&
    (sanitizer.SanWriting? ==>
       IsLife(c, sanitizer.life) && sanitizer.snapshot.kind == LifeAt(c, sanitizer.life).kind &&
       (sanitizer.snapshot.kind == Direct ==> LifeAt(c, sanitizer.life).receiver == sanitizer.uin) &&
       (sanitizer.snapshot.kind == Group ==> sanitizer.uin in sanitizer.snapshot.recipients))
  }

  ghost predicate SanitizersInv(c: Cell) {
    forall z :: z in c.procs.sanitizers ==> SanitizerOk(c, c.procs.sanitizers[z])
  }

  /** Group lives have recipients, direct lives have none. */
  ghost predicate LivesInv(c: Cell) {
    forall i :: 0 <= i < |c.log.lives| ==> (c.log.lives[i].kind == Group <==> c.log.lives[i].recipients != [])
  }

  ghost predicate ListInv(c: Cell) {
    c.log.wipes.removed <= c.log.wipes.wiped &&
    (c.log.wipes.crossed ==> Current(c) >= 2) &&
    (c.row.Some? && IsLife(c, Current(c)) ==>
       var life, row, removed := LifeAt(c, Current(c)), c.row.value, c.log.wipes.removed;
       if row.state == Erased then
         c.log.wipes.crossed ||
         if life.kind == Direct then life.receiver in c.log.wipes.wiped else WithoutAll(life.recipients, removed) == []
       else
         (forall u :: u in removed ==> u in life.recipients) && row.recipients == WithoutAll(life.recipients, removed) &&
         (row.sanitized <==> removed != {}) && (life.kind == Group ==> row.recipients != []))
  }

  ghost predicate ClearedInv(c: Cell) {
    forall u, n :: (u, n) in c.log.wipes.cleared ==>
      n <= Current(c) && (n == Current(c) && c.row.Some? ==> NothingToSanitize(c.row.value, u, c.clock))
  }

  ghost predicate RecipientInv(c: Cell) {
    SanitizersInv(c) && LivesInv(c) && ListInv(c) && ClearedInv(c)
  }

  /** Two rows agree on everything the recipient invariants mention. */
  predicate SameList(r: Row, s: Row) {
    r.kind == s.kind && r.receiver == s.receiver && r.recipients == s.recipients && r.sanitized == s.sanitized &&
    r.expiresAt == s.expiresAt && (r.state == Erased <==> s.state == Erased)
  }

  /** Steps outside the wipe keep the list or lose the row. */
  predicate KeepsList(c: Cell, d: Cell) {
    d.log.lives == c.log.lives && d.log.wipes == c.log.wipes && d.procs.sanitizers == c.procs.sanitizers &&
    c.clock <= d.clock && (d.row.Some? ==> c.row.Some? && SameList(c.row.value, d.row.value))
  }

  lemma KeepsListInv(c: Cell, d: Cell)
    requires RecipientInv(c) && KeepsList(c, d)
    ensures RecipientInv(d)
  {
    forall z | z in d.procs.sanitizers
      ensures SanitizerOk(d, d.procs.sanitizers[z])
    {
      assert SanitizerOk(c, c.procs.sanitizers[z]);
    }
  }

  lemma InsertRecipients(c: Cell, w: ProcessId, req: Request, proposed: Row)
    requires RecipientInv(c) && FreshProposal(c, req, proposed)
    ensures RecipientInv(ClaimInsert(c, w, req, proposed))
  {
    var d := ClaimInsert(c, w, req, proposed);
    if c.row.Some? {
      KeepsListInv(c, d);
    } else {
      WithoutAllEmpty(proposed.recipients);
      forall z | z in d.procs.sanitizers
        ensures SanitizerOk(d, d.procs.sanitizers[z])
      {
        assert SanitizerOk(c, c.procs.sanitizers[z]);
      }
    }
  }

  lemma WorkerKeepsList(c: Cell, w: ProcessId)
    requires w in c.procs.workers && !c.procs.workers[w].Claiming?
    ensures KeepsList(c, WorkerStep(c, w))
  {
  }

  lemma WorkerRecipients(c: Cell, w: ProcessId)
    requires WorkersInv(c) && RecipientInv(c)
    ensures RecipientInv(WorkerStep(c, w))
  {
    if w in c.procs.workers {
      assert WorkerOk(c, c.procs.workers[w]);
      if c.procs.workers[w].Claiming? {
        InsertRecipients(c, w, c.procs.workers[w].req, c.procs.workers[w].proposed);
      } else {
        WorkerKeepsList(c, w);
        KeepsListInv(c, WorkerStep(c, w));
      }
    }
  }

  /** The effect of one finished sanitize call on the invariants, given the row it leaves behind. */
  lemma FinishRecipients(c: Cell, z: ProcessId, uin: Uin)
    requires RecipientInv(c) && z in c.procs.sanitizers && c.procs.sanitizers[z].uin == uin
    requires c.row.Some? ==> NothingToSanitize(c.row.value, uin, c.clock)
    ensures RecipientInv(SanitizerFinish(c, z, uin))
  {
    var d := SanitizerFinish(c, z, uin);
    forall y | y in d.procs.sanitizers
      ensures SanitizerOk(d, d.procs.sanitizers[y])
    {
      assert y in c.procs.sanitizers && SanitizerOk(c, c.procs.sanitizers[y]);
    }
  }

  lemma ReadRecipients(c: Cell, z: ProcessId, uin: Uin)
    requires RowInv(c) && RecipientInv(c) && z in c.procs.sanitizers && c.procs.sanitizers[z] == SanReading(uin)
    ensures RecipientInv(SanitizeRead(c, z, uin))
  {
    assert SanitizerOk(c, c.procs.sanitizers[z]);
    if uin == c.sender {
      var gone := c.(row := None);
      KeepsListInv(c, gone);
      FinishRecipients(gone, z, uin);
    } else if c.row.None? || NothingToSanitize(c.row.value, uin, c.clock) {
      FinishRecipients(c, z, uin);
    } else {
      MoveSanitizer(c, z, SanWriting(uin, c.row.value, Current(c)));
    }
  }

  lemma MoveSanitizer(c: Cell, z: ProcessId, sanitizer: Sanitizer)
    requires RecipientInv(c) && SanitizerOk(c, sanitizer)
    ensures RecipientInv(SetSanitizer(c, z, sanitizer))
  {
    var d := SetSanitizer(c, z, sanitizer);
    forall y | y in d.procs.sanitizers
      ensures SanitizerOk(d, d.procs.sanitizers[y])
    {
      assert y != z ==> SanitizerOk(c, c.procs.sanitizers[y]);
      assert SanitizerOk(c, sanitizer);
    }
  }

  lemma TerminalizeRecipients(c: Cell, z: ProcessId, uin: Uin, life: nat)
    requires RowInv(c) && RecipientInv(c) && c.row.Some?
    requires IsLife(c, life) && LifeAt(c, life).kind == Direct && LifeAt(c, life).receiver == uin && uin in c.log.wipes.wiped
    ensures
      var wipes := c.log.wipes.(crossed := c.log.wipes.crossed || life != Current(c));
      RecipientInv(c.(row := Some(Terminalized(c.row.value)), log := c.log.(wipes := wipes)))
  {
    var wipes := c.log.wipes.(crossed := c.log.wipes.crossed || life != Current(c));
    var d := c.(row := Some(Terminalized(c.row.value)), log := c.log.(wipes := wipes));
    forall y | y in d.procs.sanitizers
      ensures SanitizerOk(d, d.procs.sanitizers[y])
    {
      assert SanitizerOk(c, c.procs.sanitizers[y]);
    }
  }

  lemma DirectRecipients(c: Cell, z: ProcessId, uin: Uin, snapshot: Row, life: nat)
    requires RowInv(c) && RecipientInv(c) && z in c.procs.sanitizers && snapshot.kind == Direct
    requires c.procs.sanitizers[z] == SanWriting(uin, snapshot, life)
    ensures RecipientInv(SanitizeDirect(c, z, uin, life))
  {
    assert SanitizerOk(c, c.procs.sanitizers[z]);
    if c.row.None? {
      FinishRecipients(c, z, uin);
    } else {
      TerminalizeRecipients(c, z, uin, life);
      var wipes := c.log.wipes.(crossed := c.log.wipes.crossed || life != Current(c));
      FinishRecipients(c.(row := Some(Terminalized(c.row.value)), log := c.log.(wipes := wipes)), z, uin);
    }
  }

  /** Removing one UIN by compare-and-set: the list stays the first claim's list without the removed set. */
  lemma ShrinkRecipients(c: Cell, uin: Uin)
    requires RowInv(c) && RecipientInv(c) && c.row.Some? && uin in c.row.value.recipients && uin in c.log.wipes.wiped
    ensures
      var wipes := c.log.wipes.(removed := c.log.wipes.removed + {uin});
      RecipientInv(c.(row := Some(SanitizedRow(c.row.value, uin)), log := c.log.(wipes := wipes)))
    ensures NothingToSanitize(SanitizedRow(c.row.value, uin), uin, c.clock)
  {
    var life, row, removed := LifeAt(c, Current(c)), c.row.value, c.log.wipes.removed;
    var wipes := c.log.wipes.(removed := removed + {uin});
    var d := c.(row := Some(SanitizedRow(row, uin)), log := c.log.(wipes := wipes));
    WithoutAllOneMore(life.recipients, removed, uin);
    WithoutAllMembers(life.recipients, removed, uin);
    forall u
      ensures u in Without(row.recipients, uin) <==> u in row.recipients && u != uin
    {
      WithoutMembers(row.recipients, uin, u);
    }
    forall y | y in d.procs.sanitizers
      ensures SanitizerOk(d, d.procs.sanitizers[y])
    {
      assert SanitizerOk(c, c.procs.sanitizers[y]);
    }
  }

  lemma GroupRecipients(c: Cell, z: ProcessId, uin: Uin, snapshot: Row, life: nat)
    requires RowInv(c) && RecipientInv(c) && z in c.procs.sanitizers && snapshot.kind == Group
    requires c.procs.sanitizers[z] == SanWriting(uin, snapshot, life)
    ensures RecipientInv(SanitizeGroup(c, z, uin, snapshot))
  {
    assert SanitizerOk(c, c.procs.sanitizers[z]);
    if c.row.None? || c.row.value.recipients != snapshot.recipients {
      MoveSanitizer(c, z, SanReading(uin));
    } else {
      ShrinkRecipients(c, uin);
      var wipes := c.log.wipes.(removed := c.log.wipes.removed + {uin});
      FinishRecipients(c.(row := Some(SanitizedRow(c.row.value, uin)), log := c.log.(wipes := wipes)), z, uin);
    }
  }

  lemma SanitizerRecipients(c: Cell, z: ProcessId)
    requires RowInv(c) && RecipientInv(c)
    ensures RecipientInv(SanitizerNext(c, z))
  {
    if z in c.procs.sanitizers {
      match c.procs.sanitizers[z]
      case SanReading(uin) => ReadRecipients(c, z, uin);
      case SanWriting(uin, snapshot, life) =>
        if snapshot.kind == Direct {
          DirectRecipients(c, z, uin, snapshot, life);
        } else {
          GroupRecipients(c, z, uin, snapshot, life);
        }
      case SanDone(_) =>
    }
  }

  lemma StartWipeRecipients(c: Cell, z: ProcessId, uin: Uin)
    requires RecipientInv(c)
    ensures RecipientInv(StartWipe(c, z, uin))
  {
    var d := StartWipe(c, z, uin);
    forall y | y in d.procs.sanitizers
      ensures SanitizerOk(d, d.procs.sanitizers[y])
    {
      assert y in c.procs.sanitizers ==> SanitizerOk(c, c.procs.sanitizers[y]);
    }
  }

  lemma OtherKeepsList(c: Cell, e: Event)
    requires e.Start? || e.MarkerStep? || (OutsideRow(e) && !e.Wipe?)
    ensures KeepsList(c, Next(c, e))
  {
  }

  lemma StepRecipients(c: Cell, e: Event)
    requires IdentityInv(c) && RecipientInv(c)
    ensures RecipientInv(Next(c, e))
  {
    match e
    case Step(w) =>
      WorkerRecipients(c, w);
      KeepsListInv(WorkerStep(c, w), Reply(WorkerStep(c, w), w));
    case StepLost(w) =>
      WorkerRecipients(c, w);
      if Running(c, w) {
        KeepsListInv(WorkerStep(c, w), WorkerStepLost(c, w));
      }
    case SanitizerStep(z) => SanitizerRecipients(c, z);
    case Wipe(z, uin) => StartWipeRecipients(c, z, uin);
    case _ =>
      OtherKeepsList(c, e);
      KeepsListInv(c, Next(c, e));
  }

  lemma {:induction false} RunRecipients(c: Cell, events: seq<Event>)
    requires IdentityInv(c) && RecipientInv(c)
    ensures IdentityInv(Run(c, events)) && RecipientInv(Run(c, events))
    decreases |events|
  {
    if events != [] {
      StepRecipients(c, events[0]);
      StepIdentity(c, events[0]);
      RunRecipients(Next(c, events[0]), events[1..]);
    }
  }

  lemma ReachableRecipients(c: Cell)
    requires Reachable(c)
    ensures IdentityInv(c) && RecipientInv(c)
  {
    var sender, messageId, lease, clock, events :| c == Run(Initial(sender, messageId, lease, clock), events);
    RunRecipients(Initial(sender, messageId, lease, clock), events);
  }

  /** Taking out members of a list changes it exactly when there are any to take out. */
  lemma FilterChanges(first: seq<Uin>, removed: set<Uin>)
    requires forall u :: u in removed ==> u in first
    ensures removed != {} <==> WithoutAll(first, removed) != first
  {
    WithoutAllEmpty(first);
    if removed != {} {
      assert exists u :: u in removed;
      var u :| u in removed;
      WithoutAllMembers(first, removed, u);
    }
  }

  /** The list is the first claim's list with some wiped UINs removed, order kept; the flag says whether any was. */
  lemma ListIsFirstClaimMinusWiped(c: Cell)
    requires Reachable(c) && c.row.Some? && c.row.value.state != Erased
    ensures IsLife(c, Current(c))
    ensures exists removed :: removed <= c.log.wipes.wiped &&
              c.row.value.recipients == WithoutAll(LifeAt(c, Current(c)).recipients, removed)
    ensures c.row.value.sanitized <==> c.row.value.recipients != LifeAt(c, Current(c)).recipients
  {
    ReachableRecipients(c);
    var first, removed := LifeAt(c, Current(c)).recipients, c.log.wipes.removed;
    assert c.row.value.recipients == WithoutAll(first, removed);
    FilterChanges(first, removed);
  }

  /** A recipient of the first claim that is not under wipe is in the list of every row of that life that exists, unless the
      row was erased; what erases it is the subject of IngestLosses. */
  lemma LiveRecipientKept(c: Cell, uin: Uin)
    requires Reachable(c) && c.row.Some? && IsLife(c, Current(c)) && LifeAt(c, Current(c)).kind == Group
    requires uin in LifeAt(c, Current(c)).recipients && uin !in c.log.wipes.wiped
    ensures uin in c.row.value.recipients <==> c.row.value.state != Erased
  {
    ReachableRecipients(c);
    WithoutAllMembers(LifeAt(c, Current(c)).recipients, c.log.wipes.removed, uin);
  }

  /** No replay can put a UIN into the list that the first claim did not name. */
  lemma NoRecipientAdded(c: Cell, uin: Uin)
    requires Reachable(c) && c.row.Some? && uin in c.row.value.recipients
    ensures IsLife(c, Current(c)) && uin in LifeAt(c, Current(c)).recipients
  {
    ReachableRecipients(c);
    WithoutAllMembers(LifeAt(c, Current(c)).recipients, c.log.wipes.removed, uin);
  }

  /** A sanitize call that returned success in some life has lasting effect on that life, whatever runs later. */
  lemma SanitizeLasts(c: Cell, uin: Uin, life: nat, events: seq<Event>)
    requires Reachable(c) && (uin, life) in c.log.wipes.cleared
    ensures
      var later := Run(c, events);
      Current(later) == life && later.row.Some? && later.row.value.state != Erased && later.clock < later.row.value.expiresAt ==>
        if later.row.value.kind == Direct then later.row.value.receiver != uin else uin !in later.row.value.recipients
  {
    ReachableRecipients(c);
    RunRecipients(c, events);
    ClearedGrows(c, events);
    assert (uin, life) in Run(c, events).log.wipes.cleared;
  }

  lemma {:induction false} ClearedGrows(c: Cell, events: seq<Event>)
    ensures c.log.wipes.cleared <= Run(c, events).log.wipes.cleared
    decreases |events|
  {
    if events != [] {
      StepClearedGrows(c, events[0]);
      ClearedGrows(Next(c, events[0]), events[1..]);
    }
  }

  lemma WorkerClearedGrows(c: Cell, w: ProcessId)
    ensures WorkerStep(c, w).log.wipes.cleared == c.log.wipes.cleared
  {
  }

  lemma StepClearedGrows(c: Cell, e: Event)
    ensures c.log.wipes.cleared <= Next(c, e).log.wipes.cleared
  {
    match e
    case Step(w) => WorkerClearedGrows(c, w);
    case StepLost(w) => WorkerClearedGrows(c, w);
    case SanitizerStep(_) =>
    case Wipe(_, _) =>
    case _ => OtherKeepsList(c, e);
  }

  /** No worker rewrites the recipient column of an existing row. */
  lemma WorkerKeepsColumn(c: Cell, w: ProcessId)
    requires c.row.Some?
    ensures WorkerStep(c, w).row.Some? && WorkerStep(c, w).row.value.recipients == c.row.value.recipients
  {
  }
}
