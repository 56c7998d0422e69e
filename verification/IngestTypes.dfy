/**
 Rows, requests and pure decisions of the durable message ingest.

 Times are milliseconds. A digest is modelled by its preimage, so SHA-256 is injective; what a raw
 envelope decodes to (recipients, ciphertext, message type, requested lifetime) is part of the
 envelope value.
 */
module IngestTypes {
  import opened Numbers
  import opened Options

  type Uin = nat
  type Time = nat
  type Token = nat
  type ProcessId = nat

  datatype Kind = Direct | Group
  datatype IngestState = Pending | Stored | Delivered | Erased

  /** The recipient queue a delivery is accepted into. */
  datatype Scope = DirectScope | GroupScope(group: string)

  datatype Envelope = Envelope(scope: Scope, named: seq<Uin>, ciphertext: string, msgType: string, expiresIn: nat)

  datatype Digest = Sha256(preimage: Envelope)

  datatype Request =
    | DirectRequest(receiver: Uin, conversation: string, envelope: Envelope)
    | GroupRequest(group: string, epoch: int, recipients: seq<Uin>, envelope: Envelope)

  datatype Row = Row(
    kind: Kind, receiver: Uin, conversation: string, group: string, epoch: int, recipients: seq<Uin>,
    envelope: Option<Envelope>, hash: Option<Digest>, messageId: nat, createdAt: Time, expiresAt: Time,
    state: IngestState, owner: Token, leaseUntil: Time, sanitized: bool)

  /** What the first claim of one row life fixed. */
  datatype Life = Life(
    kind: Kind, receiver: Uin, conversation: string, group: string, epoch: int, recipients: seq<Uin>,
    envelope: Envelope, messageId: nat, createdAt: Time, expiresAt: Time)

  datatype Outcome =
    | Invalid
    | Conflict
    | Busy
    | LeaseLost
    | Failed
    | RecipientErased
    | Committed(messageId: nat, createdAt: Time, state: IngestState)

  const DEFAULT_TTL: Time := 24 * 3600 * 1000
  const MAX_TTL: Time := 7 * 24 * 3600 * 1000

  /** Retention is always bounded: no request obtains an unlimited lifetime. */
  function EffectiveTtl(seconds: int): (ttl: Time)
    ensures 0 < ttl <= MAX_TTL
  {
    if seconds <= 0 then DEFAULT_TTL
    else if seconds * 1000 > MAX_TTL then MAX_TTL
    else seconds * 1000
  }

  function KindOf(req: Request): Kind { if req.DirectRequest? then Direct else Group }

  predicate ValidRequest(sender: Uin, req: Request) {
    sender > 0 && req.envelope.ciphertext != "" &&
    match req
    case DirectRequest(receiver, conversation, _) => receiver > 0 && conversation != ""
    case GroupRequest(group, epoch, recipients, envelope) =>
      group != "" && epoch > 0 && recipients != [] && envelope.msgType != "" &&
      forall i :: 0 <= i < |recipients| ==> recipients[i] > 0
  }

  /** What the service makes of a raw envelope: a direct request goes to the one recipient its envelope names, a group request
      and its envelope carry the same recipient snapshot, which holds the sender. */
  predicate Coherent(sender: Uin, req: Request) {
    match req
    case DirectRequest(receiver, _, envelope) => envelope.scope == DirectScope && envelope.named == [receiver]
    case GroupRequest(group, _, recipients, envelope) =>
      envelope.scope == GroupScope(group) && envelope.named == recipients && sender in recipients
  }

  /** The record a worker proposes: lease capped by the row's own expiry. */
  function Proposed(messageId: nat, req: Request, now: Time, lease: Time, token: Token): Row {
    var expiresAt := now + EffectiveTtl(req.envelope.expiresIn);
    var leaseUntil := Min(now + lease, expiresAt);
    match req
    case DirectRequest(receiver, conversation, envelope) =>
      Row(Direct, receiver, conversation, "", 0, [], Some(envelope), Some(Sha256(envelope)), messageId, now, expiresAt,
          Pending, token, leaseUntil, false)
    case GroupRequest(group, epoch, recipients, envelope) =>
      Row(Group, 0, "", group, epoch, recipients, Some(envelope), Some(Sha256(envelope)), messageId, now, expiresAt,
          Pending, token, leaseUntil, false)
  }

  /** Every field but the lease is compared; a sanitized row no longer compares its recipient list. */
  predicate SameMessage(current: Row, proposed: Row) {
    current.hash == proposed.hash && current.kind == proposed.kind && current.receiver == proposed.receiver &&
    current.conversation == proposed.conversation && current.group == proposed.group &&
    current.epoch == proposed.epoch && (current.sanitized || current.recipients == proposed.recipients)
  }

  datatype Decision = Answer(outcome: Outcome) | TakeOver

  /** What a claim whose insert lost does with the row it loads. */
  function Decide(current: Row, proposed: Row, now: Time): Decision {
    if current.hash.None? then Answer(Failed)
    else if current.state == Erased then Answer(RecipientErased)
    else if !SameMessage(current, proposed) then Answer(Conflict)
    else if current.state == Stored || current.state == Delivered then
      Answer(Committed(current.messageId, current.createdAt, current.state))
    else if current.expiresAt <= now then Answer(Busy)
    else if current.state != Pending || current.leaseUntil > now then Answer(Busy)
    else TakeOver
  }

  /** A list with every occurrence of one UIN removed, order kept. */
  function Without(list: seq<Uin>, uin: Uin): seq<Uin> {
    if list == [] then []
    else if list[0] == uin then Without(list[1..], uin)
    else [list[0]] + Without(list[1..], uin)
  }

  /** A list with every member of a set removed, order kept. */
  function WithoutAll(list: seq<Uin>, removed: set<Uin>): seq<Uin> {
    if list == [] then []
    else if list[0] in removed then WithoutAll(list[1..], removed)
    else [list[0]] + WithoutAll(list[1..], removed)
  }

  function Terminalized(row: Row): Row {
    row.(state := Erased, receiver := 0, conversation := "", recipients := [], envelope := None, hash := None,
         sanitized := true)
  }

  lemma {:induction false} WithoutMembers(list: seq<Uin>, uin: Uin, other: Uin)
    ensures other in Without(list, uin) <==> other in list && other != uin
    ensures |Without(list, uin)| <= |list|
    ensures uin in list ==> |Without(list, uin)| < |list|
    ensures uin !in list ==> Without(list, uin) == list
  {
    if list != [] {
      WithoutMembers(list[1..], uin, other);
      assert list == [list[0]] + list[1..];
    }
  }

  lemma {:induction false} WithoutAllMembers(list: seq<Uin>, removed: set<Uin>, other: Uin)
    ensures other in WithoutAll(list, removed) <==> other in list && other !in removed
  {
    if list != [] {
      WithoutAllMembers(list[1..], removed, other);
      assert list == [list[0]] + list[1..];
    }
  }

  /** Removing one more UIN from a filtered list is filtering by the larger set. */
  lemma {:induction false} WithoutAllOneMore(list: seq<Uin>, removed: set<Uin>, uin: Uin)
    ensures Without(WithoutAll(list, removed), uin) == WithoutAll(list, removed + {uin})
  {
    if list != [] {
      WithoutAllOneMore(list[1..], removed, uin);
      if list[0] !in removed {
        var rest := WithoutAll(list[1..], removed);
        assert ([list[0]] + rest)[1..] == rest;
      }
    }
  }

  lemma {:induction false} WithoutAllEmpty(list: seq<Uin>)
    ensures WithoutAll(list, {}) == list
  {
    if list != [] {
      WithoutAllEmpty(list[1..]);
      assert list == [list[0]] + list[1..];
    }
  }
}
