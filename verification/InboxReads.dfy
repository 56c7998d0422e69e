/**
 Reading a whole sender-key inbox page by page, from the put requests that filled it to the concatenated
 responses. Distribution identifiers and timestamps enter a response with their encoded lengths.
 */
module InboxReads {
  import opened Numbers
  import opened Options
  import opened Groups
  import opened GroupKeys
  import opened Listings
  import opened SenderKeyInbox

  /** Lengths of an identifier as text and in JSON, and of a timestamp in JSON. */
  datatype Encoding = Encoding(idBytes: nat -> nat, idJson: nat -> nat, stamp: Time -> nat)

  /** One byte of an identifier takes one to six bytes in JSON, a timestamp at most 35. */
  ghost predicate Sound(enc: Encoding) {
    (forall id: nat :: enc.idBytes(id) <= enc.idJson(id) <= 6 * enc.idBytes(id)) &&
    (forall t: Time :: enc.stamp(t) <= 35)
  }

  function ItemOf(enc: Encoding, k: DistKey, d: Dist): Item {
    Item(k.epoch, k.sender, d.ciphertext, enc.idBytes(k.id), enc.idJson(k.id),
         if d.retiredAt.Some? then Some(enc.stamp(d.retiredAt.value)) else None)
  }

  function ItemsOf(enc: Encoding, dists: map<DistKey, Dist>, listing: seq<DistKey>): (items: seq<Item>)
    requires forall k :: k in listing ==> k in dists
    ensures |items| == |listing| && forall i :: 0 <= i < |listing| ==> items[i] == ItemOf(enc, listing[i], dists[listing[i]])
  {
    seq(|listing|, i requires 0 <= i < |listing| => ItemOf(enc, listing[i], dists[listing[i]]))
  }

  // What the put handler lets in

  /** The checks of the put handler; account numbers and epochs are 64-bit integers. */
  predicate Accepted(enc: Encoding, e: Event) {
    e.Put? ==>
      e.key.epoch < 0x8000_0000_0000_0000 && e.key.sender < 0x8000_0000_0000_0000 &&
      Decodes(e.ciphertext) && 1 <= DecodedLength(e.ciphertext) <= MAX_DISTRIBUTION_BYTES && 1 <= enc.idBytes(e.key.id) <= 128
  }

  ghost predicate AllStorable(enc: Encoding, s: State) {
    forall k :: k in s.dists ==> Storable(ItemOf(enc, k, s.dists[k]))
  }

  lemma StepStorable(enc: Encoding, s: State, e: Event)
    requires Sound(enc) && AllStorable(enc, s) && Accepted(enc, e)
    ensures AllStorable(enc, Next(s, e))
  {
    forall k | k in Next(s, e).dists ensures Storable(ItemOf(enc, k, Next(s, e).dists[k])) {
      if k in s.dists {
        KeepsCiphertext(s, e, k);
      } else {
        OnlyPutInserts(s, e, k);
      }
    }
  }

  /** No statement rewrites a stored ciphertext. */
  lemma KeepsCiphertext(s: State, e: Event, k: DistKey)
    requires k in s.dists && k in Next(s, e).dists
    ensures Next(s, e).dists[k].ciphertext == s.dists[k].ciphertext
  {
  }

  lemma OnlyPutInserts(s: State, e: Event, k: DistKey)
    requires k !in s.dists && k in Next(s, e).dists
    ensures e.Put? && k == e.key && Next(s, e).dists[k] == Dist(e.now, None, e.ciphertext)
  {
    if !e.Put? { OnlyPutAdds(s, e); }
  }

  ghost predicate AllAccepted(enc: Encoding, events: seq<Event>) {
    forall i :: 0 <= i < |events| ==> Accepted(enc, events[i])
  }

  lemma {:induction false} RunStorable(enc: Encoding, s: State, events: seq<Event>)
    requires Sound(enc) && AllStorable(enc, s) && AllAccepted(enc, events)
    ensures AllStorable(enc, Run(s, events))
    decreases |events|
  {
    if events != [] {
      StepStorable(enc, s, events[0]);
      RunStorable(enc, Next(s, events[0]), events[1..]);
    }
  }

  // One read

  /** Whose inbox is read, with the epoch an earlier statement of the request read. */
  datatype Inbox = Inbox(g: Gid, recipient: Uin, epoch: nat)

  ghost predicate Shows(s: State, inbox: Inbox, now: Time, k: DistKey) {
    Considered(s, inbox.g, inbox.recipient, inbox.epoch, now, k) &&
    Rank(s, inbox.g, inbox.recipient, inbox.epoch, now, k) <= SENDER_LIMIT
  }

  ghost predicate Before(s: State, inbox: Inbox, now: Time, a: DistKey, b: DistKey) {
    ListedBefore(s, inbox.g, inbox.recipient, inbox.epoch, now, a, b)
  }

  /** The result of the query without LIMIT and OFFSET: the rows that pass the rank filter, in its order. */
  ghost predicate IsInbox(s: State, inbox: Inbox, now: Time, listing: seq<DistKey>) {
    Ordered(listing, (a, b) => Before(s, inbox, now, a, b)) && forall k :: k in listing <==> Shows(s, inbox, now, k)
  }

  /** A page request: the state and time of its query, and its response. */
  datatype Read = Read(s: State, now: Time, response: seq<Item>)

  ghost predicate Answers(enc: Encoding, inbox: Inbox, read: Read, page: nat) {
    exists listing :: IsInbox(read.s, inbox, read.now, listing) && Replies(enc, read, listing, page)
  }

  ghost predicate Replies(enc: Encoding, read: Read, listing: seq<DistKey>, page: nat) {
    (forall k :: k in listing ==> k in read.s.dists) &&
    IsPage(Slice(ItemsOf(enc, read.s.dists, listing), page), read.response)
  }

  // The inbox stays the same

  /** The rows a read considers are the same at both times; everything else may differ. */
  ghost predicate SameInbox(inbox: Inbox, s: State, now: Time, t: State, later: Time) {
    forall k ::
      (Considered(s, inbox.g, inbox.recipient, inbox.epoch, now, k) <==> Considered(t, inbox.g, inbox.recipient, inbox.epoch, later, k)) &&
      (Considered(s, inbox.g, inbox.recipient, inbox.epoch, now, k) ==> s.dists[k] == t.dists[k])
  }

  /** The expired rows a read deletes are not among those the next reads of the current epoch consider. */
  lemma SweepKeepsInbox(inbox: Inbox, s: State, uin: Uin, now: Time, later: Time)
    requires Reachable(s) && inbox.g in s.groups && inbox.epoch == s.groups[inbox.g].epoch && now <= later
    ensures SameInbox(inbox, s, later, Next(s, Sweep(inbox.g, uin, now)), later)
  {
    ReachableKeys(s);
  }

  lemma SameRank(inbox: Inbox, s: State, now: Time, t: State, later: Time, k: DistKey)
    requires SameInbox(inbox, s, now, t, later) && Considered(s, inbox.g, inbox.recipient, inbox.epoch, now, k)
    ensures Rank(s, inbox.g, inbox.recipient, inbox.epoch, now, k) == Rank(t, inbox.g, inbox.recipient, inbox.epoch, later, k)
  {
    var g, r, e := inbox.g, inbox.recipient, inbox.epoch;
    assert (set o | o in s.dists && Considered(s, g, r, e, now, o) && SameSlot(o, k) && Newer(s.dists, o, k)) ==
           (set o | o in t.dists && Considered(t, g, r, e, later, o) && SameSlot(o, k) && Newer(t.dists, o, k));
  }

  lemma SameListing(inbox: Inbox, s: State, now: Time, t: State, later: Time, listing: seq<DistKey>)
    requires SameInbox(inbox, s, now, t, later) && IsInbox(s, inbox, now, listing)
    ensures IsInbox(t, inbox, later, listing)
  {
    forall k ensures k in listing <==> Shows(t, inbox, later, k) {
      if Considered(s, inbox.g, inbox.recipient, inbox.epoch, now, k) { SameRank(inbox, s, now, t, later, k); }
    }
    var was, less := (a, b) => Before(s, inbox, now, a, b), (a, b) => Before(t, inbox, later, a, b);
    forall i, j | 0 <= i < j < |listing| ensures less(listing[i], listing[j]) {
      assert was(listing[i], listing[j]) && listing[i] in listing && listing[j] in listing;
      SameRank(inbox, s, now, t, later, listing[i]);
      SameRank(inbox, s, now, t, later, listing[j]);
    }
  }

  // The listing of a state

  lemma InboxUnique(s: State, inbox: Inbox, now: Time, a: seq<DistKey>, b: seq<DistKey>)
    requires IsInbox(s, inbox, now, a) && IsInbox(s, inbox, now, b)
    ensures a == b
  {
    var less := (x, y) => Before(s, inbox, now, x, y);
    OrderStrict(s, inbox, now);
    ListingUnique(a, b, less);
  }

  lemma OrderStrict(s: State, inbox: Inbox, now: Time)
    ensures StrictOrder((a, b) => Before(s, inbox, now, a, b))
  {
    OrderIsStrict(s, inbox.g, inbox.recipient, inbox.epoch, now);
  }

  /** Every reachable inbox has a listing; it has each row the read considers, once. */
  lemma InboxExists(s: State, inbox: Inbox, now: Time) returns (listing: seq<DistKey>)
    requires Reachable(s)
    ensures IsInbox(s, inbox, now, listing)
    ensures forall k :: k in listing <==> Considered(s, inbox.g, inbox.recipient, inbox.epoch, now, k)
    ensures forall i, j :: 0 <= i < j < |listing| ==> listing[i] != listing[j]
  {
    var rows := set k | k in s.dists && Considered(s, inbox.g, inbox.recipient, inbox.epoch, now, k);
    var less := (a, b) => Before(s, inbox, now, a, b);
    OrderStrict(s, inbox, now);
    forall a, b | a in rows && b in rows && a != b ensures less(a, b) || less(b, a) {
      OrderIsTotal(s, inbox.g, inbox.recipient, inbox.epoch, now, a, b);
    }
    listing := ListingExists(rows, less);
    forall k ensures k in listing <==> Shows(s, inbox, now, k) {
      if k in rows { RankFilterHidesNothing(s, inbox.g, inbox.recipient, inbox.epoch, now, k); }
    }
    forall i, j | 0 <= i < j < |listing| ensures listing[i] != listing[j] { assert less(listing[i], listing[j]); }
  }

  // All pages

  function Responses(gets: seq<Read>): (r: seq<seq<Item>>)
    ensures |r| == |gets| && forall p :: 0 <= p < |gets| ==> r[p] == gets[p].response
  {
    seq(|gets|, p requires 0 <= p < |gets| => gets[p].response)
  }

  /** Consecutive page requests over an inbox whose rows stay as they are in `s` at `now`. */
  ghost predicate ReadsOf(enc: Encoding, inbox: Inbox, s: State, now: Time, gets: seq<Read>) {
    forall p :: 0 <= p < |gets| ==> Answers(enc, inbox, gets[p], p) && SameInbox(inbox, s, now, gets[p].s, gets[p].now)
  }

  lemma ReadIsServed(enc: Encoding, inbox: Inbox, s: State, now: Time, listing: seq<DistKey>, read: Read, page: nat)
    requires IsInbox(s, inbox, now, listing) && Answers(enc, inbox, read, page) && SameInbox(inbox, s, now, read.s, read.now)
    ensures forall k :: k in listing ==> k in s.dists
    ensures IsPage(Slice(ItemsOf(enc, s.dists, listing), page), read.response)
  {
    var own :| IsInbox(read.s, inbox, read.now, own) && Replies(enc, read, own, page);
    SameListing(inbox, s, now, read.s, read.now, listing);
    InboxUnique(read.s, inbox, read.now, own, listing);
    assert forall k :: k in listing ==> s.dists[k] == read.s.dists[k];
    assert ItemsOf(enc, s.dists, listing) == ItemsOf(enc, read.s.dists, listing);
  }

  predicate Complete(listing: seq<Item>, pages: seq<seq<Item>>) {
    forall p :: 0 <= p < |pages| ==> pages[p] == Slice(listing, p)
  }

  lemma {:induction false} CompleteFlattens(listing: seq<Item>, pages: seq<seq<Item>>)
    requires Complete(listing, pages)
    ensures Flatten(pages) == listing[..Min(|pages| * PAGE_ITEMS, |listing|)]
    decreases |pages|
  {
    if pages != [] {
      CompleteFlattens(listing, pages[..|pages| - 1]);
      SliceExtends(listing, |pages| - 1);
    }
  }

  lemma {:induction false} ShortFlattens(listing: seq<Item>, pages: seq<seq<Item>>)
    requires Served(listing, pages)
    ensures |Flatten(pages)| <= Min(|pages| * PAGE_ITEMS, |listing|)
    ensures !Complete(listing, pages) ==> |Flatten(pages)| < Min(|pages| * PAGE_ITEMS, |listing|)
    decreases |pages|
  {
    if pages != [] {
      var p := |pages| - 1;
      assert IsPage(Slice(listing, p), pages[p]);
      assert Served(listing, pages[..p]);
      ShortFlattens(listing, pages[..p]);
      LastPage(listing, pages);
    }
  }

  lemma LastPage(listing: seq<Item>, pages: seq<seq<Item>>)
    requires pages != [] && IsPage(Slice(listing, |pages| - 1), pages[|pages| - 1])
    ensures
      var p := |pages| - 1;
      |Flatten(pages)| == |Flatten(pages[..p])| + |pages[p]| &&
      Min(|pages| * PAGE_ITEMS, |listing|) == Min(p * PAGE_ITEMS, |listing|) + |Slice(listing, p)| &&
      |pages[p]| <= |Slice(listing, p)| && (|pages[p]| == |Slice(listing, p)| ==> pages[p] == Slice(listing, p)) &&
      (Complete(listing, pages[..p]) && pages[p] == Slice(listing, p) ==> Complete(listing, pages))
  {
    var p := |pages| - 1;
    SliceExtends(listing, p);
    if Complete(listing, pages[..p]) && pages[p] == Slice(listing, p) {
      forall q | 0 <= q < |pages| ensures pages[q] == Slice(listing, q) {
        if q < p { assert pages[..p][q] == Slice(listing, q); }
      }
    }
  }

  /** Pages of any content: together they are the rows they cover, each once and in order, exactly when every slice fits. */
  lemma PagesTileExactlyWhen(listing: seq<Item>, pages: seq<seq<Item>>)
    requires Served(listing, pages)
    ensures Flatten(pages) == listing[..Min(|pages| * PAGE_ITEMS, |listing|)] <==>
            forall p :: 0 <= p < |pages| ==> PageSize(Slice(listing, p)) <= MAX_RESPONSE_BYTES
  {
    forall p | 0 <= p < |pages| ensures pages[p] == Slice(listing, p) <==> PageSize(Slice(listing, p)) <= MAX_RESPONSE_BYTES {
      PageCompleteExactlyWhen(Slice(listing, p), pages[p]);
    }
    ShortFlattens(listing, pages);
    if Complete(listing, pages) { CompleteFlattens(listing, pages); }
  }

  /** The whole way: in every reachable state there is one listing of all considered rows, and consecutive page requests return
      the rows they cover, each once and in order, exactly when each slice of eight fits a response. */
  lemma InboxReadsExactlyWhen(enc: Encoding, inbox: Inbox, s: State, now: Time, gets: seq<Read>) returns (listing: seq<DistKey>)
    requires Reachable(s) && ReadsOf(enc, inbox, s, now, gets)
    ensures IsInbox(s, inbox, now, listing) && forall other :: IsInbox(s, inbox, now, other) ==> other == listing
    ensures forall k :: k in listing <==> Considered(s, inbox.g, inbox.recipient, inbox.epoch, now, k)
    ensures forall i, j :: 0 <= i < j < |listing| ==> listing[i] != listing[j]
    ensures
      var items := ItemsOf(enc, s.dists, listing);
      Flatten(Responses(gets)) == items[..Min(|gets| * PAGE_ITEMS, |items|)] <==>
      forall p :: 0 <= p < |gets| ==> PageSize(Slice(items, p)) <= MAX_RESPONSE_BYTES
  {
    listing := InboxExists(s, inbox, now);
    forall other | IsInbox(s, inbox, now, other) ensures other == listing { InboxUnique(s, inbox, now, other, listing); }
    var items := ItemsOf(enc, s.dists, listing);
    forall p | 0 <= p < |gets| ensures IsPage(Slice(items, p), Responses(gets)[p]) {
      ReadIsServed(enc, inbox, s, now, listing, gets[p], p);
    }
    PagesTileExactlyWhen(items, Responses(gets));
  }

  lemma CanonicalSlices(items: seq<Item>, p: nat)
    requires forall i :: 0 <= i < |items| ==> Storable(items[i]) && Canonical(items[i].ciphertext)
    ensures PageSize(Slice(items, p)) <= MAX_RESPONSE_BYTES
  {
    CanonicalPageSize(Slice(items, p));
  }

  lemma AcceptedStorable(enc: Encoding, events: seq<Event>, s: State)
    requires Sound(enc) && AllAccepted(enc, events) && s == Run(State(map[], map[], 0), events)
    ensures AllStorable(enc, s) && Reachable(s)
  {
    RunStorable(enc, State(map[], map[], 0), events);
  }

  /** If all put requests passed the handler's checks and the inbox holds canonical ciphertexts, every slice fits, so the pages
      are the listing as far as they reach. */
  lemma CanonicalInboxReadWhole(enc: Encoding, inbox: Inbox, events: seq<Event>, s: State, now: Time, gets: seq<Read>)
    returns (listing: seq<DistKey>)
    requires Sound(enc) && AllAccepted(enc, events) && s == Run(State(map[], map[], 0), events)
    requires ReadsOf(enc, inbox, s, now, gets)
    requires forall k :: Considered(s, inbox.g, inbox.recipient, inbox.epoch, now, k) ==> Canonical(s.dists[k].ciphertext)
    ensures IsInbox(s, inbox, now, listing)
    ensures forall k :: k in listing <==> Considered(s, inbox.g, inbox.recipient, inbox.epoch, now, k)
    ensures forall i, j :: 0 <= i < j < |listing| ==> listing[i] != listing[j]
    ensures
      var items := ItemsOf(enc, s.dists, listing);
      Flatten(Responses(gets)) == items[..Min(|gets| * PAGE_ITEMS, |items|)]
  {
    AcceptedStorable(enc, events, s);
    listing := InboxReadsExactlyWhen(enc, inbox, s, now, gets);
    var items := ItemsOf(enc, s.dists, listing);
    forall i | 0 <= i < |items| ensures Storable(items[i]) && Canonical(items[i].ciphertext) { assert listing[i] in listing; }
    forall p | 0 <= p < |gets| ensures PageSize(Slice(items, p)) <= MAX_RESPONSE_BYTES { CanonicalSlices(items, p); }
  }
}
