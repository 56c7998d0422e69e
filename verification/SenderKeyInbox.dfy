/**
 Reading the sender-key inbox: which order the rows come in, how a page is cut to the response limit,
 and when offset paging returns every row exactly once.
 */
module SenderKeyInbox {
  import opened Numbers
  import opened Options
  import opened Groups
  import opened GroupKeys
  import opened Listings

  // The order of a read

  ghost predicate ListedBefore(s: State, g: Gid, recipient: Uin, epoch: nat, now: Time, a: DistKey, b: DistKey) {
    a in s.dists && b in s.dists &&
    var ra, rb := Rank(s, g, recipient, epoch, now, a), Rank(s, g, recipient, epoch, now, b);
    ra < rb || (ra == rb && (a.epoch > b.epoch || (a.epoch == b.epoch && (a.sender < b.sender || (a.sender == b.sender &&
      Newer(s.dists, a, b))))))
  }

  /** The order is total on the rows of a read, so an unchanged inbox has one listing and offsets mean the same in every request. */
  lemma InboxListingUnique(s: State, g: Gid, recipient: Uin, epoch: nat, now: Time, first: seq<DistKey>, second: seq<DistKey>)
    requires Ordered(first, (a, b) => ListedBefore(s, g, recipient, epoch, now, a, b))
    requires Ordered(second, (a, b) => ListedBefore(s, g, recipient, epoch, now, a, b))
    requires forall k :: k in first <==> Considered(s, g, recipient, epoch, now, k)
    requires forall k :: k in second <==> Considered(s, g, recipient, epoch, now, k)
    ensures first == second
    ensures forall i, j :: 0 <= i < j < |first| ==> first[i] != first[j]
  {
    var less := (a, b) => ListedBefore(s, g, recipient, epoch, now, a, b);
    OrderIsStrict(s, g, recipient, epoch, now);
    assert Ordered(first, less) && Ordered(second, less);
    ListingUnique(first, second, less);
    forall i, j | 0 <= i < j < |first| ensures first[i] != first[j] { assert less(first[i], first[j]); }
  }

  lemma OrderIsStrict(s: State, g: Gid, recipient: Uin, epoch: nat, now: Time)
    ensures StrictOrder((a, b) => ListedBefore(s, g, recipient, epoch, now, a, b))
  {
  }

  /** Any two rows of a read are ordered. */
  lemma OrderIsTotal(s: State, g: Gid, recipient: Uin, epoch: nat, now: Time, a: DistKey, b: DistKey)
    requires Considered(s, g, recipient, epoch, now, a) && Considered(s, g, recipient, epoch, now, b) && a != b
    ensures ListedBefore(s, g, recipient, epoch, now, a, b) || ListedBefore(s, g, recipient, epoch, now, b, a)
  {
  }

  // Encoded sizes

  const MAX_DISTRIBUTION_BYTES := 16384
  const PAGE_ITEMS := 8
  const MAX_RESPONSE_BYTES := 262144
  const MAX_REQUEST_BYTES := 32768
  const LAST_PAGE := 10000
  const ENVELOPE_BYTES := 49

  predicate InAlphabet(c: char) {
    'A' <= c <= 'Z' || 'a' <= c <= 'z' || '0' <= c <= '9' || c == '-' || c == '_'
  }

  /** The alphabet for URLs, without padding. */
  lemma UrlSafe()
    ensures InAlphabet('-') && InAlphabet('_') && !InAlphabet('+') && !InAlphabet('/') && !InAlphabet('=')
  {
  }

  /** The decoder skips line breaks. */
  predicate IsBreak(c: char) { c == '\r' || c == '\n' }

  function Significant(text: string): (n: nat)
    ensures n <= |text|
  {
    if text == [] then 0 else (if IsBreak(text[0]) then 0 else 1) + Significant(text[1..])
  }

  predicate Decodes(text: string) {
    (forall i :: 0 <= i < |text| ==> InAlphabet(text[i]) || IsBreak(text[i])) && Significant(text) % 4 != 1
  }

  function DecodedLength(text: string): nat { Significant(text) * 6 / 8 }

  /** The length of the text that encodes so many bytes: four characters for three bytes, two or three for what is left over. */
  function EncodedLength(bytes: nat): nat { bytes / 3 * 4 + (if bytes % 3 == 0 then 0 else bytes % 3 + 1) }

  /** A text decodes to exactly as many bytes as it takes its characters to encode. */
  lemma DecodesExactlyWhen(text: string, bytes: nat)
    requires Decodes(text)
    ensures DecodedLength(text) == bytes <==> EncodedLength(bytes) == Significant(text)
  {
    var n := Significant(text);
    assert n == 4 * (n / 4) + n % 4 && DecodedLength(text) == 3 * (n / 4) + n % 4 * 6 / 8;
    assert bytes == 3 * (bytes / 3) + bytes % 3;
  }

  predicate Canonical(text: string) { forall i :: 0 <= i < |text| ==> !IsBreak(text[i]) }

  /** A line break is escaped with two characters, a character of the alphabet is itself. */
  function JsonLength(text: string): nat { |text| + (|text| - Significant(text)) }

  function Digits(n: nat): nat { if n < 10 then 1 else 1 + Digits(n / 10) }

  /** A stored distribution as a response shows it: its identifier and its retirement time count with their encoded length. */
  datatype Item = Item(epoch: nat, sender: nat, ciphertext: string, idBytes: nat, idJson: nat, retired: Option<nat>)

  /** What the put handler accepts; an identifier's byte takes up to six bytes, a timestamp up to 35. */
  predicate Storable(item: Item) {
    item.epoch < 0x8000_0000_0000_0000 && item.sender < 0x8000_0000_0000_0000 &&
    Decodes(item.ciphertext) && 1 <= DecodedLength(item.ciphertext) <= MAX_DISTRIBUTION_BYTES &&
    1 <= item.idBytes <= 128 && item.idBytes <= item.idJson <= 6 * item.idBytes &&
    (item.retired.Some? ==> item.retired.value <= 35)
  }

  /** The length of the item's JSON object: field names, quotes, and a fourteen-letter message type. */
  function EncodedSize(item: Item): nat {
    9 + Digits(item.epoch) + 14 + Digits(item.sender) + 14 + 2 + JsonLength(item.ciphertext) + 12 + 16 + 19 + 2 + item.idJson +
    (if item.retired.Some? then 16 + item.retired.value else 0) + 1
  }

  /** The length of the put request that stored the item, its identifier sent unescaped. */
  function RequestSize(item: Item, recipient: nat): nat {
    17 + Digits(recipient) + 9 + Digits(item.epoch) + 19 + 2 + item.idBytes + 14 + 2 + JsonLength(item.ciphertext) + 12 + 16 + 1
  }

  /** The texts these lengths count; both message types are as long as the one shown. */
  lemma SizesSpelled(item: Item, recipient: nat)
    ensures EncodedSize(item) ==
            |"{\"epoch\":"| + Digits(item.epoch) + |",\"sender_uin\":"| + Digits(item.sender) + |",\"ciphertext\":\"\""| + JsonLength(item.ciphertext) +
            |",\"msg_type\":\"prekey_message\""| + |",\"distribution_id\":\"\""| + item.idJson +
            (if item.retired.Some? then |",\"retired_at\":\"\""| + item.retired.value else 0) + |"}"|
    ensures RequestSize(item, recipient) ==
            |"{\"recipient_uin\":"| + Digits(recipient) + |",\"epoch\":"| + Digits(item.epoch) + |",\"distribution_id\":\"\""| + item.idBytes +
            |",\"ciphertext\":\"\""| + JsonLength(item.ciphertext) + |",\"msg_type\":\"prekey_message\""| + |"}"|
    ensures ENVELOPE_BYTES == |"{\"epoch\":,\"distributions\":[]}"| + 20 && |"signal_message"| == |"prekey_message"|
  {
  }

  function PageSize(items: seq<Item>): nat {
    if items == [] then ENVELOPE_BYTES
    else PageSize(items[..|items| - 1]) + (if |items| > 1 then 1 else 0) + EncodedSize(items[|items| - 1])
  }

  function TotalSize(items: seq<Item>): nat { if items == [] then 0 else EncodedSize(items[0]) + TotalSize(items[1..]) }

  /** The items, a comma between each two of them, and what surrounds the list. */
  lemma {:induction false} PageSizeIs(items: seq<Item>)
    ensures PageSize(items) == 49 + TotalSize(items) + if items == [] then 0 else |items| - 1
    decreases |items|
  {
    if items != [] {
      PageSizeIs(items[..|items| - 1]);
      TotalSnoc(items[..|items| - 1], items[|items| - 1]);
      assert items == items[..|items| - 1] + [items[|items| - 1]];
    }
  }

  lemma {:induction false} TotalSnoc(items: seq<Item>, last: Item)
    ensures TotalSize(items + [last]) == TotalSize(items) + EncodedSize(last)
    decreases |items|
  {
    if items != [] {
      assert (items + [last])[1..] == items[1..] + [last];
      TotalSnoc(items[1..], last);
    } else {
      assert (items + [last])[1..] == [];
    }
  }

  /** The longest prefix of the rows that stays within the response limit. */
  predicate IsPage(rows: seq<Item>, page: seq<Item>) {
    page <= rows && PageSize(page) <= MAX_RESPONSE_BYTES &&
    (|page| < |rows| ==> PageSize(rows[..|page| + 1]) > MAX_RESPONSE_BYTES)
  }

  /** The read loop. */
  method BuildPage(rows: seq<Item>) returns (out: seq<Item>)
    ensures IsPage(rows, out)
  {
    out := [];
    var responseBytes := ENVELOPE_BYTES;
    var i := 0;
    while i < |rows|
      invariant i <= |rows| && out == rows[..i] && responseBytes == PageSize(out) <= MAX_RESPONSE_BYTES
    {
      var encoded := EncodedSize(rows[i]);
      var separatorBytes := if |out| > 0 then 1 else 0;
      assert rows[..i + 1][..i] == rows[..i];
      if responseBytes + separatorBytes + encoded > MAX_RESPONSE_BYTES {
        return;
      }
      responseBytes := responseBytes + separatorBytes + encoded;
      out := out + [rows[i]];
      assert rows[..i + 1] == rows[..i] + [rows[i]];
      i := i + 1;
    }
  }

  lemma {:induction false} PageGrows(items: seq<Item>, n: nat)
    requires n <= |items|
    ensures PageSize(items[..n]) <= PageSize(items)
    decreases |items|
  {
    if n < |items| {
      var init := items[..|items| - 1];
      assert init[..n] == items[..n];
      PageGrows(init, n);
    } else {
      assert items[..n] == items;
    }
  }

  /** A page shows all its rows exactly when they fit together. */
  lemma PageCompleteExactlyWhen(rows: seq<Item>, page: seq<Item>)
    requires IsPage(rows, page)
    ensures page == rows <==> PageSize(rows) <= 262144
  {
    if |page| < |rows| {
      PageGrows(rows, |page| + 1);
    }
  }

  lemma {:induction false} DigitsBound(n: nat, k: nat, power: nat)
    requires k > 0 && power == Power10(k) && n < power
    ensures Digits(n) <= k
    decreases k
  {
    if n >= 10 { DigitsBound(n / 10, k - 1, power / 10); }
  }

  function Power10(k: nat): nat { if k == 0 then 1 else 10 * Power10(k - 1) }

  /** A number has k digits exactly from the k-1st to below the k-th power of ten. */
  lemma {:induction false} DigitsExactlyWhen(n: nat, k: nat)
    requires 0 < n && 0 < k
    ensures Digits(n) == k <==> Power10(k - 1) <= n < Power10(k)
    decreases k
  {
    if 10 <= n && 1 < k {
      DigitsExactlyWhen(n / 10, k - 1);
    } else if 10 <= n {
      assert Power10(1) == 10;
    } else if 1 < k {
      assert Power10(k - 1) >= 10 by { PowerPositive(k - 2); }
    }
  }

  lemma {:induction false} PowerPositive(k: nat)
    ensures Power10(k) > 0
  {
    if 0 < k { PowerPositive(k - 1); }
  }

  lemma Int64Digits(n: nat)
    requires n < 0x8000_0000_0000_0000
    ensures Digits(n) <= 19
  {
    PowerSum(4, 5);
    PowerSum(9, 10);
    PowerSum(5, 5);
    assert Power10(4) == 10_000 && Power10(5) == 100_000;
    DigitsBound(n, 19, Power10(19));
  }

  lemma {:induction false} PowerSum(a: nat, b: nat)
    ensures Power10(a + b) == Power10(a) * Power10(b)
    decreases a
  {
    if 0 < a { PowerSum(a - 1, b); }
  }

  lemma {:induction false} CanonicalSignificant(text: string)
    requires Canonical(text)
    ensures Significant(text) == |text|
  {
    if text != [] { CanonicalSignificant(text[1..]); }
  }

  /** A canonical ciphertext of at most 16384 bytes has at most 21846 characters, none of them escaped. */
  lemma CanonicalItemSize(item: Item)
    requires Storable(item) && Canonical(item.ciphertext)
    ensures JsonLength(item.ciphertext) == |item.ciphertext| <= 21846
    ensures EncodedSize(item) <= 22792
  {
    CanonicalSignificant(item.ciphertext);
    Int64Digits(item.epoch);
    Int64Digits(item.sender);
  }

  lemma {:induction false} CanonicalPageSize(rows: seq<Item>)
    requires forall i :: 0 <= i < |rows| ==> Storable(rows[i]) && Canonical(rows[i].ciphertext)
    ensures PageSize(rows) <= ENVELOPE_BYTES + 22793 * |rows|
    decreases |rows|
  {
    if rows != [] {
      CanonicalItemSize(rows[|rows| - 1]);
      CanonicalPageSize(rows[..|rows| - 1]);
    }
  }

  // Paging

  /** LIMIT and OFFSET of the given page. */
  function Slice(listing: seq<Item>, page: nat): seq<Item> {
    listing[Min(page * PAGE_ITEMS, |listing|)..Min((page + 1) * PAGE_ITEMS, |listing|)]
  }

  function Flatten(pages: seq<seq<Item>>): seq<Item> {
    if pages == [] then [] else Flatten(pages[..|pages| - 1]) + pages[|pages| - 1]
  }

  /** The responses to the page requests 0, 1, 2, ... over one listing. */
  predicate Served(listing: seq<Item>, pages: seq<seq<Item>>) {
    forall p :: 0 <= p < |pages| ==> IsPage(Slice(listing, p), pages[p])
  }

  lemma CanonicalPageComplete(listing: seq<Item>, p: nat, page: seq<Item>)
    requires forall i :: 0 <= i < |listing| ==> Storable(listing[i]) && Canonical(listing[i].ciphertext)
    requires IsPage(Slice(listing, p), page)
    ensures page == Slice(listing, p)
  {
    CanonicalPageSize(Slice(listing, p));
    PageCompleteExactlyWhen(Slice(listing, p), page);
  }

  lemma SliceExtends(listing: seq<Item>, p: nat)
    ensures listing[..Min(p * PAGE_ITEMS, |listing|)] + Slice(listing, p) == listing[..Min((p + 1) * PAGE_ITEMS, |listing|)]
  {
  }

  /** With canonical ciphertexts, consecutive pages over an unchanged inbox are consecutive slices: together they return each
      row exactly once and in order, as far as the requested pages reach. */
  lemma {:induction false} PagesVisitEachRowOnce(listing: seq<Item>, pages: seq<seq<Item>>)
    requires forall i :: 0 <= i < |listing| ==> Storable(listing[i]) && Canonical(listing[i].ciphertext)
    requires Served(listing, pages)
    ensures Flatten(pages) == listing[..Min(|pages| * PAGE_ITEMS, |listing|)]
    decreases |pages|
  {
    if pages != [] {
      var p := |pages| - 1;
      CanonicalPageComplete(listing, p, pages[p]);
      PagesVisitEachRowOnce(listing, pages[..p]);
      SliceExtends(listing, p);
    }
  }

  /** All the pages a client may ask for return the whole listing exactly when it has at most 80008 rows. */
  lemma AllPagesReachExactlyWhen(listing: seq<Item>, pages: seq<seq<Item>>)
    requires forall i :: 0 <= i < |listing| ==> Storable(listing[i]) && Canonical(listing[i].ciphertext)
    requires Served(listing, pages) && |pages| == LAST_PAGE + 1
    ensures Flatten(pages) == listing <==> |listing| <= 80008
  {
    PagesVisitEachRowOnce(listing, pages);
  }

  lemma SliceAt(listing: seq<Item>, p: nat, i: nat)
    requires i < |Slice(listing, p)|
    ensures i < PAGE_ITEMS && p * PAGE_ITEMS + i < |listing| && Slice(listing, p)[i] == listing[p * PAGE_ITEMS + i]
  {
  }

  /** A row cut from its page is in no page at all. */
  lemma CutRowNeverReturned(listing: seq<Item>, pages: seq<seq<Item>>, p: nat, q: nat)
    requires Served(listing, pages) && p < |pages| && q < |pages|
    requires forall i, j :: 0 <= i < j < |listing| ==> listing[i] != listing[j]
    requires |pages[p]| < |Slice(listing, p)|
    ensures Slice(listing, p)[|pages[p]|] !in pages[q]
  {
    var at := p * PAGE_ITEMS + |pages[p]|;
    SliceAt(listing, p, |pages[p]|);
    forall i | 0 <= i < |pages[q]| ensures pages[q][i] != listing[at] {
      SliceAt(listing, q, i);
      assert pages[q][i] == listing[q * PAGE_ITEMS + i];
    }
  }

  function Breaks(n: nat): string { seq(n, i => '\n') }

  lemma {:induction false} BreaksInsignificant(n: nat)
    ensures Significant(Breaks(n)) == 0
  {
    if 0 < n {
      assert Breaks(n)[1..] == Breaks(n - 1);
      BreaksInsignificant(n - 1);
    }
  }

  /** One decoded byte followed by line breaks, under an identifier of 128 characters that each take six bytes in JSON. */
  function PaddedItem(sender: nat): Item { Item(1, sender, "AA" + Breaks(16271), 128, 768, None) }

  lemma PaddedSize(sender: nat)
    requires sender < 10
    ensures Storable(PaddedItem(sender)) && RequestSize(PaddedItem(sender), 1) <= MAX_REQUEST_BYTES
    ensures EncodedSize(PaddedItem(sender)) == 33403
  {
    var text := "AA" + Breaks(16271);
    assert text[1..] == "A" + Breaks(16271) && text[1..][1..] == Breaks(16271);
    BreaksInsignificant(16271);
    assert Significant(text) == 2;
  }

  lemma {:induction false} PaddedPage(n: nat)
    requires n <= 8
    ensures PageSize(seq(n, i requires 0 <= i < n => PaddedItem(i))) >= ENVELOPE_BYTES + 33403 * n
  {
    if 0 < n {
      PaddedSize(n - 1);
      PaddedPage(n - 1);
      var items := seq(n, i requires 0 <= i < n => PaddedItem(i));
      assert items[..n - 1] == seq(n - 1, i requires 0 <= i < n - 1 => PaddedItem(i));
    }
  }

  /** Without the restriction to canonical text it fails: eight accepted distributions padded with line breaks do not fit. */
  lemma PaddedPageIsCut(page: seq<Item>) returns (rows: seq<Item>)
    ensures |rows| == PAGE_ITEMS && forall i :: 0 <= i < |rows| ==> Storable(rows[i]) && RequestSize(rows[i], 1) <= 32768
    ensures IsPage(rows, page) ==> |page| < |rows|
  {
    rows := seq(8, i requires 0 <= i < 8 => PaddedItem(i));
    forall i | 0 <= i < 8 ensures Storable(rows[i]) && RequestSize(rows[i], 1) <= MAX_REQUEST_BYTES { PaddedSize(i); }
    PaddedPage(8);
    if IsPage(rows, page) { PageCompleteExactlyWhen(rows, page); }
  }
}
