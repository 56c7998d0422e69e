/**
 What a fixed limit guarantees when expired rows are still stored. A limit that is a multiple of sixteen gives every
 bucket its full share in every call, and a row of the kind a bucket asks for first is then returned exactly when no
 run of a full share of expired rows is before it. The other kind gets what the first one leaves, and there a single
 expired row can hide what is behind it.
 */
module OutboxShares {
  import opened Numbers
  import opened Options
  import opened OutboxCursor
  import opened OutboxFairness

  /** The row is live, and no m rows in succession before it have expired. */
  ghost predicate Passable(outbox: Outbox, p: Partition, i: nat, m: nat)
    requires |outbox.partitions| == 2 * BUCKETS && p.bucket < BUCKETS && i < |Rows(outbox, p)|
  {
    Entry(p, Rows(outbox, p)[i]) !in outbox.expired && forall j: nat :: j + m <= i ==> !Blocked(outbox, p, j, m)
  }

  /** A stretch with a live row in it has a live row. */
  lemma SomeLive(expired: set<Entry>, p: Partition, rows: seq<Key>, at: nat, size: nat, j: nat) returns (k: nat)
    requires at <= j < at + size <= |rows| && Entry(p, rows[j]) !in expired
    ensures k < |Live(expired, p, rows[at..at + size])| && Live(expired, p, rows[at..at + size])[k] == rows[j]
  {
    k := LiveHolds(expired, p, rows[at..at + size], j - at);
  }

  /** A query that ends before the row and finds something comes nearer to it. */
  lemma QueryNearer(expired: set<Entry>, p: Partition, rows: seq<Key>, page: Option<Key>, m: nat, i: nat, j: nat)
    requires Ascending(rows) && Position(rows, page) + m <= i < |rows|
    requires Position(rows, page) <= j < Position(rows, page) + m && Entry(p, rows[j]) !in expired
    ensures Rank(|rows|, i, Moved(expired, p, rows, page, m)) < Rank(|rows|, i, Position(rows, page))
  {
    SelectedSlice(rows, page, m);
    var k := SomeLive(expired, p, rows, Position(rows, page), m, j);
    QueryMoves(expired, p, rows, page, m);
  }

  /** Past the row, any query comes nearer to it. */
  lemma QueryBeyond(expired: set<Entry>, p: Partition, rows: seq<Key>, page: Option<Key>, m: nat, i: nat)
    requires Ascending(rows) && i < Position(rows, page)
    ensures Rank(|rows|, i, Moved(expired, p, rows, page, m)) < Rank(|rows|, i, Position(rows, page))
  {
    QueryMoves(expired, p, rows, page, m);
  }

  lemma LiveInBlock(outbox: Outbox, p: Partition, at: nat, m: nat, i: nat) returns (j: nat)
    requires |outbox.partitions| == 2 * BUCKETS && p.bucket < BUCKETS && i < |Rows(outbox, p)| && Passable(outbox, p, i, m) && at + m <= i
    ensures at <= j < at + m && Entry(p, Rows(outbox, p)[j]) !in outbox.expired
  {
    assert !Blocked(outbox, p, at, m);
    j :| at <= j < at + m && Entry(p, Rows(outbox, p)[j]) !in outbox.expired;
  }

  /** A query of a full share finds the row, or comes nearer to it. */
  lemma WideQuery(outbox: Outbox, p: Partition, page: Option<Key>, m: nat, i: nat) returns (k: nat)
    requires Settled(outbox) && p.bucket < BUCKETS && i < |Rows(outbox, p)| && m > 0 && Passable(outbox, p, i, m)
    ensures
      var rows := Rows(outbox, p);
      var live := Live(outbox.expired, p, Selected(rows, page, m));
      if k < |live| then live[k] == rows[i]
      else Rank(|rows|, i, Moved(outbox.expired, p, rows, page, m)) < Rank(|rows|, i, Position(rows, page))
  {
    var rows := Rows(outbox, p);
    var at := Position(rows, page);
    if at <= i < at + m {
      SelectedSlice(rows, page, m);
      k := SomeLive(outbox.expired, p, rows, at, Min(m, |rows| - at), i);
    } else {
      k := |Live(outbox.expired, p, Selected(rows, page, m))|;
      if at <= i {
        var j := LiveInBlock(outbox, p, at, m, i);
        QueryNearer(outbox.expired, p, rows, page, m, i, j);
      } else {
        QueryBeyond(outbox.expired, p, rows, page, m, i);
      }
    }
  }

  lemma WideFetch(outbox: Outbox, scan: Scan, p: Partition, m: nat, i: nat)
    requires Settled(outbox) && Shaped(scan) && p.bucket < BUCKETS && !scan.failed && m > 0 && i < |Rows(outbox, p)|
    requires Passable(outbox, p, i, m)
    ensures
      var r := VisitPartition(outbox.reader, scan, p, m);
      Entry(p, Rows(outbox, p)[i]) in r.result || RankOf(outbox, r.pages, p, i) < RankOf(outbox, scan.pages, p, i)
  {
    assert Answered(outbox, p, scan.pages[Index(p)], m);
    var k := WideQuery(outbox, p, scan.pages[Index(p)], m, i);
    var live := Fetched(outbox.reader, p, scan.pages[Index(p)], m);
    if k < |live| { TaggedHolds(scan.result, p, live, k); }
  }

  /** A visit with room for the full share returns the row or brings its leading partition nearer to it. */
  lemma WideVisit(outbox: Outbox, scan: Scan, perBucket: nat, limit: nat, bucket: nat, i: nat)
    requires Settled(outbox) && Shaped(scan) && bucket < BUCKETS && i < |Rows(outbox, Leading(bucket))|
    requires !scan.failed && 0 < perBucket && |scan.result| + perBucket <= limit && Passable(outbox, Leading(bucket), i, perBucket)
    ensures
      var r, p := VisitBucket(outbox.reader, scan, bucket, perBucket, limit), Leading(bucket);
      !r.failed && |r.result| <= |scan.result| + perBucket &&
      (Entry(p, Rows(outbox, p)[i]) in r.result || RankOf(outbox, r.pages, p, i) < RankOf(outbox, scan.pages, p, i))
  {
    var p := Leading(bucket);
    var led := VisitPartition(outbox.reader, scan, p, perBucket);
    VisitSplits(outbox, scan, bucket, perBucket, limit);
    WideFetch(outbox, scan, p, perBucket, i);
    var f2 := perBucket - (|led.result| - |scan.result|);
    if f2 > 0 { FetchMoves(outbox, led, Trailing(bucket), f2); }
  }

  lemma SkippedVisit(outbox: Outbox, scan: Scan, visited: nat, perBucket: nat, limit: nat, bucket: nat, i: nat)
    requires Settled(outbox) && Shaped(scan) && visited < BUCKETS && bucket < BUCKETS && visited != bucket && |scan.result| <= limit
    requires i < |Rows(outbox, Leading(bucket))| && !scan.failed
    ensures
      var r, p := VisitBucket(outbox.reader, scan, visited, perBucket, limit), Leading(bucket);
      !r.failed && |r.result| <= |scan.result| + perBucket && scan.result <= r.result &&
      RankOf(outbox, r.pages, p, i) == RankOf(outbox, scan.pages, p, i)
  {
    OtherBucket(outbox, scan, visited, perBucket, limit, bucket);
  }

  /** n shares together. */
  function Shares(perBucket: nat, n: nat): nat { if n == 0 then 0 else perBucket + Shares(perBucket, n - 1) }

  lemma {:induction false} SharesAre(perBucket: nat, n: nat)
    ensures Shares(perBucket, n) == perBucket * n
  {
    if n > 0 { SharesAre(perBucket, n - 1); }
  }

  /** Going through distinct buckets with full shares, the row's own bucket among them. */
  lemma {:induction false} WideOrder(outbox: Outbox, scan: Scan, buckets: seq<nat>, perBucket: nat, limit: nat, bucket: nat, i: nat)
    requires Settled(outbox) && Shaped(scan) && bucket < BUCKETS && i < |Rows(outbox, Leading(bucket))|
    requires !scan.failed && 0 < perBucket && |scan.result| + Shares(perBucket, |buckets|) <= limit && bucket in buckets && Distinct(buckets)
    requires forall k :: 0 <= k < |buckets| ==> buckets[k] < BUCKETS
    requires Passable(outbox, Leading(bucket), i, perBucket)
    ensures
      var r, p := VisitAll(outbox.reader, scan, buckets, perBucket, limit), Leading(bucket);
      Entry(p, Rows(outbox, p)[i]) in r.result || RankOf(outbox, r.pages, p, i) < RankOf(outbox, scan.pages, p, i)
    decreases |buckets|
  {
    var rest := buckets[1..];
    assert buckets == [buckets[0]] + rest;
    var v := VisitBucket(outbox.reader, scan, buckets[0], perBucket, limit);
    if buckets[0] == bucket {
      WideVisit(outbox, scan, perBucket, limit, bucket, i);
      OrderSkips(outbox, v, rest, perBucket, limit, bucket);
    } else {
      SkippedVisit(outbox, scan, buckets[0], perBucket, limit, bucket, i);
      WideOrder(outbox, v, rest, perBucket, limit, bucket, i);
    }
  }

  /** The limit gives every bucket its full share in every call. */
  predicate FullShares(limit: int) { 0 < limit <= MAX_FETCH && limit % BUCKETS == 0 }

  lemma InOrder(start: nat, bucket: nat)
    requires start < BUCKETS && bucket < BUCKETS
    ensures bucket in Order(start)
  {
    var k := if start <= bucket then bucket - start else bucket + BUCKETS - start;
    assert Order(start)[k] == bucket;
  }

  lemma WideCall(outbox: Outbox, cursor: Cursor, limit: int, bucket: nat, i: nat)
    requires Settled(outbox) && |cursor.pages| == 2 * BUCKETS && bucket < BUCKETS && i < |Rows(outbox, Leading(bucket))|
    requires FullShares(limit) && Passable(outbox, Leading(bucket), i, PerBucket(limit))
    ensures
      var p := Leading(bucket);
      Entry(p, Rows(outbox, p)[i]) in Call(outbox.reader, cursor, limit).result ||
      RankOf(outbox, Advanced(outbox.reader, cursor, limit).pages, p, i) < RankOf(outbox, cursor.pages, p, i)
  {
    var start := cursor.next % BUCKETS;
    OrderDistinct(start);
    InOrder(start, bucket);
    SharesAre(PerBucket(limit), BUCKETS);
    WideOrder(outbox, Scan(cursor.pages, [], false), Order(start), PerBucket(limit), limit, bucket, i);
  }

  function Calls(n: nat, limit: int): (limits: seq<int>)
    ensures |limits| == n && forall k :: 0 <= k < n ==> limits[k] == limit
  {
    seq(n, k => limit)
  }

  lemma {:induction false} WideReturned(outbox: Outbox, cursor: Cursor, limit: int, bucket: nat, i: nat, n: nat)
    requires Settled(outbox) && |cursor.pages| == 2 * BUCKETS && bucket < BUCKETS && i < |Rows(outbox, Leading(bucket))|
    requires FullShares(limit) && Passable(outbox, Leading(bucket), i, PerBucket(limit))
    requires n > RankOf(outbox, cursor.pages, Leading(bucket), i)
    ensures Returned(outbox, cursor, Calls(n, limit), Entry(Leading(bucket), Rows(outbox, Leading(bucket))[i]))
    decreases n
  {
    assert Calls(n, limit)[1..] == Calls(n - 1, limit);
    WideCall(outbox, cursor, limit, bucket, i);
    if Entry(Leading(bucket), Rows(outbox, Leading(bucket))[i]) !in Call(outbox.reader, cursor, limit).result {
      WideReturned(outbox, Advanced(outbox.reader, cursor, limit), limit, bucket, i, n - 1);
    }
  }

  /** Some number of calls with this limit returns the row from every cursor. */
  ghost predicate ReturnedAt(outbox: Outbox, p: Partition, i: nat, limit: int)
    requires |outbox.partitions| == 2 * BUCKETS && p.bucket < BUCKETS && i < |Rows(outbox, p)| && limit > 0
  {
    exists n: nat :: ReturnedIn(outbox, p, i, limit, n)
  }

  ghost predicate ReturnedIn(outbox: Outbox, p: Partition, i: nat, limit: int, n: nat)
    requires |outbox.partitions| == 2 * BUCKETS && p.bucket < BUCKETS && i < |Rows(outbox, p)| && limit > 0
  {
    forall cursor: Cursor :: |cursor.pages| == 2 * BUCKETS ==> Returned(outbox, cursor, Calls(n, limit), Entry(p, Rows(outbox, p)[i]))
  }

  /** With full shares a row of the leading kind is returned exactly when it is live and no full share of expired rows in
      succession is before it. */
  lemma LeadingRowReturnedExactlyWhen(outbox: Outbox, bucket: nat, i: nat, limit: int)
    requires Settled(outbox) && bucket < BUCKETS && i < |Rows(outbox, Leading(bucket))| && FullShares(limit)
    ensures ReturnedAt(outbox, Leading(bucket), i, limit) <==> Passable(outbox, Leading(bucket), i, PerBucket(limit))
  {
    var p, m := Leading(bucket), PerBucket(limit);
    if Passable(outbox, p, i, m) {
      var n := |Rows(outbox, p)| + 1;
      forall cursor: Cursor | |cursor.pages| == 2 * BUCKETS
        ensures Returned(outbox, cursor, Calls(n, limit), Entry(p, Rows(outbox, p)[i]))
      {
        WideReturned(outbox, cursor, limit, bucket, i, n);
      }
      assert ReturnedIn(outbox, p, i, limit, n);
    } else if ReturnedAt(outbox, p, i, limit) {
      var cursor := Cursor(0, seq(2 * BUCKETS, k => None));
      var n: nat :| ReturnedIn(outbox, p, i, limit, n);
      if Entry(p, Rows(outbox, p)[i]) in outbox.expired {
        ExpiredNeverReturned(outbox, cursor, Calls(n, limit), Entry(p, Rows(outbox, p)[i]));
      } else {
        var j: nat :| j + m <= i && Blocked(outbox, p, j, m);
        BlockHidesRow(outbox, cursor, Calls(n, limit), p, j, m, i);
      }
    }
  }

  // The trailing kind

  /** Only this bucket holds rows: one less than a share of the leading kind, and of the trailing kind a share of live rows, an
      expired row, and a live one. */
  ghost predicate Squeezed(outbox: Outbox, bucket: nat, k: nat) {
    Settled(outbox) && bucket < BUCKETS && k >= 2 && |Rows(outbox, Leading(bucket))| == k - 1 && |Rows(outbox, Trailing(bucket))| == k + 2 &&
    outbox.expired == {Entry(Trailing(bucket), Rows(outbox, Trailing(bucket))[k])} &&
    forall p: Partition :: p.bucket < BUCKETS && p.bucket != bucket ==> Rows(outbox, p) == []
  }

  function Last(outbox: Outbox, bucket: nat, k: nat): Entry
    requires Squeezed(outbox, bucket, k)
  {
    Entry(Trailing(bucket), Rows(outbox, Trailing(bucket))[k + 1])
  }

  /** The positions the two partitions go through. */
  predicate Cycling(outbox: Outbox, pages: seq<Option<Key>>, bucket: nat, k: nat)
    requires |outbox.partitions| == 2 * BUCKETS && |pages| == 2 * BUCKETS && bucket < BUCKETS
  {
    var l, t := At(outbox, pages, Leading(bucket)), At(outbox, pages, Trailing(bucket));
    (l == 0 && (t == 0 || t == k)) || (l == k - 1 && (t == 0 || t == 1))
  }

  lemma PrefixMoved(expired: set<Entry>, p: Partition, rows: seq<Key>, page: Option<Key>, limit: nat, n: nat)
    requires Ascending(rows)
    requires
      var at := Position(rows, page);
      n <= Min(limit, |rows| - at) && Live(expired, p, rows[at..at + Min(limit, |rows| - at)]) == rows[at..at + n]
    ensures
      var at := Position(rows, page);
      Live(expired, p, Selected(rows, page, limit)) == rows[at..at + n] &&
      Moved(expired, p, rows, page, limit) == (if n == 0 then 0 else at + n)
  {
    SelectedSlice(rows, page, limit);
    if n > 0 { PositionOf(rows, Position(rows, page) + n - 1); }
  }

  /** What a fetch does, by the rows its query finds. */
  lemma SettledFetch(outbox: Outbox, scan: Scan, p: Partition, limit: nat)
    requires Settled(outbox) && Shaped(scan) && p.bucket < BUCKETS && !scan.failed && limit > 0
    ensures
      var live := Live(outbox.expired, p, Selected(Rows(outbox, p), scan.pages[Index(p)], limit));
      VisitPartition(outbox.reader, scan, p, limit) ==
      Scan(scan.pages[Index(p) := NextPage(live)], scan.result + Tagged(p, live), false)
  {
    assert Answered(outbox, p, scan.pages[Index(p)], limit);
  }

  /** A fetch whose live rows are the first ones of its window. */
  lemma PrefixFetch(outbox: Outbox, scan: Scan, p: Partition, limit: nat, n: nat)
    requires Settled(outbox) && Shaped(scan) && p.bucket < BUCKETS && !scan.failed && limit > 0
    requires
      var rows, at := Rows(outbox, p), At(outbox, scan.pages, p);
      n <= Min(limit, |rows| - at) && Live(outbox.expired, p, rows[at..at + Min(limit, |rows| - at)]) == rows[at..at + n]
    ensures
      var r, at := VisitPartition(outbox.reader, scan, p, limit), At(outbox, scan.pages, p);
      var live := Rows(outbox, p)[at..at + n];
      r == Scan(scan.pages[Index(p) := NextPage(live)], scan.result + Tagged(p, live), false) &&
      At(outbox, r.pages, p) == (if n == 0 then 0 else at + n)
  {
    SettledFetch(outbox, scan, p, limit);
    PrefixMoved(outbox.expired, p, Rows(outbox, p), scan.pages[Index(p)], limit, n);
  }

  lemma LastExpired(expired: set<Entry>, p: Partition, rows: seq<Key>, at: nat, size: nat)
    requires at + size + 1 <= |rows| && Entry(p, rows[at + size]) in expired
    requires forall j :: at <= j < at + size ==> Entry(p, rows[j]) !in expired
    ensures Live(expired, p, rows[at..at + size + 1]) == rows[at..at + size]
  {
    assert rows[at..at + size + 1][..size] == rows[at..at + size];
    AllLive(expired, p, rows[at..at + size]);
  }

  lemma LeadingFetch(outbox: Outbox, scan: Scan, bucket: nat, k: nat)
    requires Squeezed(outbox, bucket, k) && Shaped(scan) && !scan.failed && Cycling(outbox, scan.pages, bucket, k)
    ensures
      var r, l := VisitPartition(outbox.reader, scan, Leading(bucket), k), At(outbox, scan.pages, Leading(bucket));
      !r.failed && At(outbox, r.pages, Leading(bucket)) == (if l == 0 then k - 1 else 0) &&
      r.pages[Index(Trailing(bucket))] == scan.pages[Index(Trailing(bucket))] &&
      |r.result| == |scan.result| + (if l == 0 then k - 1 else 0) &&
      forall e :: e in r.result && e !in scan.result ==> e.partition == Leading(bucket)
  {
    var p, rows := Leading(bucket), Rows(outbox, Leading(bucket));
    var at := At(outbox, scan.pages, p);
    var n := Min(k, |rows| - at);
    AllLive(outbox.expired, p, rows[at..at + n]);
    PrefixFetch(outbox, scan, p, k, n);
    assert Index(Leading(bucket)) != Index(Trailing(bucket));
  }

  /** How many live rows a fetch of the trailing partition finds. */
  function Found(k: nat, t: nat, f: nat): int { if t == k then 0 else if t == 0 then f else k - 1 }

  predicate TrailingCase(k: nat, t: nat, f: nat) { (f == 1 && (t == 0 || t == k)) || (f == k && (t == 0 || t == 1)) }

  lemma StretchLive(expired: set<Entry>, p: Partition, rows: seq<Key>, k: nat, t: nat, f: nat)
    requires |rows| == k + 2 && k >= 2 && TrailingCase(k, t, f) && Entry(p, rows[k]) in expired
    requires forall j :: 0 <= j < k ==> Entry(p, rows[j]) !in expired
    ensures t + f <= k + 1 && 0 <= Found(k, t, f) <= f && Live(expired, p, rows[t..t + f]) == rows[t..t + Found(k, t, f)]
  {
    if t == 0 { AllLive(expired, p, rows[0..f]); } else { LastExpired(expired, p, rows, t, f - 1); }
  }

  lemma TrailingLive(outbox: Outbox, bucket: nat, k: nat, t: nat, f: nat)
    requires Squeezed(outbox, bucket, k) && TrailingCase(k, t, f)
    ensures
      var p, rows := Trailing(bucket), Rows(outbox, Trailing(bucket));
      t + f <= k + 1 && Min(f, |rows| - t) == f && 0 <= Found(k, t, f) <= f &&
      Live(outbox.expired, p, rows[t..t + f]) == rows[t..t + Found(k, t, f)]
  {
    StretchLive(outbox.expired, Trailing(bucket), Rows(outbox, Trailing(bucket)), k, t, f);
  }

  lemma NotFound(outbox: Outbox, bucket: nat, k: nat, t: nat, f: nat, before: seq<Entry>)
    requires Squeezed(outbox, bucket, k) && TrailingCase(k, t, f) && Last(outbox, bucket, k) !in before && t + Found(k, t, f) <= k + 1
    requires Found(k, t, f) >= 0
    ensures Last(outbox, bucket, k) !in before + Tagged(Trailing(bucket), Rows(outbox, Trailing(bucket))[t..t + Found(k, t, f)])
  {
    var rows := Rows(outbox, Trailing(bucket));
    assert rows[k + 1] !in rows[t..t + Found(k, t, f)];
  }

  /** The trailing fetch, with what the leading one left. */
  lemma TrailingFetch(outbox: Outbox, scan: Scan, bucket: nat, k: nat, f: nat)
    requires Squeezed(outbox, bucket, k) && Shaped(scan) && !scan.failed
    requires TrailingCase(k, At(outbox, scan.pages, Trailing(bucket)), f) && Last(outbox, bucket, k) !in scan.result
    ensures
      var r, t := VisitPartition(outbox.reader, scan, Trailing(bucket), f), At(outbox, scan.pages, Trailing(bucket));
      !r.failed && At(outbox, r.pages, Trailing(bucket)) == (if f == k then k else if t == 0 then 1 else 0) &&
      r.pages[Index(Leading(bucket))] == scan.pages[Index(Leading(bucket))] && Last(outbox, bucket, k) !in r.result
  {
    var t := At(outbox, scan.pages, Trailing(bucket));
    TrailingLive(outbox, bucket, k, t, f);
    PrefixFetch(outbox, scan, Trailing(bucket), f, Found(k, t, f));
    assert Index(Leading(bucket)) != Index(Trailing(bucket));
    NotFound(outbox, bucket, k, t, f, scan.result);
  }

  lemma SqueezedVisit(outbox: Outbox, scan: Scan, bucket: nat, k: nat, limit: nat)
    requires Squeezed(outbox, bucket, k) && Shaped(scan) && !scan.failed && Cycling(outbox, scan.pages, bucket, k)
    requires |scan.result| + k <= limit && Last(outbox, bucket, k) !in scan.result
    ensures
      var r := VisitBucket(outbox.reader, scan, bucket, k, limit);
      !r.failed && Cycling(outbox, r.pages, bucket, k) && Last(outbox, bucket, k) !in r.result
  {
    var led := VisitPartition(outbox.reader, scan, Leading(bucket), k);
    VisitSplits(outbox, scan, bucket, k, limit);
    LeadingFetch(outbox, scan, bucket, k);
    TrailingFetch(outbox, led, bucket, k, k - (|led.result| - |scan.result|));
  }

  lemma EmptyFetch(outbox: Outbox, scan: Scan, p: Partition, limit: nat)
    requires Settled(outbox) && Shaped(scan) && p.bucket < BUCKETS && !scan.failed && Rows(outbox, p) == []
    ensures VisitPartition(outbox.reader, scan, p, limit).result == scan.result && !VisitPartition(outbox.reader, scan, p, limit).failed
  {
    if limit > 0 { PrefixFetch(outbox, scan, p, limit, 0); }
  }

  lemma EmptyVisit(outbox: Outbox, scan: Scan, bucket: nat, k: nat, limit: nat, visited: nat)
    requires Squeezed(outbox, bucket, k) && Shaped(scan) && !scan.failed && visited < BUCKETS && visited != bucket && |scan.result| <= limit
    ensures
      var r := VisitBucket(outbox.reader, scan, visited, k, limit);
      !r.failed && r.result == scan.result && SameBucket(scan.pages, r.pages, bucket)
  {
    OtherBucket(outbox, scan, visited, k, limit, bucket);
    var f := Min(k, limit - |scan.result|);
    EmptyFetch(outbox, scan, Leading(visited), f);
    var led := VisitPartition(outbox.reader, scan, Leading(visited), f);
    EmptyFetch(outbox, led, Trailing(visited), f);
  }

  lemma SameCycling(outbox: Outbox, a: seq<Option<Key>>, b: seq<Option<Key>>, bucket: nat, k: nat)
    requires |outbox.partitions| == 2 * BUCKETS && |a| == 2 * BUCKETS && |b| == 2 * BUCKETS && bucket < BUCKETS
    requires SameBucket(a, b, bucket) && Cycling(outbox, a, bucket, k)
    ensures Cycling(outbox, b, bucket, k)
  {
  }

  lemma {:induction false} SqueezedOrder(outbox: Outbox, scan: Scan, buckets: seq<nat>, bucket: nat, k: nat, limit: nat)
    requires Squeezed(outbox, bucket, k) && Shaped(scan) && !scan.failed && Cycling(outbox, scan.pages, bucket, k) && k <= limit
    requires |scan.result| <= limit && Last(outbox, bucket, k) !in scan.result && (bucket in buckets ==> scan.result == [])
    requires Distinct(buckets) && forall i :: 0 <= i < |buckets| ==> buckets[i] < BUCKETS
    ensures
      var r := VisitAll(outbox.reader, scan, buckets, k, limit);
      Cycling(outbox, r.pages, bucket, k) && Last(outbox, bucket, k) !in r.result
    decreases |buckets|
  {
    if buckets != [] && |scan.result| < limit {
      assert buckets == [buckets[0]] + buckets[1..];
      var v := VisitBucket(outbox.reader, scan, buckets[0], k, limit);
      if buckets[0] == bucket {
        SqueezedVisit(outbox, scan, bucket, k, limit);
      } else {
        EmptyVisit(outbox, scan, bucket, k, limit, buckets[0]);
        SameCycling(outbox, scan.pages, v.pages, bucket, k);
      }
      SqueezedOrder(outbox, v, buckets[1..], bucket, k, limit);
    }
  }

  /** A single expired row, fewer than a share, hides the row behind it: whenever the trailing partition gets a full share it is
      far enough back, and when it stands before the expired row it gets one row. */
  lemma {:induction false} SqueezedRowNeverReturned(outbox: Outbox, cursor: Cursor, limit: int, bucket: nat, n: nat)
    requires limit > BUCKETS && Squeezed(outbox, bucket, PerBucket(Clamped(limit))) && |cursor.pages| == 2 * BUCKETS
    requires Cycling(outbox, cursor.pages, bucket, PerBucket(Clamped(limit)))
    ensures !Returned(outbox, cursor, Calls(n, limit), Last(outbox, bucket, PerBucket(Clamped(limit))))
    decreases n
  {
    if n > 0 {
      var start := cursor.next % BUCKETS;
      OrderDistinct(start);
      SqueezedOrder(outbox, Scan(cursor.pages, [], false), Order(start), bucket, PerBucket(Clamped(limit)), Clamped(limit));
      assert Calls(n, limit)[1..] == Calls(n - 1, limit);
      SqueezedRowNeverReturned(outbox, Advanced(outbox.reader, cursor, limit), limit, bucket, n - 1);
    }
  }

  /** That row is passable: the condition for the leading kind does not do for the trailing one. */
  lemma SqueezedIsPassable(outbox: Outbox, bucket: nat, k: nat)
    requires Squeezed(outbox, bucket, k)
    ensures Passable(outbox, Trailing(bucket), k + 1, k)
  {
    var rows := Rows(outbox, Trailing(bucket));
    forall j: nat | j + k <= k + 1 ensures !Blocked(outbox, Trailing(bucket), j, k) {
      var other := if j == 0 then 0 else 1;
      assert Entry(Trailing(bucket), rows[other]) !in outbox.expired;
    }
  }

  /** With the limit the service uses, such an outbox exists, and a fresh cursor never returns its last row. */
  lemma ServiceLimitHidesRow() returns (outbox: Outbox, bucket: nat)
    ensures Squeezed(outbox, bucket, 7) && Passable(outbox, Trailing(bucket), 8, 7)
    ensures forall n: nat :: !Returned(outbox, Cursor(0, seq(2 * BUCKETS, q => None)), Calls(n, MAX_FETCH), Last(outbox, bucket, 7))
  {
    bucket := 0;
    var lead, trail := seq(6, i requires 0 <= i => i as Key), seq(9, i requires 0 <= i => i as Key);
    var partitions: seq<seq<Key>> := seq(2 * BUCKETS, q => if q == 0 then lead else if q == 1 then trail else []);
    ServingSettled(partitions, {Entry(Trailing(0), 7)});
    outbox := Serving(partitions, {Entry(Trailing(0), 7)});
    assert Rows(outbox, Leading(0)) == lead && Rows(outbox, Trailing(0)) == trail;
    assert Squeezed(outbox, 0, 7);
    SqueezedIsPassable(outbox, 0, 7);
    var cursor := Cursor(0, seq(2 * BUCKETS, q => None));
    forall n: nat ensures !Returned(outbox, cursor, Calls(n, MAX_FETCH), Last(outbox, 0, 7)) {
      SqueezedRowNeverReturned(outbox, cursor, MAX_FETCH, 0, n);
    }
  }
}
