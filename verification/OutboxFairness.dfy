/**
 What the outbox cursor guarantees: bounded batches, a bounded share per bucket, every bucket in front
 once in sixteen calls, and over an unchanging outbox every pending row within a bounded number of calls, exactly
 when no expired row is still stored before it in its partition.
 */
module OutboxFairness {
  import opened Numbers
  import opened Options
  import opened OutboxCursor

  // Shares

  function CountOf(entries: seq<Entry>, bucket: nat): nat {
    if entries == [] then 0 else CountOf(entries[..|entries| - 1], bucket) + if entries[|entries| - 1].partition.bucket == bucket then 1 else 0
  }

  lemma {:induction false} CountAppend(a: seq<Entry>, b: seq<Entry>, bucket: nat)
    ensures CountOf(a + b, bucket) == CountOf(a, bucket) + CountOf(b, bucket)
    decreases |b|
  {
    if b == [] {
      assert a + b == a;
    } else {
      assert (a + b)[..|a + b| - 1] == a + b[..|b| - 1];
      CountAppend(a, b[..|b| - 1], bucket);
    }
  }

  lemma {:induction false} CountTagged(partition: Partition, rows: seq<Key>, bucket: nat)
    ensures CountOf(Tagged(partition, rows), bucket) == if partition.bucket == bucket then |rows| else 0
    decreases |rows|
  {
    if rows != [] {
      var init := rows[..|rows| - 1];
      assert Tagged(partition, rows)[..|rows| - 1] == Tagged(partition, init);
      CountTagged(partition, init, bucket);
    }
  }

  lemma PartitionShare(reader: Reader, scan: Scan, partition: Partition, limit: nat, bucket: nat)
    requires Shaped(scan) && partition.bucket < BUCKETS
    ensures
      var r := VisitPartition(reader, scan, partition, limit);
      CountOf(r.result, bucket) == CountOf(scan.result, bucket) + if partition.bucket == bucket then |r.result| - |scan.result| else 0
  {
    if limit > 0 && !scan.failed && partition !in reader.failing {
      var rows := Fetched(reader, partition, scan.pages[Index(partition)], limit);
      CountAppend(scan.result, Tagged(partition, rows), bucket);
      CountTagged(partition, rows, bucket);
    }
  }

  lemma TwoShares(reader: Reader, scan: Scan, first: Partition, second: Partition, f: nat, f2: nat, bucket: nat)
    requires Shaped(scan) && first.bucket == second.bucket < BUCKETS
    ensures
      var r := VisitPartition(reader, VisitPartition(reader, scan, first, f), second, f2);
      CountOf(r.result, bucket) == CountOf(scan.result, bucket) + if first.bucket == bucket then |r.result| - |scan.result| else 0
  {
    PartitionShare(reader, scan, first, f, bucket);
    PartitionShare(reader, VisitPartition(reader, scan, first, f), second, f2, bucket);
  }

  lemma BucketShare(reader: Reader, scan: Scan, visited: nat, perBucket: nat, limit: nat, bucket: nat)
    requires Shaped(scan) && visited < BUCKETS && |scan.result| <= limit
    ensures
      var r := VisitBucket(reader, scan, visited, perBucket, limit);
      CountOf(r.result, bucket) <= CountOf(scan.result, bucket) + if visited == bucket then perBucket else 0
  {
    var f := Min(perBucket, limit - |scan.result|);
    var led := VisitPartition(reader, scan, Leading(visited), f);
    TwoShares(reader, scan, Leading(visited), Trailing(visited), f,
              Min(perBucket - (|led.result| - |scan.result|), limit - |led.result|), bucket);
  }

  predicate Distinct(buckets: seq<nat>) { forall i, j :: 0 <= i < j < |buckets| ==> buckets[i] != buckets[j] }

  lemma {:induction false} OrderShare(reader: Reader, scan: Scan, buckets: seq<nat>, perBucket: nat, limit: nat, bucket: nat)
    requires Shaped(scan) && |scan.result| <= limit && Distinct(buckets)
    requires forall i :: 0 <= i < |buckets| ==> buckets[i] < BUCKETS
    ensures
      var r := VisitAll(reader, scan, buckets, perBucket, limit);
      CountOf(r.result, bucket) <= CountOf(scan.result, bucket) + if bucket in buckets then perBucket else 0
    decreases |buckets|
  {
    if buckets != [] && |scan.result| < limit && !scan.failed {
      BucketShare(reader, scan, buckets[0], perBucket, limit, bucket);
      OrderShare(reader, VisitBucket(reader, scan, buckets[0], perBucket, limit), buckets[1..], perBucket, limit, bucket);
      assert buckets == [buckets[0]] + buckets[1..];
    }
  }

  /** A call returns at most min(limit, 100) rows and at most ceil(limit / 16) of one bucket. */
  lemma CallIsBounded(reader: Reader, cursor: Cursor, limit: int, bucket: nat)
    requires |cursor.pages| == 2 * BUCKETS && limit > 0
    ensures |Call(reader, cursor, limit).result| <= Min(limit, MAX_FETCH)
    ensures CountOf(Call(reader, cursor, limit).result, bucket) * BUCKETS < Clamped(limit) + BUCKETS
  {
    OrderDistinct(cursor.next % BUCKETS);
    OrderShare(reader, Scan(cursor.pages, [], false), Order(cursor.next % BUCKETS), PerBucket(Clamped(limit)), Clamped(limit), bucket);
  }

  // Rotation

  lemma WrapKeepsResidue(next: nat, n: nat)
    ensures ((next + 1) % UINT32 + n) % BUCKETS == (next + 1 + n) % BUCKETS
  {
    var q := (next + 1) / UINT32;
    assert next + 1 == q * UINT32 + (next + 1) % UINT32;
    assert (next + 1 + n) - ((next + 1) % UINT32 + n) == (q * 0x1000_0000) * BUCKETS;
  }

  /** The cursor after as many calls as there are limits. */
  function AfterCalls(reader: Reader, cursor: Cursor, limits: seq<int>): Cursor
    requires |cursor.pages| == 2 * BUCKETS
    requires forall i :: 0 <= i < |limits| ==> limits[i] > 0
    decreases |limits|
  {
    if limits == [] then cursor else AfterCalls(reader, Advanced(reader, cursor, limits[0]), limits[1..])
  }

  /** Calls until the bucket is in front. */
  function Distance(next: nat, bucket: nat): nat { (bucket + BUCKETS - next % BUCKETS) % BUCKETS }

  /** The next call starts with this bucket (see OrderDistinct). */
  predicate InFront(cursor: Cursor, bucket: nat) { cursor.next % BUCKETS == bucket }

  lemma DistanceStep(next: nat, bucket: nat)
    requires bucket < BUCKETS
    ensures
      var d := Distance(next, bucket);
      (d == 0 <==> next % BUCKETS == bucket) && Distance((next + 1) % UINT32, bucket) == (if d == 0 then BUCKETS - 1 else d - 1)
  {
    WrapKeepsResidue(next, 0);
    var r := next % BUCKETS;
    assert (next + 1) % BUCKETS == if r == BUCKETS - 1 then 0 else r + 1;
  }

  /** The counter after n calls. */
  function CounterAfter(next: nat, n: nat): nat
    decreases n
  {
    if n == 0 then next else CounterAfter((next + 1) % UINT32, n - 1)
  }

  lemma {:induction false} CounterHits(next: nat, n: nat, bucket: nat)
    requires bucket < BUCKETS && n < BUCKETS
    ensures CounterAfter(next, n) % BUCKETS == bucket <==> n == Distance(next, bucket)
    decreases n
  {
    DistanceStep(next, bucket);
    if n > 0 { CounterHits((next + 1) % UINT32, n - 1, bucket); }
  }

  lemma {:induction false} CounterCountsCalls(reader: Reader, cursor: Cursor, limits: seq<int>)
    requires |cursor.pages| == 2 * BUCKETS && forall i :: 0 <= i < |limits| ==> limits[i] > 0
    ensures AfterCalls(reader, cursor, limits).next == CounterAfter(cursor.next, |limits|)
    decreases |limits|
  {
    if limits != [] { CounterCountsCalls(reader, Advanced(reader, cursor, limits[0]), limits[1..]); }
  }

  /** In every sixteen consecutive calls each bucket is in front exactly once, across the counter's wrap-around too. */
  lemma EachBucketLeadsOnce(reader: Reader, cursor: Cursor, limits: seq<int>, bucket: nat)
    requires |cursor.pages| == 2 * BUCKETS && bucket < BUCKETS
    requires |limits| < BUCKETS && forall i :: 0 <= i < |limits| ==> limits[i] > 0
    ensures InFront(AfterCalls(reader, cursor, limits), bucket) <==> |limits| == Distance(cursor.next, bucket)
  {
    CounterCountsCalls(reader, cursor, limits);
    CounterHits(cursor.next, |limits|, bucket);
  }

  // Progress

  predicate Ascending(rows: seq<Key>) { forall i, j :: 0 <= i < j < |rows| ==> rows[i] < rows[j] }

  predicate Answered(outbox: Outbox, p: Partition, page: Option<Key>, limit: nat)
    requires |outbox.partitions| == 2 * BUCKETS && p.bucket < BUCKETS
  {
    Fetched(outbox.reader, p, page, limit) == Pending(outbox, p, page, limit)
  }

  /** The reader answers every query from the stored rows. */
  ghost predicate Settled(outbox: Outbox) {
    |outbox.partitions| == 2 * BUCKETS && outbox.reader.failing == {} &&
    (forall p :: 0 <= p < 2 * BUCKETS ==> Ascending(outbox.partitions[p])) &&
    (forall p: Partition, page, limit :: p.bucket < BUCKETS ==> Answered(outbox, p, page, limit))
  }

  /** The service's own reader over the given rows. */
  function Serving(partitions: seq<seq<Key>>, expired: set<Entry>): Outbox
    requires |partitions| == 2 * BUCKETS
  {
    var stored := Outbox(partitions, expired, Reader((p, page, limit) => [], {}));
    stored.(reader := Reader((p: Partition, page, limit) => if p.bucket < BUCKETS then Pending(stored, p, page, limit) else [], {}))
  }

  lemma ServingSettled(partitions: seq<seq<Key>>, expired: set<Entry>)
    requires |partitions| == 2 * BUCKETS && forall p :: 0 <= p < 2 * BUCKETS ==> Ascending(partitions[p])
    ensures Settled(Serving(partitions, expired))
  {
    var outbox := Serving(partitions, expired);
    forall p: Partition, page, limit | p.bucket < BUCKETS ensures Answered(outbox, p, page, limit) {
      assert outbox.reader.query(p, page, limit) == Pending(outbox, p, page, limit);
    }
  }

  function Rows(outbox: Outbox, p: Partition): seq<Key>
    requires |outbox.partitions| == 2 * BUCKETS && p.bucket < BUCKETS
  {
    outbox.partitions[Index(p)]
  }

  /** How many rows of the list the page position has passed. */
  function Position(rows: seq<Key>, page: Option<Key>): (p: nat)
    ensures p <= |rows|
  {
    if rows == [] || page == None || page.value < rows[0] then 0 else 1 + Position(rows[1..], page)
  }

  lemma {:induction false} AfterPosition(rows: seq<Key>, page: Option<Key>)
    ensures After(rows, page) == rows[Position(rows, page)..]
  {
    if !(rows == [] || page == None || page.value < rows[0]) { AfterPosition(rows[1..], page); }
  }

  function At(outbox: Outbox, pages: seq<Option<Key>>, p: Partition): (n: nat)
    requires |outbox.partitions| == 2 * BUCKETS && |pages| == 2 * BUCKETS && p.bucket < BUCKETS
    ensures n <= |Rows(outbox, p)|
  {
    Position(Rows(outbox, p), pages[Index(p)])
  }

  lemma {:induction false} PositionOf(rows: seq<Key>, i: nat)
    requires Ascending(rows) && i < |rows|
    ensures Position(rows, Some(rows[i])) == i + 1
    decreases |rows|
  {
    var page := Some(rows[i]);
    if i == 0 {
      if |rows| > 1 { assert rows[1..][0] == rows[1]; }
      assert Position(rows, page) == 1 + Position(rows[1..], page);
    } else {
      assert rows[1..][i - 1] == rows[i];
      PositionOf(rows[1..], i - 1);
      assert rows[0] < rows[i];
    }
  }

  /** A row that has not expired is among the live ones. */
  lemma {:induction false} LiveHolds(expired: set<Entry>, p: Partition, rows: seq<Key>, k: nat) returns (n: nat)
    requires k < |rows| && Entry(p, rows[k]) !in expired
    ensures n < |Live(expired, p, rows)| && Live(expired, p, rows)[n] == rows[k]
    decreases |rows|
  {
    if k < |rows| - 1 {
      n := LiveHolds(expired, p, rows[..|rows| - 1], k);
    } else {
      n := |Live(expired, p, rows)| - 1;
    }
  }

  /** A live row is one of the rows and has not expired. */
  lemma {:induction false} LiveFrom(expired: set<Entry>, p: Partition, rows: seq<Key>, n: nat) returns (k: nat)
    requires n < |Live(expired, p, rows)|
    ensures k < |rows| && rows[k] == Live(expired, p, rows)[n] && Entry(p, rows[k]) !in expired
    decreases |rows|
  {
    if n < |Live(expired, p, rows[..|rows| - 1])| {
      k := LiveFrom(expired, p, rows[..|rows| - 1], n);
    } else {
      k := |rows| - 1;
    }
  }

  lemma {:induction false} AllLive(expired: set<Entry>, p: Partition, rows: seq<Key>)
    requires forall k :: 0 <= k < |rows| ==> Entry(p, rows[k]) !in expired
    ensures Live(expired, p, rows) == rows
    decreases |rows|
  {
    if rows != [] {
      AllLive(expired, p, rows[..|rows| - 1]);
      assert rows == rows[..|rows| - 1] + [rows[|rows| - 1]];
    }
  }

  /** Where the last live row of a stretch is. */
  lemma LastLive(expired: set<Entry>, p: Partition, rows: seq<Key>, at: nat, size: nat) returns (to: nat)
    requires at + size <= |rows| && Live(expired, p, rows[at..at + size]) != []
    ensures
      var live := Live(expired, p, rows[at..at + size]);
      at < to <= at + size && NextPage(live) == Some(rows[to - 1])
  {
    var live := Live(expired, p, rows[at..at + size]);
    var k := LiveFrom(expired, p, rows[at..at + size], |live| - 1);
    to := at + k + 1;
  }

  /** The position a query leaves. */
  function Moved(expired: set<Entry>, p: Partition, rows: seq<Key>, page: Option<Key>, limit: nat): nat {
    Position(rows, NextPage(Live(expired, p, Selected(rows, page, limit))))
  }

  lemma SelectedSlice(rows: seq<Key>, page: Option<Key>, limit: nat)
    ensures
      var at := Position(rows, page);
      Selected(rows, page, limit) == rows[at..at + Min(limit, |rows| - at)]
  {
    AfterPosition(rows, page);
  }

  /** The position moves past the last live row a query selects, or back to the start if there is none. */
  lemma QueryMoves(expired: set<Entry>, p: Partition, rows: seq<Key>, page: Option<Key>, limit: nat)
    requires Ascending(rows)
    ensures
      var live, to := Live(expired, p, Selected(rows, page, limit)), Moved(expired, p, rows, page, limit);
      if live == [] then to == 0
      else Position(rows, page) < to <= Min(Position(rows, page) + limit, |rows|) && live[|live| - 1] == rows[to - 1]
  {
    SelectedSlice(rows, page, limit);
    var at := Position(rows, page);
    if Live(expired, p, Selected(rows, page, limit)) != [] {
      var to := LastLive(expired, p, rows, at, Min(limit, |rows| - at));
      PositionOf(rows, to - 1);
    }
  }

  /** A fetch returns the live ones of the next rows and moves the position past the last of them, or back to the start if there are none. */
  lemma FetchMoves(outbox: Outbox, scan: Scan, p: Partition, limit: nat)
    requires Settled(outbox) && Shaped(scan) && p.bucket < BUCKETS && !scan.failed && limit > 0
    ensures
      var r, at, live := VisitPartition(outbox.reader, scan, p, limit), At(outbox, scan.pages, p), Fetched(outbox.reader, p, scan.pages[Index(p)], limit);
      !r.failed && (forall q :: 0 <= q < 2 * BUCKETS && q != Index(p) ==> r.pages[q] == scan.pages[q]) &&
      r.result == scan.result + Tagged(p, live) && (if live == [] then At(outbox, r.pages, p) == 0 else at < At(outbox, r.pages, p))
  {
    assert Answered(outbox, p, scan.pages[Index(p)], limit);
    QueryMoves(outbox.expired, p, Rows(outbox, p), scan.pages[Index(p)], limit);
  }

  /** Fetches of at least one row until row i comes, from position at. */
  function Rank(size: nat, i: nat, at: nat): (r: nat)
    requires i < size && at <= size
    ensures r <= size
  {
    if at <= i then i - at else size - at + 1 + i
  }

  function RankOf(outbox: Outbox, pages: seq<Option<Key>>, p: Partition, i: nat): nat
    requires |outbox.partitions| == 2 * BUCKETS && |pages| == 2 * BUCKETS && p.bucket < BUCKETS && i < |Rows(outbox, p)|
  {
    Rank(|Rows(outbox, p)|, i, At(outbox, pages, p))
  }

  lemma TaggedHolds(before: seq<Entry>, p: Partition, rows: seq<Key>, k: nat)
    requires k < |rows|
    ensures Entry(p, rows[k]) in before + Tagged(p, rows)
  {
    assert (before + Tagged(p, rows))[|before| + k] == Entry(p, rows[k]);
  }

  /** Neither the row nor one before it in its partition has expired. */
  predicate Clear(outbox: Outbox, p: Partition, i: nat)
    requires |outbox.partitions| == 2 * BUCKETS && p.bucket < BUCKETS && i < |Rows(outbox, p)|
  {
    forall j :: 0 <= j <= i ==> Entry(p, Rows(outbox, p)[j]) !in outbox.expired
  }

  /** A query over a stretch with the row in it finds the row; one that ends before it finds everything. */
  lemma ClearStretch(expired: set<Entry>, p: Partition, rows: seq<Key>, at: nat, size: nat, i: nat) returns (k: nat)
    requires at <= i < |rows| && at + size <= |rows| && forall j :: 0 <= j <= i ==> Entry(p, rows[j]) !in expired
    ensures
      var live := Live(expired, p, rows[at..at + size]);
      if i < at + size then k < |live| && live[k] == rows[i] else k == |live| == size && live == rows[at..at + size]
  {
    if i < at + size {
      k := LiveHolds(expired, p, rows[at..at + size], i - at);
    } else {
      AllLive(expired, p, rows[at..at + size]);
      k := size;
    }
  }

  lemma ClearLast(expired: set<Entry>, p: Partition, rows: seq<Key>, page: Option<Key>, limit: nat, i: nat)
    requires Position(rows, page) + limit <= i < |rows| && limit > 0
    requires forall j :: 0 <= j <= i ==> Entry(p, rows[j]) !in expired
    ensures NextPage(Live(expired, p, Selected(rows, page, limit))) == Some(rows[Position(rows, page) + limit - 1])
  {
    SelectedSlice(rows, page, limit);
    var k := ClearStretch(expired, p, rows, Position(rows, page), limit, i);
  }

  /** A query that ends before the row moves to its own end. */
  lemma QueryApproaches(expired: set<Entry>, p: Partition, rows: seq<Key>, page: Option<Key>, limit: nat, i: nat)
    requires Ascending(rows) && Position(rows, page) + limit <= i < |rows| && limit > 0
    requires forall j :: 0 <= j <= i ==> Entry(p, rows[j]) !in expired
    ensures Moved(expired, p, rows, page, limit) == Position(rows, page) + limit
  {
    ClearLast(expired, p, rows, page, limit, i);
    PositionOf(rows, Position(rows, page) + limit - 1);
  }

  /** A query either finds the row or comes nearer to it. */
  lemma QueryLowersRank(expired: set<Entry>, p: Partition, rows: seq<Key>, page: Option<Key>, limit: nat, i: nat) returns (k: nat)
    requires Ascending(rows) && i < |rows| && limit > 0 && forall j :: 0 <= j <= i ==> Entry(p, rows[j]) !in expired
    ensures
      var live := Live(expired, p, Selected(rows, page, limit));
      if k < |live| then live[k] == rows[i]
      else Rank(|rows|, i, Moved(expired, p, rows, page, limit)) < Rank(|rows|, i, Position(rows, page))
  {
    var at := Position(rows, page);
    if at <= i < at + limit {
      SelectedSlice(rows, page, limit);
      k := ClearStretch(expired, p, rows, at, Min(limit, |rows| - at), i);
    } else {
      k := |Live(expired, p, Selected(rows, page, limit))|;
      if at <= i { QueryApproaches(expired, p, rows, page, limit, i); } else { QueryMoves(expired, p, rows, page, limit); }
    }
  }

  lemma FetchLowersRank(outbox: Outbox, scan: Scan, p: Partition, limit: nat, i: nat)
    requires Settled(outbox) && Shaped(scan) && p.bucket < BUCKETS && !scan.failed && limit > 0 && i < |Rows(outbox, p)|
    requires Clear(outbox, p, i)
    ensures
      var r := VisitPartition(outbox.reader, scan, p, limit);
      Entry(p, Rows(outbox, p)[i]) in r.result || RankOf(outbox, r.pages, p, i) < RankOf(outbox, scan.pages, p, i)
  {
    var live := Fetched(outbox.reader, p, scan.pages[Index(p)], limit);
    assert Answered(outbox, p, scan.pages[Index(p)], limit);
    var k := QueryLowersRank(outbox.expired, p, Rows(outbox, p), scan.pages[Index(p)], limit, i);
    if k < |live| { TaggedHolds(scan.result, p, live, k); }
  }

  // A bucket's measure for one of its rows

  function LeadLeft(outbox: Outbox, pages: seq<Option<Key>>, bucket: nat): nat
    requires |outbox.partitions| == 2 * BUCKETS && |pages| == 2 * BUCKETS && bucket < BUCKETS
  {
    |Rows(outbox, Leading(bucket))| - At(outbox, pages, Leading(bucket))
  }

  function LeadSpan(outbox: Outbox, bucket: nat): nat
    requires |outbox.partitions| == 2 * BUCKETS && bucket < BUCKETS
  {
    |Rows(outbox, Leading(bucket))| + 1
  }

  /** Visits of the bucket that can pass before the row comes: trailing rows also wait for the leading list to run out. */
  function Measure(outbox: Outbox, pages: seq<Option<Key>>, p: Partition, i: nat): nat
    requires |outbox.partitions| == 2 * BUCKETS && |pages| == 2 * BUCKETS && p.bucket < BUCKETS && i < |Rows(outbox, p)|
  {
    if p == Leading(p.bucket) then RankOf(outbox, pages, p, i)
    else Weighted(RankOf(outbox, pages, p, i), LeadSpan(outbox, p.bucket), LeadLeft(outbox, pages, p.bucket))
  }

  function Weighted(rank: nat, span: nat, left: nat): nat { rank * span + left }

  lemma WeightedDrops(rank: nat, lower: nat, span: nat, left: nat, after: nat)
    requires lower < rank && after < span
    ensures Weighted(lower, span, after) < Weighted(rank, span, left)
  {
    assert lower * span + span == (lower + 1) * span;
    assert (lower + 1) * span <= rank * span;
  }

  predicate SameBucket(a: seq<Option<Key>>, b: seq<Option<Key>>, bucket: nat)
    requires |a| == 2 * BUCKETS && |b| == 2 * BUCKETS && bucket < BUCKETS
  {
    a[bucket * 2] == b[bucket * 2] && a[bucket * 2 + 1] == b[bucket * 2 + 1]
  }

  /** The trailing partition gets what the leading one leaves of the bucket's allowance. */
  lemma VisitSplits(outbox: Outbox, scan: Scan, bucket: nat, perBucket: nat, limit: nat)
    requires Settled(outbox) && Shaped(scan) && bucket < BUCKETS && !scan.failed && |scan.result| < limit && perBucket > 0
    ensures
      var f := Min(perBucket, limit - |scan.result|);
      var led := VisitPartition(outbox.reader, scan, Leading(bucket), f);
      f > 0 && !led.failed && scan.result <= led.result && |led.result| - |scan.result| <= f &&
      VisitBucket(outbox.reader, scan, bucket, perBucket, limit) ==
      VisitPartition(outbox.reader, led, Trailing(bucket), f - (|led.result| - |scan.result|))
  {
    FetchMoves(outbox, scan, Leading(bucket), Min(perBucket, limit - |scan.result|));
  }

  lemma LeadingProgress(outbox: Outbox, scan: Scan, perBucket: nat, limit: nat, bucket: nat, i: nat)
    requires Settled(outbox) && Shaped(scan) && bucket < BUCKETS && i < |Rows(outbox, Leading(bucket))|
    requires Clear(outbox, Leading(bucket), i)
    requires !scan.failed && |scan.result| < limit && perBucket > 0
    ensures
      var r, p := VisitBucket(outbox.reader, scan, bucket, perBucket, limit), Leading(bucket);
      !r.failed && (Entry(p, Rows(outbox, p)[i]) in r.result || Measure(outbox, r.pages, p, i) < Measure(outbox, scan.pages, p, i))
  {
    var p, f := Leading(bucket), Min(perBucket, limit - |scan.result|);
    var led := VisitPartition(outbox.reader, scan, p, f);
    VisitSplits(outbox, scan, bucket, perBucket, limit);
    FetchLowersRank(outbox, scan, p, f, i);
    var f2 := f - (|led.result| - |scan.result|);
    if f2 > 0 { FetchMoves(outbox, led, Trailing(bucket), f2); }
  }

  /** The leading list moved on and used up the allowance: the trailing row waits, but the leading list has less left. */
  lemma TrailingWaits(outbox: Outbox, before: seq<Option<Key>>, after: seq<Option<Key>>, bucket: nat, i: nat)
    requires |outbox.partitions| == 2 * BUCKETS && |before| == 2 * BUCKETS && |after| == 2 * BUCKETS && bucket < BUCKETS
    requires i < |Rows(outbox, Trailing(bucket))| && after[Index(Trailing(bucket))] == before[Index(Trailing(bucket))]
    requires LeadLeft(outbox, after, bucket) < LeadLeft(outbox, before, bucket)
    ensures Measure(outbox, after, Trailing(bucket), i) < Measure(outbox, before, Trailing(bucket), i)
  {
  }

  lemma TrailingMoves(outbox: Outbox, before: seq<Option<Key>>, after: seq<Option<Key>>, bucket: nat, i: nat)
    requires |outbox.partitions| == 2 * BUCKETS && |before| == 2 * BUCKETS && |after| == 2 * BUCKETS && bucket < BUCKETS
    requires i < |Rows(outbox, Trailing(bucket))|
    requires RankOf(outbox, after, Trailing(bucket), i) < RankOf(outbox, before, Trailing(bucket), i)
    ensures Measure(outbox, after, Trailing(bucket), i) < Measure(outbox, before, Trailing(bucket), i)
  {
    var p := Trailing(bucket);
    WeightedDrops(RankOf(outbox, before, p, i), RankOf(outbox, after, p, i), LeadSpan(outbox, bucket),
                  LeadLeft(outbox, before, bucket), LeadLeft(outbox, after, bucket));
  }

  lemma TrailingProgress(outbox: Outbox, scan: Scan, perBucket: nat, limit: nat, bucket: nat, i: nat)
    requires Settled(outbox) && Shaped(scan) && bucket < BUCKETS && i < |Rows(outbox, Trailing(bucket))|
    requires Clear(outbox, Trailing(bucket), i)
    requires !scan.failed && |scan.result| < limit && perBucket > 0
    ensures
      var r, p := VisitBucket(outbox.reader, scan, bucket, perBucket, limit), Trailing(bucket);
      !r.failed && (Entry(p, Rows(outbox, p)[i]) in r.result || Measure(outbox, r.pages, p, i) < Measure(outbox, scan.pages, p, i))
  {
    var p, f := Trailing(bucket), Min(perBucket, limit - |scan.result|);
    var led := VisitPartition(outbox.reader, scan, Leading(bucket), f);
    VisitSplits(outbox, scan, bucket, perBucket, limit);
    FetchMoves(outbox, scan, Leading(bucket), f);
    var f2 := f - (|led.result| - |scan.result|);
    assert Index(p) != Index(Leading(bucket)) && led.pages[Index(p)] == scan.pages[Index(p)];
    if f2 == 0 {
      TrailingWaits(outbox, scan.pages, led.pages, bucket, i);
    } else {
      var r := VisitPartition(outbox.reader, led, p, f2);
      FetchMoves(outbox, led, p, f2);
      FetchLowersRank(outbox, led, p, f2, i);
      assert RankOf(outbox, led.pages, p, i) == RankOf(outbox, scan.pages, p, i);
      if RankOf(outbox, r.pages, p, i) < RankOf(outbox, scan.pages, p, i) { TrailingMoves(outbox, scan.pages, r.pages, bucket, i); }
    }
  }

  /** A visit with room either returns the row or lowers its measure. */
  lemma VisitProgress(outbox: Outbox, scan: Scan, perBucket: nat, limit: nat, p: Partition, i: nat)
    requires Settled(outbox) && Shaped(scan) && p.bucket < BUCKETS && i < |Rows(outbox, p)| && Clear(outbox, p, i)
    requires !scan.failed && |scan.result| < limit && perBucket > 0
    ensures
      var r := VisitBucket(outbox.reader, scan, p.bucket, perBucket, limit);
      !r.failed && (Entry(p, Rows(outbox, p)[i]) in r.result || Measure(outbox, r.pages, p, i) < Measure(outbox, scan.pages, p, i))
  {
    if p == Leading(p.bucket) {
      LeadingProgress(outbox, scan, perBucket, limit, p.bucket, i);
    } else {
      assert p == Trailing(p.bucket);
      TrailingProgress(outbox, scan, perBucket, limit, p.bucket, i);
    }
  }

  /** Visiting another bucket leaves this one's positions alone. */
  lemma OtherBucket(outbox: Outbox, scan: Scan, visited: nat, perBucket: nat, limit: nat, bucket: nat)
    requires Settled(outbox) && Shaped(scan) && visited < BUCKETS && bucket < BUCKETS && visited != bucket
    requires |scan.result| <= limit
    ensures SameBucket(scan.pages, VisitBucket(outbox.reader, scan, visited, perBucket, limit).pages, bucket)
    ensures !scan.failed ==> !VisitBucket(outbox.reader, scan, visited, perBucket, limit).failed
  {
  }

  lemma SameMeasure(outbox: Outbox, a: seq<Option<Key>>, b: seq<Option<Key>>, p: Partition, i: nat)
    requires |outbox.partitions| == 2 * BUCKETS && |a| == 2 * BUCKETS && |b| == 2 * BUCKETS && p.bucket < BUCKETS
    requires i < |Rows(outbox, p)| && SameBucket(a, b, p.bucket)
    ensures Measure(outbox, a, p, i) == Measure(outbox, b, p, i)
  {
  }

  lemma {:induction false} OrderSkips(outbox: Outbox, scan: Scan, buckets: seq<nat>, perBucket: nat, limit: nat, bucket: nat)
    requires Settled(outbox) && Shaped(scan) && |scan.result| <= limit && bucket < BUCKETS && bucket !in buckets
    requires forall k :: 0 <= k < |buckets| ==> buckets[k] < BUCKETS
    ensures SameBucket(scan.pages, VisitAll(outbox.reader, scan, buckets, perBucket, limit).pages, bucket)
    decreases |buckets|
  {
    if buckets != [] && |scan.result| < limit && !scan.failed {
      OtherBucket(outbox, scan, buckets[0], perBucket, limit, bucket);
      OrderSkips(outbox, VisitBucket(outbox.reader, scan, buckets[0], perBucket, limit), buckets[1..], perBucket, limit, bucket);
    }
  }

  /** Going through distinct buckets never raises a row's measure, and lowers it or returns the row if its bucket is in front. */
  lemma {:induction false} OrderProgress(outbox: Outbox, scan: Scan, buckets: seq<nat>, perBucket: nat, limit: nat, p: Partition, i: nat)
    requires Settled(outbox) && Shaped(scan) && p.bucket < BUCKETS && i < |Rows(outbox, p)| && Clear(outbox, p, i)
    requires |scan.result| <= limit && perBucket > 0 && !scan.failed && Distinct(buckets)
    requires forall k :: 0 <= k < |buckets| ==> buckets[k] < BUCKETS
    ensures
      var r := VisitAll(outbox.reader, scan, buckets, perBucket, limit);
      Entry(p, Rows(outbox, p)[i]) in r.result ||
      (Measure(outbox, r.pages, p, i) <= Measure(outbox, scan.pages, p, i) &&
       (buckets != [] && buckets[0] == p.bucket && |scan.result| < limit ==>
          Measure(outbox, r.pages, p, i) < Measure(outbox, scan.pages, p, i)))
    decreases |buckets|
  {
    if buckets != [] && |scan.result| < limit {
      var rest := buckets[1..];
      var v := VisitBucket(outbox.reader, scan, buckets[0], perBucket, limit);
      var r := VisitAll(outbox.reader, v, rest, perBucket, limit);
      assert buckets == [buckets[0]] + rest;
      if buckets[0] == p.bucket {
        VisitProgress(outbox, scan, perBucket, limit, p, i);
        OrderSkips(outbox, v, rest, perBucket, limit, p.bucket);
        SameMeasure(outbox, v.pages, r.pages, p, i);
      } else {
        OtherBucket(outbox, scan, buckets[0], perBucket, limit, p.bucket);
        SameMeasure(outbox, scan.pages, v.pages, p, i);
        OrderProgress(outbox, v, rest, perBucket, limit, p, i);
      }
    }
  }

  predicate Returned(outbox: Outbox, cursor: Cursor, limits: seq<int>, entry: Entry)
    requires |outbox.partitions| == 2 * BUCKETS && |cursor.pages| == 2 * BUCKETS
    requires forall i :: 0 <= i < |limits| ==> limits[i] > 0
    decreases |limits|
  {
    limits != [] &&
    (entry in Call(outbox.reader, cursor, limits[0]).result || Returned(outbox, Advanced(outbox.reader, cursor, limits[0]), limits[1..], entry))
  }

  function CallsLeft(outbox: Outbox, cursor: Cursor, p: Partition, i: nat): nat
    requires |outbox.partitions| == 2 * BUCKETS && |cursor.pages| == 2 * BUCKETS && p.bucket < BUCKETS && i < |Rows(outbox, p)|
  {
    BUCKETS * Measure(outbox, cursor.pages, p, i) + Distance(cursor.next, p.bucket)
  }

  lemma OrderDistinct(start: nat)
    requires start < BUCKETS
    ensures Distinct(Order(start)) && Order(start)[0] == start
  {
    forall i, j | 0 <= i < j < BUCKETS ensures Order(start)[i] != Order(start)[j] {
      assert (start + i) % BUCKETS == if start + i < BUCKETS then start + i else start + i - BUCKETS;
      assert (start + j) % BUCKETS == if start + j < BUCKETS then start + j else start + j - BUCKETS;
    }
  }

  lemma CallProgress(outbox: Outbox, cursor: Cursor, limit: int, p: Partition, i: nat)
    requires Settled(outbox) && |cursor.pages| == 2 * BUCKETS && p.bucket < BUCKETS && i < |Rows(outbox, p)| && Clear(outbox, p, i) && limit > 0
    ensures Entry(p, Rows(outbox, p)[i]) in Call(outbox.reader, cursor, limit).result ||
            CallsLeft(outbox, Advanced(outbox.reader, cursor, limit), p, i) < CallsLeft(outbox, cursor, p, i)
  {
    var start := cursor.next % BUCKETS;
    OrderDistinct(start);
    OrderProgress(outbox, Scan(cursor.pages, [], false), Order(start), PerBucket(Clamped(limit)), Clamped(limit), p, i);
    DistanceStep(cursor.next, p.bucket);
  }

  /** Over an unchanging outbox a row with no expired row before it is returned once enough calls have been made, whatever their limits. */
  lemma {:induction false} EveryRowReturned(outbox: Outbox, cursor: Cursor, limits: seq<int>, p: Partition, i: nat)
    requires Settled(outbox) && |cursor.pages| == 2 * BUCKETS && p.bucket < BUCKETS && i < |Rows(outbox, p)| && Clear(outbox, p, i)
    requires forall k :: 0 <= k < |limits| ==> limits[k] > 0
    requires |limits| > CallsLeft(outbox, cursor, p, i)
    ensures Returned(outbox, cursor, limits, Entry(p, Rows(outbox, p)[i]))
    decreases |limits|
  {
    CallProgress(outbox, cursor, limits[0], p, i);
    if Entry(p, Rows(outbox, p)[i]) !in Call(outbox.reader, cursor, limits[0]).result {
      EveryRowReturned(outbox, Advanced(outbox.reader, cursor, limits[0]), limits[1..], p, i);
    }
  }

  /** Enough calls: sixteen for every visit the row may have to wait for, from any position the cursor may be in. */
  lemma EnoughCalls(outbox: Outbox, cursor: Cursor, p: Partition, i: nat)
    requires |outbox.partitions| == 2 * BUCKETS && |cursor.pages| == 2 * BUCKETS && p.bucket < BUCKETS && i < |Rows(outbox, p)|
    ensures
      var n, span := |Rows(outbox, p)|, LeadSpan(outbox, p.bucket);
      CallsLeft(outbox, cursor, p, i) < BUCKETS * (n * span + span)
  {
    var n, span, rank := |Rows(outbox, p)|, LeadSpan(outbox, p.bucket), RankOf(outbox, cursor.pages, p, i);
    WeightedBound(rank, n, span, LeadLeft(outbox, cursor.pages, p.bucket));
    SixteenTimes(Measure(outbox, cursor.pages, p, i), n * span + span, Distance(cursor.next, p.bucket));
  }

  lemma WeightedBound(rank: nat, n: nat, span: nat, left: nat)
    requires rank <= n && left < span
    ensures Weighted(rank, span, left) < n * span + span && rank < n * span + span
  {
    assert rank * span <= n * span;
    assert n <= n * span;
  }

  lemma SixteenTimes(m: nat, bound: nat, d: nat)
    requires m < bound && d < BUCKETS
    ensures BUCKETS * m + d < BUCKETS * bound
  {
  }

  // Expired rows that are still stored

  /** Rows j to j + m of the partition have expired. */
  predicate Blocked(outbox: Outbox, p: Partition, j: nat, m: nat)
    requires |outbox.partitions| == 2 * BUCKETS && p.bucket < BUCKETS && j + m <= |Rows(outbox, p)|
  {
    forall k :: j <= k < j + m ==> Entry(p, Rows(outbox, p)[k]) in outbox.expired
  }

  /** The position is not past row j, and row i has not been returned. */
  predicate Held(outbox: Outbox, scan: Scan, p: Partition, j: nat, i: nat)
    requires |outbox.partitions| == 2 * BUCKETS && Shaped(scan) && p.bucket < BUCKETS && i < |Rows(outbox, p)|
  {
    At(outbox, scan.pages, p) <= j && Entry(p, Rows(outbox, p)[i]) !in scan.result
  }

  /** The live rows of a query that starts before the block and ends within it are before the block. */
  lemma LiveBefore(expired: set<Entry>, p: Partition, rows: seq<Key>, at: nat, size: nat, j: nat, m: nat, n: nat)
    requires Ascending(rows) && at <= j && size <= m && at + size <= |rows| && j + m <= |rows|
    requires forall k :: j <= k < j + m ==> Entry(p, rows[k]) in expired
    requires n < |Live(expired, p, rows[at..at + size])|
    ensures j < |rows| ==> Live(expired, p, rows[at..at + size])[n] < rows[j]
  {
    var k := LiveFrom(expired, p, rows[at..at + size], n);
    assert rows[at..at + size][k] == rows[at + k] && at + k < j;
  }

  /** A query of at most m rows from before the block ends within it, and the last live row it finds is before the block. */
  lemma QueryHeld(expired: set<Entry>, p: Partition, rows: seq<Key>, page: Option<Key>, limit: nat, j: nat, m: nat, n: nat)
    requires Ascending(rows) && limit <= m && j + m < |rows| && Position(rows, page) <= j
    requires forall k :: j <= k < j + m ==> Entry(p, rows[k]) in expired
    ensures n < |Live(expired, p, Selected(rows, page, limit))| ==> Live(expired, p, Selected(rows, page, limit))[n] < rows[j]
  {
    SelectedSlice(rows, page, limit);
    var at := Position(rows, page);
    if n < |Live(expired, p, Selected(rows, page, limit))| {
      LiveBefore(expired, p, rows, at, Min(limit, |rows| - at), j, m, n);
    }
  }

  lemma QueryStays(expired: set<Entry>, p: Partition, rows: seq<Key>, page: Option<Key>, limit: nat, j: nat, m: nat)
    requires Ascending(rows) && limit <= m && j + m < |rows| && Position(rows, page) <= j
    requires forall k :: j <= k < j + m ==> Entry(p, rows[k]) in expired
    ensures Moved(expired, p, rows, page, limit) <= j
  {
    var live := Live(expired, p, Selected(rows, page, limit));
    QueryMoves(expired, p, rows, page, limit);
    if live != [] { QueryHeld(expired, p, rows, page, limit, j, m, |live| - 1); }
  }

  lemma FetchHeld(outbox: Outbox, scan: Scan, p: Partition, limit: nat, j: nat, m: nat, i: nat)
    requires Settled(outbox) && Shaped(scan) && p.bucket < BUCKETS && i < |Rows(outbox, p)| && j + m <= i && limit <= m
    requires Blocked(outbox, p, j, m) && Held(outbox, scan, p, j, i) && limit > 0 && !scan.failed
    ensures Held(outbox, VisitPartition(outbox.reader, scan, p, limit), p, j, i)
  {
    var rows, live := Rows(outbox, p), Fetched(outbox.reader, p, scan.pages[Index(p)], limit);
    assert Answered(outbox, p, scan.pages[Index(p)], limit);
    QueryStays(outbox.expired, p, rows, scan.pages[Index(p)], limit, j, m);
    forall n | 0 <= n < |live| ensures live[n] < rows[j] { QueryHeld(outbox.expired, p, rows, scan.pages[Index(p)], limit, j, m, n); }
    TaggedOmits(scan.result, p, live, rows[j], rows[i]);
  }

  lemma TaggedOmits(before: seq<Entry>, p: Partition, rows: seq<Key>, bound: Key, key: Key)
    requires (forall n :: 0 <= n < |rows| ==> rows[n] < bound) && bound <= key && Entry(p, key) !in before
    ensures Entry(p, key) !in before + Tagged(p, rows)
  {
  }

  lemma OtherHeld(outbox: Outbox, scan: Scan, visited: Partition, limit: nat, p: Partition, j: nat, i: nat)
    requires Settled(outbox) && Shaped(scan) && p.bucket < BUCKETS && visited.bucket < BUCKETS && i < |Rows(outbox, p)| && visited != p
    requires Held(outbox, scan, p, j, i)
    ensures Held(outbox, VisitPartition(outbox.reader, scan, visited, limit), p, j, i)
  {
    assert Index(visited) != Index(p);
  }

  lemma VisitHeld(outbox: Outbox, scan: Scan, visited: Partition, limit: nat, p: Partition, j: nat, m: nat, i: nat)
    requires Settled(outbox) && Shaped(scan) && p.bucket < BUCKETS && visited.bucket < BUCKETS && i < |Rows(outbox, p)|
    requires j + m <= i && limit <= m && Blocked(outbox, p, j, m) && Held(outbox, scan, p, j, i)
    ensures Held(outbox, VisitPartition(outbox.reader, scan, visited, limit), p, j, i)
  {
    if visited == p {
      if limit > 0 && !scan.failed { FetchHeld(outbox, scan, p, limit, j, m, i); }
    } else {
      OtherHeld(outbox, scan, visited, limit, p, j, i);
    }
  }

  lemma BucketHeld(outbox: Outbox, scan: Scan, bucket: nat, perBucket: nat, limit: nat, p: Partition, j: nat, m: nat, i: nat)
    requires Settled(outbox) && Shaped(scan) && p.bucket < BUCKETS && bucket < BUCKETS && i < |Rows(outbox, p)|
    requires !scan.failed && |scan.result| < limit && j + m <= i && 0 < perBucket <= m
    requires Blocked(outbox, p, j, m) && Held(outbox, scan, p, j, i)
    ensures Held(outbox, VisitBucket(outbox.reader, scan, bucket, perBucket, limit), p, j, i)
  {
    var f := Min(perBucket, limit - |scan.result|);
    var led := VisitPartition(outbox.reader, scan, Leading(bucket), f);
    VisitHeld(outbox, scan, Leading(bucket), f, p, j, m, i);
    VisitSplits(outbox, scan, bucket, perBucket, limit);
    VisitHeld(outbox, led, Trailing(bucket), f - (|led.result| - |scan.result|), p, j, m, i);
  }

  lemma {:induction false} OrderHeld(outbox: Outbox, scan: Scan, buckets: seq<nat>, perBucket: nat, limit: nat, p: Partition, j: nat, m: nat, i: nat)
    requires Settled(outbox) && Shaped(scan) && p.bucket < BUCKETS && i < |Rows(outbox, p)| && |scan.result| <= limit
    requires forall k :: 0 <= k < |buckets| ==> buckets[k] < BUCKETS
    requires j + m <= i && 0 < perBucket <= m && Blocked(outbox, p, j, m) && Held(outbox, scan, p, j, i)
    ensures Held(outbox, VisitAll(outbox.reader, scan, buckets, perBucket, limit), p, j, i)
    decreases |buckets|
  {
    if buckets != [] && |scan.result| < limit && !scan.failed {
      BucketHeld(outbox, scan, buckets[0], perBucket, limit, p, j, m, i);
      OrderHeld(outbox, VisitBucket(outbox.reader, scan, buckets[0], perBucket, limit), buckets[1..], perBucket, limit, p, j, m, i);
    }
  }

  /** A block of as many expired rows as a bucket's share hides all rows behind it, however many calls are made, once the
      position is before it. */
  lemma {:induction false} BlockHidesRow(outbox: Outbox, cursor: Cursor, limits: seq<int>, p: Partition, j: nat, m: nat, i: nat)
    requires Settled(outbox) && |cursor.pages| == 2 * BUCKETS && p.bucket < BUCKETS && i < |Rows(outbox, p)| && j + m <= i
    requires forall k :: 0 <= k < |limits| ==> limits[k] > 0 && PerBucket(Clamped(limits[k])) <= m
    requires Blocked(outbox, p, j, m) && At(outbox, cursor.pages, p) <= j
    ensures !Returned(outbox, cursor, limits, Entry(p, Rows(outbox, p)[i]))
    decreases |limits|
  {
    if limits != [] {
      var limit := Clamped(limits[0]);
      OrderHeld(outbox, Scan(cursor.pages, [], false), Order(cursor.next % BUCKETS), PerBucket(limit), limit, p, j, m, i);
      BlockHidesRow(outbox, Advanced(outbox.reader, cursor, limits[0]), limits[1..], p, j, m, i);
    }
  }

  /** Some number of calls returns the row from every cursor and with all positive limits. */
  ghost predicate SurelyReturned(outbox: Outbox, p: Partition, i: nat)
    requires |outbox.partitions| == 2 * BUCKETS && p.bucket < BUCKETS && i < |Rows(outbox, p)|
  {
    exists calls: nat :: ReturnedWithin(outbox, p, i, calls)
  }

  ghost predicate ReturnedWithin(outbox: Outbox, p: Partition, i: nat, calls: nat)
    requires |outbox.partitions| == 2 * BUCKETS && p.bucket < BUCKETS && i < |Rows(outbox, p)|
  {
    forall cursor: Cursor, limits: seq<int> ::
      |cursor.pages| == 2 * BUCKETS && (forall k :: 0 <= k < |limits| ==> limits[k] > 0) && |limits| >= calls ==>
        Returned(outbox, cursor, limits, Entry(p, Rows(outbox, p)[i]))
  }

  lemma ClearReturned(outbox: Outbox, p: Partition, i: nat)
    requires Settled(outbox) && p.bucket < BUCKETS && i < |Rows(outbox, p)| && Clear(outbox, p, i)
    ensures SurelyReturned(outbox, p, i)
  {
    var n, span := |Rows(outbox, p)|, LeadSpan(outbox, p.bucket);
    var calls := BUCKETS * (n * span + span);
    forall cursor: Cursor, limits: seq<int> |
      |cursor.pages| == 2 * BUCKETS && (forall k :: 0 <= k < |limits| ==> limits[k] > 0) && |limits| >= calls
      ensures Returned(outbox, cursor, limits, Entry(p, Rows(outbox, p)[i]))
    {
      EnoughCalls(outbox, cursor, p, i);
      EveryRowReturned(outbox, cursor, limits, p, i);
    }
    assert ReturnedWithin(outbox, p, i, calls);
  }

  /** A row of an unchanging outbox is surely returned exactly when neither it nor a row stored before it has expired. */
  lemma RowReturnedExactlyWhen(outbox: Outbox, p: Partition, i: nat)
    requires Settled(outbox) && p.bucket < BUCKETS && i < |Rows(outbox, p)|
    ensures SurelyReturned(outbox, p, i) <==> Clear(outbox, p, i)
  {
    if Clear(outbox, p, i) {
      ClearReturned(outbox, p, i);
    } else if SurelyReturned(outbox, p, i) {
      var calls: nat :| ReturnedWithin(outbox, p, i, calls);
      var cursor, limits := Cursor(0, seq(2 * BUCKETS, k => None)), seq(calls, k => 1);
      var j :| 0 <= j <= i && Entry(p, Rows(outbox, p)[j]) in outbox.expired;
      if j < i {
        BlockHidesRow(outbox, cursor, limits, p, j, 1, i);
      } else {
        ExpiredNeverReturned(outbox, cursor, limits, Entry(p, Rows(outbox, p)[i]));
      }
    }
  }

  lemma PartitionOmits(outbox: Outbox, scan: Scan, visited: Partition, limit: nat, entry: Entry)
    requires Settled(outbox) && Shaped(scan) && visited.bucket < BUCKETS && entry in outbox.expired && entry !in scan.result
    ensures entry !in VisitPartition(outbox.reader, scan, visited, limit).result
  {
    var live := Fetched(outbox.reader, visited, scan.pages[Index(visited)], limit);
    var selected := Selected(outbox.partitions[Index(visited)], scan.pages[Index(visited)], limit);
    assert Answered(outbox, visited, scan.pages[Index(visited)], limit);
    forall n | 0 <= n < |live| ensures Entry(visited, live[n]) != entry {
      var k := LiveFrom(outbox.expired, visited, selected, n);
    }
  }

  lemma {:induction false} OrderOmits(outbox: Outbox, scan: Scan, buckets: seq<nat>, perBucket: nat, limit: nat, entry: Entry)
    requires Settled(outbox) && Shaped(scan) && |scan.result| <= limit && entry in outbox.expired && entry !in scan.result
    requires forall k :: 0 <= k < |buckets| ==> buckets[k] < BUCKETS
    ensures entry !in VisitAll(outbox.reader, scan, buckets, perBucket, limit).result
    decreases |buckets|
  {
    if buckets != [] && |scan.result| < limit && !scan.failed {
      var b, f := buckets[0], Min(perBucket, limit - |scan.result|);
      var led := VisitPartition(outbox.reader, scan, Leading(b), f);
      PartitionOmits(outbox, scan, Leading(b), f, entry);
      PartitionOmits(outbox, led, Trailing(b), Min(perBucket - (|led.result| - |scan.result|), limit - |led.result|), entry);
      OrderOmits(outbox, VisitBucket(outbox.reader, scan, b, perBucket, limit), buckets[1..], perBucket, limit, entry);
    }
  }

  lemma {:induction false} ExpiredNeverReturned(outbox: Outbox, cursor: Cursor, limits: seq<int>, entry: Entry)
    requires Settled(outbox) && |cursor.pages| == 2 * BUCKETS && entry in outbox.expired
    requires forall k :: 0 <= k < |limits| ==> limits[k] > 0
    ensures !Returned(outbox, cursor, limits, entry)
    decreases |limits|
  {
    if limits != [] {
      var limit := Clamped(limits[0]);
      OrderOmits(outbox, Scan(cursor.pages, [], false), Order(cursor.next % BUCKETS), PerBucket(limit), limit, entry);
      ExpiredNeverReturned(outbox, Advanced(outbox.reader, cursor, limits[0]), limits[1..], entry);
    }
  }
}
