/**
 The round-robin cursor over the pending outbox: sixteen buckets, each with a direct and a group
 partition, one page position per partition and a call counter that wraps at 2^32.

 The cursor asks a reader for the rows of a partition after a position; which partitions fail to answer is an
 argument of the call. A partition is the list of its stored rows in clustering order (creation time, then message
 id); a row is known by its place in that order. A query is cut to its limit before its expired rows are dropped.
 */
module OutboxCursor {
  import opened Numbers
  import opened Options

  const BUCKETS := 16
  const MAX_FETCH := 100
  const UINT32 := 0x1_0000_0000

  type Key = nat
  datatype Partition = Partition(bucket: nat, group: bool)
  datatype Entry = Entry(partition: Partition, key: Key)
  datatype Scan = Scan(pages: seq<Option<Key>>, result: seq<Entry>, failed: bool)
  datatype Reader = Reader(query: (Partition, Option<Key>, nat) -> seq<Key>, failing: set<Partition>)

  /** Odd buckets ask for their group rows first, even ones for their direct rows. */
  function Leading(bucket: nat): Partition { Partition(bucket, bucket % 2 == 1) }
  function Trailing(bucket: nat): Partition { Partition(bucket, bucket % 2 == 0) }

  /** Where the page position of a partition is kept. */
  function Index(p: Partition): nat { p.bucket * 2 + if p.group then 1 else 0 }

  /** The reader's rows, cut to the limit. */
  function Fetched(reader: Reader, partition: Partition, page: Option<Key>, limit: nat): (r: seq<Key>)
    ensures |r| <= limit
  {
    var rows := reader.query(partition, page, limit);
    rows[..Min(limit, |rows|)]
  }

  function Tagged(partition: Partition, rows: seq<Key>): seq<Entry> {
    seq(|rows|, i requires 0 <= i < |rows| => Entry(partition, rows[i]))
  }

  function NextPage(rows: seq<Key>): Option<Key> { if rows == [] then None else Some(rows[|rows| - 1]) }

  predicate Shaped(scan: Scan) { |scan.pages| == 2 * BUCKETS }

  /** One fetch of one partition. */
  function VisitPartition(reader: Reader, scan: Scan, partition: Partition, limit: nat): (r: Scan)
    requires Shaped(scan) && partition.bucket < BUCKETS
    ensures Shaped(r) && |scan.result| <= |r.result| <= |scan.result| + limit
  {
    if limit == 0 || scan.failed then scan
    else if partition in reader.failing then scan.(failed := true)
    else
      var at := Index(partition);
      var rows := Fetched(reader, partition, scan.pages[at], limit);
      Scan(scan.pages[at := NextPage(rows)], scan.result + Tagged(partition, rows), false)
  }

  /** Both partitions of a bucket share its allowance. */
  function VisitBucket(reader: Reader, scan: Scan, bucket: nat, perBucket: nat, limit: nat): (r: Scan)
    requires Shaped(scan) && bucket < BUCKETS && |scan.result| <= limit
    ensures Shaped(r) && |r.result| <= limit && |r.result| <= |scan.result| + perBucket && scan.result <= r.result
  {
    var led := VisitPartition(reader, scan, Leading(bucket), Min(perBucket, limit - |scan.result|));
    VisitPartition(reader, led, Trailing(bucket), Min(perBucket - (|led.result| - |scan.result|), limit - |led.result|))
  }

  /** The order in which a call goes through the buckets. */
  function Order(start: nat): (r: seq<nat>)
    ensures |r| == BUCKETS && forall i :: 0 <= i < BUCKETS ==> r[i] == (start + i) % BUCKETS
  {
    seq(BUCKETS, i requires 0 <= i => (start + i) % BUCKETS)
  }

  /** The given buckets in turn, while there is room. */
  function VisitAll(reader: Reader, scan: Scan, buckets: seq<nat>, perBucket: nat, limit: nat): (r: Scan)
    requires Shaped(scan) && |scan.result| <= limit && forall i :: 0 <= i < |buckets| ==> buckets[i] < BUCKETS
    ensures Shaped(r) && |r.result| <= limit && scan.result <= r.result
    decreases |buckets|
  {
    if buckets == [] || |scan.result| >= limit || scan.failed then scan
    else VisitAll(reader, VisitBucket(reader, scan, buckets[0], perBucket, limit), buckets[1..], perBucket, limit)
  }

  lemma VisitAllStep(reader: Reader, scan: Scan, order: seq<nat>, offset: nat, perBucket: nat, limit: nat)
    requires Shaped(scan) && |scan.result| < limit && !scan.failed && offset < |order|
    requires forall i :: 0 <= i < |order| ==> order[i] < BUCKETS
    ensures VisitAll(reader, scan, order[offset..], perBucket, limit) ==
            VisitAll(reader, VisitBucket(reader, scan, order[offset], perBucket, limit), order[offset + 1..], perBucket, limit)
  {
    assert order[offset..][0] == order[offset] && order[offset..][1..] == order[offset + 1..];
  }

  datatype Cursor = Cursor(next: nat, pages: seq<Option<Key>>)

  function Clamped(limit: int): int { if limit > MAX_FETCH then MAX_FETCH else limit }
  function PerBucket(limit: nat): nat { (limit + BUCKETS - 1) / BUCKETS }

  /** One call with a positive limit. */
  function Call(reader: Reader, cursor: Cursor, limit: int): (r: Scan)
    requires |cursor.pages| == 2 * BUCKETS && limit > 0
    ensures Shaped(r) && |r.result| <= Clamped(limit)
  {
    VisitAll(reader, Scan(cursor.pages, [], false), Order(cursor.next % BUCKETS), PerBucket(Clamped(limit)), Clamped(limit))
  }

  function Advanced(reader: Reader, cursor: Cursor, limit: int): (r: Cursor)
    requires |cursor.pages| == 2 * BUCKETS && limit > 0
    ensures |r.pages| == 2 * BUCKETS && r.next < UINT32
  {
    Cursor((cursor.next + 1) % UINT32, Call(reader, cursor, limit).pages)
  }

  /** outboxFetchCursor. */
  class FetchCursor {
    var next: nat
    const pages: array<Option<Key>>

    ghost predicate Valid()
      reads this, pages
    {
      pages.Length == 2 * BUCKETS && next < UINT32
    }

    ghost function Contents(): Cursor
      reads this, pages
    {
      Cursor(next, pages[..])
    }

    constructor ()
      ensures Valid() && fresh(pages) && Contents() == Cursor(0, seq(2 * BUCKETS, i => None))
    {
      next := 0;
      pages := new Option<Key>[2 * BUCKETS](i => None);
    }

    /** fetch: None for an invalid limit or a failing partition. */
    method Fetch(reader: Reader, limit: int) returns (result: Option<seq<Entry>>)
      requires Valid()
      modifies this, pages
      ensures Valid()
      ensures limit <= 0 ==> result == None && Contents() == old(Contents())
      ensures limit > 0 ==>
                var call := Call(reader, old(Contents()), limit);
                Contents() == Advanced(reader, old(Contents()), limit) &&
                result == if call.failed then None else Some(call.result)
    {
      if limit <= 0 {
        return None;
      }
      var bound := Clamped(limit);
      var start := next % BUCKETS;
      next := (next + 1) % UINT32;
      var perBucket := PerBucket(bound);
      var collected, failed := FetchBuckets(reader, start, perBucket, bound);
      result := if failed then None else Some(collected);
    }

    /** The outer loop over the buckets. */
    method FetchBuckets(reader: Reader, start: nat, perBucket: nat, limit: nat) returns (result: seq<Entry>, failed: bool)
      requires Valid() && start < BUCKETS
      modifies pages
      ensures Valid()
      ensures VisitAll(reader, old(Scan(pages[..], [], false)), Order(start), perBucket, limit) == Scan(pages[..], result, failed)
    {
      result, failed := [], false;
      ghost var scan := Scan(pages[..], [], false);
      ghost var order := Order(start);
      ghost var whole := VisitAll(reader, scan, order, perBucket, limit);
      assert order[0..] == order;
      var offset := 0;
      while offset < BUCKETS && |result| < limit
        invariant 0 <= offset <= BUCKETS && |result| <= limit
        invariant scan == Scan(pages[..], result, false) && VisitAll(reader, scan, order[offset..], perBucket, limit) == whole
      {
        var bucket := (start + offset) % BUCKETS;
        VisitAllStep(reader, scan, order, offset, perBucket, limit);
        scan := VisitBucket(reader, scan, bucket, perBucket, limit);
        assert VisitAll(reader, scan, order[offset + 1..], perBucket, limit) == whole;
        result, failed := FetchBucket(reader, bucket, perBucket, limit, result);
        offset := offset + 1;
        if failed {
          return;
        }
      }
    }

    /** One query, and the page position it leaves. */
    method FetchPartition(reader: Reader, partition: Partition, fetchLimit: nat, before: seq<Entry>)
      returns (result: seq<Entry>, failed: bool)
      requires Valid() && partition.bucket < BUCKETS && fetchLimit > 0
      modifies pages
      ensures Valid()
      ensures VisitPartition(reader, old(Scan(pages[..], before, false)), partition, fetchLimit) == Scan(pages[..], result, failed)
      ensures |before| <= |result| <= |before| + fetchLimit
    {
      result, failed := before, partition in reader.failing;
      if failed {
        return;
      }
      var at := Index(partition);
      var rows := reader.query(partition, pages[at], fetchLimit);
      if |rows| > fetchLimit {
        rows := rows[..fetchLimit];
      }
      result := result + Tagged(partition, rows);
      if |rows| == 0 {
        pages[at] := None;
      } else {
        pages[at] := Some(rows[|rows| - 1]);
      }
      assert pages[..] == old(pages[..])[at := NextPage(rows)];
    }

    /** The inner loop: the two partitions of a bucket in the order its parity gives. */
    method FetchBucket(reader: Reader, bucket: nat, perBucket: nat, limit: nat, before: seq<Entry>)
      returns (result: seq<Entry>, failed: bool)
      requires Valid() && bucket < BUCKETS && |before| <= limit
      modifies pages
      ensures Valid()
      ensures VisitBucket(reader, old(Scan(pages[..], before, false)), bucket, perBucket, limit) == Scan(pages[..], result, failed)
    {
      result, failed := before, false;
      var bucketRemaining := perBucket;
      var kinds := if bucket % 2 == 1 then [true, false] else [false, true];
      assert Partition(bucket, kinds[0]) == Leading(bucket) && Partition(bucket, kinds[1]) == Trailing(bucket);
      ghost var start := Scan(pages[..], before, false);
      ghost var led := VisitPartition(reader, start, Leading(bucket), Min(perBucket, limit - |before|));
      var index := 0;
      while index < 2
        invariant 0 <= index <= 2 && |before| <= |result| <= limit && bucketRemaining == perBucket - (|result| - |before|) >= 0
        invariant index == 0 ==> start == Scan(pages[..], result, false) && result == before
        invariant index == 1 ==> led == Scan(pages[..], result, false)
        invariant index == 2 ==> VisitBucket(reader, start, bucket, perBucket, limit) == Scan(pages[..], result, false)
      {
        var fetchLimit := Min(bucketRemaining, limit - |result|);
        if fetchLimit == 0 {
          break;
        }
        assert index == 1 ==> VisitBucket(reader, start, bucket, perBucket, limit) == VisitPartition(reader, led, Trailing(bucket), fetchLimit);
        var fetched;
        fetched, failed := FetchPartition(reader, Partition(bucket, kinds[index]), fetchLimit, result);
        bucketRemaining := bucketRemaining - (|fetched| - |result|);
        result := fetched;
        if failed {
          return;
        }
        index := index + 1;
      }
    }
  }

  // The stored rows

  /** The rows of every partition, those of them that have expired, and who reads them. */
  datatype Outbox = Outbox(partitions: seq<seq<Key>>, expired: set<Entry>, reader: Reader)

  /** The rows after a page position. */
  function After(rows: seq<Key>, page: Option<Key>): seq<Key> {
    if rows == [] || page == None || page.value < rows[0] then rows else After(rows[1..], page)
  }

  /** What a query selects. */
  function Selected(rows: seq<Key>, page: Option<Key>, limit: nat): seq<Key> {
    After(rows, page)[..Min(limit, |After(rows, page)|)]
  }

  function Live(expired: set<Entry>, partition: Partition, rows: seq<Key>): (r: seq<Key>)
    ensures |r| <= |rows|
  {
    if rows == [] then [] else
      var init, last := Live(expired, partition, rows[..|rows| - 1]), rows[|rows| - 1];
      if Entry(partition, last) in expired then init else init + [last]
  }

  /** A fetch of a partition. */
  function Pending(outbox: Outbox, partition: Partition, page: Option<Key>, limit: nat): (r: seq<Key>)
    requires |outbox.partitions| == 2 * BUCKETS && partition.bucket < BUCKETS
    ensures |r| <= limit
  {
    Live(outbox.expired, partition, Selected(outbox.partitions[Index(partition)], page, limit))
  }

  /** fetchDirectBucket and fetchGroupBucket: the rows of the query that have not expired. */
  method ReadPartition(outbox: Outbox, partition: Partition, after: Option<Key>, limit: nat) returns (rows: seq<Key>)
    requires |outbox.partitions| == 2 * BUCKETS && partition.bucket < BUCKETS
    ensures rows == Pending(outbox, partition, after, limit)
  {
    var selected := Selected(outbox.partitions[Index(partition)], after, limit);
    rows := [];
    var i := 0;
    while i < |selected|
      invariant i <= |selected| && rows == Live(outbox.expired, partition, selected[..i])
    {
      assert selected[..i + 1][..i] == selected[..i];
      if Entry(partition, selected[i]) !in outbox.expired {
        rows := rows + [selected[i]];
      }
      i := i + 1;
    }
    assert selected[..i] == selected;
  }
}
