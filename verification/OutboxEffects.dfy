/**
 Which rows a call of the outbox cursor asks for and in which order, in the kinds of rows and the places of the pages.
 */
module OutboxEffects {
  import opened Numbers
  import opened Options
  import opened OutboxCursor

  /** Direct rows keep their page at even places, group rows at odd ones. */
  function Place(bucket: nat, group: bool): nat { if group then 2 * bucket + 1 else 2 * bucket }

  /** A reader's answer to one query, none of it beyond the share. */
  function Answer(reader: Reader, page: Option<Key>, bucket: nat, group: bool, share: nat): (r: seq<Key>)
    ensures |r| <= share
  {
    var rows := reader.query(Partition(bucket, group), page, share);
    if |rows| > share then rows[..share] else rows
  }

  /** The rows, tagged with their bucket and kind, come after what was there. */
  ghost predicate Adds(before: seq<Entry>, after: seq<Entry>, bucket: nat, group: bool, rows: seq<Key>) {
    after == before + seq(|rows|, i requires 0 <= i < |rows| => Entry(Partition(bucket, group), rows[i]))
  }

  predicate PageMoves(before: seq<Option<Key>>, after: seq<Option<Key>>, at: nat, rows: seq<Key>) {
    at < |before| && after == before[at := if rows == [] then None else Some(rows[|rows| - 1])]
  }

  lemma PartitionAdds(reader: Reader, scan: Scan, bucket: nat, group: bool, share: nat)
    requires Shaped(scan) && bucket < 16 && share > 0 && !scan.failed && Partition(bucket, group) !in reader.failing
    ensures
      var r, rows := VisitPartition(reader, scan, Partition(bucket, group), share), Answer(reader, scan.pages[Place(bucket, group)], bucket, group, share);
      !r.failed && Adds(scan.result, r.result, bucket, group, rows) && PageMoves(scan.pages, r.pages, Place(bucket, group), rows)
  {
  }

  /** An odd bucket asks for its group rows with the whole share and for direct rows with what they leave of it; an even bucket
      does it the other way round. */
  lemma VisitInTurn(reader: Reader, scan: Scan, bucket: nat, perBucket: nat, limit: nat)
    requires Shaped(scan) && bucket < 16 && |scan.result| + perBucket <= limit
    ensures
      var odd := bucket % 2 == 1;
      var led := VisitPartition(reader, scan, Partition(bucket, odd), perBucket);
      VisitBucket(reader, scan, bucket, perBucket, limit) ==
      VisitPartition(reader, led, Partition(bucket, !odd), perBucket - (|led.result| - |scan.result|))
  {
  }

  /** What a visit returns: the leading kind's rows up to the share, then the other kind's in what they leave of it. */
  lemma VisitServes(reader: Reader, scan: Scan, bucket: nat, perBucket: nat, limit: nat) returns (led: Scan)
    requires Shaped(scan) && bucket < 16 && !scan.failed && 0 < perBucket && |scan.result| + perBucket <= limit
    requires Partition(bucket, true) !in reader.failing && Partition(bucket, false) !in reader.failing
    ensures Shaped(led)
    ensures
      var odd := bucket % 2 == 1;
      var first := Answer(reader, scan.pages[Place(bucket, odd)], bucket, odd, perBucket);
      Adds(scan.result, led.result, bucket, odd, first) && PageMoves(scan.pages, led.pages, Place(bucket, odd), first) &&
      var r := VisitBucket(reader, scan, bucket, perBucket, limit);
      if |first| == perBucket then r == led
      else
        var second := Answer(reader, scan.pages[Place(bucket, !odd)], bucket, !odd, perBucket - |first|);
        !r.failed && Adds(led.result, r.result, bucket, !odd, second) && PageMoves(led.pages, r.pages, Place(bucket, !odd), second)
  {
    var odd := bucket % 2 == 1;
    led := VisitPartition(reader, scan, Partition(bucket, odd), perBucket);
    var first := Answer(reader, scan.pages[Place(bucket, odd)], bucket, odd, perBucket);
    VisitInTurn(reader, scan, bucket, perBucket, limit);
    PartitionAdds(reader, scan, bucket, odd, perBucket);
    if |first| < perBucket {
      PartitionAdds(reader, led, bucket, !odd, perBucket - |first|);
      assert led.pages[Place(bucket, !odd)] == scan.pages[Place(bucket, !odd)];
    }
  }

  /** A visit fails exactly if a partition it asks fails: the other kind is asked only if the leading one leaves room. It then
      has added nothing after that. */
  lemma VisitFailsExactlyWhen(reader: Reader, scan: Scan, bucket: nat, perBucket: nat, limit: nat)
    requires Shaped(scan) && bucket < 16 && !scan.failed && 0 < perBucket && |scan.result| + perBucket <= limit
    ensures
      var r, odd := VisitBucket(reader, scan, bucket, perBucket, limit), bucket % 2 == 1;
      var room := |Answer(reader, scan.pages[Place(bucket, odd)], bucket, odd, perBucket)| < perBucket;
      (r.failed <==> Partition(bucket, odd) in reader.failing || (room && Partition(bucket, !odd) in reader.failing)) &&
      (Partition(bucket, odd) in reader.failing ==> r.result == scan.result && r.pages == scan.pages)
  {
    var odd := bucket % 2 == 1;
    VisitInTurn(reader, scan, bucket, perBucket, limit);
    if Partition(bucket, odd) !in reader.failing {
      PartitionAdds(reader, scan, bucket, odd, perBucket);
      var led := VisitPartition(reader, scan, Partition(bucket, odd), perBucket);
      var room := perBucket - (|led.result| - |scan.result|);
      if room > 0 && Partition(bucket, !odd) !in reader.failing { PartitionAdds(reader, led, bucket, !odd, room); }
    }
  }

  /** A call whose first partition fails gets nothing, and one that finds none failing does not fail. */
  lemma CallFails(reader: Reader, cursor: Cursor, limit: int, bucket: nat)
    requires |cursor.pages| == 32 && limit > 0 && bucket == cursor.next % 16
    ensures
      var call := Call(reader, cursor, limit);
      (Partition(bucket, bucket % 2 == 1) in reader.failing ==> call.failed && call.result == [] && call.pages == cursor.pages) &&
      (reader.failing == {} ==> !call.failed)
  {
    var scan, share, bound := Scan(cursor.pages, [], false), PerBucket(Clamped(limit)), Clamped(limit);
    var order := Order(bucket);
    assert order[0] == bucket && VisitAll(reader, scan, order, share, bound) == Call(reader, cursor, limit);
    if Partition(bucket, bucket % 2 == 1) in reader.failing { VisitFailsExactlyWhen(reader, scan, bucket, share, bound); }
    if reader.failing == {} { NoneFails(reader, scan, order, share, bound); }
  }

  lemma {:induction false} NoneFails(reader: Reader, scan: Scan, buckets: seq<nat>, perBucket: nat, limit: nat)
    requires Shaped(scan) && |scan.result| <= limit && !scan.failed && reader.failing == {}
    requires forall i :: 0 <= i < |buckets| ==> buckets[i] < BUCKETS
    ensures !VisitAll(reader, scan, buckets, perBucket, limit).failed
    decreases |buckets|
  {
    if buckets != [] && |scan.result| < limit {
      VisitNoneFails(reader, scan, buckets[0], perBucket, limit);
      NoneFails(reader, VisitBucket(reader, scan, buckets[0], perBucket, limit), buckets[1..], perBucket, limit);
    }
  }

  lemma VisitNoneFails(reader: Reader, scan: Scan, bucket: nat, perBucket: nat, limit: nat)
    requires Shaped(scan) && bucket < BUCKETS && |scan.result| <= limit && !scan.failed && reader.failing == {}
    ensures !VisitBucket(reader, scan, bucket, perBucket, limit).failed
  {
  }

  lemma VisitBegins(reader: Reader, scan: Scan, bucket: nat, perBucket: nat, limit: nat)
    requires Shaped(scan) && scan.result == [] && bucket < 16 && !scan.failed && 0 < perBucket <= limit
    requires Partition(bucket, bucket % 2 == 1) !in reader.failing
    ensures
      var odd := bucket % 2 == 1;
      var rows := Answer(reader, scan.pages[Place(bucket, odd)], bucket, odd, perBucket);
      rows != [] ==>
        VisitBucket(reader, scan, bucket, perBucket, limit).result != [] &&
        VisitBucket(reader, scan, bucket, perBucket, limit).result[0] == Entry(Partition(bucket, odd), rows[0])
  {
    VisitInTurn(reader, scan, bucket, perBucket, limit);
    PartitionAdds(reader, scan, bucket, bucket % 2 == 1, perBucket);
  }

  /** The first row of a call is the leading kind's first row of the bucket the counter points at, whenever there is one. */
  lemma CallBeginsWith(reader: Reader, cursor: Cursor, limit: int, bucket: nat, share: nat, odd: bool)
    requires |cursor.pages| == 32 && limit > 0
    requires bucket == cursor.next % 16 && share == (Min(limit, 100) + 15) / 16 && (odd <==> bucket % 2 == 1)
    requires Partition(bucket, odd) !in reader.failing
    ensures
      var rows := Answer(reader, cursor.pages[Place(bucket, odd)], bucket, odd, share);
      rows != [] ==>
        Call(reader, cursor, limit).result != [] && Call(reader, cursor, limit).result[0] == Entry(Partition(bucket, odd), rows[0])
  {
    VisitBegins(reader, Scan(cursor.pages, [], false), bucket, share, Clamped(limit));
    var order := Order(bucket);
    assert order[0] == bucket;
    assert VisitAll(reader, Scan(cursor.pages, [], false), order, share, Clamped(limit)) == Call(reader, cursor, limit);
  }
}
