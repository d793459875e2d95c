/**
  Reading all cast lists of a performance at once: one query ordered by "order" over the whole performance, whose rows a
  loop then distributes over one list per position. That gives the same lists as one ordered query per position, since
  the sort is stable and picking the rows of a position commutes with it; positions without bookings get no list, which
  stands for the empty one.
*/
module FormData {
  import opened Positions
  import opened Tables

  /** Stable sorting by order leaves no inversion. */
  predicate NonDecreasing(rows: seq<Booking>) {
    |rows| < 2 || (rows[|rows| - 2].order <= rows[|rows| - 1].order && NonDecreasing(rows[..|rows| - 1]))
  }

  lemma {:induction false} InsertNonDecreasing(sorted: seq<Booking>, b: Booking)
    requires NonDecreasing(sorted)
    ensures NonDecreasing(InsertByOrder(sorted, b)) && InsertByOrder(sorted, b) != []
    ensures var last := InsertByOrder(sorted, b)[|InsertByOrder(sorted, b)| - 1];
            last == b || (sorted != [] && last == sorted[|sorted| - 1])
  {
    if sorted == [] || sorted[|sorted| - 1].order <= b.order {
      assert (sorted + [b])[..|sorted|] == sorted;
    } else {
      var init, last := sorted[..|sorted| - 1], sorted[|sorted| - 1];
      InsertNonDecreasing(init, b);
      var inserted := InsertByOrder(init, b);
      assert (inserted + [last])[..|inserted|] == inserted;
    }
  }

  lemma {:induction false} SortNonDecreasing(rows: seq<Booking>)
    ensures NonDecreasing(SortByOrder(rows))
  {
    if rows != [] {
      SortNonDecreasing(rows[..|rows| - 1]);
      InsertNonDecreasing(SortByOrder(rows[..|rows| - 1]), rows[|rows| - 1]);
    }
  }

  lemma {:induction false} NonDecreasingBelow(rows: seq<Booking>, i: nat)
    requires NonDecreasing(rows) && i < |rows|
    ensures rows[i].order <= rows[|rows| - 1].order
  {
    if i < |rows| - 1 {
      NonDecreasingBelow(rows[..|rows| - 1], i);
    }
  }

  lemma {:induction false} AtSnoc(rows: seq<Booking>, b: Booking, slot: Slot)
    ensures At(rows + [b], slot) == At(rows, slot) + (if b.slot == slot then [b] else [])
  {
    assert (rows + [b])[..|rows|] == rows;
  }

  lemma {:induction false} InsertBack(sorted: seq<Booking>, b: Booking, slot: Slot)
    requires NonDecreasing(sorted) && (sorted == [] || sorted[|sorted| - 1].order <= b.order)
    ensures InsertByOrder(At(sorted, slot), b) == At(sorted, slot) + [b]
  {
    var here := At(sorted, slot);
    if here != [] {
      var i :| 0 <= i < |sorted| && sorted[i] == here[|here| - 1];
      NonDecreasingBelow(sorted, i);
    }
  }

  lemma {:induction false} InsertFront(init: seq<Booking>, last: Booking, b: Booking, slot: Slot)
    requires b.order < last.order
    requires At(InsertByOrder(init, b), slot)
             == if b.slot == slot then InsertByOrder(At(init, slot), b) else At(init, slot)
    ensures At(InsertByOrder(init, b) + [last], slot)
            == if b.slot == slot then InsertByOrder(At(init + [last], slot), b) else At(init + [last], slot)
  {
    AtSnoc(InsertByOrder(init, b), last, slot);
    AtSnoc(init, last, slot);
    if last.slot != slot {
      assert At(init + [last], slot) == At(init, slot);
      assert At(InsertByOrder(init, b) + [last], slot) == At(InsertByOrder(init, b), slot);
    }
  }

  /** Inserting in order commutes with picking one position. */
  lemma {:induction false} InsertAt(sorted: seq<Booking>, b: Booking, slot: Slot)
    requires NonDecreasing(sorted)
    ensures At(InsertByOrder(sorted, b), slot)
            == if b.slot == slot then InsertByOrder(At(sorted, slot), b) else At(sorted, slot)
  {
    if sorted == [] || sorted[|sorted| - 1].order <= b.order {
      AtSnoc(sorted, b, slot);
      InsertBack(sorted, b, slot);
    } else {
      var init, last := sorted[..|sorted| - 1], sorted[|sorted| - 1];
      assert sorted == init + [last];
      InsertAt(init, b, slot);
      InsertFront(init, last, b, slot);
    }
  }

  /** Sorting the whole table and then picking one position is the same as sorting that position. */
  lemma {:induction false} SortAt(rows: seq<Booking>, slot: Slot)
    ensures At(SortByOrder(rows), slot) == SortByOrder(At(rows, slot))
  {
    if rows != [] {
      var init, last := rows[..|rows| - 1], rows[|rows| - 1];
      SortAt(init, slot);
      SortNonDecreasing(init);
      InsertAt(SortByOrder(init), last, slot);
      if last.slot == slot {
        assert (At(init, slot) + [last])[..|At(init, slot)|] == At(init, slot);
      } else {
        assert At(rows, slot) == At(init, slot);
      }
    }
  }

  function OfPerformance(rows: seq<Booking>, p: PerfId): seq<Booking> {
    if rows == [] then []
    else OfPerformance(rows[..|rows| - 1], p) + (if rows[|rows| - 1].slot.perf == p then [rows[|rows| - 1]] else [])
  }

  lemma {:induction false} OfPerformanceAt(rows: seq<Booking>, p: PerfId, key: PositionKey)
    ensures At(OfPerformance(rows, p), Slot(p, key)) == At(rows, Slot(p, key))
  {
    if rows != [] {
      var init, last := rows[..|rows| - 1], rows[|rows| - 1];
      OfPerformanceAt(init, p, key);
      if last.slot.perf == p {
        AtSnoc(OfPerformance(init, p), last, Slot(p, key));
      } else {
        assert OfPerformance(rows, p) == OfPerformance(init, p);
      }
    }
  }

  function Bucket(buckets: map<PositionKey, seq<Booking>>, key: PositionKey): seq<Booking> {
    if key in buckets then buckets[key] else []
  }

  ghost predicate Bucketed(buckets: map<PositionKey, seq<Booking>>, rows: seq<Booking>, p: PerfId) {
    forall key :: Bucket(buckets, key) == At(rows, Slot(p, key))
  }

  lemma {:induction false} BucketEnd(buckets: map<PositionKey, seq<Booking>>, rows: seq<Booking>, p: PerfId,
                                     key: PositionKey)
    requires Bucketed(buckets, SortByOrder(OfPerformance(rows, p)), p)
    ensures Bucket(buckets, key) == SortByOrder(At(rows, Slot(p, key)))
  {
    SortAt(OfPerformance(rows, p), Slot(p, key));
    OfPerformanceAt(rows, p, key);
  }

  /** Buckets the rows of one performance by position, each bucket in order. */
  method BucketByPosition(rows: seq<Booking>, p: PerfId) returns (buckets: map<PositionKey, seq<Booking>>)
    ensures forall key :: Bucket(buckets, key) == SortByOrder(At(rows, Slot(p, key)))
  {
    var ordered := SortByOrder(OfPerformance(rows, p));
    buckets := map[];
    for i := 0 to |ordered|
      invariant Bucketed(buckets, ordered[..i], p)
    {
      assert ordered[..i + 1] == ordered[..i] + [ordered[i]];
      SortedPerf(rows, p, i);
      buckets := buckets[ordered[i].slot.key := Bucket(buckets, ordered[i].slot.key) + [ordered[i]]];
    }
    assert ordered[..|ordered|] == ordered;
    forall key ensures Bucket(buckets, key) == SortByOrder(At(rows, Slot(p, key))) {
      BucketEnd(buckets, rows, p, key);
    }
  }

  lemma {:induction false} InsertMembers(sorted: seq<Booking>, b: Booking, x: Booking)
    ensures x in InsertByOrder(sorted, b) ==> x in sorted || x == b
  {
    if !(sorted == [] || sorted[|sorted| - 1].order <= b.order) {
      InsertMembers(sorted[..|sorted| - 1], b, x);
    }
  }

  lemma {:induction false} SortMembers(rows: seq<Booking>, x: Booking)
    ensures x in SortByOrder(rows) ==> x in rows
  {
    if rows != [] {
      SortMembers(rows[..|rows| - 1], x);
      InsertMembers(SortByOrder(rows[..|rows| - 1]), rows[|rows| - 1], x);
    }
  }

  lemma {:induction false} OfPerformanceMembers(rows: seq<Booking>, p: PerfId, x: Booking)
    ensures x in OfPerformance(rows, p) ==> x.slot.perf == p
  {
    if rows != [] {
      OfPerformanceMembers(rows[..|rows| - 1], p, x);
    }
  }

  lemma {:induction false} SortedPerf(rows: seq<Booking>, p: PerfId, i: nat)
    requires i < |SortByOrder(OfPerformance(rows, p))|
    ensures SortByOrder(OfPerformance(rows, p))[i].slot.perf == p
  {
    var x := SortByOrder(OfPerformance(rows, p))[i];
    SortMembers(OfPerformance(rows, p), x);
    OfPerformanceMembers(rows, p, x);
  }
}
