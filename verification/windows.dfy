/** The dashboard's reporting window and the counts and sums it takes over the
    bids whose opening date falls inside it. */
module Windows {
  import opened Wrappers
  import opened Bids

  /** An inclusive date range [start, end] (SQL `BETWEEN`). */
  datatype Window = Window(start: Date, end: Date)

  predicate Contains(w: Window, d: Date) {
    DateLe(w.start, d) && DateLe(d, w.end)
  }

  /** The bids whose opening date lies in the window, in store order. */
  function InWindow(bids: seq<Bid>, w: Window): (r: seq<Bid>)
    ensures |r| <= |bids|
    ensures forall b :: b in r <==> b in bids && Contains(w, b.opening)
  {
    if |bids| == 0 then []
    else (if Contains(w, bids[0].opening) then [bids[0]] else []) + InWindow(bids[1..], w)
  }

  /** The number of bids whose status is one of `statuses`. */
  function CountIn(bids: seq<Bid>, statuses: set<Status>): nat {
    if |bids| == 0 then 0
    else (if bids[0].status in statuses then 1 else 0) + CountIn(bids[1..], statuses)
  }

  /** The number of bids with status `st`. */
  function CountOf(bids: seq<Bid>, st: Status): nat {
    CountIn(bids, {st})
  }

  /** Total proposal value of the won bids, a missing value counting as 0. */
  function WonRevenue(bids: seq<Bid>): real {
    if |bids| == 0 then 0.0
    else (if bids[0].status == Won then ProposalOrZero(bids[0]) else 0.0) + WonRevenue(bids[1..])
  }

  /** Total cost of the won bids. */
  function WonCost(bids: seq<Bid>): real {
    if |bids| == 0 then 0.0
    else (if bids[0].status == Won then TotalCost(bids[0]) else 0.0) + WonCost(bids[1..])
  }

  /** The sum of the gross profits of the won bids. */
  function WonProfit(bids: seq<Bid>): real {
    if |bids| == 0 then 0.0
    else (if bids[0].status == Won then GrossProfit(bids[0]) else 0.0) + WonProfit(bids[1..])
  }

  /** Counting over a larger set of statuses never counts fewer bids. */
  lemma {:induction false} CountInSubset(bids: seq<Bid>, small: set<Status>, large: set<Status>)
    requires small <= large
    ensures CountIn(bids, small) <= CountIn(bids, large)
    decreases |bids|
  {
    if |bids| > 0 {
      CountInSubset(bids[1..], small, large);
    }
  }

  /** Counting over two disjoint sets of statuses adds up. */
  lemma {:induction false} CountInUnion(bids: seq<Bid>, a: set<Status>, b: set<Status>)
    requires a !! b
    ensures CountIn(bids, a + b) == CountIn(bids, a) + CountIn(bids, b)
    decreases |bids|
  {
    if |bids| > 0 {
      CountInUnion(bids[1..], a, b);
    }
  }

  /** The five per-status counts partition the bids. */
  lemma {:induction false} StatusCountsPartition(bids: seq<Bid>)
    ensures CountOf(bids, UnderReview) + CountOf(bids, Competing) + CountOf(bids, Won)
            + CountOf(bids, Lost) + CountOf(bids, Cancelled) == |bids|
    decreases |bids|
  {
    if |bids| > 0 {
      StatusCountsPartition(bids[1..]);
      forall st: Status
        ensures CountOf(bids, st) == (if bids[0].status == st then 1 else 0) + CountOf(bids[1..], st)
      {
        assert (bids[0].status in {st}) == (bids[0].status == st);
      }
    }
  }

  /** The won bids' profit is their revenue minus their cost. */
  lemma {:induction false} WonProfitSplit(bids: seq<Bid>)
    ensures WonProfit(bids) == WonRevenue(bids) - WonCost(bids)
    decreases |bids|
  {
    if |bids| > 0 {
      WonProfitSplit(bids[1..]);
    }
  }

  /** Filtering distributes over concatenation. */
  lemma {:induction false} InWindowAppend(xs: seq<Bid>, ys: seq<Bid>, w: Window)
    ensures InWindow(xs + ys, w) == InWindow(xs, w) + InWindow(ys, w)
    decreases |xs|
  {
    if |xs| == 0 {
      assert xs + ys == ys;
    } else {
      assert (xs + ys)[1..] == xs[1..] + ys;
      InWindowAppend(xs[1..], ys, w);
    }
  }

  /** Filtering an already filtered sequence changes nothing. */
  lemma {:induction false} InWindowIdempotent(bids: seq<Bid>, w: Window)
    ensures InWindow(InWindow(bids, w), w) == InWindow(bids, w)
    decreases |bids|
  {
    if |bids| > 0 {
      var rest := InWindow(bids[1..], w);
      InWindowIdempotent(bids[1..], w);
      if Contains(w, bids[0].opening) {
        assert InWindow(bids, w) == [bids[0]] + rest;
        assert ([bids[0]] + rest)[1..] == rest;
      } else {
        assert InWindow(bids, w) == rest;
      }
    }
  }

  /** The counts and sums of a concatenation are the sums of the parts'. */
  lemma {:induction false} AggregatesAppend(xs: seq<Bid>, ys: seq<Bid>, statuses: set<Status>)
    ensures CountIn(xs + ys, statuses) == CountIn(xs, statuses) + CountIn(ys, statuses)
    ensures WonRevenue(xs + ys) == WonRevenue(xs) + WonRevenue(ys)
    ensures WonCost(xs + ys) == WonCost(xs) + WonCost(ys)
    decreases |xs|
  {
    if |xs| == 0 {
      assert xs + ys == ys;
    } else {
      assert (xs + ys)[1..] == xs[1..] + ys;
      AggregatesAppend(xs[1..], ys, statuses);
    }
  }
}
