/** The dashboard's monthly revenue chart: one bucket per calendar month in
    which a bid in the window was won, in ascending month order, holding the
    sum of those bids' proposal values. */
module MonthlyRevenue {
  import opened Wrappers
  import opened Bids
  import opened Windows

  /** A calendar month, the key `'%Y-%m'` of the chart. */
  datatype YearMonth = YearMonth(year: int, month: int)

  function MonthOf(d: Date): YearMonth {
    YearMonth(d.year, d.month)
  }

  /** Chronological order on months; for four-digit years it is the order of the
      `'%Y-%m'` keys the chart sorts. */
  predicate Earlier(a: YearMonth, b: YearMonth) {
    a.year < b.year || (a.year == b.year && a.month < b.month)
  }

  datatype Bucket = Bucket(month: YearMonth, revenue: real)

  /** Each bucket's month comes strictly before the next one's. */
  predicate StrictlyAscending(s: seq<Bucket>) {
    forall i :: 0 <= i < |s| - 1 ==> Earlier(s[i].month, s[i + 1].month)
  }

  function Months(s: seq<Bucket>): set<YearMonth> {
    if |s| == 0 then {} else {s[0].month} + Months(s[1..])
  }

  function Total(s: seq<Bucket>): real {
    if |s| == 0 then 0.0 else s[0].revenue + Total(s[1..])
  }

  /** The revenue the series records for month `m` (0 when it has no bucket). */
  function RevenueAt(s: seq<Bucket>, m: YearMonth): real {
    if |s| == 0 then 0.0
    else (if s[0].month == m then s[0].revenue else 0.0) + RevenueAt(s[1..], m)
  }

  /** The months in which some bid of `bids` was won. */
  function WonMonths(bids: seq<Bid>): set<YearMonth> {
    set b | b in bids && b.status == Won :: MonthOf(b.opening)
  }

  /** The proposal values of the bids won in month `m`, summed. */
  function MonthRevenue(bids: seq<Bid>, m: YearMonth): real {
    if |bids| == 0 then 0.0
    else (if bids[0].status == Won && MonthOf(bids[0].opening) == m then ProposalOrZero(bids[0]) else 0.0)
         + MonthRevenue(bids[1..], m)
  }

  /** Adds `v` to the bucket of month `m`, creating it in its place when absent. */
  function Deposit(s: seq<Bucket>, m: YearMonth, v: real): (r: seq<Bucket>)
    requires StrictlyAscending(s)
    ensures StrictlyAscending(r)
    ensures |r| > 0 && (r[0].month == m || (|s| > 0 && r[0].month == s[0].month))
    ensures Months(r) == Months(s) + {m}
    ensures Total(r) == Total(s) + v
    ensures forall n :: RevenueAt(r, n) == RevenueAt(s, n) + (if n == m then v else 0.0)
  {
    if |s| == 0 then [Bucket(m, v)]
    else if s[0].month == m then
      var r := [Bucket(m, s[0].revenue + v)] + s[1..];
      assert r[1..] == s[1..];
      r
    else if Earlier(m, s[0].month) then
      var r := [Bucket(m, v)] + s;
      assert r[1..] == s;
      r
    else
      var rest := Deposit(s[1..], m, v);
      var r := [s[0]] + rest;
      assert r[1..] == rest;
      assert |s| > 1 ==> s[1] == s[1..][0];
      r
  }

  /** The monthly series of the won bids among `bids`. */
  function Series(bids: seq<Bid>): (r: seq<Bucket>)
    ensures StrictlyAscending(r)
    ensures Total(r) == WonRevenue(bids)
    ensures forall m :: RevenueAt(r, m) == MonthRevenue(bids, m)
  {
    if |bids| == 0 then []
    else if bids[0].status == Won then
      Deposit(Series(bids[1..]), MonthOf(bids[0].opening), ProposalOrZero(bids[0]))
    else Series(bids[1..])
  }

  /** The series has a bucket exactly for the months in which a bid was won. */
  lemma {:induction false} SeriesMonths(bids: seq<Bid>)
    ensures Months(Series(bids)) == WonMonths(bids)
    decreases |bids|
  {
    if |bids| > 0 {
      SeriesMonths(bids[1..]);
      var head := if bids[0].status == Won then {MonthOf(bids[0].opening)} else {};
      assert WonMonths(bids) == head + WonMonths(bids[1..]) by {
        forall m | m in WonMonths(bids)
          ensures m in head + WonMonths(bids[1..])
        {
          var b :| b in bids && b.status == Won && MonthOf(b.opening) == m;
          if b != bids[0] {
            assert b in bids[1..];
          }
        }
        forall m | m in WonMonths(bids[1..])
          ensures m in WonMonths(bids)
        {
          var b :| b in bids[1..] && b.status == Won && MonthOf(b.opening) == m;
          assert b in bids;
        }
      }
    }
  }

  /** In a strictly ascending series, months are pairwise in order. */
  lemma {:induction false} AscendingPairwise(s: seq<Bucket>)
    requires StrictlyAscending(s)
    ensures forall i, j :: 0 <= i < j < |s| ==> Earlier(s[i].month, s[j].month)
    decreases |s|
  {
    if |s| > 1 {
      AscendingPairwise(s[1..]);
      forall i, j | 0 <= i < j < |s|
        ensures Earlier(s[i].month, s[j].month)
      {
        if i > 0 {
          assert s[i] == s[1..][i - 1] && s[j] == s[1..][j - 1];
        } else if j > 1 {
          assert s[1] == s[1..][0] && s[j] == s[1..][j - 1];
        }
      }
    }
  }

  /** In a strictly ascending series, a bucket holds all the revenue of its month. */
  lemma {:induction false} BucketHoldsMonth(s: seq<Bucket>, i: nat)
    requires StrictlyAscending(s) && i < |s|
    ensures RevenueAt(s, s[i].month) == s[i].revenue
    decreases |s|
  {
    AscendingPairwise(s);
    if i == 0 {
      AbsentMonth(s[1..], s[0].month);
    } else {
      assert s[i] == s[1..][i - 1];
      BucketHoldsMonth(s[1..], i - 1);
    }
  }

  /** A month earlier than every bucket's has no revenue in the series. */
  lemma {:induction false} AbsentMonth(s: seq<Bucket>, m: YearMonth)
    requires forall i :: 0 <= i < |s| ==> Earlier(m, s[i].month)
    ensures RevenueAt(s, m) == 0.0
    decreases |s|
  {
    if |s| > 0 {
      assert forall i :: 0 <= i < |s[1..]| ==> s[1..][i] == s[i + 1];
      AbsentMonth(s[1..], m);
    }
  }

  /** The chart's series over the bids opened inside `w`: strictly ascending
      months, one bucket per month with a won bid, each bucket holding that
      month's revenue, and the buckets summing to the total revenue. */
  function MonthlySeries(bids: seq<Bid>, w: Window): (r: seq<Bucket>)
    ensures StrictlyAscending(r)
    ensures forall i, j :: 0 <= i < j < |r| ==> Earlier(r[i].month, r[j].month)
    ensures Months(r) == WonMonths(InWindow(bids, w))
    ensures forall i :: 0 <= i < |r| ==> r[i].revenue == MonthRevenue(InWindow(bids, w), r[i].month)
    ensures Total(r) == WonRevenue(InWindow(bids, w))
  {
    var r := Series(InWindow(bids, w));
    SeriesMonths(InWindow(bids, w));
    AscendingPairwise(r);
    forall i | 0 <= i < |r|
      ensures r[i].revenue == MonthRevenue(InWindow(bids, w), r[i].month)
    {
      BucketHoldsMonth(r, i);
    }
    r
  }
}
