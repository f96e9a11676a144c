/** The dashboard's headline figures and its status funnel, both taken over the
    bids whose opening date lies in the reporting window. */
module Kpis {
  import opened Wrappers
  import opened Bids
  import opened Windows

  /** The headline figures: bids competed (won or lost), bids won, success rate
      in percent, revenue and gross profit of the won bids, and average ticket. */
  datatype Indicators = Indicators(
    competed: nat,
    won: nat,
    successRate: real,
    revenue: real,
    grossProfit: real,
    averageTicket: real)

  /** Wins as a percentage of bids competed; 0 when none were competed. */
  function SuccessRate(won: nat, competed: nat): (r: real)
    ensures competed == 0 ==> r == 0.0
    ensures competed > 0 ==> r * competed as real == won as real * 100.0
    ensures won <= competed ==> 0.0 <= r <= 100.0
  {
    if competed > 0 then won as real / competed as real * 100.0 else 0.0
  }

  /** Revenue per win; 0 when nothing was won. */
  function AverageTicket(revenue: real, won: nat): (r: real)
    ensures won == 0 ==> r == 0.0
    ensures won > 0 ==> r * won as real == revenue
  {
    if won > 0 then revenue / won as real else 0.0
  }

  /** The headline figures over the bids opened inside `w`. */
  function ComputeKpis(bids: seq<Bid>, w: Window): (k: Indicators)
    ensures k.won == CountOf(InWindow(bids, w), Won)
    ensures k.competed == CountOf(InWindow(bids, w), Won) + CountOf(InWindow(bids, w), Lost)
    ensures k.won <= k.competed
    ensures k.successRate == SuccessRate(k.won, k.competed)
    ensures 0.0 <= k.successRate <= 100.0
    ensures k.revenue == WonRevenue(InWindow(bids, w))
    ensures k.grossProfit == k.revenue - WonCost(InWindow(bids, w))
    ensures k.averageTicket == AverageTicket(k.revenue, k.won)
  {
    var win := InWindow(bids, w);
    var competed := CountIn(win, {Won, Lost});
    var won := CountIn(win, {Won});
    var revenue := WonRevenue(win);
    CountInUnion(win, {Won}, {Lost});
    assert {Won} + {Lost} == {Won, Lost};
    CountInSubset(win, {Won}, {Won, Lost});
    WonProfitSplit(win);
    Indicators(competed, won, SuccessRate(won, competed), revenue, WonProfit(win), AverageTicket(revenue, won))
  }

  /** A bid opened outside the window changes no figure. */
  lemma KpisIgnoreOutside(bids: seq<Bid>, b: Bid, w: Window)
    requires !Contains(w, b.opening)
    ensures ComputeKpis(bids + [b], w) == ComputeKpis(bids, w)
  {
    InWindowAppend(bids, [b], w);
    assert InWindow([b], w) == [] + InWindow([], w);
    assert InWindow(bids, w) + [] == InWindow(bids, w);
  }

  /** Appending one bid adds its contribution to every count and sum. */
  lemma AggregatesAppendOne(xs: seq<Bid>, b: Bid)
    ensures forall st :: CountOf(xs + [b], st) == CountOf(xs, st) + (if b.status == st then 1 else 0)
    ensures WonRevenue(xs + [b]) == WonRevenue(xs) + (if b.status == Won then ProposalOrZero(b) else 0.0)
    ensures WonCost(xs + [b]) == WonCost(xs) + (if b.status == Won then TotalCost(b) else 0.0)
  {
    forall st
      ensures CountOf(xs + [b], st) == CountOf(xs, st) + (if b.status == st then 1 else 0)
    {
      AggregatesAppend(xs, [b], {st});
      assert CountIn([b], {st}) == (if b.status in {st} then 1 else 0) + CountIn([], {st});
    }
    AggregatesAppend(xs, [b], {});
    assert WonRevenue([b]) == (if b.status == Won then ProposalOrZero(b) else 0.0) + WonRevenue([]);
    assert WonCost([b]) == (if b.status == Won then TotalCost(b) else 0.0) + WonCost([]);
  }

  /** A bid opened in the window is appended to the filtered bids. */
  lemma WindowAppendInside(bids: seq<Bid>, b: Bid, w: Window)
    requires Contains(w, b.opening)
    ensures InWindow(bids + [b], w) == InWindow(bids, w) + [b]
  {
    InWindowAppend(bids, [b], w);
    assert InWindow([b], w) == [b] + InWindow([], w);
  }

  /** A won bid opened in the window adds one competed bid, one win, its
      proposal value to the revenue and its gross profit to the gross profit. */
  lemma KpisAppendWon(bids: seq<Bid>, b: Bid, w: Window)
    requires Contains(w, b.opening) && b.status == Won
    ensures var k := ComputeKpis(bids, w);
      var k' := ComputeKpis(bids + [b], w);
      && k'.competed == k.competed + 1
      && k'.won == k.won + 1
      && k'.revenue == k.revenue + ProposalOrZero(b)
      && k'.grossProfit == k.grossProfit + GrossProfit(b)
  {
    WindowAppendInside(bids, b, w);
    AggregatesAppendOne(InWindow(bids, w), b);
  }

  /** A lost bid opened in the window adds one competed bid and nothing else. */
  lemma KpisAppendLost(bids: seq<Bid>, b: Bid, w: Window)
    requires Contains(w, b.opening) && b.status == Lost
    ensures var k := ComputeKpis(bids, w);
      var k' := ComputeKpis(bids + [b], w);
      && k'.competed == k.competed + 1
      && k'.won == k.won
      && k'.revenue == k.revenue
      && k'.grossProfit == k.grossProfit
  {
    WindowAppendInside(bids, b, w);
    AggregatesAppendOne(InWindow(bids, w), b);
  }

  /** A bid opened in the window that is neither won nor lost changes no figure. */
  lemma KpisAppendUndecided(bids: seq<Bid>, b: Bid, w: Window)
    requires Contains(w, b.opening) && b.status != Won && b.status != Lost
    ensures ComputeKpis(bids + [b], w) == ComputeKpis(bids, w)
  {
    WindowAppendInside(bids, b, w);
    AggregatesAppendOne(InWindow(bids, w), b);
  }

  /** One bar of the status funnel: a status and how many bids have it. */
  datatype Stage = Stage(status: Status, count: nat)

  /** The order in which the funnel lists the statuses. */
  const StatusOrder: seq<Status> := [UnderReview, Competing, Won, Lost, Cancelled]

  lemma EveryStatusListed()
    ensures forall st: Status :: st in StatusOrder
  {
    forall st: Status
      ensures st in StatusOrder
    {
      match st
      case UnderReview => assert StatusOrder[0] == st;
      case Competing => assert StatusOrder[1] == st;
      case Won => assert StatusOrder[2] == st;
      case Lost => assert StatusOrder[3] == st;
      case Cancelled => assert StatusOrder[4] == st;
    }
  }

  predicate DistinctStatuses(order: seq<Status>) {
    forall i, j :: 0 <= i < j < |order| ==> order[i] != order[j]
  }

  function StageTotal(r: seq<Stage>): nat {
    if |r| == 0 then 0 else r[0].count + StageTotal(r[1..])
  }

  /** The sum of the counts of the statuses in `order`. */
  function CountsOver(bids: seq<Bid>, order: seq<Status>): nat {
    if |order| == 0 then 0 else CountOf(bids, order[0]) + CountsOver(bids, order[1..])
  }

  lemma HeadNotInTail(order: seq<Status>)
    requires |order| > 0 && DistinctStatuses(order)
    ensures order[0] !in order[1..]
  {
  }

  /** One stage per status of `order` that some bid has, in that order. */
  function Stages(bids: seq<Bid>, order: seq<Status>): (r: seq<Stage>)
    ensures forall i :: 0 <= i < |r| ==>
      r[i].count > 0 && r[i].count == CountOf(bids, r[i].status) && r[i].status in order
    ensures StageTotal(r) == CountsOver(bids, order)
  {
    if |order| == 0 then []
    else
      var rest := Stages(bids, order[1..]);
      var n := CountOf(bids, order[0]);
      if n > 0 then
        var r := [Stage(order[0], n)] + rest;
        assert r[1..] == rest;
        r
      else rest
  }

  /** Every status of `order` that some bid has gets a stage. */
  lemma {:induction false} StagesComplete(bids: seq<Bid>, order: seq<Status>, st: Status)
    requires st in order && CountOf(bids, st) > 0
    ensures exists i :: 0 <= i < |Stages(bids, order)| && Stages(bids, order)[i].status == st
    decreases |order|
  {
    var r := Stages(bids, order);
    var rest := Stages(bids, order[1..]);
    if order[0] == st {
      assert r[0].status == st;
    } else {
      assert st in order[1..];
      StagesComplete(bids, order[1..], st);
      var i :| 0 <= i < |rest| && rest[i].status == st;
      if CountOf(bids, order[0]) > 0 {
        assert r[i + 1] == rest[i];
      } else {
        assert r[i] == rest[i];
      }
    }
  }

  /** When `order` lists each status once, so do its stages. */
  lemma {:induction false} StagesDistinct(bids: seq<Bid>, order: seq<Status>)
    requires DistinctStatuses(order)
    ensures forall i, j :: 0 <= i < j < |Stages(bids, order)| ==>
      Stages(bids, order)[i].status != Stages(bids, order)[j].status
    decreases |order|
  {
    if |order| > 0 {
      var r := Stages(bids, order);
      var rest := Stages(bids, order[1..]);
      StagesDistinct(bids, order[1..]);
      HeadNotInTail(order);
      if CountOf(bids, order[0]) > 0 {
        assert r == [Stage(order[0], CountOf(bids, order[0]))] + rest;
        forall i, j | 0 <= i < j < |r|
          ensures r[i].status != r[j].status
        {
          assert r[j] == rest[j - 1];
          if i == 0 {
            assert rest[j - 1].status in order[1..];
          } else {
            assert r[i] == rest[i - 1];
          }
        }
      } else {
        assert r == rest;
      }
    }
  }

  /** The counts over the five statuses add up to the number of bids. */
  lemma CountsOverAllStatuses(bids: seq<Bid>)
    ensures CountsOver(bids, StatusOrder) == |bids|
  {
    StatusCountsPartition(bids);
    var o := StatusOrder;
    assert o[1..] == [Competing, Won, Lost, Cancelled];
    assert o[1..][1..] == [Won, Lost, Cancelled];
    assert o[1..][1..][1..] == [Lost, Cancelled];
    assert o[1..][1..][1..][1..] == [Cancelled];
    assert o[1..][1..][1..][1..][1..] == [];
    assert CountsOver(bids, [Cancelled]) == CountOf(bids, Cancelled);
    assert CountsOver(bids, [Lost, Cancelled]) == CountOf(bids, Lost) + CountOf(bids, Cancelled);
    assert CountsOver(bids, [Won, Lost, Cancelled])
      == CountOf(bids, Won) + CountOf(bids, Lost) + CountOf(bids, Cancelled);
    assert CountsOver(bids, [Competing, Won, Lost, Cancelled])
      == CountOf(bids, Competing) + CountOf(bids, Won) + CountOf(bids, Lost) + CountOf(bids, Cancelled);
  }

  lemma StatusOrderDistinct()
    ensures DistinctStatuses(StatusOrder)
  {
  }

  /** The status funnel over the bids opened inside `w`: every status that some
      such bid has, once, with its count; the counts add up to the number of
      bids in the window. */
  function Funnel(bids: seq<Bid>, w: Window): (r: seq<Stage>)
    ensures forall i :: 0 <= i < |r| ==>
      r[i].count > 0 && r[i].count == CountOf(InWindow(bids, w), r[i].status)
    ensures forall st :: CountOf(InWindow(bids, w), st) > 0 <==>
      exists i :: 0 <= i < |r| && r[i].status == st
    ensures forall i, j :: 0 <= i < j < |r| ==> r[i].status != r[j].status
    ensures StageTotal(r) == |InWindow(bids, w)|
  {
    var win := InWindow(bids, w);
    EveryStatusListed();
    StatusOrderDistinct();
    CountsOverAllStatuses(win);
    StagesDistinct(win, StatusOrder);
    forall st | CountOf(win, st) > 0
      ensures exists i :: 0 <= i < |Stages(win, StatusOrder)| && Stages(win, StatusOrder)[i].status == st
    {
      StagesComplete(win, StatusOrder, st);
    }
    Stages(win, StatusOrder)
  }
}
