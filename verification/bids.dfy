/** Bids ("licitações") with their line items ("produtos"), and the values the
    application derives from them: total cost, gross profit and profit margin.
    Money is modelled as `real`. */
module Bids {
  import opened Wrappers

  /** The five status labels the application's logic writes or tests. */
  datatype Status =
    | UnderReview  // 'Em Análise', the default of a new bid
    | Competing    // 'Participando', set when the cost is posted
    | Won          // 'Vencida'
    | Lost         // 'Perdida'
    | Cancelled    // 'Cancelada'

  /** A calendar date as (year, month, day). */
  datatype Date = Date(year: int, month: int, day: int)

  /** Chronological order on dates: lexicographic on (year, month, day). */
  predicate DateLe(a: Date, b: Date) {
    || a.year < b.year
    || (a.year == b.year && a.month < b.month)
    || (a.year == b.year && a.month == b.month && a.day <= b.day)
  }

  /** One costed component of a bid's proposal. */
  datatype LineItem = LineItem(description: string, quantity: int, unitCost: real)

  /** A tracked procurement opportunity. `proposal` is nullable in the store. */
  datatype Bid = Bid(
    id: int,
    client: string,
    notice: string,
    subject: string,
    opening: Date,
    proposal: Option<real>,
    status: Status,
    items: seq<LineItem>)

  /** `q` times `c`, written as repeated addition so that proofs about sums of
      line totals stay in linear arithmetic; `TimesIsProduct` shows it is the product. */
  function Times(q: int, c: real): real
    decreases if q < 0 then -q else q
  {
    if q == 0 then 0.0
    else if q > 0 then Times(q - 1, c) + c
    else Times(q + 1, c) - c
  }

  lemma {:induction false} TimesIsProduct(q: int, c: real)
    ensures Times(q, c) == q as real * c
    decreases if q < 0 then -q else q
  {
    if q > 0 {
      TimesIsProduct(q - 1, c);
      assert (q - 1) as real * c + c == q as real * c;
    } else if q < 0 {
      TimesIsProduct(q + 1, c);
      assert (q + 1) as real * c - c == q as real * c;
    }
  }

  lemma {:induction false} TimesNonNegative(q: int, c: real)
    requires q >= 0 && c >= 0.0
    ensures Times(q, c) >= 0.0
    decreases q
  {
    if q > 0 {
      TimesNonNegative(q - 1, c);
    }
  }

  /** The cost of one line item: quantity times unit cost. */
  function LineTotal(p: LineItem): (r: real)
    ensures r == p.quantity as real * p.unitCost
  {
    TimesIsProduct(p.quantity, p.unitCost);
    Times(p.quantity, p.unitCost)
  }

  predicate NonNegativeItem(p: LineItem) {
    p.quantity >= 0 && p.unitCost >= 0.0
  }

  predicate NonNegativeItems(items: seq<LineItem>) {
    forall i :: 0 <= i < |items| ==> NonNegativeItem(items[i])
  }

  /** The sum of the line totals of `items`. */
  function CostOf(items: seq<LineItem>): real {
    if |items| == 0 then 0.0 else LineTotal(items[0]) + CostOf(items[1..])
  }

  /** With no negative quantity or unit cost, the cost of the items is never negative. */
  lemma {:induction false} CostOfNonNegative(items: seq<LineItem>)
    requires NonNegativeItems(items)
    ensures CostOf(items) >= 0.0
    decreases |items|
  {
    if |items| > 0 {
      assert NonNegativeItem(items[0]);
      TimesNonNegative(items[0].quantity, items[0].unitCost);
      assert NonNegativeItems(items[1..]) by {
        forall j | 0 <= j < |items[1..]| ensures NonNegativeItem(items[1..][j]) {
          assert items[1..][j] == items[j + 1];
        }
      }
      CostOfNonNegative(items[1..]);
    }
  }

  /** The bid's total cost; 0 when it has no line items, which is also the
      empty sum, so it is always the sum of the line totals. */
  function TotalCost(b: Bid): (r: real)
    ensures r == CostOf(b.items)
    ensures NonNegativeItems(b.items) ==> r >= 0.0
  {
    assert NonNegativeItems(b.items) ==> CostOf(b.items) >= 0.0 by {
      if NonNegativeItems(b.items) {
        CostOfNonNegative(b.items);
      }
    }
    if |b.items| == 0 then 0.0 else CostOf(b.items)
  }

  /** The proposal value, a missing one counting as 0 (a falsy value in the
      source: absent or zero). */
  function ProposalOrZero(b: Bid): (r: real)
    ensures r == 0.0 <==> b.proposal.None? || b.proposal.value == 0.0
    ensures b.proposal.Some? ==> r == b.proposal.value
  {
    b.proposal.GetOr(0.0)
  }

  /** Proposal value minus total cost. */
  function GrossProfit(b: Bid): (r: real)
    ensures |b.items| == 0 ==> r == ProposalOrZero(b)
    ensures NonNegativeItems(b.items) ==> r <= ProposalOrZero(b)
  {
    ProposalOrZero(b) - TotalCost(b)
  }

  /** The profit as a percentage of the proposal value; 0 unless that value is positive. */
  function Margin(b: Bid): (r: real)
    ensures ProposalOrZero(b) <= 0.0 ==> r == 0.0
    ensures ProposalOrZero(b) > 0.0 ==> r * ProposalOrZero(b) == GrossProfit(b) * 100.0
  {
    var v := ProposalOrZero(b);
    if v > 0.0 then (GrossProfit(b) / v) * 100.0 else 0.0
  }

  /** The cost of a concatenation is the sum of the costs. */
  lemma {:induction false} CostOfAppend(xs: seq<LineItem>, ys: seq<LineItem>)
    ensures CostOf(xs + ys) == CostOf(xs) + CostOf(ys)
    decreases |xs|
  {
    if |xs| == 0 {
      assert xs + ys == ys;
    } else {
      assert (xs + ys)[1..] == xs[1..] + ys;
      CostOfAppend(xs[1..], ys);
    }
  }

  /** Adding a line item raises the total cost by its line total and lowers the
      gross profit by the same amount. */
  lemma AppendItemCost(b: Bid, p: LineItem)
    ensures TotalCost(b.(items := b.items + [p])) == TotalCost(b) + LineTotal(p)
    ensures GrossProfit(b.(items := b.items + [p])) == GrossProfit(b) - LineTotal(p)
  {
    CostOfAppend(b.items, [p]);
    assert CostOf([p]) == LineTotal(p) + CostOf([]);
    if |b.items| == 0 {
      assert b.items + [p] == [p];
    }
  }

  /** A bid without line items costs nothing, its profit is its proposal value,
      and its margin is 100 when that value is positive and 0 otherwise. */
  lemma NoItemsValues(b: Bid)
    requires |b.items| == 0
    ensures TotalCost(b) == 0.0
    ensures GrossProfit(b) == ProposalOrZero(b)
    ensures Margin(b) == if ProposalOrZero(b) > 0.0 then 100.0 else 0.0
  {
    var v := ProposalOrZero(b);
    if v > 0.0 {
      assert GrossProfit(b) / v == 1.0;
    }
  }

  /** With no negative line item the margin never exceeds 100 percent, and it is
      100 minus the cost as a percentage of the proposal value. */
  lemma MarginAtMostHundred(b: Bid)
    requires NonNegativeItems(b.items)
    requires ProposalOrZero(b) > 0.0
    ensures Margin(b) == 100.0 - TotalCost(b) / ProposalOrZero(b) * 100.0
    ensures Margin(b) <= 100.0
  {
    var v := ProposalOrZero(b);
    var c := TotalCost(b);
    var m := Margin(b);
    CostOfNonNegative(b.items);
    assert c >= 0.0;
    assert m * v == (v - c) * 100.0;
    assert (c / v) * v == c;
    var x := 100.0 - c / v * 100.0;
    assert x * v == (v - c) * 100.0;
    assert (m - x) * v == 0.0;
    assert m - x == 0.0;
    assert c / v >= 0.0;
  }
}
