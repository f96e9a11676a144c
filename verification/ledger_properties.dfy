/** Properties that relate several ledger operations: posting is idempotent,
    the reversal is edge-triggered, and a posting followed by a loss nets out. */
module LedgerProperties {
  import opened Wrappers
  import opened Bids
  import opened Ledger

  /** With no debit of the bid in `xs`, the first debit of `xs + [e]` is `e` if
      it is a debit of the bid, and there is none otherwise. */
  lemma FirstDebitAfterAppend(xs: seq<Entry>, e: Entry, id: int)
    requires FirstDebit(xs, id).None?
    ensures FirstDebit(xs + [e], id) == if IsDebitOf(e, id) then Some(|xs|) else None
  {
    var ys := xs + [e];
    assert forall j :: 0 <= j < |xs| ==> ys[j] == xs[j];
    assert ys[|xs|] == e;
  }

  /** Without a debit of the bid, no entry of the bid carries a negative amount. */
  lemma NoDebitNoNegativeEntry(ledger: seq<Entry>, id: int, amount: real)
    requires FirstDebit(ledger, id).None?
    requires amount < 0.0
    ensures !HasEntry(ledger, id, amount)
  {
  }

  /** An entry matches in `xs + [e]` exactly when it matches in `xs` or is `e`. */
  lemma HasEntryAfterAppend(xs: seq<Entry>, e: Entry, id: int, amount: real)
    ensures HasEntry(xs + [e], id, amount) <==> HasEntry(xs, id, amount) || (e.bid == Some(id) && e.amount == amount)
  {
    var ys := xs + [e];
    if HasEntry(ys, id, amount) {
      var k :| 0 <= k < |ys| && ys[k].bid == Some(id) && ys[k].amount == amount;
      if k < |xs| {
        assert xs[k] == ys[k];
      }
    }
    if HasEntry(xs, id, amount) {
      var k :| 0 <= k < |xs| && xs[k].bid == Some(id) && xs[k].amount == amount;
      assert ys[k] == xs[k];
    }
    if e.bid == Some(id) && e.amount == amount {
      assert ys[|xs|] == e;
    }
  }

  /** A ledger in which no entry references the bid leaves its balance at 0. */
  lemma {:induction false} UnreferencedBidBalance(ledger: seq<Entry>, id: int)
    requires forall k :: 0 <= k < |ledger| ==> ledger[k].bid != Some(id)
    ensures BidBalance(ledger, id) == 0.0
    decreases |ledger|
  {
    if |ledger| > 0 {
      UnreferencedBidBalance(ledger[1..], id);
    }
  }

  /** A posting that passes both guards, written out. */
  lemma PostedShape(s: State, id: int)
    requires FindBid(s.bids, id).Some?
    requires TotalCost(s.bids[FindBid(s.bids, id).value]) > 0.0
    requires !HasEntry(s.ledger, id, -TotalCost(s.bids[FindBid(s.bids, id).value]))
    ensures var i := FindBid(s.bids, id).value;
      PostCost(s, id) == Success(Posting(
        State(s.bids[i := s.bids[i].(status := Competing)],
              s.ledger + [Entry(CostDebit, -TotalCost(s.bids[i]), Some(id))]),
        Posted))
  {
  }

  /** Posting twice in a row is the same as posting once: the second call finds
      the debit the first one wrote (or repeats its no-op), so at most one debit
      is added. */
  lemma PostCostIdempotent(s: State, id: int)
    requires PostCost(s, id).Success?
    ensures var t := PostCost(s, id).value.state;
      && PostCost(t, id).Success?
      && PostCost(t, id).value.state == t
      && PostCost(t, id).value.outcome != Posted
      && |t.ledger| <= |s.ledger| + 1
  {
    var p := PostCost(s, id).value;
    var i := FindBid(s.bids, id).value;
    if p.outcome == Posted {
      var t := p.state;
      var cost := TotalCost(s.bids[i]);
      FindBidAfterChange(s.bids, t.bids, i, s.bids[i].(status := Competing), id);
      assert TotalCost(t.bids[i]) == cost;
      assert t.ledger[|s.ledger|].bid == Some(id) && t.ledger[|s.ledger|].amount == -cost;
      assert HasEntry(t.ledger, id, -cost);
    }
  }

  /** Two consecutive postings of a bid with positive cost and no matching
      debit yet add exactly one debit of minus the cost. */
  lemma PostTwiceAddsOneDebit(s: State, id: int)
    requires FindBid(s.bids, id).Some?
    requires TotalCost(s.bids[FindBid(s.bids, id).value]) > 0.0
    requires !HasEntry(s.ledger, id, -TotalCost(s.bids[FindBid(s.bids, id).value]))
    ensures var t := PostCost(s, id).value.state;
      && PostCost(s, id).value.outcome == Posted
      && PostCost(t, id).value.outcome == AlreadyPosted
      && PostCost(t, id).value.state.ledger
         == s.ledger + [Entry(CostDebit,
                              -TotalCost(s.bids[FindBid(s.bids, id).value]), Some(id))]
  {
    var i := FindBid(s.bids, id).value;
    var cost := TotalCost(s.bids[i]);
    var e := Entry(CostDebit, -cost, Some(id));
    PostedShape(s, id);
    var t := PostCost(s, id).value.state;
    FindBidAfterChange(s.bids, t.bids, i, s.bids[i].(status := Competing), id);
    assert TotalCost(t.bids[i]) == cost;
    assert t.ledger[|s.ledger|] == e;
    assert HasEntry(t.ledger, id, -cost);
    assert PostCost(t, id).value.outcome == AlreadyPosted;
    assert PostCost(t, id).value.state == t;
  }

  /** Right after an update into Lost or Cancelled, a further update into
      either appends nothing, whatever the ledger holds. */
  lemma RepeatedLossAppendsNothing(s: State, id: int, first: Status, second: Status, v1: real, v2: real)
    requires FindBid(s.bids, id).Some?
    requires IsLostOrCancelled(first) && IsLostOrCancelled(second)
    ensures var t := UpdateOutcome(s, id, first, v1).value;
      && UpdateOutcome(t, id, second, v2).Success?
      && UpdateOutcome(t, id, second, v2).value.ledger == t.ledger
  {
  }

  /** The trigger is an edge, not a one-time latch: a bid with a debit that is
      lost, reopened to a status other than Lost or Cancelled, and lost again
      is credited the magnitude of its first debit a second time. */
  lemma LossAfterReopenCreditsAgain(s: State, id: int, first: Status, middle: Status, last: Status, v1: real, v2: real, v3: real)
    requires FindBid(s.bids, id).Some? && FirstDebit(s.ledger, id).Some?
    requires IsLostOrCancelled(first) && !IsLostOrCancelled(middle) && IsLostOrCancelled(last)
    ensures var t := UpdateOutcome(s, id, first, v1).value;
      var u := UpdateOutcome(t, id, middle, v2).value;
      var x := UpdateOutcome(u, id, last, v3).value;
      var d := s.ledger[FirstDebit(s.ledger, id).value].amount;
      && |x.ledger| == |t.ledger| + 1
      && x.ledger[|t.ledger|].amount == -d
      && x.ledger[|t.ledger|].amount > 0.0
  {
    var i := FindBid(s.bids, id).value;
    var k := FirstDebit(s.ledger, id).value;
    var t := UpdateOutcome(s, id, first, v1).value;
    FindBidAfterChange(s.bids, t.bids, i, s.bids[i].(proposal := Some(v1), status := first), id);
    assert t.ledger[..|s.ledger|] == s.ledger;
    FirstDebitPrefix(s.ledger, t.ledger, id);
    var u := UpdateOutcome(t, id, middle, v2).value;
    FindBidAfterChange(t.bids, u.bids, i, t.bids[i].(proposal := Some(v2), status := middle), id);
    assert u.ledger == t.ledger;
  }

  /** Appending entries keeps an existing first debit where it was. */
  lemma FirstDebitPrefix(xs: seq<Entry>, ys: seq<Entry>, id: int)
    requires |xs| <= |ys| && ys[..|xs|] == xs
    requires FirstDebit(xs, id).Some?
    ensures FirstDebit(ys, id) == FirstDebit(xs, id)
  {
  }

  /** Posting a bid's cost and then moving it to Lost or Cancelled, when the
      ledger held no debit of that bid before, appends a debit and its exact
      reversal: the bid's entries and the global balance return to their values
      before the posting. */
  lemma PostThenLoseNetsZero(s: State, id: int, status: Status, proposal: real)
    requires FindBid(s.bids, id).Some?
    requires TotalCost(s.bids[FindBid(s.bids, id).value]) > 0.0
    requires FirstDebit(s.ledger, id).None?
    requires IsLostOrCancelled(status)
    ensures PostCost(s, id).value.outcome == Posted
    ensures var t := PostCost(s, id).value.state;
      var u := UpdateOutcome(t, id, status, proposal).value;
      && |u.ledger| == |s.ledger| + 2
      && u.ledger[|s.ledger| + 1].amount == TotalCost(s.bids[FindBid(s.bids, id).value])
      && BidBalance(u.ledger, id) == BidBalance(s.ledger, id)
      && Balance(u.ledger) == Balance(s.ledger)
  {
    var i := FindBid(s.bids, id).value;
    var b := s.bids[i];
    var cost := TotalCost(b);
    NoDebitNoNegativeEntry(s.ledger, id, -cost);
    var debit := Entry(CostDebit, -cost, Some(id));
    PostedShape(s, id);
    var t := PostCost(s, id).value.state;
    assert t.ledger == s.ledger + [debit];
    FindBidAfterChange(s.bids, t.bids, i, b.(status := Competing), id);
    FirstDebitAfterAppend(s.ledger, debit, id);
    var credit := Entry(CostReversal(status), cost, Some(id));
    var u := UpdateOutcome(t, id, status, proposal).value;
    assert u.ledger == s.ledger + [debit, credit];
    BalanceAppend(s.ledger, [debit, credit]);
    BidBalanceAppend(s.ledger, [debit, credit], id);
    assert [debit, credit][1..] == [credit];
    assert Balance([credit]) == cost + Balance([]);
    assert BidBalance([credit], id) == cost + BidBalance([], id);
  }

  /** For a bid no entry referenced before, posting and then losing leaves the
      bid's entries summing to exactly 0. */
  lemma PostThenLoseFreshBid(s: State, id: int, status: Status, proposal: real)
    requires FindBid(s.bids, id).Some?
    requires TotalCost(s.bids[FindBid(s.bids, id).value]) > 0.0
    requires forall k :: 0 <= k < |s.ledger| ==> s.ledger[k].bid != Some(id)
    requires IsLostOrCancelled(status)
    ensures var t := PostCost(s, id).value.state;
      BidBalance(UpdateOutcome(t, id, status, proposal).value.ledger, id) == 0.0
  {
    assert FirstDebit(s.ledger, id).None?;
    PostThenLoseNetsZero(s, id, status, proposal);
    UnreferencedBidBalance(s.ledger, id);
  }

  /** The duplicate guard matches the exact amount only: after a posting, adding
      a line item of positive total and posting again appends a second debit
      for the new, larger cost. */
  lemma ChangedCostPostsAgain(s: State, id: int, item: LineItem)
    requires FindBid(s.bids, id).Some?
    requires TotalCost(s.bids[FindBid(s.bids, id).value]) > 0.0
    requires LineTotal(item) > 0.0
    requires FirstDebit(s.ledger, id).None?
    ensures var t := PostCost(s, id).value.state;
      var u := AddLineItem(t, id, item).value;
      && PostCost(s, id).value.outcome == Posted
      && PostCost(u, id).value.outcome == Posted
      && |PostCost(u, id).value.state.ledger| == |s.ledger| + 2
      && BidBalance(PostCost(u, id).value.state.ledger, id)
         == BidBalance(s.ledger, id) - (2.0 * TotalCost(s.bids[FindBid(s.bids, id).value]) + LineTotal(item))
  {
    var i := FindBid(s.bids, id).value;
    var b := s.bids[i];
    var cost := TotalCost(b);
    NoDebitNoNegativeEntry(s.ledger, id, -cost);
    var debit := Entry(CostDebit, -cost, Some(id));
    PostedShape(s, id);
    var t := PostCost(s, id).value.state;
    FindBidAfterChange(s.bids, t.bids, i, b.(status := Competing), id);
    var u := AddLineItem(t, id, item).value;
    assert u.ledger == s.ledger + [debit];
    FindBidAfterChange(t.bids, u.bids, i, t.bids[i].(items := t.bids[i].items + [item]), id);
    var cost2 := TotalCost(u.bids[i]);
    assert cost2 == cost + LineTotal(item);
    HasEntryAfterAppend(s.ledger, debit, id, -cost2);
    NoDebitNoNegativeEntry(s.ledger, id, -cost2);
    var debit2 := Entry(CostDebit, -cost2, Some(id));
    PostedShape(u, id);
    var w := PostCost(u, id).value.state;
    assert w.ledger == s.ledger + [debit, debit2];
    BidBalanceAppend(s.ledger, [debit, debit2], id);
    assert [debit, debit2][1..] == [debit2];
    assert BidBalance([debit2], id) == -cost2 + BidBalance([], id);
  }
}
