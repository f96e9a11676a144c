/** The cash ledger and the two operations that tie it to a bid's status:
    posting a bid's cost (a debit, the bid becomes Competing) and updating a
    bid's outcome (a reversing credit on the first move into Lost or Cancelled).
    The store is an immutable value: the bids in store order and the ledger
    entries in insertion order. */
module Ledger {
  import opened Wrappers
  import opened Bids

  /** The kind of an entry, in place of its description text. */
  datatype Memo =
    | CostDebit                  // the automatic debit of a bid's cost
    | CostReversal(status: Status)  // the automatic credit on the move to `status`
    | Manual(text: string)       // an entry typed in by staff, with its description

  /** One signed cash-flow record: negative is a debit, positive a credit.
      `bid` is the referenced bid's id, absent for a manual entry. */
  datatype Entry = Entry(memo: Memo, amount: real, bid: Option<int>)

  datatype State = State(bids: seq<Bid>, ledger: seq<Entry>)

  datatype Error = BidNotFound

  /** What a cost posting did; only `Posted` changes the state. */
  datatype PostOutcome = Posted | AlreadyPosted | NothingToPost

  datatype Posting = Posting(state: State, outcome: PostOutcome)

  /** The statuses that end a bid's competition without a win. */
  predicate IsLostOrCancelled(st: Status) {
    st == Lost || st == Cancelled
  }

  /** The reversal rule's trigger: a move into Lost/Cancelled from any other status. */
  predicate EntersLostOrCancelled(previous: Status, next: Status) {
    IsLostOrCancelled(next) && !IsLostOrCancelled(previous)
  }

  function Abs(x: real): real {
    if x < 0.0 then -x else x
  }

  /** The current balance: the sum of all entry amounts, 0 for an empty ledger. */
  function Balance(ledger: seq<Entry>): real {
    if |ledger| == 0 then 0.0 else ledger[0].amount + Balance(ledger[1..])
  }

  /** The sum of the amounts of the entries that reference bid `id`. */
  function BidBalance(ledger: seq<Entry>, id: int): real {
    if |ledger| == 0 then 0.0
    else (if ledger[0].bid == Some(id) then ledger[0].amount else 0.0) + BidBalance(ledger[1..], id)
  }

  /** The position of the first bid with identifier `id`, if any. */
  function FindBid(bids: seq<Bid>, id: int): (r: Option<int>)
    ensures r.Some? ==> 0 <= r.value < |bids| && bids[r.value].id == id
    ensures r.Some? ==> forall j :: 0 <= j < r.value ==> bids[j].id != id
    ensures r.None? ==> forall j :: 0 <= j < |bids| ==> bids[j].id != id
  {
    FindBidFrom(bids, id, 0)
  }

  /** The position of the first bid at or after `from` with identifier `id`, if any. */
  function FindBidFrom(bids: seq<Bid>, id: int, from: nat): (r: Option<int>)
    requires from <= |bids|
    ensures r.Some? ==> from <= r.value < |bids| && bids[r.value].id == id
    ensures r.Some? ==> forall j :: from <= j < r.value ==> bids[j].id != id
    ensures r.None? ==> forall j :: from <= j < |bids| ==> bids[j].id != id
    decreases |bids| - from
  {
    if from == |bids| then None
    else if bids[from].id == id then Some(from)
    else FindBidFrom(bids, id, from + 1)
  }

  /** Some entry references bid `id` with exactly `amount`. */
  predicate HasEntry(ledger: seq<Entry>, id: int, amount: real) {
    exists k :: 0 <= k < |ledger| && ledger[k].bid == Some(id) && ledger[k].amount == amount
  }

  predicate IsDebitOf(e: Entry, id: int) {
    e.bid == Some(id) && e.amount < 0.0
  }

  /** The position of the first negative entry that references bid `id`, if any. */
  function FirstDebit(ledger: seq<Entry>, id: int): (r: Option<int>)
    ensures r.Some? ==> 0 <= r.value < |ledger| && IsDebitOf(ledger[r.value], id)
    ensures r.Some? ==> forall j :: 0 <= j < r.value ==> !IsDebitOf(ledger[j], id)
    ensures r.None? ==> forall j :: 0 <= j < |ledger| ==> !IsDebitOf(ledger[j], id)
  {
    FirstDebitFrom(ledger, id, 0)
  }

  /** The position of the first debit of bid `id` at or after `from`, if any. */
  function FirstDebitFrom(ledger: seq<Entry>, id: int, from: nat): (r: Option<int>)
    requires from <= |ledger|
    ensures r.Some? ==> from <= r.value < |ledger| && IsDebitOf(ledger[r.value], id)
    ensures r.Some? ==> forall j :: from <= j < r.value ==> !IsDebitOf(ledger[j], id)
    ensures r.None? ==> forall j :: from <= j < |ledger| ==> !IsDebitOf(ledger[j], id)
    decreases |ledger| - from
  {
    if from == |ledger| then None
    else if IsDebitOf(ledger[from], id) then Some(from)
    else FirstDebitFrom(ledger, id, from + 1)
  }

  /** `after` is `before` with position `i` replaced by `b` and nothing else changed. */
  predicate OnlyBidChanged(before: seq<Bid>, after: seq<Bid>, i: nat, b: Bid) {
    i < |before| && after == before[i := b]
  }

  /** `after` is `before` with exactly `e` appended. */
  predicate AppendedOne(before: seq<Entry>, after: seq<Entry>, e: Entry) {
    after == before + [e]
  }

  /** Posting the cost of the bid at position `i`, whose id is `id`: when the
      cost is positive and no entry of this bid already carries exactly minus
      that cost, one debit of the cost is appended and the bid becomes
      Competing; otherwise nothing changes. */
  function PostCostAt(s: State, i: nat, id: int): (r: Posting)
    requires i < |s.bids| && s.bids[i].id == id
    ensures r.outcome != Posted ==> r.state == s
    ensures r.outcome == NothingToPost <==> TotalCost(s.bids[i]) <= 0.0
    ensures r.outcome == AlreadyPosted <==> TotalCost(s.bids[i]) > 0.0 && HasEntry(s.ledger, id, -TotalCost(s.bids[i]))
    ensures r.outcome == Posted ==>
      && OnlyBidChanged(s.bids, r.state.bids, i, s.bids[i].(status := Competing))
      && AppendedOne(s.ledger, r.state.ledger, Entry(CostDebit, -TotalCost(s.bids[i]), Some(id)))
  {
    var b := s.bids[i];
    var cost := TotalCost(b);
    if cost > 0.0 then
      if HasEntry(s.ledger, id, -cost) then Posting(s, AlreadyPosted)
      else Posting(State(s.bids[i := b.(status := Competing)], s.ledger + [Entry(CostDebit, -cost, Some(id))]), Posted)
    else Posting(s, NothingToPost)
  }

  /** Posting the cost of bid `id`: fails when no bid has that id, and
      otherwise posts the cost of the first bid that has it. */
  function PostCost(s: State, id: int): (r: Result<Posting, Error>)
    ensures r.Failure? <==> FindBid(s.bids, id).None?
    ensures r.Success? ==> r.value == PostCostAt(s, FindBid(s.bids, id).value, id)
    ensures r.Success? ==> FindBid(r.value.state.bids, id) == FindBid(s.bids, id)
  {
    match FindBid(s.bids, id)
    case None => Failure(BidNotFound)
    case Some(i) =>
      var b := s.bids[i];
      FindBidAfterChange(s.bids, s.bids[i := b.(status := Competing)], i, b.(status := Competing), id);
      Success(PostCostAt(s, i, id))
  }

  /** Updating a bid's outcome: the proposal value and the status are always
      overwritten; on the move into Lost/Cancelled from another status, the
      magnitude of the bid's first debit, if it has one, is credited back. */
  function UpdateOutcome(s: State, id: int, status: Status, proposal: real): (r: Result<State, Error>)
    ensures r.Failure? <==> FindBid(s.bids, id).None?
    ensures r.Success? ==> FindBid(r.value.bids, id) == FindBid(s.bids, id)
    ensures FindBid(s.bids, id).Some? && r.Success? ==>
      var i := FindBid(s.bids, id).value;
      var b := s.bids[i];
      && OnlyBidChanged(s.bids, r.value.bids, i, b.(proposal := Some(proposal), status := status))
      && (EntersLostOrCancelled(b.status, status) && FirstDebit(s.ledger, id).Some? ==>
            var debit := s.ledger[FirstDebit(s.ledger, id).value];
            && -debit.amount > 0.0
            && AppendedOne(s.ledger, r.value.ledger, Entry(CostReversal(status), -debit.amount, Some(id))))
      && (!EntersLostOrCancelled(b.status, status) || FirstDebit(s.ledger, id).None? ==>
            r.value.ledger == s.ledger)
  {
    match FindBid(s.bids, id)
    case None => Failure(BidNotFound)
    case Some(i) =>
      var b := s.bids[i];
      var bids := s.bids[i := b.(proposal := Some(proposal), status := status)];
      FindBidAfterChange(s.bids, bids, i, b.(proposal := Some(proposal), status := status), id);
      if EntersLostOrCancelled(b.status, status) then
        match FirstDebit(s.ledger, id)
        case Some(k) =>
          var credit := Entry(CostReversal(status), Abs(s.ledger[k].amount), Some(id));
          Success(State(bids, s.ledger + [credit]))
        case None => Success(State(bids, s.ledger))
      else Success(State(bids, s.ledger))
  }

  /** A manual entry: the value is negated when the kind is "debito" and kept
      otherwise; the entry references no bid. */
  function AddManualEntry(s: State, text: string, kind: string, value: real): (r: State)
    ensures r.bids == s.bids
    ensures AppendedOne(s.ledger, r.ledger,
      Entry(Manual(text), if kind == "debito" then -value else value, None))
    ensures Balance(r.ledger) == Balance(s.ledger) + (if kind == "debito" then -value else value)
    ensures forall id :: BidBalance(r.ledger, id) == BidBalance(s.ledger, id)
  {
    var amount := if kind == "debito" then value * -1.0 else value;
    var e := Entry(Manual(text), amount, None);
    BalanceAppend(s.ledger, [e]);
    UnreferencedEntryKeepsBidBalances(s.ledger, e);
    State(s.bids, s.ledger + [e])
  }

  /** Adding a line item to bid `id` (the only change a posting's cost depends on). */
  function AddLineItem(s: State, id: int, item: LineItem): (r: Result<State, Error>)
    ensures r.Failure? <==> FindBid(s.bids, id).None?
    ensures r.Success? ==> FindBid(r.value.bids, id) == FindBid(s.bids, id)
    ensures FindBid(s.bids, id).Some? && r.Success? ==>
      var i := FindBid(s.bids, id).value;
      && r.value.ledger == s.ledger
      && OnlyBidChanged(s.bids, r.value.bids, i, s.bids[i].(items := s.bids[i].items + [item]))
      && TotalCost(r.value.bids[i]) == TotalCost(s.bids[i]) + LineTotal(item)
  {
    match FindBid(s.bids, id)
    case None => Failure(BidNotFound)
    case Some(i) =>
      var b := s.bids[i];
      AppendItemCost(b, item);
      FindBidAfterChange(s.bids, s.bids[i := b.(items := b.items + [item])], i, b.(items := b.items + [item]), id);
      Success(State(s.bids[i := b.(items := b.items + [item])], s.ledger))
  }

  /** Bid lookup depends only on the ids, position by position. */
  lemma FindBidSameIds(a: seq<Bid>, b: seq<Bid>, id: int)
    requires |a| == |b|
    requires forall j :: 0 <= j < |a| ==> a[j].id == b[j].id
    ensures FindBid(a, id) == FindBid(b, id)
  {
  }

  /** Replacing one bid by a bid with the same id keeps every lookup. */
  lemma FindBidAfterChange(before: seq<Bid>, after: seq<Bid>, i: nat, b: Bid, id: int)
    requires OnlyBidChanged(before, after, i, b)
    requires b.id == before[i].id
    ensures FindBid(after, id) == FindBid(before, id)
  {
    FindBidSameIds(before, after, id);
  }

  /** The balance of a concatenation is the sum of the balances. */
  lemma {:induction false} BalanceAppend(xs: seq<Entry>, ys: seq<Entry>)
    ensures Balance(xs + ys) == Balance(xs) + Balance(ys)
    decreases |xs|
  {
    if |xs| == 0 {
      assert xs + ys == ys;
    } else {
      assert (xs + ys)[1..] == xs[1..] + ys;
      BalanceAppend(xs[1..], ys);
    }
  }

  /** A bid's balance over a concatenation is the sum of its balances. */
  lemma {:induction false} BidBalanceAppend(xs: seq<Entry>, ys: seq<Entry>, id: int)
    ensures BidBalance(xs + ys, id) == BidBalance(xs, id) + BidBalance(ys, id)
    decreases |xs|
  {
    if |xs| == 0 {
      assert xs + ys == ys;
    } else {
      assert (xs + ys)[1..] == xs[1..] + ys;
      BidBalanceAppend(xs[1..], ys, id);
    }
  }

  /** An entry that references no bid leaves every bid's balance as it was. */
  lemma UnreferencedEntryKeepsBidBalances(ledger: seq<Entry>, e: Entry)
    requires e.bid.None?
    ensures forall id :: BidBalance(ledger + [e], id) == BidBalance(ledger, id)
  {
    forall id
      ensures BidBalance(ledger + [e], id) == BidBalance(ledger, id)
    {
      BidBalanceAppend(ledger, [e], id);
      assert BidBalance([e], id) == 0.0 + BidBalance([], id);
    }
  }
}
