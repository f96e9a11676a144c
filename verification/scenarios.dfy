/** Two worked examples, one through the ledger and one through the dashboard. */
module Scenarios {
  import opened Wrappers
  import opened Bids
  import opened Ledger
  import opened Windows
  import opened Kpis
  import opened MonthlyRevenue

  /** A bid proposed at 10000 with items 2 x 1000 and 1 x 500: cost 2500,
      profit 7500, margin 75; posting debits 2500 and marks it Competing;
      losing it credits 2500 back, and the ledger nets to 0. */
  lemma CostPostAndLossScenario()
    ensures var b := Bid(7, "Prefeitura", "PE-01/2024", "Notebooks", Date(2024, 3, 10), Some(10000.0),
                         UnderReview, [LineItem("Notebook", 2, 1000.0), LineItem("Mouse", 1, 500.0)]);
      var s := State([b], []);
      && TotalCost(b) == 2500.0
      && GrossProfit(b) == 7500.0
      && Margin(b) == 75.0
      && PostCost(s, 7).Success?
      && PostCost(s, 7).value.outcome == Posted
      && PostCost(s, 7).value.state.ledger == [Entry(CostDebit, -2500.0, Some(7))]
      && PostCost(s, 7).value.state.bids[0].status == Competing
      && UpdateOutcome(PostCost(s, 7).value.state, 7, Lost, 10000.0).Success?
      && UpdateOutcome(PostCost(s, 7).value.state, 7, Lost, 10000.0).value.ledger
         == [Entry(CostDebit, -2500.0, Some(7)), Entry(CostReversal(Lost), 2500.0, Some(7))]
      && Balance(UpdateOutcome(PostCost(s, 7).value.state, 7, Lost, 10000.0).value.ledger) == 0.0
  {
    var items := [LineItem("Notebook", 2, 1000.0), LineItem("Mouse", 1, 500.0)];
    var b := Bid(7, "Prefeitura", "PE-01/2024", "Notebooks", Date(2024, 3, 10), Some(10000.0), UnderReview, items);
    TimesIsProduct(2, 1000.0);
    TimesIsProduct(1, 500.0);
    assert items[1..] == [LineItem("Mouse", 1, 500.0)];
    assert CostOf(items[1..][1..]) == 0.0;
    assert TotalCost(b) == 2500.0;
    assert Margin(b) * 10000.0 == 7500.0 * 100.0;
    var s := State([b], []);
    assert FindBid(s.bids, 7) == Some(0);
    assert !HasEntry(s.ledger, 7, -2500.0);
    var t := PostCost(s, 7).value.state;
    assert t.ledger == [Entry(CostDebit, -2500.0, Some(7))];
    assert FindBid(t.bids, 7) == Some(0);
    assert FirstDebit(t.ledger, 7) == Some(0);
    var u := UpdateOutcome(t, 7, Lost, 10000.0).value;
    assert u.ledger == [Entry(CostDebit, -2500.0, Some(7)), Entry(CostReversal(Lost), 2500.0, Some(7))];
    assert u.ledger[1..] == [Entry(CostReversal(Lost), 2500.0, Some(7))];
    assert u.ledger[1..][1..] == [];
    assert Balance(u.ledger[1..]) == 2500.0;
  }

  /** A window with one won bid of 5000 opened 2024-03-10 and one lost bid
      opened 2024-03-15: two competed, one won, a 50 percent success rate,
      revenue 5000 and a single March 2024 bucket of 5000. */
  lemma DashboardScenario()
    ensures var won := Bid(1, "Estado", "PE-02/2024", "Servidores", Date(2024, 3, 10), Some(5000.0), Won, []);
      var lost := Bid(2, "Municipio", "PE-03/2024", "Cabos", Date(2024, 3, 15), Some(800.0), Lost, []);
      var w := Window(Date(2024, 1, 1), Date(2024, 12, 31));
      var k := ComputeKpis([won, lost], w);
      && k.competed == 2
      && k.won == 1
      && k.successRate == 50.0
      && k.revenue == 5000.0
      && k.averageTicket == 5000.0
      && MonthlySeries([won, lost], w) == [Bucket(YearMonth(2024, 3), 5000.0)]
  {
  }
}
