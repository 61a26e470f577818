/** A two-trade ledger worked through: an AAPL trade closed on 2023-01-05
    with proceeds of 150.00 against a cost of 100.00, and an MSFT short
    closed two days earlier with proceeds of 80.00 against a cost of 90.00. */
module Scenario {
  import opened Wrappers
  import opened Ledger
  import opened Dashboard

  /** The trades the two rows become, given the day numbers of their close
      dates: P/L is proceeds minus cost, a gain of 50 on AAPL and a loss of
      10 on MSFT. */
  function AppleTrade(day: int): Trade {
    Trade(Some("AAPL"), "Equity", Long, day, 150.0, day, 100.0, 50.0)
  }

  function MicrosoftTrade(day: int): Trade {
    Trade(Some("MSFT"), "Equity", Short, day, 80.0, day, 90.0, -10.0)
  }

  /** Sorted by close date, MSFT comes first with a running total of -10 and
      AAPL second with a running total of 40. */
  lemma ScenarioLedger(ledger: seq<Entry>, jan3: int, jan5: int)
    requires jan3 < jan5
    requires IsLedgerOf(ledger, [AppleTrade(jan5), MicrosoftTrade(jan3)])
    ensures |ledger| == 2
    ensures ledger[0].Row() == MicrosoftTrade(jan3) && ledger[0].cumulated == -10.0
    ensures ledger[1].Row() == AppleTrade(jan5) && ledger[1].cumulated == 40.0
  {
    var a, m := AppleTrade(jan5), MicrosoftTrade(jan3);
    var rows := Rows(ledger);
    assert |multiset(rows)| == 2;
    assert rows == [rows[0], rows[1]];
    assert multiset(rows) == multiset{rows[0], rows[1]};
    assert rows[0] in multiset{a, m} && rows[1] in multiset{a, m};
    assert rows[0].closeDate <= rows[1].closeDate;
    assert rows[0] == m && rows[1] == a;
    CumulatedStep(ledger, [a, m]);
  }

  /** Two trades closing on the same day, a gain of 10 and a loss of 20. */
  function GainTrade(): Trade {
    Trade(Some("A"), "Equity", Long, 0, 10.0, 0, 0.0, 10.0)
  }

  function LossTrade(): Trade {
    Trade(Some("B"), "Equity", Long, 0, 0.0, 0, 20.0, -20.0)
  }

  /** Two trades, the second closing no earlier than the first, in that
      order with their running totals form a ledger of them. */
  lemma PairLedger(x: Trade, y: Trade)
    requires x.closeDate <= y.closeDate
    ensures IsLedgerOf([WithCumulated(x, x.pl), WithCumulated(y, x.pl + y.pl)], [x, y])
  {
    var ledger := [WithCumulated(x, x.pl), WithCumulated(y, x.pl + y.pl)];
    assert Rows(ledger) == [x, y];
    TotalPLSingle(x);
    assert [x, y][..1] == [x];
    assert [x, y][..2][..1] == [x];
  }

  /** Both orders of the two same-day trades are ledgers of them: the sort
      may leave either. */
  lemma SameDayOrdersAreLedgers()
    ensures IsLedgerOf([WithCumulated(GainTrade(), 10.0), WithCumulated(LossTrade(), -10.0)],
                       [GainTrade(), LossTrade()])
    ensures IsLedgerOf([WithCumulated(LossTrade(), -20.0), WithCumulated(GainTrade(), -10.0)],
                       [GainTrade(), LossTrade()])
  {
    var gain, loss := GainTrade(), LossTrade();
    PairLedger(gain, loss);
    PairLedger(loss, gain);
    var inOrder: seq<Trade>, swapped: seq<Trade> := [gain, loss], [loss, gain];
    assert multiset(swapped) == multiset(inOrder);
  }

  /** "P/L max" of those two ledgers differs: 10 when the gain comes first,
      -10 when the loss does. */
  lemma SameDayOrderDecidesPlMax()
    ensures PlMax([WithCumulated(GainTrade(), 10.0), WithCumulated(LossTrade(), -10.0)]) == Some(10)
    ensures PlMax([WithCumulated(LossTrade(), -20.0), WithCumulated(GainTrade(), -10.0)]) == Some(-10)
  {
    var first := [WithCumulated(GainTrade(), 10.0), WithCumulated(LossTrade(), -10.0)];
    var second := [WithCumulated(LossTrade(), -20.0), WithCumulated(GainTrade(), -10.0)];
    assert Truncate(first[0].cumulated) == 10 && Truncate(first[1].cumulated) == -10;
    assert Truncate(second[0].cumulated) == -20 && Truncate(second[1].cumulated) == -10;
  }
}
