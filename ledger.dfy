/** The trade ledger built from a brokerage year-to-date export: one entry per
    exported trade, with the ticker, the side, the close date, the two costs,
    the profit or loss, and the running total of profit or loss in order of
    close date. */
module Ledger {
  import opened Wrappers
  import opened Text

  // ---------------------------------------------------------------------
  // Data
  // ---------------------------------------------------------------------

  /** One row of the export, every cell as the text the file holds. */
  datatype RawRecord = RawRecord(
    secDescr: string,
    secType: string,
    noWsProceeds: string,
    noWsCost: string,
    longShortInd: string,
    openDate: string,
    closeDate: string)

  /** Long or short position; `Unknown` is the missing value an unmapped
      indicator code produces. */
  datatype Side = Long | Short | Unknown

  /** A trade once its cells are converted, before the running total exists. */
  datatype Trade = Trade(
    symbol: Option<string>,
    secType: string,
    side: Side,
    openDate: int,
    openCost: real,
    closeDate: int,
    closeCost: real,
    pl: real)

  /** A ledger entry: the nine output columns SYMBOL, TYPE, LONG/SHORT,
      OPEN DATE, OPEN COST, CLOSE DATE, CLOSE COST, P/L and CUMULATED P/L. */
  datatype Entry = Entry(
    symbol: Option<string>,
    secType: string,
    side: Side,
    openDate: int,
    openCost: real,
    closeDate: int,
    closeCost: real,
    pl: real,
    cumulated: real)
  {
    /** The entry without its running total. */
    function Row(): Trade {
      Trade(symbol, secType, side, openDate, openCost, closeDate, closeCost, pl)
    }
  }

  /** Why an export cannot be turned into a ledger. */
  datatype ProcessError =
    | NoSymbolColumn          // no description has a piece at index 1
    | BadCloseDate(text: string)
    | BadCloseCost(text: string)
    | BadOpenCost(text: string)

  // ---------------------------------------------------------------------
  // Cells and columns
  // ---------------------------------------------------------------------

  /** The side of an indicator code: only the exact codes "S" and "L" map. */
  function SideOf(code: string): (side: Side)
    ensures side == Short <==> code == "S"
    ensures side == Long <==> code == "L"
  {
    if code == "S" then Short else if code == "L" then Long else Unknown
  }

  /** The close-date cells. */
  function CloseDateCells(data: seq<RawRecord>): (cells: seq<string>)
    ensures |cells| == |data|
    ensures forall i :: 0 <= i < |data| ==> cells[i] == data[i].closeDate
  {
    seq(|data|, i requires 0 <= i < |data| => data[i].closeDate)
  }

  /** The close-cost cells once `$` is removed (taken from NO_WS_COST). */
  function CloseCostCells(data: seq<RawRecord>): (cells: seq<string>)
    ensures |cells| == |data|
    ensures forall i :: 0 <= i < |data| ==> cells[i] == StripDollar(data[i].noWsCost)
  {
    seq(|data|, i requires 0 <= i < |data| => StripDollar(data[i].noWsCost))
  }

  /** The open-cost cells once `$` is removed (taken from NO_WS_PROCEEDS). */
  function OpenCostCells(data: seq<RawRecord>): (cells: seq<string>)
    ensures |cells| == |data|
    ensures forall i :: 0 <= i < |data| ==> cells[i] == StripDollar(data[i].noWsProceeds)
  {
    seq(|data|, i requires 0 <= i < |data| => StripDollar(data[i].noWsProceeds))
  }

  /** Whether cell `i` is the first one of `cells` that `parse` rejects. */
  predicate FirstFailure<T>(cells: seq<string>, parse: string -> Option<T>, i: int) {
    && 0 <= i < |cells|
    && parse(cells[i]).None?
    && forall j :: 0 <= j < i ==> parse(cells[j]).Some?
  }

  /** A whole column converted cell by cell; the conversion stops at the first
      cell it rejects and reports that cell's text. */
  function ParseColumn<T>(cells: seq<string>, parse: string -> Option<T>): (r: Result<seq<T>, string>)
    ensures r.Ok? ==> |r.value| == |cells|
  {
    if cells == [] then Ok([])
    else
      match parse(cells[0])
      case None => Err(cells[0])
      case Some(v) =>
        match ParseColumn(cells[1..], parse)
        case Err(text) => Err(text)
        case Ok(vs) => Ok([v] + vs)
  }

  /** A column converts exactly when every cell does, and then holds each
      cell's value at the cell's index. */
  lemma {:induction false} ParseColumnValues<T>(cells: seq<string>, parse: string -> Option<T>)
    ensures ParseColumn(cells, parse).Ok? <==> forall i :: 0 <= i < |cells| ==> parse(cells[i]).Some?
    ensures ParseColumn(cells, parse).Ok? ==>
      forall i :: 0 <= i < |cells| ==> parse(cells[i]) == Some(ParseColumn(cells, parse).value[i])
  {
    if cells != [] {
      ParseColumnValues(cells[1..], parse);
      assert forall i :: 1 <= i < |cells| ==> cells[i] == cells[1..][i - 1];
    }
  }

  /** A failed conversion names the first rejected cell. */
  lemma {:induction false} ParseColumnFirstFailure<T>(cells: seq<string>, parse: string -> Option<T>)
    requires ParseColumn(cells, parse).Err?
    ensures exists i :: FirstFailure(cells, parse, i) && ParseColumn(cells, parse).error == cells[i]
  {
    if parse(cells[0]).None? {
      assert FirstFailure(cells, parse, 0);
    } else {
      ParseColumnFirstFailure(cells[1..], parse);
      var i :| FirstFailure(cells[1..], parse, i) && ParseColumn(cells[1..], parse).error == cells[1..][i];
      assert FirstFailure(cells, parse, i + 1);
    }
  }

  /** Whether some description splits into at least two pieces, so that the
      split has a column at index 1. An empty export has none;
      `NoSymbolColumnExactly` states exactly when it exists. */
  predicate HasSymbolColumn(data: seq<RawRecord>): (b: bool)
    ensures data == [] ==> !b
  {
    exists i :: 0 <= i < |data| && Symbol(data[i].secDescr).Some?
  }

  /** The trade of one row, from its converted cells. OPEN DATE is taken from
      the close date, as the source does. */
  function DeriveRow(raw: RawRecord, closeDate: int, closeCost: real, openCost: real): (t: Trade)
    ensures t.openDate == t.closeDate == closeDate
    ensures t.openCost == openCost && t.closeCost == closeCost && t.pl == t.openCost - t.closeCost
    ensures t.symbol.None? <==> NoSpace(raw.secDescr)
    ensures t.side == Unknown <==> raw.longShortInd != "S" && raw.longShortInd != "L"
  {
    Trade(Symbol(raw.secDescr), raw.secType, SideOf(raw.longShortInd),
          closeDate, openCost, closeDate, closeCost, openCost - closeCost)
  }

  /** What each trade of the ledger says about the export row it comes from. */
  predicate DerivedFrom(t: Trade, raw: RawRecord, toDate: string -> Option<int>) {
    && t.symbol == Symbol(raw.secDescr)
    && t.secType == raw.secType
    && t.side == SideOf(raw.longShortInd)
    && toDate(raw.closeDate) == Some(t.closeDate)
    && t.openDate == t.closeDate
    && ParseAmount(StripDollar(raw.noWsProceeds)) == Some(t.openCost)
    && ParseAmount(StripDollar(raw.noWsCost)) == Some(t.closeCost)
    && t.pl == t.openCost - t.closeCost
  }

  /** The columns added to the export, in the order the source adds them: the
      symbol, then the close dates, then the close costs, then the open costs.
      The first step that fails decides the error. */
  function DeriveTrades(data: seq<RawRecord>, toDate: string -> Option<int>): (r: Result<seq<Trade>, ProcessError>)
    ensures r.Ok? ==> |r.value| == |data|
  {
    if !HasSymbolColumn(data) then Err(NoSymbolColumn)
    else
      match ParseColumn(CloseDateCells(data), toDate)
      case Err(text) => Err(BadCloseDate(text))
      case Ok(dates) =>
        match ParseColumn(CloseCostCells(data), ParseAmount)
        case Err(text) => Err(BadCloseCost(text))
        case Ok(closeCosts) =>
          match ParseColumn(OpenCostCells(data), ParseAmount)
          case Err(text) => Err(BadOpenCost(text))
          case Ok(openCosts) =>
            Ok(seq(|data|, i requires 0 <= i < |data| => DeriveRow(data[i], dates[i], closeCosts[i], openCosts[i])))
  }

  /** Each derived trade carries its row's symbol, type and side, its row's
      converted close date and costs, OPEN DATE equal to CLOSE DATE, and P/L
      equal to open cost minus close cost. */
  lemma DeriveTradesRows(data: seq<RawRecord>, toDate: string -> Option<int>)
    requires DeriveTrades(data, toDate).Ok?
    ensures forall i :: 0 <= i < |data| ==> DerivedFrom(DeriveTrades(data, toDate).value[i], data[i], toDate)
  {
    ParseColumnValues(CloseDateCells(data), toDate);
    ParseColumnValues(CloseCostCells(data), ParseAmount);
    ParseColumnValues(OpenCostCells(data), ParseAmount);
    var trades := DeriveTrades(data, toDate).value;
    var dates := ParseColumn(CloseDateCells(data), toDate).value;
    var closeCosts := ParseColumn(CloseCostCells(data), ParseAmount).value;
    var openCosts := ParseColumn(OpenCostCells(data), ParseAmount).value;
    forall i | 0 <= i < |data|
      ensures DerivedFrom(trades[i], data[i], toDate)
    {
      assert trades[i] == DeriveRow(data[i], dates[i], closeCosts[i], openCosts[i]);
      assert toDate(CloseDateCells(data)[i]) == Some(dates[i]);
      assert ParseAmount(CloseCostCells(data)[i]) == Some(closeCosts[i]);
      assert ParseAmount(OpenCostCells(data)[i]) == Some(openCosts[i]);
    }
  }

  // ---------------------------------------------------------------------
  // Sorting and the running total
  // ---------------------------------------------------------------------

  predicate SortedByCloseDate(ts: seq<Trade>) {
    forall i, j :: 0 <= i < j < |ts| ==> ts[i].closeDate <= ts[j].closeDate
  }

  /** The sum of P/L over `ts`. */
  function TotalPL(ts: seq<Trade>): real {
    if ts == [] then 0.0 else TotalPL(ts[..|ts| - 1]) + ts[|ts| - 1].pl
  }

  /** The trades of a sequence of entries. */
  function Rows(ledger: seq<Entry>): (rows: seq<Trade>)
    ensures |rows| == |ledger|
    ensures forall i :: 0 <= i < |ledger| ==> rows[i] == ledger[i].Row()
  {
    seq(|ledger|, i requires 0 <= i < |ledger| => ledger[i].Row())
  }

  /** The entry of a trade whose running total is `cumulated`. */
  function WithCumulated(t: Trade, cumulated: real): (e: Entry)
    ensures e.Row() == t && e.cumulated == cumulated
  {
    Entry(t.symbol, t.secType, t.side, t.openDate, t.openCost, t.closeDate, t.closeCost, t.pl, cumulated)
  }

  /** Exchanges the trades at `j - 1` and `j`. */
  method SwapDown(a: array<Trade>, j: int)
    requires 0 < j < a.Length
    modifies a
    ensures a[..] == old(a[..])[j - 1 := old(a[j])][j := old(a[j - 1])]
    ensures multiset(a[..]) == multiset(old(a[..]))
  {
    a[j - 1], a[j] := a[j], a[j - 1];
  }

  /** Moves the trade at `i` down into the sorted prefix before it. */
  method SinkInto(a: array<Trade>, i: int)
    requires 0 <= i < a.Length
    requires SortedByCloseDate(a[..i])
    modifies a
    ensures SortedByCloseDate(a[..i + 1])
    ensures a[i + 1..] == old(a[i + 1..])
    ensures multiset(a[..]) == multiset(old(a[..]))
  {
    var j := i;
    while j > 0 && a[j - 1].closeDate > a[j].closeDate
      invariant 0 <= j <= i
      invariant forall p, q :: 0 <= p < q <= i && q != j ==> a[p].closeDate <= a[q].closeDate
      invariant a[i + 1..] == old(a[i + 1..])
      invariant multiset(a[..]) == multiset(old(a[..]))
    {
      SwapDown(a, j);
      j := j - 1;
    }
  }

  /** Sorts the trades in place by ascending close date. Nothing is promised
      about the order of trades that close on the same day. */
  method SortByCloseDate(a: array<Trade>)
    modifies a
    ensures SortedByCloseDate(a[..])
    ensures multiset(a[..]) == multiset(old(a[..]))
  {
    var i := 0;
    while i < a.Length
      invariant 0 <= i <= a.Length
      invariant SortedByCloseDate(a[..i])
      invariant multiset(a[..]) == multiset(old(a[..]))
    {
      SinkInto(a, i);
      i := i + 1;
    }
    assert a[..a.Length] == a[..];
  }

  /** The running total of P/L down the trades: entry `i` carries the sum of
      P/L over trades 0 to `i`. */
  method CumulativeSum(rows: seq<Trade>) returns (ledger: seq<Entry>)
    ensures Rows(ledger) == rows
    ensures forall i :: 0 <= i < |rows| ==> ledger[i].cumulated == TotalPL(rows[..i + 1])
  {
    var total := 0.0;
    ledger := [];
    for i := 0 to |rows|
      invariant |ledger| == i
      invariant total == TotalPL(rows[..i])
      invariant forall k :: 0 <= k < i ==> ledger[k].Row() == rows[k]
      invariant forall k :: 0 <= k < i ==> ledger[k].cumulated == TotalPL(rows[..k + 1])
    {
      assert rows[..i + 1][..i] == rows[..i];
      total := total + rows[i].pl;
      ledger := ledger + [WithCumulated(rows[i], total)];
    }
  }

  /** What makes `ledger` the ledger of `trades`: the same trades, each once,
      sorted by close date, each carrying the running total of P/L up to and
      including itself. */
  ghost predicate IsLedgerOf(ledger: seq<Entry>, trades: seq<Trade>) {
    && multiset(Rows(ledger)) == multiset(trades)
    && SortedByCloseDate(Rows(ledger))
    && forall i :: 0 <= i < |ledger| ==> ledger[i].cumulated == TotalPL(Rows(ledger)[..i + 1])
  }

  /** Sorts the trades by close date in an array and adds the running total. */
  method BuildLedger(trades: seq<Trade>) returns (ledger: seq<Entry>)
    ensures |ledger| == |trades|
    ensures IsLedgerOf(ledger, trades)
  {
    var a := new Trade[|trades|](i requires 0 <= i < |trades| => trades[i]);
    assert a[..] == trades;
    SortByCloseDate(a);
    ledger := CumulativeSum(a[..]);
    assert |multiset(Rows(ledger))| == |multiset(trades)|;
  }

  /** The whole transformation of an export into a ledger. */
  method ProcessTastyTaxDocument(data: seq<RawRecord>, toDate: string -> Option<int>)
    returns (result: Result<seq<Entry>, ProcessError>)
    ensures result.Err? <==> DeriveTrades(data, toDate).Err?
    ensures result.Err? ==> result.error == DeriveTrades(data, toDate).error
    ensures result.Ok? ==> |result.value| == |data|
    ensures result.Ok? ==> IsLedgerOf(result.value, DeriveTrades(data, toDate).value)
  {
    var derived := DeriveTrades(data, toDate);
    if derived.Err? {
      return Err(derived.error);
    }
    var ledger := BuildLedger(derived.value);
    return Ok(ledger);
  }

  // ---------------------------------------------------------------------
  // Properties
  // ---------------------------------------------------------------------

  /** Whether every cell of a row converts: its close date, and both costs
      once `$` is removed. */
  predicate RowConverts(raw: RawRecord, toDate: string -> Option<int>) {
    && toDate(raw.closeDate).Some?
    && WellFormedAmount(StripDollar(raw.noWsCost))
    && WellFormedAmount(StripDollar(raw.noWsProceeds))
  }

  /** The symbol column is missing exactly when no description contains a
      space, the empty export included; that error comes before any other. */
  lemma NoSymbolColumnExactly(data: seq<RawRecord>, toDate: string -> Option<int>)
    ensures DeriveTrades(data, toDate) == Err(NoSymbolColumn)
        <==> forall i :: 0 <= i < |data| ==> NoSpace(data[i].secDescr)
  {
    if HasSymbolColumn(data) {
      var i :| 0 <= i < |data| && Symbol(data[i].secDescr).Some?;
      assert !NoSpace(data[i].secDescr);
    }
  }

  /** The amount cells convert exactly when they are well formed. */
  lemma AmountCellsConvert(data: seq<RawRecord>)
    ensures forall i :: 0 <= i < |data| ==>
      (ParseAmount(CloseCostCells(data)[i]).Some? <==> WellFormedAmount(StripDollar(data[i].noWsCost)))
    ensures forall i :: 0 <= i < |data| ==>
      (ParseAmount(OpenCostCells(data)[i]).Some? <==> WellFormedAmount(StripDollar(data[i].noWsProceeds)))
  {
    forall i | 0 <= i < |data|
      ensures ParseAmount(StripDollar(data[i].noWsCost)).Some? <==> WellFormedAmount(StripDollar(data[i].noWsCost))
      ensures ParseAmount(StripDollar(data[i].noWsProceeds)).Some? <==> WellFormedAmount(StripDollar(data[i].noWsProceeds))
    {
      ParseAmountAccepts(StripDollar(data[i].noWsCost));
      ParseAmountAccepts(StripDollar(data[i].noWsProceeds));
    }
  }

  /** Whether every row's cells convert, stated by the conversions themselves. */
  predicate AllCellsParse(data: seq<RawRecord>, toDate: string -> Option<int>) {
    && (forall i :: 0 <= i < |data| ==> toDate(data[i].closeDate).Some?)
    && (forall i :: 0 <= i < |data| ==> ParseAmount(CloseCostCells(data)[i]).Some?)
    && (forall i :: 0 <= i < |data| ==> ParseAmount(OpenCostCells(data)[i]).Some?)
  }

  /** The export yields a ledger exactly when some description has a symbol
      and every cell each conversion step reads converts. */
  lemma DeriveTradesOk(data: seq<RawRecord>, toDate: string -> Option<int>)
    ensures DeriveTrades(data, toDate).Ok? <==> HasSymbolColumn(data) && AllCellsParse(data, toDate)
  {
    var dates := ParseColumn(CloseDateCells(data), toDate);
    var closeCosts := ParseColumn(CloseCostCells(data), ParseAmount);
    var openCosts := ParseColumn(OpenCostCells(data), ParseAmount);
    ParseColumnValues(CloseDateCells(data), toDate);
    ParseColumnValues(CloseCostCells(data), ParseAmount);
    ParseColumnValues(OpenCostCells(data), ParseAmount);
    assert DeriveTrades(data, toDate).Ok?
        <==> HasSymbolColumn(data) && dates.Ok? && closeCosts.Ok? && openCosts.Ok?;
  }

  /** The export yields a ledger exactly when some description has a symbol
      and every row's close date and both costs convert. */
  lemma DeriveTradesSucceeds(data: seq<RawRecord>, toDate: string -> Option<int>)
    ensures DeriveTrades(data, toDate).Ok?
        <==> HasSymbolColumn(data) && forall i :: 0 <= i < |data| ==> RowConverts(data[i], toDate)
  {
    DeriveTradesOk(data, toDate);
    AmountCellsConvert(data);
  }

  /** A bad close date is reported only when the symbol column exists, and
      it names the first row, in export order, whose close date does not
      parse. */
  lemma BadCloseDateIsFirst(data: seq<RawRecord>, toDate: string -> Option<int>)
    requires DeriveTrades(data, toDate).Err? && DeriveTrades(data, toDate).error.BadCloseDate?
    ensures HasSymbolColumn(data)
    ensures exists i ::
      (FirstFailure(CloseDateCells(data), toDate, i)
       && DeriveTrades(data, toDate).error.text == data[i].closeDate)
  {
    ParseColumnFirstFailure(CloseDateCells(data), toDate);
  }

  /** A bad close cost is reported only when every close date parses, and it
      names the first row whose cost, once `$` is removed, does not convert. */
  lemma BadCloseCostIsFirst(data: seq<RawRecord>, toDate: string -> Option<int>)
    requires DeriveTrades(data, toDate).Err? && DeriveTrades(data, toDate).error.BadCloseCost?
    ensures HasSymbolColumn(data)
    ensures forall i :: 0 <= i < |data| ==> toDate(data[i].closeDate).Some?
    ensures exists i ::
      (FirstFailure(CloseCostCells(data), ParseAmount, i)
       && DeriveTrades(data, toDate).error.text == StripDollar(data[i].noWsCost))
  {
    ParseColumnValues(CloseDateCells(data), toDate);
    ParseColumnFirstFailure(CloseCostCells(data), ParseAmount);
  }

  /** A bad open cost is reported only when every close date parses and
      every close cost is well formed, and it names the first row whose
      proceeds, once `$` is removed, do not convert. */
  lemma BadOpenCostIsFirst(data: seq<RawRecord>, toDate: string -> Option<int>)
    requires DeriveTrades(data, toDate).Err? && DeriveTrades(data, toDate).error.BadOpenCost?
    ensures HasSymbolColumn(data)
    ensures forall i :: 0 <= i < |data| ==> toDate(data[i].closeDate).Some?
    ensures forall i :: 0 <= i < |data| ==> WellFormedAmount(StripDollar(data[i].noWsCost))
    ensures exists i ::
      (FirstFailure(OpenCostCells(data), ParseAmount, i)
       && DeriveTrades(data, toDate).error.text == StripDollar(data[i].noWsProceeds))
  {
    ParseColumnValues(CloseDateCells(data), toDate);
    ParseColumnValues(CloseCostCells(data), ParseAmount);
    AmountCellsConvert(data);
    ParseColumnFirstFailure(OpenCostCells(data), ParseAmount);
  }

  /** The raw OPEN_DATE cells never influence the result. */
  lemma OpenDateIgnored(data: seq<RawRecord>, other: seq<RawRecord>, toDate: string -> Option<int>)
    requires |other| == |data|
    requires forall i :: 0 <= i < |data| ==> other[i] == data[i].(openDate := other[i].openDate)
    ensures DeriveTrades(other, toDate) == DeriveTrades(data, toDate)
  {
    assert CloseDateCells(other) == CloseDateCells(data);
    assert CloseCostCells(other) == CloseCostCells(data);
    assert OpenCostCells(other) == OpenCostCells(data);
    assert HasSymbolColumn(other) == HasSymbolColumn(data) by {
      assert forall i :: 0 <= i < |data| ==> other[i].secDescr == data[i].secDescr;
    }
    var dates := ParseColumn(CloseDateCells(data), toDate);
    var closeCosts := ParseColumn(CloseCostCells(data), ParseAmount);
    var openCosts := ParseColumn(OpenCostCells(data), ParseAmount);
    if HasSymbolColumn(data) && dates.Ok? && closeCosts.Ok? && openCosts.Ok? {
      var mine := DeriveTrades(data, toDate).value;
      var theirs := DeriveTrades(other, toDate).value;
      forall i | 0 <= i < |data|
        ensures theirs[i] == mine[i]
      {
        assert theirs[i] == DeriveRow(other[i], dates.value[i], closeCosts.value[i], openCosts.value[i]);
        assert mine[i] == DeriveRow(data[i], dates.value[i], closeCosts.value[i], openCosts.value[i]);
      }
      assert theirs == mine;
    }
  }

  /** The sum of P/L over two consecutive pieces. */
  lemma {:induction false} TotalPLConcat(s: seq<Trade>, t: seq<Trade>)
    ensures TotalPL(s + t) == TotalPL(s) + TotalPL(t)
  {
    if t == [] {
      assert s + t == s;
    } else {
      var u := t[..|t| - 1];
      TotalPLConcat(s, u);
      assert (s + t)[..|s + t| - 1] == s + u;
    }
  }

  /** The total of a single trade is its P/L. */
  lemma TotalPLSingle(x: Trade)
    ensures TotalPL([x]) == x.pl
  {
    assert [x][..0] == [];
  }

  /** Taking one trade out of a sequence takes its P/L out of the total. */
  lemma {:induction false} TotalPLRemove(t: seq<Trade>, k: int)
    requires 0 <= k < |t|
    ensures TotalPL(t) == TotalPL(t[..k] + t[k + 1..]) + t[k].pl
  {
    var n := |t| - 1;
    if k == n {
      assert t[..k] + t[k + 1..] == t[..n];
    } else {
      var u := t[..n];
      var rest := u[..k] + u[k + 1..];
      TotalPLRemove(u, k);
      assert u[k] == t[k];
      var without := t[..k] + t[k + 1..];
      assert without == rest + [t[n]];
      assert without[..|without| - 1] == rest;
    }
  }

  /** Taking the trade at `k` out of a sequence takes one copy of it out of
      the multiset. */
  lemma MultisetRemove(t: seq<Trade>, k: int)
    requires 0 <= k < |t|
    ensures multiset(t[..k] + t[k + 1..]) == multiset(t) - multiset{t[k]}
  {
    assert t == t[..k] + [t[k]] + t[k + 1..];
    assert multiset(t) == multiset(t[..k]) + multiset{t[k]} + multiset(t[k + 1..]);
  }

  /** The total P/L does not depend on the order of the trades. */
  lemma {:induction false} TotalPLPermutation(s: seq<Trade>, t: seq<Trade>)
    requires multiset(s) == multiset(t)
    ensures TotalPL(s) == TotalPL(t)
  {
    if s == [] {
      assert multiset(t) == multiset{};
    } else {
      var n := |s| - 1;
      var x := s[n];
      assert x in multiset(t);
      var k :| 0 <= k < |t| && t[k] == x;
      MultisetRemove(s, n);
      MultisetRemove(t, k);
      assert s[..n] + s[n + 1..] == s[..n];
      TotalPLPermutation(s[..n], t[..k] + t[k + 1..]);
      TotalPLRemove(t, k);
    }
  }

  /** The running total moves by one P/L per entry: the first entry carries
      its own P/L and each later one adds its P/L to the previous total. */
  lemma CumulatedStep(ledger: seq<Entry>, trades: seq<Trade>)
    requires IsLedgerOf(ledger, trades)
    ensures |ledger| > 0 ==> ledger[0].cumulated == ledger[0].pl
    ensures forall i :: 0 < i < |ledger| ==> ledger[i].cumulated == ledger[i - 1].cumulated + ledger[i].pl
  {
    var rows := Rows(ledger);
    if |ledger| > 0 {
      assert rows[..1] == [ledger[0].Row()];
      TotalPLSingle(ledger[0].Row());
      assert ledger[0].cumulated == TotalPL(rows[..1]);
    }
    forall i | 0 < i < |ledger|
      ensures ledger[i].cumulated == ledger[i - 1].cumulated + ledger[i].pl
    {
      assert rows[..i + 1][..i] == rows[..i];
      assert rows[..i + 1][i] == ledger[i].Row();
      assert ledger[i - 1].cumulated == TotalPL(rows[..i]) by {
        assert i - 1 + 1 == i;
      }
      assert TotalPL(rows[..i + 1]) == TotalPL(rows[..i]) + ledger[i].pl;
    }
  }

  /** The running total rises (or stays level) from one entry to the next
      exactly when the later entry's P/L is not negative. */
  lemma CumulatedRisesIffGain(ledger: seq<Entry>, trades: seq<Trade>, i: int)
    requires IsLedgerOf(ledger, trades)
    requires 0 < i < |ledger|
    ensures ledger[i - 1].cumulated <= ledger[i].cumulated <==> 0.0 <= ledger[i].pl
  {
    CumulatedStep(ledger, trades);
  }

  /** The last running total is the total P/L of all trades of the export,
      whatever order the sort leaves them in. */
  lemma LastCumulatedIsTotal(ledger: seq<Entry>, trades: seq<Trade>)
    requires IsLedgerOf(ledger, trades)
    requires |ledger| > 0
    ensures ledger[|ledger| - 1].cumulated == TotalPL(trades)
  {
    var rows := Rows(ledger);
    assert rows[..|ledger|] == rows;
    TotalPLPermutation(rows, trades);
  }

  /** Every ledger entry is the trade of some export row: its symbol, side,
      dates and costs come from that row, OPEN DATE equals CLOSE DATE, and
      P/L is open cost minus close cost. */
  lemma EntriesComeFromExport(data: seq<RawRecord>, toDate: string -> Option<int>, ledger: seq<Entry>)
    requires DeriveTrades(data, toDate).Ok?
    requires IsLedgerOf(ledger, DeriveTrades(data, toDate).value)
    ensures forall i :: 0 <= i < |ledger| ==>
      exists j :: 0 <= j < |data| && DerivedFrom(ledger[i].Row(), data[j], toDate)
  {
    var trades := DeriveTrades(data, toDate).value;
    DeriveTradesRows(data, toDate);
    forall i | 0 <= i < |ledger|
      ensures exists j :: 0 <= j < |data| && DerivedFrom(ledger[i].Row(), data[j], toDate)
    {
      assert Rows(ledger)[i] == ledger[i].Row();
      assert ledger[i].Row() in multiset(trades);
      var j :| 0 <= j < |trades| && trades[j] == ledger[i].Row();
      assert DerivedFrom(trades[j], data[j], toDate);
    }
  }
}
