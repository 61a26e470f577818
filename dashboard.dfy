/** The dashboard over a ledger: the view the sidebar selects (symbols and an
    inclusive close-date range), the two headline figures computed from it,
    and the two per-day series drawn in the chart. */
module Dashboard {
  import opened Wrappers
  import opened Ledger

  // ---------------------------------------------------------------------
  // The view
  // ---------------------------------------------------------------------

  /** The symbols the ledger holds, the missing symbol included when a row
      has none. */
  function SymbolsOf(ledger: seq<Entry>): (symbols: set<Option<string>>)
    ensures forall e :: e in ledger ==> e.symbol in symbols
    ensures forall s :: s in symbols ==> exists e :: e in ledger && e.symbol == s
  {
    set e | e in ledger :: e.symbol
  }

  /** Whether an entry passes the sidebar's selection. Membership in the
      selection also matches the missing symbol when the selection holds it. */
  predicate InView(e: Entry, symbols: set<Option<string>>, minDate: int, maxDate: int) {
    e.symbol in symbols && minDate <= e.closeDate && e.closeDate <= maxDate
  }

  /** The entries that pass the selection, in ledger order. */
  function Filter(ledger: seq<Entry>, symbols: set<Option<string>>, minDate: int, maxDate: int): (view: seq<Entry>)
    ensures |view| <= |ledger|
    ensures forall e :: e in view <==> e in ledger && InView(e, symbols, minDate, maxDate)
  {
    if ledger == [] then []
    else
      (if InView(ledger[0], symbols, minDate, maxDate) then [ledger[0]] else [])
      + Filter(ledger[1..], symbols, minDate, maxDate)
  }

  /** The symbols the view uses: an empty selection stands for every symbol
      of the ledger. */
  function Selection(ledger: seq<Entry>, selected: set<Option<string>>): (symbols: set<Option<string>>)
    ensures selected != {} ==> symbols == selected
    ensures selected == {} ==> forall e :: e in ledger ==> e.symbol in symbols
  {
    if selected == {} then SymbolsOf(ledger) else selected
  }

  /** The filtered ledger the dashboard shows. */
  function View(ledger: seq<Entry>, selected: set<Option<string>>, minDate: int, maxDate: int): (view: seq<Entry>)
    ensures selected != {} ==>
      forall e :: e in view <==> e in ledger && InView(e, selected, minDate, maxDate)
    ensures selected == {} ==>
      forall e :: e in view <==> e in ledger && minDate <= e.closeDate <= maxDate
  {
    Filter(ledger, Selection(ledger, selected), minDate, maxDate)
  }

  /** Filtering a concatenation filters each piece. */
  lemma {:induction false} FilterConcat(a: seq<Entry>, b: seq<Entry>, symbols: set<Option<string>>, minDate: int, maxDate: int)
    ensures Filter(a + b, symbols, minDate, maxDate)
         == Filter(a, symbols, minDate, maxDate) + Filter(b, symbols, minDate, maxDate)
  {
    if a == [] {
      assert a + b == b;
    } else {
      var head := if InView(a[0], symbols, minDate, maxDate) then [a[0]] else [];
      assert (a + b)[0] == a[0];
      assert (a + b)[1..] == a[1..] + b;
      FilterConcat(a[1..], b, symbols, minDate, maxDate);
      assert Filter(a + b, symbols, minDate, maxDate) == head + Filter(a[1..] + b, symbols, minDate, maxDate);
      assert Filter(a, symbols, minDate, maxDate) == head + Filter(a[1..], symbols, minDate, maxDate);
    }
  }

  /** Each entry of the view occurs there as often as in the ledger when it
      passes the selection, and not at all otherwise. */
  lemma {:induction false} FilterCount(ledger: seq<Entry>, symbols: set<Option<string>>, minDate: int, maxDate: int, e: Entry)
    ensures multiset(Filter(ledger, symbols, minDate, maxDate))[e]
         == if InView(e, symbols, minDate, maxDate) then multiset(ledger)[e] else 0
  {
    if ledger != [] {
      FilterCount(ledger[1..], symbols, minDate, maxDate, e);
      assert ledger == [ledger[0]] + ledger[1..];
    }
  }

  /** Only the selection's effect on the ledger's own symbols matters. */
  lemma {:induction false} FilterAgrees(ledger: seq<Entry>, symbols: set<Option<string>>, others: set<Option<string>>, minDate: int, maxDate: int)
    requires forall e :: e in ledger ==> (e.symbol in symbols <==> e.symbol in others)
    ensures Filter(ledger, symbols, minDate, maxDate) == Filter(ledger, others, minDate, maxDate)
  {
    if ledger != [] {
      assert ledger[0] in ledger;
      assert forall e :: e in ledger[1..] ==> e in ledger;
      FilterAgrees(ledger[1..], symbols, others, minDate, maxDate);
    }
  }

  /** Selecting nothing is the same as selecting every symbol the ledger
      holds, or any larger set. */
  lemma EmptySelectionSelectsAll(ledger: seq<Entry>, symbols: set<Option<string>>, minDate: int, maxDate: int)
    requires SymbolsOf(ledger) <= symbols
    ensures View(ledger, {}, minDate, maxDate) == Filter(ledger, symbols, minDate, maxDate)
  {
    FilterAgrees(ledger, SymbolsOf(ledger), symbols, minDate, maxDate);
  }

  /** A filter every entry passes leaves the ledger as it is. */
  lemma {:induction false} FilterKeepsAll(ledger: seq<Entry>, symbols: set<Option<string>>, minDate: int, maxDate: int)
    requires forall e :: e in ledger ==> InView(e, symbols, minDate, maxDate)
    ensures Filter(ledger, symbols, minDate, maxDate) == ledger
  {
    if ledger != [] {
      assert ledger[0] in ledger;
      assert forall e :: e in ledger[1..] ==> e in ledger;
      FilterKeepsAll(ledger[1..], symbols, minDate, maxDate);
    }
  }

  /** The sidebar's initial state, no symbol selected and the date range
      spanning every close date, shows the whole ledger. */
  lemma FullRangeShowsLedger(ledger: seq<Entry>, minDate: int, maxDate: int)
    requires forall i :: 0 <= i < |ledger| ==> minDate <= ledger[i].closeDate <= maxDate
    ensures View(ledger, {}, minDate, maxDate) == ledger
  {
    forall e | e in ledger
      ensures InView(e, SymbolsOf(ledger), minDate, maxDate)
    {
      var i :| 0 <= i < |ledger| && ledger[i] == e;
    }
    FilterKeepsAll(ledger, SymbolsOf(ledger), minDate, maxDate);
  }

  /** The view of a ledger sorted by close date is sorted by close date. */
  lemma {:induction false} FilterKeepsOrder(ledger: seq<Entry>, symbols: set<Option<string>>, minDate: int, maxDate: int)
    requires SortedByCloseDate(Rows(ledger))
    ensures SortedByCloseDate(Rows(Filter(ledger, symbols, minDate, maxDate)))
  {
    if ledger != [] {
      var rest := Filter(ledger[1..], symbols, minDate, maxDate);
      assert Rows(ledger[1..]) == Rows(ledger)[1..];
      FilterKeepsOrder(ledger[1..], symbols, minDate, maxDate);
      forall e | e in rest
        ensures ledger[0].closeDate <= e.closeDate
      {
        var j :| 0 <= j < |ledger[1..]| && ledger[1..][j] == e;
        assert Rows(ledger)[0].closeDate <= Rows(ledger)[j + 1].closeDate;
      }
      var view := Filter(ledger, symbols, minDate, maxDate);
      forall i, j | 0 <= i < j < |view|
        ensures Rows(view)[i].closeDate <= Rows(view)[j].closeDate
      {
        if InView(ledger[0], symbols, minDate, maxDate) {
          assert view == [ledger[0]] + rest;
          if i == 0 {
            assert view[j] in rest;
          } else {
            assert Rows(rest)[i - 1].closeDate <= Rows(rest)[j - 1].closeDate;
          }
        } else {
          assert view == rest;
        }
      }
    }
  }

  // ---------------------------------------------------------------------
  // Headline figures
  // ---------------------------------------------------------------------

  /** Conversion of a real to an integer, dropping the fraction toward zero. */
  function Truncate(x: real): (n: int)
    ensures 0.0 <= x ==> n as real <= x < n as real + 1.0
    ensures x < 0.0 ==> n as real - 1.0 < x <= n as real
  {
    if 0.0 <= x then x.Floor else -((-x).Floor)
  }

  /** "P/L last": the summed P/L of the view, truncated; zero for an empty
      view. */
  function PlLast(view: seq<Entry>): (n: int)
    ensures view == [] ==> n == 0
    ensures 0.0 <= TotalPL(Rows(view)) ==> n as real <= TotalPL(Rows(view)) < n as real + 1.0
    ensures TotalPL(Rows(view)) < 0.0 ==> n as real - 1.0 < TotalPL(Rows(view)) <= n as real
  {
    Truncate(TotalPL(Rows(view)))
  }

  /** With the full view, "P/L last" is the final running total of the
      ledger, truncated. */
  lemma PlLastOfWholeLedger(ledger: seq<Entry>, trades: seq<Trade>)
    requires IsLedgerOf(ledger, trades)
    requires |ledger| > 0
    ensures PlLast(ledger) == Truncate(ledger[|ledger| - 1].cumulated)
  {
    LastCumulatedIsTotal(ledger, trades);
    TotalPLPermutation(Rows(ledger), trades);
  }

  /** The largest running total shown in the view; none for an empty view. */
  function MaxCumulated(view: seq<Entry>): (m: Option<real>)
    ensures m.None? <==> view == []
    ensures m.Some? ==> exists i :: 0 <= i < |view| && view[i].cumulated == m.value
    ensures m.Some? ==> forall i :: 0 <= i < |view| ==> view[i].cumulated <= m.value
  {
    if view == [] then None
    else
      match MaxCumulated(view[1..])
      case None => Some(view[0].cumulated)
      case Some(rest) =>
        assert forall i :: 1 <= i < |view| ==> view[i] == view[1..][i - 1];
        if rest < view[0].cumulated then Some(view[0].cumulated) else Some(rest)
  }

  /** "P/L max": the largest running total in the view, truncated. An empty
      view has none. */
  function PlMax(view: seq<Entry>): (n: Option<int>)
    ensures n.None? <==> view == []
    ensures n.Some? ==> exists i :: 0 <= i < |view| && Truncate(view[i].cumulated) == n.value
    ensures n.Some? ==> forall i :: 0 <= i < |view| ==> Truncate(view[i].cumulated) <= n.value
  {
    match MaxCumulated(view)
    case None => None
    case Some(m) =>
      TruncateMonotone(view, m);
      Some(Truncate(m))
  }

  /** Truncation never reverses an order. */
  lemma TruncateMonotone(view: seq<Entry>, m: real)
    requires forall i :: 0 <= i < |view| ==> view[i].cumulated <= m
    ensures forall i :: 0 <= i < |view| ==> Truncate(view[i].cumulated) <= Truncate(m)
  {
    forall i | 0 <= i < |view|
      ensures Truncate(view[i].cumulated) <= Truncate(m)
    {
      var x := view[i].cumulated;
      if 0.0 <= x {
        assert x.Floor <= m.Floor;
      } else if m < 0.0 {
        assert (-m).Floor <= (-x).Floor;
      }
    }
  }

  // ---------------------------------------------------------------------
  // Per-day series
  // ---------------------------------------------------------------------

  /** One point of a per-day series. */
  datatype DayPoint = DayPoint(date: int, value: real)

  /** How a day's entries combine into its point: the last running total of
      the day, or the sum of the day's P/L. */
  datatype Aggregate = Last | Sum

  /** The value an entry contributes to a series. */
  function Contribution(agg: Aggregate, e: Entry): real {
    match agg
    case Last => e.cumulated
    case Sum => e.pl
  }

  /** Folds a new value into a day's point. */
  function Combine(agg: Aggregate, previous: real, x: real): real {
    match agg
    case Last => x
    case Sum => previous + x
  }

  predicate StrictlyAscending(g: seq<DayPoint>) {
    forall i, j :: 0 <= i < j < |g| ==> g[i].date < g[j].date
  }

  /** The dates that have a point. */
  function Dates(g: seq<DayPoint>): set<int> {
    if g == [] then {} else {g[0].date} + Dates(g[1..])
  }

  /** The dates of an ascending series all come at or after its first date. */
  lemma {:induction false} DatesFrom(g: seq<DayPoint>, d: int)
    requires StrictlyAscending(g)
    requires d in Dates(g)
    ensures g != [] && g[0].date <= d
  {
    if g[0].date != d {
      DatesFrom(g[1..], d);
      assert g[1..][0] == g[1];
    }
  }

  /** Every point's date is one of the dates. */
  lemma {:induction false} DateOfPoint(g: seq<DayPoint>, j: int)
    requires 0 <= j < |g|
    ensures g[j].date in Dates(g)
  {
    if j > 0 {
      DateOfPoint(g[1..], j - 1);
    }
  }

  /** The value of the series at a date, if the date has a point. */
  function Lookup(g: seq<DayPoint>, d: int): (r: Option<real>)
    ensures r.Some? <==> d in Dates(g)
  {
    if g == [] then None
    else if g[0].date == d then Some(g[0].value)
    else Lookup(g[1..], d)
  }

  /** Adds one value at a date, keeping the dates ascending: a date already
      present has its value combined, a new date gets its own point. */
  function Put(g: seq<DayPoint>, d: int, x: real, agg: Aggregate): (r: seq<DayPoint>)
    ensures Dates(r) == Dates(g) + {d}
  {
    if g == [] then [DayPoint(d, x)]
    else if g[0].date == d then
      var r := [DayPoint(d, Combine(agg, g[0].value, x))] + g[1..];
      assert r[1..] == g[1..];
      r
    else if d < g[0].date then
      var r := [DayPoint(d, x)] + g;
      assert r[1..] == g;
      r
    else
      var r := [g[0]] + Put(g[1..], d, x, agg);
      assert r[1..] == Put(g[1..], d, x, agg);
      r
  }

  /** Putting a value keeps the dates strictly ascending. */
  lemma {:induction false} PutAscending(g: seq<DayPoint>, d: int, x: real, agg: Aggregate)
    requires StrictlyAscending(g)
    ensures StrictlyAscending(Put(g, d, x, agg))
  {
    if g != [] && g[0].date < d {
      var rest := Put(g[1..], d, x, agg);
      PutAscending(g[1..], d, x, agg);
      assert StrictlyAscending(g[1..]);
      forall j | 0 <= j < |rest|
        ensures g[0].date < rest[j].date
      {
        DateOfPoint(rest, j);
        if rest[j].date != d {
          DatesFrom(g[1..], rest[j].date);
        }
      }
      assert Put(g, d, x, agg) == [g[0]] + rest;
    }
  }

  /** Putting a value changes the series at that date only. */
  lemma {:induction false} LookupPut(g: seq<DayPoint>, d: int, x: real, agg: Aggregate, k: int)
    requires StrictlyAscending(g)
    ensures Lookup(Put(g, d, x, agg), k)
         == if k != d then Lookup(g, k)
            else match Lookup(g, d)
                 case None => Some(x)
                 case Some(v) => Some(Combine(agg, v, x))
  {
    if g != [] && g[0].date < d {
      LookupPut(g[1..], d, x, agg, k);
      assert Put(g, d, x, agg)[1..] == Put(g[1..], d, x, agg);
    } else if g != [] && d < g[0].date {
      assert Put(g, d, x, agg)[1..] == g;
      if d in Dates(g) {
        DatesFrom(g, d);
      }
    } else if g != [] {
      assert Put(g, d, x, agg)[1..] == g[1..];
    }
  }

  /** Whether some entry of the view closes on date `d`. */
  predicate ClosesOn(view: seq<Entry>, d: int) {
    exists i :: 0 <= i < |view| && view[i].closeDate == d
  }

  /** A date is a close date of the view exactly when it is one of all but
      the last entry or the last entry's. */
  lemma ClosesOnSplit(view: seq<Entry>, d: int)
    requires view != []
    ensures ClosesOn(view, d)
        <==> ClosesOn(view[..|view| - 1], d) || view[|view| - 1].closeDate == d
  {
    var n := |view| - 1;
    if ClosesOn(view, d) && view[n].closeDate != d {
      var i :| 0 <= i < |view| && view[i].closeDate == d;
      assert view[..n][i].closeDate == d;
    }
    if ClosesOn(view[..n], d) {
      var i :| 0 <= i < n && view[..n][i].closeDate == d;
      assert view[i].closeDate == d;
    }
  }

  /** The series of a view: its entries folded in, in view order. */
  function Group(view: seq<Entry>, agg: Aggregate): (g: seq<DayPoint>)
    ensures StrictlyAscending(g)
    ensures forall d :: d in Dates(g) <==> ClosesOn(view, d)
  {
    if view == [] then []
    else
      var n := |view| - 1;
      var prefix := Group(view[..n], agg);
      PutAscending(prefix, view[n].closeDate, Contribution(agg, view[n]), agg);
      assert forall d :: ClosesOn(view, d) <==> ClosesOn(view[..n], d) || view[n].closeDate == d by {
        forall d
          ensures ClosesOn(view, d) <==> ClosesOn(view[..n], d) || view[n].closeDate == d
        {
          ClosesOnSplit(view, d);
        }
      }
      Put(prefix, view[n].closeDate, Contribution(agg, view[n]), agg)
  }

  /** The running total at the end of each day: the last entry of the day,
      in view order, decides the point. */
  function GroupLast(view: seq<Entry>): (g: seq<DayPoint>)
    ensures StrictlyAscending(g)
    ensures forall d :: Lookup(g, d) == LastOn(view, d)
  {
    GroupLastValues(view);
    Group(view, Last)
  }

  /** The P/L of each day. */
  function GroupSum(view: seq<Entry>): (g: seq<DayPoint>)
    ensures StrictlyAscending(g)
    ensures forall d :: Lookup(g, d) == if ClosesOn(view, d) then Some(DayPL(view, d)) else None
  {
    GroupSumValues(view);
    Group(view, Sum)
  }

  /** The running total of the last entry of the view that closes on `d`. */
  function LastOn(view: seq<Entry>, d: int): (r: Option<real>)
    ensures r.Some? <==> ClosesOn(view, d)
    ensures r.Some? ==> exists i :: 0 <= i < |view| && view[i].closeDate == d && view[i].cumulated == r.value
                          && forall j :: i < j < |view| ==> view[j].closeDate != d
  {
    if view == [] then None
    else
      var n := |view| - 1;
      assert forall i :: 0 <= i < n ==> view[..n][i] == view[i];
      if view[n].closeDate == d then Some(view[n].cumulated) else LastOn(view[..n], d)
  }

  /** The summed P/L of the entries of the view that close on `d`. */
  function DayPL(view: seq<Entry>, d: int): real {
    if view == [] then 0.0
    else
      var n := |view| - 1;
      DayPL(view[..n], d) + if view[n].closeDate == d then view[n].pl else 0.0
  }

  lemma {:induction false} GroupLastValues(view: seq<Entry>)
    ensures forall d :: Lookup(Group(view, Last), d) == LastOn(view, d)
  {
    if view != [] {
      var n := |view| - 1;
      GroupLastValues(view[..n]);
      forall d
        ensures Lookup(Group(view, Last), d) == LastOn(view, d)
      {
        LookupPut(Group(view[..n], Last), view[n].closeDate, view[n].cumulated, Last, d);
      }
    }
  }

  lemma {:induction false} GroupSumValues(view: seq<Entry>)
    ensures forall d :: Lookup(Group(view, Sum), d) == if ClosesOn(view, d) then Some(DayPL(view, d)) else None
  {
    if view != [] {
      var n := |view| - 1;
      GroupSumValues(view[..n]);
      forall d
        ensures Lookup(Group(view, Sum), d) == if ClosesOn(view, d) then Some(DayPL(view, d)) else None
      {
        LookupPut(Group(view[..n], Sum), view[n].closeDate, view[n].pl, Sum, d);
        ClosesOnSplit(view, d);
        if !ClosesOn(view[..n], d) {
          DayPLAbsent(view[..n], d);
        }
      }
    }
  }

  /** A day no entry closes on has no P/L. */
  lemma {:induction false} DayPLAbsent(view: seq<Entry>, d: int)
    requires !ClosesOn(view, d)
    ensures DayPL(view, d) == 0.0
  {
    if view != [] {
      var n := |view| - 1;
      ClosesOnSplit(view, d);
      DayPLAbsent(view[..n], d);
    }
  }

  /** The summed values of a series. */
  function SumValues(g: seq<DayPoint>): real {
    if g == [] then 0.0 else g[0].value + SumValues(g[1..])
  }

  lemma {:induction false} SumValuesPut(g: seq<DayPoint>, d: int, x: real)
    ensures SumValues(Put(g, d, x, Sum)) == SumValues(g) + x
  {
    if g != [] && g[0].date != d && g[0].date < d {
      SumValuesPut(g[1..], d, x);
      assert (Put(g, d, x, Sum))[1..] == Put(g[1..], d, x, Sum);
    } else if g != [] && g[0].date == d {
      assert Put(g, d, x, Sum)[1..] == g[1..];
    } else if g != [] {
      assert Put(g, d, x, Sum)[1..] == g;
    } else {
      assert Put(g, d, x, Sum)[1..] == [];
    }
  }

  /** The daily P/L bars add up to the summed P/L of the view. */
  lemma {:induction false} DailyBarsAddUp(view: seq<Entry>)
    ensures SumValues(GroupSum(view)) == TotalPL(Rows(view))
  {
    if view != [] {
      var n := |view| - 1;
      DailyBarsAddUp(view[..n]);
      SumValuesPut(Group(view[..n], Sum), view[n].closeDate, view[n].pl);
      assert Rows(view)[..n] == Rows(view[..n]);
    }
  }

  /** The trades closed on or before date `d`, in their order. */
  function ClosedBy(ts: seq<Trade>, d: int): seq<Trade> {
    if ts == [] then []
    else (if ts[0].closeDate <= d then [ts[0]] else []) + ClosedBy(ts[1..], d)
  }

  /** Each trade closed by `d` is kept as often as it occurs. */
  lemma {:induction false} ClosedByCount(ts: seq<Trade>, d: int, t: Trade)
    ensures multiset(ClosedBy(ts, d))[t] == if t.closeDate <= d then multiset(ts)[t] else 0
  {
    if ts != [] {
      ClosedByCount(ts[1..], d, t);
      assert ts == [ts[0]] + ts[1..];
    }
  }

  /** When the trades closed by `d` are exactly the first `k`, that prefix is
      what `ClosedBy` keeps. */
  lemma {:induction false} ClosedByPrefix(ts: seq<Trade>, d: int, k: int)
    requires 0 <= k <= |ts|
    requires forall j :: 0 <= j < k ==> ts[j].closeDate <= d
    requires forall j :: k <= j < |ts| ==> d < ts[j].closeDate
    ensures ClosedBy(ts, d) == ts[..k]
  {
    if ts != [] {
      if k == 0 {
        ClosedByPrefix(ts[1..], d, 0);
      } else {
        ClosedByPrefix(ts[1..], d, k - 1);
        assert ts[..k] == [ts[0]] + ts[1..][..k - 1];
      }
    }
  }

  /** Reordering the trades does not change which are closed by `d`, nor how
      often. */
  lemma ClosedByPermutation(s: seq<Trade>, t: seq<Trade>, d: int)
    requires multiset(s) == multiset(t)
    ensures multiset(ClosedBy(s, d)) == multiset(ClosedBy(t, d))
  {
    forall x
      ensures multiset(ClosedBy(s, d))[x] == multiset(ClosedBy(t, d))[x]
    {
      ClosedByCount(s, d, x);
      ClosedByCount(t, d, x);
    }
  }

  /** In trades sorted by close date, those closed by `d` run up to the last
      one closing on `d`. */
  lemma SortedClosedBy(rows: seq<Trade>, d: int, i: int)
    requires SortedByCloseDate(rows)
    requires 0 <= i < |rows| && rows[i].closeDate == d
    requires forall j :: i < j < |rows| ==> rows[j].closeDate != d
    ensures ClosedBy(rows, d) == rows[..i + 1]
  {
    assert forall j :: 0 <= j < i ==> rows[j].closeDate <= rows[i].closeDate;
    assert forall j :: i < j < |rows| ==> rows[i].closeDate <= rows[j].closeDate;
    ClosedByPrefix(rows, d, i + 1);
  }

  /** In a ledger the last entry closing on `d` carries the total P/L of the
      trades closed by `d`. */
  lemma LastOnIsTotalToDate(ledger: seq<Entry>, trades: seq<Trade>, d: int)
    requires IsLedgerOf(ledger, trades)
    requires ClosesOn(ledger, d)
    ensures LastOn(ledger, d) == Some(TotalPL(ClosedBy(trades, d)))
  {
    var rows := Rows(ledger);
    var i :| 0 <= i < |ledger| && ledger[i].closeDate == d && ledger[i].cumulated == LastOn(ledger, d).value
             && forall j :: i < j < |ledger| ==> ledger[j].closeDate != d;
    assert forall j :: i < j < |rows| ==> rows[j].closeDate != d;
    SortedClosedBy(rows, d, i);
    ClosedByPermutation(rows, trades, d);
    TotalPLPermutation(ClosedBy(rows, d), ClosedBy(trades, d));
  }

  /** On the whole ledger the chart's line, at every date some trade closes
      on, stands at the total P/L of all trades closed by that date. The
      order the sort leaves same-day trades in does not change it. */
  lemma DailyLineIsTotalToDate(ledger: seq<Entry>, trades: seq<Trade>, d: int)
    requires IsLedgerOf(ledger, trades)
    requires ClosesOn(ledger, d)
    ensures Lookup(GroupLast(ledger), d) == Some(TotalPL(ClosedBy(trades, d)))
  {
    LastOnIsTotalToDate(ledger, trades, d);
  }
}
