/** The MTD and YTD asset bridges of capital_facts_service.py, in integer cents. */
module CapitalFacts {
  import opened Optional
  import opened Totals

  // ---------- months ----------

  predicate Leap(year: nat) { year % 4 == 0 && (year % 100 != 0 || year % 400 == 0) }

  /** The length of month `m`, counted from January of year 0. */
  function MonthLength(m: nat): int
    ensures 28 <= MonthLength(m) <= 31
  {
    var year, month := m / 12, m % 12 + 1;
    if month in {4, 6, 9, 11} then 30 else if month != 2 then 31 else if Leap(year) then 29 else 28
  }

  /** The first day of month `m`, as a day number. */
  function MonthStart(m: nat): int {
    if m == 0 then 0 else MonthStart(m - 1) + MonthLength(m - 1)
  }

  /** _month_end. */
  function MonthEnd(m: nat): int { MonthStart(m) + MonthLength(m) - 1 }

  function YearStart(year: nat): int { MonthStart(12 * year) }

  lemma {:induction false} MonthsGrow(a: nat, b: nat)
    requires a < b
    ensures MonthEnd(a) < MonthStart(b) <= MonthEnd(b)
    decreases b
  {
    if a < b - 1 { MonthsGrow(a, b - 1); }
  }

  // ---------- the facts ----------

  datatype Nav = Nav(date: int, total: int)
  datatype CashFlow = CashFlow(date: int, amount: int)

  datatype Reason = MonthInFuture | TargetNavMissing | AnchorMissing
  datatype Facts = Unavailable(reason: Reason) | Bridge(anchorDate: int, endDate: int, opening: int, flow: int,
                                                        pnl: int, ending: int)
  datatype Period = MTD | YTD

  /** Stable insertion by date. */
  function Insert(n: Nav, sorted: seq<Nav>): seq<Nav> {
    if sorted == [] then [n]
    else if n.date < sorted[0].date then [n] + sorted
    else [sorted[0]] + Insert(n, sorted[1..])
  }

  function SortByDate(navs: seq<Nav>): seq<Nav> {
    if navs == [] then [] else Insert(navs[|navs| - 1], SortByDate(navs[..|navs| - 1]))
  }

  /** _last_nav_between: the last of the matches. */
  function LastNavBetween(navs: seq<Nav>, from: int, to: int): Option<Nav> {
    if navs == [] then None
    else if from <= navs[|navs| - 1].date <= to then Some(navs[|navs| - 1])
    else LastNavBetween(navs[..|navs| - 1], from, to)
  }

  /** The external flows of a period, both ends included. */
  function FlowsBetween(flows: seq<CashFlow>, from: int, to: int): int {
    if flows == [] then 0
    else FlowsBetween(flows[..|flows| - 1], from, to)
         + if from <= flows[|flows| - 1].date <= to then flows[|flows| - 1].amount else 0
  }

  function Min(a: int, b: int): int { if a <= b then a else b }

  /** CapitalFactsService.get for month `m`, seen on day `today` of month `currentMonth`. */
  function Get(navs: seq<Nav>, flows: seq<CashFlow>, period: Period, m: nat, today: int, currentMonth: nat): Facts {
    if m > currentMonth then Unavailable(MonthInFuture)
    else
      var sorted := SortByDate(navs);
      var ending := LastNavBetween(sorted, MonthStart(m), Min(MonthEnd(m), today));
      if ending.None? then Unavailable(TargetNavMissing)
      else
        var year := m / 12;
        var start := if period.MTD? then MonthStart(m) else YearStart(year);
        var anchor :=
          if period.MTD? then
            if m == 0 then None else LastNavBetween(sorted, MonthStart(m - 1), MonthEnd(m - 1))
          else
            if year == 0 then None else LastNavBetween(sorted, YearStart(year - 1), YearStart(year) - 1);
        if anchor.None? then Unavailable(AnchorMissing)
        else
          var flow := FlowsBetween(flows, start, ending.value.date);
          Bridge(anchor.value.date, ending.value.date, anchor.value.total, flow,
                 ending.value.total - anchor.value.total - flow, ending.value.total)
  }

  // ---------- sorting and the last match ----------

  ghost predicate Sorted(navs: seq<Nav>) {
    forall i, j :: 0 <= i < j < |navs| ==> navs[i].date <= navs[j].date
  }

  lemma {:induction false} InsertKeeps(n: Nav, sorted: seq<Nav>)
    ensures multiset(Insert(n, sorted)) == multiset(sorted) + multiset{n}
    ensures forall x :: x in Insert(n, sorted) <==> x == n || x in sorted
  {
    if sorted != [] && n.date >= sorted[0].date {
      InsertKeeps(n, sorted[1..]);
      assert sorted == [sorted[0]] + sorted[1..];
    }
  }

  lemma {:induction false} InsertSorted(n: Nav, sorted: seq<Nav>)
    requires Sorted(sorted)
    ensures Sorted(Insert(n, sorted))
  {
    if sorted != [] && n.date >= sorted[0].date {
      InsertSorted(n, sorted[1..]);
      InsertKeeps(n, sorted[1..]);
      var rest := Insert(n, sorted[1..]);
      forall k | 0 <= k < |rest| ensures sorted[0].date <= rest[k].date {
        assert rest[k] in rest;
        if rest[k] != n {
          var j :| 0 <= j < |sorted[1..]| && sorted[1..][j] == rest[k];
          assert sorted[j + 1] == rest[k];
        }
      }
    }
  }

  lemma {:induction false} SortSorts(navs: seq<Nav>)
    ensures Sorted(SortByDate(navs)) && multiset(SortByDate(navs)) == multiset(navs)
  {
    if navs != [] {
      SortSorts(navs[..|navs| - 1]);
      InsertKeeps(navs[|navs| - 1], SortByDate(navs[..|navs| - 1]));
      InsertSorted(navs[|navs| - 1], SortByDate(navs[..|navs| - 1]));
      assert navs == navs[..|navs| - 1] + [navs[|navs| - 1]];
    }
  }

  /** The last match of a sorted history has the latest date of its window. */
  lemma {:induction false} LastIsLatest(navs: seq<Nav>, from: int, to: int)
    requires Sorted(navs)
    ensures match LastNavBetween(navs, from, to)
            case None => forall n :: n in navs ==> !(from <= n.date <= to)
            case Some(l) => l in navs && from <= l.date <= to && forall n :: n in navs && from <= n.date <= to ==>
                                                                   n.date <= l.date
  {
    if navs != [] {
      var front := navs[..|navs| - 1];
      assert forall n :: n in navs <==> n in front || n == navs[|navs| - 1];
      LastIsLatest(front, from, to);
    }
  }

  /** A wider window finds the same row when the row found in its late part exists. */
  lemma {:induction false} LastInWider(navs: seq<Nav>, from: int, mid: int, to: int)
    requires Sorted(navs) && from <= mid && LastNavBetween(navs, mid, to).Some?
    ensures LastNavBetween(navs, from, to) == LastNavBetween(navs, mid, to)
  {
    if navs != [] && !(mid <= navs[|navs| - 1].date <= to) {
      var front := navs[..|navs| - 1];
      LastIsLatest(front, mid, to);
      assert navs[|navs| - 1].date > to;
      LastInWider(front, from, mid, to);
    }
  }

  lemma {:induction false} FlowsSplit(flows: seq<CashFlow>, from: int, mid: int, to: int)
    requires from <= mid + 1 && mid <= to
    ensures FlowsBetween(flows, from, to) == FlowsBetween(flows, from, mid) + FlowsBetween(flows, mid + 1, to)
  {
    if flows != [] { FlowsSplit(flows[..|flows| - 1], from, mid, to); }
  }

  // ---------- telescoping ----------

  /** The last NAV of a whole month. */
  function MonthNav(navs: seq<Nav>, m: nat): Option<Nav> {
    LastNavBetween(SortByDate(navs), MonthStart(m), MonthEnd(m))
  }

  /** The flows of month `m` dated after its last NAV. */
  function Tail(navs: seq<Nav>, flows: seq<CashFlow>, m: nat): int {
    match MonthNav(navs, m)
    case None => 0
    case Some(n) => FlowsBetween(flows, n.date + 1, MonthEnd(m))
  }

  /** The monthly pnl of months first..m. */
  function MonthlySum(navs: seq<Nav>, flows: seq<CashFlow>, first: nat, m: nat, today: int, currentMonth: nat): int
    requires first <= m
    decreases m
  {
    var f := Get(navs, flows, MTD, m, today, currentMonth);
    (if f.Bridge? then f.pnl else 0) + if m == first then 0
        else MonthlySum(navs, flows, first, m - 1, today, currentMonth)
  }

  /** The tails of months first..m-1. */
  function TailSum(navs: seq<Nav>, flows: seq<CashFlow>, first: nat, m: nat): int
    requires first <= m
    decreases m
  {
    if m == first then 0 else Tail(navs, flows, m - 1) + TailSum(navs, flows, first, m - 1)
  }

  /** Every month from the previous December to `m` has a NAV, as seen today. */
  ghost predicate Complete(navs: seq<Nav>, first: nat, m: nat, today: int, currentMonth: nat) {
    && 1 <= first <= m <= currentMonth && MonthStart(currentMonth) <= today
    && (forall k: nat :: first - 1 <= k < m ==> MonthNav(navs, k).Some?)
    && LastNavBetween(SortByDate(navs), MonthStart(m), Min(MonthEnd(m), today)).Some?
  }

  /** The NAV a bridge of month `m` ends at. */
  function EndNav(navs: seq<Nav>, m: nat, today: int): Option<Nav> {
    LastNavBetween(SortByDate(navs), MonthStart(m), Min(MonthEnd(m), today))
  }

  lemma PastMonthEnds(navs: seq<Nav>, m: nat, today: int, currentMonth: nat)
    requires m < currentMonth && MonthStart(currentMonth) <= today
    ensures EndNav(navs, m, today) == MonthNav(navs, m)
  {
    MonthsGrow(m, currentMonth);
  }

  /** One month's bridge runs from the last NAV of the month before to its own last NAV. */
  lemma MonthBridge(navs: seq<Nav>, flows: seq<CashFlow>, m: nat, today: int, currentMonth: nat)
    requires 1 <= m <= currentMonth && MonthNav(navs, m - 1).Some? && EndNav(navs, m, today).Some?
    ensures var f := Get(navs, flows, MTD, m, today, currentMonth);
            var end := EndNav(navs, m, today).value;
            f.Bridge? && f.pnl == end.total - MonthNav(navs, m - 1).value.total
                - FlowsBetween(flows, MonthStart(m), end.date)
  {
  }

  /** Flows up to a day of month `m`, cut at the last NAV of the month before. */
  lemma FlowsCut(flows: seq<CashFlow>, first: nat, m: nat, before: int, end: int)
    requires first < m && MonthStart(m - 1) <= before <= MonthEnd(m - 1) && MonthStart(m) <= end
    ensures FlowsBetween(flows, MonthStart(first), end)
            == FlowsBetween(flows, MonthStart(first), before) + FlowsBetween(flows, before + 1, MonthEnd(m - 1))
               + FlowsBetween(flows, MonthStart(m), end)
  {
    if first < m - 1 { MonthsGrow(first, m - 1); }
    FlowsSplit(flows, MonthStart(first), MonthEnd(m - 1), end);
    FlowsSplit(flows, MonthStart(first), before, MonthEnd(m - 1));
  }

  lemma NavDates(navs: seq<Nav>, from: int, to: int)
    ensures var n := LastNavBetween(SortByDate(navs), from, to); n.Some? ==> from <= n.value.date <= to
  {
    SortSorts(navs);
    LastIsLatest(SortByDate(navs), from, to);
  }

  /** The months first..m add up to the move from the anchor to the last NAV, less the flows counted. */
  lemma {:induction false} MonthsTelescope(navs: seq<Nav>, flows: seq<CashFlow>, first: nat, m: nat, today: int,
                                           currentMonth: nat)
    requires Complete(navs, first, m, today, currentMonth)
    ensures MonthlySum(navs, flows, first, m, today, currentMonth)
            == EndNav(navs, m, today).value.total - MonthNav(navs, first - 1).value.total
               - FlowsBetween(flows, MonthStart(first), EndNav(navs, m, today).value.date)
                   + TailSum(navs, flows, first, m)
    decreases m
  {
    hide LastNavBetween, FlowsBetween, Get, SortByDate;
    assert MonthNav(navs, m - 1).Some?;
    MonthBridge(navs, flows, m, today, currentMonth);
    if m > first {
      PastMonthEnds(navs, m - 1, today, currentMonth);
      MonthsTelescope(navs, flows, first, m - 1, today, currentMonth);
      NavDates(navs, MonthStart(m - 1), MonthEnd(m - 1));
      NavDates(navs, MonthStart(m), Min(MonthEnd(m), today));
      FlowsCut(flows, first, m, MonthNav(navs, m - 1).value.date, EndNav(navs, m, today).value.date);
    }
  }

  /** The anchor of a year is the last NAV of its previous December, when that month has one. */
  lemma YearAnchor(navs: seq<Nav>, year: nat)
    requires year >= 1 && MonthNav(navs, 12 * year - 1).Some?
    ensures LastNavBetween(SortByDate(navs), YearStart(year - 1), YearStart(year) - 1) == MonthNav(navs, 12 * year - 1)
  {
    SortSorts(navs);
    MonthsGrow(12 * (year - 1), 12 * year - 1);
    LastInWider(SortByDate(navs), YearStart(year - 1), MonthStart(12 * year - 1), MonthEnd(12 * year - 1));
  }

  lemma YearBridge(navs: seq<Nav>, flows: seq<CashFlow>, m: nat, year: nat, today: int, currentMonth: nat)
    requires year == m / 12 && year >= 1 && m <= currentMonth
    requires MonthNav(navs, 12 * year - 1).Some? && EndNav(navs, m, today).Some?
    ensures var f := Get(navs, flows, YTD, m, today, currentMonth);
            var end := EndNav(navs, m, today).value;
            f.Bridge? && f.pnl == end.total - MonthNav(navs, 12 * year - 1).value.total
                - FlowsBetween(flows, MonthStart(12 * year), end.date)
  {
    YearAnchor(navs, year);
  }

  /**
   MTD/YTD telescoping: when every month from the previous December to month `m` of the year has a
   NAV, the monthly results add up to the YTD result plus exactly the external flows dated after an
   earlier month's last NAV and within that month.
   */
  lemma YtdIsTheSumOfMonths(navs: seq<Nav>, flows: seq<CashFlow>, m: nat, today: int, currentMonth: nat)
    requires m >= 12 && Complete(navs, m / 12 * 12, m, today, currentMonth)
    ensures var first := m / 12 * 12;
            var ytd := Get(navs, flows, YTD, m, today, currentMonth);
            ytd.Bridge? && MonthlySum(navs, flows, first, m, today, currentMonth) == ytd.pnl
                + TailSum(navs, flows, first, m)
  {
    hide LastNavBetween, FlowsBetween, Get, SortByDate, MonthlySum, TailSum, MonthStart;
    var year := m / 12;
    assert m / 12 * 12 == 12 * year;
    assert MonthNav(navs, 12 * year - 1).Some?;
    YearBridge(navs, flows, m, year, today, currentMonth);
    MonthsTelescope(navs, flows, 12 * year, m, today, currentMonth);
  }

  lemma {:induction false} NoTails(navs: seq<Nav>, flows: seq<CashFlow>, first: nat, m: nat)
    requires first <= m && forall k: nat :: first <= k < m ==> Tail(navs, flows, k) == 0
    ensures TailSum(navs, flows, first, m) == 0
    decreases m
  {
    if m > first { NoTails(navs, flows, first, m - 1); }
  }

  /** With no flow after an earlier month's last NAV, the months add up to the year exactly. */
  lemma MonthsAddUpExactly(navs: seq<Nav>, flows: seq<CashFlow>, m: nat, today: int, currentMonth: nat)
    requires m >= 12 && Complete(navs, m / 12 * 12, m, today, currentMonth)
    requires forall k: nat :: m / 12 * 12 <= k < m ==> Tail(navs, flows, k) == 0
    ensures Get(navs, flows, YTD, m, today, currentMonth).Bridge?
    ensures MonthlySum(navs, flows, m / 12 * 12, m, today, currentMonth)
            == Get(navs, flows, YTD, m, today, currentMonth).pnl
  {
    YtdIsTheSumOfMonths(navs, flows, m, today, currentMonth);
    NoTails(navs, flows, m / 12 * 12, m);
  }

  // ---------- what is reported, from the stored rows themselves ----------

  predicate InWindow(n: Nav, from: int, to: int) { from <= n.date <= to }

  /** Row `i` is the one of the latest date in the window; of rows of one date it is the last stored. */
  ghost predicate IsLatest(navs: seq<Nav>, from: int, to: int, i: nat) {
    && i < |navs| && InWindow(navs[i], from, to)
    && forall j :: 0 <= j < |navs| && InWindow(navs[j], from, to) ==>
         navs[j].date < navs[i].date || (navs[j].date == navs[i].date && j <= i)
  }

  lemma {:induction false} LastFromFront(x: Nav, rest: seq<Nav>, from: int, to: int)
    ensures LastNavBetween([x] + rest, from, to)
            == if LastNavBetween(rest, from, to).Some? then LastNavBetween(rest, from, to)
               else if InWindow(x, from, to) then Some(x) else None
  {
    if rest == [] {
      assert [x] + rest == [x] && [x][..0] == [];
    } else {
      assert ([x] + rest)[..|rest|] == [x] + rest[..|rest| - 1];
      LastFromFront(x, rest[..|rest| - 1], from, to);
    }
  }

  /** Inserting a row makes it the last match of its window when no match is later. */
  lemma {:induction false} InsertedLast(n: Nav, sorted: seq<Nav>, from: int, to: int)
    requires Sorted(sorted)
    ensures var last := LastNavBetween(sorted, from, to);
            LastNavBetween(Insert(n, sorted), from, to)
            == if InWindow(n, from, to) && (last.Some? ==> last.value.date <= n.date) then Some(n) else last
  {
    hide LastNavBetween;
    NoneInNone(from, to);
    if sorted == [] {
      LastFromFront(n, [], from, to);
      assert [n] + [] == [n];
    } else {
      assert sorted == [sorted[0]] + sorted[1..];
      LastFromFront(sorted[0], sorted[1..], from, to);
      LastIsLatest(sorted, from, to);
      if n.date < sorted[0].date {
        LastFromFront(n, sorted, from, to);
      } else {
        LastFromFront(sorted[0], Insert(n, sorted[1..]), from, to);
        InsertedLast(n, sorted[1..], from, to);
      }
    }
  }

  lemma NoneInNone(from: int, to: int)
    ensures LastNavBetween([], from, to) == None
  {
  }

  /** Row `n` is the answer for the window, if there is one. */
  ghost predicate Answers(navs: seq<Nav>, from: int, to: int, found: Option<Nav>) {
    match found
    case None => forall i :: 0 <= i < |navs| ==> !InWindow(navs[i], from, to)
    case Some(n) => exists i: nat :: IsLatest(navs, from, to, i) && navs[i] == n
  }

  lemma AnswersGrow(navs: seq<Nav>, from: int, to: int, before: Option<Nav>)
    requires navs != [] && Answers(navs[..|navs| - 1], from, to, before)
    ensures var last := navs[|navs| - 1];
            Answers(navs, from, to, if InWindow(last, from, to) && (before.Some? ==> before.value.date <= last.date)
                                    then Some(last) else before)
  {
    var front, last := navs[..|navs| - 1], navs[|navs| - 1];
    assert forall i :: 0 <= i < |front| ==> front[i] == navs[i];
    if InWindow(last, from, to) && (before.Some? ==> before.value.date <= last.date) {
      assert IsLatest(navs, from, to, |navs| - 1);
    } else if before.Some? {
      var i: nat :| IsLatest(front, from, to, i) && front[i] == before.value;
      assert IsLatest(navs, from, to, i);
    }
  }

  /** The last match of the sorted history, found in the rows as they are stored. */
  lemma {:induction false} LastOfHistory(navs: seq<Nav>, from: int, to: int)
    ensures Answers(navs, from, to, LastNavBetween(SortByDate(navs), from, to))
  {
    if navs == [] {
      NoneInNone(from, to);
    } else {
      var front, last := navs[..|navs| - 1], navs[|navs| - 1];
      hide LastNavBetween, Insert, Answers, Sorted;
      LastOfHistory(front, from, to);
      SortSorts(front);
      InsertedLast(last, SortByDate(front), from, to);
      AnswersGrow(navs, from, to, LastNavBetween(SortByDate(front), from, to));
    }
  }

  ghost function FlowAmounts(flows: seq<CashFlow>, from: int, to: int): map<int, int> {
    map i | 0 <= i < |flows| && from <= flows[i].date <= to :: flows[i].amount
  }

  /** The flows of a period are all of them dated in it, its first and last day included, each once. */
  lemma {:induction false} FlowsExactly(flows: seq<CashFlow>, from: int, to: int)
    ensures FlowsBetween(flows, from, to) == Total(FlowAmounts(flows, from, to))
  {
    if flows == [] {
      assert FlowAmounts(flows, from, to) == map[];
    } else {
      var m := |flows| - 1;
      var front := flows[..m];
      FlowsExactly(front, from, to);
      if from <= flows[m].date <= to {
        TotalUpdate(FlowAmounts(front, from, to), m, flows[m].amount);
        assert FlowAmounts(flows, from, to) == FlowAmounts(front, from, to)[m := flows[m].amount];
      } else {
        assert FlowAmounts(flows, from, to) == FlowAmounts(front, from, to);
      }
    }
  }

  /** The window of the anchor: the month before, or the year before. */
  function AnchorWindow(period: Period, m: nat): (int, int)
    requires m >= 12
  {
    if period.MTD? then (MonthStart(m - 1), MonthStart(m) - 1)
    else (MonthStart(12 * (m / 12 - 1)), MonthStart(12 * (m / 12)) - 1)
  }

  /**
   What is reported. A month in the future, a month without a NAV up to today and a period without an anchor are
   unavailable, in this order. Otherwise the bridge runs from the last NAV of the month or year before to the last NAV
   of the month up to today, and its flow is what was dated from the start of the period to the day it ends.
   */
  lemma GetExactly(navs: seq<Nav>, flows: seq<CashFlow>, period: Period, m: nat, today: int, currentMonth: nat)
    requires m >= 12
    ensures var facts := Get(navs, flows, period, m, today, currentMonth);
            var (from, to) := (MonthStart(m), if MonthEnd(m) <= today then MonthEnd(m) else today);
            var anchor := AnchorWindow(period, m);
            var start := if period.MTD? then MonthStart(m) else MonthStart(12 * (m / 12));
            if m > currentMonth then facts == Unavailable(MonthInFuture)
            else if forall i :: 0 <= i < |navs| ==> !InWindow(navs[i], from, to) then
              facts == Unavailable(TargetNavMissing)
            else if forall i :: 0 <= i < |navs| ==> !InWindow(navs[i], anchor.0, anchor.1) then
              facts == Unavailable(AnchorMissing)
            else
              && facts.Bridge?
              && (exists i: nat :: IsLatest(navs, from, to, i) && facts.endDate == navs[i].date
                                   && facts.ending == navs[i].total)
              && (exists i: nat :: IsLatest(navs, anchor.0, anchor.1, i) && facts.anchorDate == navs[i].date
                                   && facts.opening == navs[i].total)
              && facts.flow == Total(FlowAmounts(flows, start, facts.endDate))
              && facts.pnl == facts.ending - facts.opening - facts.flow
  {
    hide LastNavBetween, SortByDate, FlowsBetween, MonthLength, MonthStart, Answers, IsLatest, FlowAmounts;
    var (from, to) := (MonthStart(m), if MonthEnd(m) <= today then MonthEnd(m) else today);
    var anchor := AnchorWindow(period, m);
    DayBefore(m);
    LastOfHistory(navs, from, to);
    LastOfHistory(navs, anchor.0, anchor.1);
    var ending := LastNavBetween(SortByDate(navs), from, to);
    AnswersExactly(navs, from, to, ending);
    AnswersExactly(navs, anchor.0, anchor.1, LastNavBetween(SortByDate(navs), anchor.0, anchor.1));
    if ending.Some? {
      FlowsExactly(flows, if period.MTD? then MonthStart(m) else MonthStart(12 * (m / 12)), ending.value.date);
    }
  }

  lemma DayBefore(m: nat)
    requires m >= 1
    ensures MonthEnd(m - 1) == MonthStart(m) - 1
  {
  }

  lemma AnswersExactly(navs: seq<Nav>, from: int, to: int, found: Option<Nav>)
    requires Answers(navs, from, to, found)
    ensures found.None? <==> forall i :: 0 <= i < |navs| ==> !InWindow(navs[i], from, to)
    ensures found.Some? ==> exists i: nat :: IsLatest(navs, from, to, i) && navs[i] == found.value
  {
  }

  /** The calendar: four months have 30 days, and February has 29 in every fourth year but three of four centuries. */
  lemma MonthLengths(year: nat, month: nat)
    requires 1 <= month <= 12
    ensures var days := MonthLength(12 * year + month - 1);
            if month in {1, 3, 5, 7, 8, 10, 12} then days == 31
            else if month != 2 then days == 30
            else if year % 400 == 0 then days == 29
            else if year % 100 == 0 then days == 28
            else days == if year % 4 == 0 then 29 else 28
  {
    assert (12 * year + month - 1) / 12 == year && (12 * year + month - 1) % 12 + 1 == month;
  }
}
