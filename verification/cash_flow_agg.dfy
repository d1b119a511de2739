/** The cash-flow aggregates of local_cache.py and of its in-memory twin in feishu_storage.py, in integer cents. */
module CashFlowAgg {
  import opened Optional
  import opened Totals

  datatype Month = Month(year: int, month: int)
  datatype Day = Day(of: Month, day: int)

  /** One append; a missing amount counts as zero. */
  datatype Flow = Flow(date: Day, amount: Option<int>, recordId: Option<string>, updatedAt: Option<string>)
  {
    function Cents(): int { if amount.Some? then amount.value else 0 }
  }

  datatype Payload = Payload(daily: map<Day, int>, monthly: map<Month, int>, yearly: map<int, int>,
                             cumulative: int, count: nat, last: Option<Flow>)

  const NOTHING := Payload(map[], map[], map[], 0, 0, None)

  function At<K>(m: map<K, int>, k: K): int { if k in m then m[k] else 0 }

  function Appended(p: Payload, f: Flow): Payload {
    var month, year := f.date.of, f.date.of.year;
    Payload(p.daily[f.date := At(p.daily, f.date) + f.Cents()], p.monthly[month := At(p.monthly, month) + f.Cents()],
            p.yearly[year := At(p.yearly, year) + f.Cents()], p.cumulative + f.Cents(), p.count + 1, Some(f))
  }

  class LocalCashFlowAggCache {
    var accounts: map<string, Payload>

    constructor ()
      ensures accounts == map[]
    {
      accounts := map[];
    }

    function Account(account: string): Payload
      reads this
    {
      if account in accounts then accounts[account] else NOTHING
    }

    method AppendFlow(account: string, f: Flow)
      modifies this
      ensures accounts == old(accounts)[account := Appended(old(Account(account)), f)]
    {
      var base := Account(account);
      var daily, monthly, yearly := base.daily, base.monthly, base.yearly;
      var month, year := f.date.of, f.date.of.year;
      daily := daily[f.date := At(daily, f.date) + f.Cents()];
      monthly := monthly[month := At(monthly, month) + f.Cents()];
      yearly := yearly[year := At(yearly, year) + f.Cents()];
      base := base.(daily := daily, monthly := monthly, yearly := yearly);
      base := base.(cumulative := base.cumulative + f.Cents());
      base := base.(count := base.count + 1);
      base := base.(last := Some(f));
      accounts := accounts[account := base];
    }
  }

  /** The in-memory twin. */
  class MemoryAccountCache {
    var accounts: map<string, Payload>

    constructor ()
      ensures accounts == map[]
    {
      accounts := map[];
    }

    method AppendFlow(account: string, f: Flow)
      modifies this
      ensures accounts == old(accounts)[account := Appended(if account in old(accounts) then old(accounts)[account]
                                                            else NOTHING, f)]
    {
      var base := if account in accounts then accounts[account] else NOTHING;
      var month, year := f.date.of, f.date.of.year;
      var daily := base.daily[f.date := At(base.daily, f.date) + f.Cents()];
      var monthly := base.monthly[month := At(base.monthly, month) + f.Cents()];
      var yearly := base.yearly[year := At(base.yearly, year) + f.Cents()];
      accounts := accounts[account := Payload(daily, monthly, yearly, base.cumulative + f.Cents(), base.count + 1,
                                              Some(f))];
    }
  }

  /** One append of a run over several accounts. */
  datatype Append = Append(account: string, flow: Flow)

  /** The flows of one account. */
  function FlowsOf(appends: seq<Append>, account: string): seq<Flow> {
    if appends == [] then []
    else
      var last := appends[|appends| - 1];
      FlowsOf(appends[..|appends| - 1], account) + if last.account == account then [last.flow] else []
  }

  /** Both implementations, driven by the same appends, hold equal payloads: for every account those of its own run. */
  method DriveTwins(appends: seq<Append>) returns (file: LocalCashFlowAggCache, memory: MemoryAccountCache)
    ensures file.accounts == memory.accounts
    ensures forall account :: file.Account(account) == Run(FlowsOf(appends, account))
  {
    hide Appended, Run, FlowsOf;
    file := new LocalCashFlowAggCache();
    memory := new MemoryAccountCache();
    RunsStart(appends);
    for i := 0 to |appends|
      invariant fresh(file) && fresh(memory)
      invariant file.accounts == memory.accounts
      invariant forall account :: file.Account(account) == Run(FlowsOf(appends[..i], account))
    {
      label before:
      file.AppendFlow(appends[i].account, appends[i].flow);
      memory.AppendFlow(appends[i].account, appends[i].flow);
      forall account ensures file.Account(account) == Run(FlowsOf(appends[..i + 1], account)) {
        AppendGrows(appends, i, account);
        assert old@before(file.Account(account)) == Run(FlowsOf(appends[..i], account));
      }
    }
    assert appends[..|appends|] == appends;
  }

  lemma RunsStart(appends: seq<Append>)
    ensures forall account :: Run(FlowsOf(appends[..0], account)) == NOTHING
  {
  }

  /** What one more append does to the run of an account. */
  predicate RunGrows(appends: seq<Append>, i: nat, account: string)
    requires i < |appends|
  {
    Run(FlowsOf(appends[..i + 1], account))
    == if appends[i].account == account then Appended(Run(FlowsOf(appends[..i], account)), appends[i].flow)
       else Run(FlowsOf(appends[..i], account))
  }

  lemma AppendGrows(appends: seq<Append>, i: nat, account: string)
    requires i < |appends|
    ensures RunGrows(appends, i, account)
  {
    hide Appended;
    assert appends[..i + 1][..i] == appends[..i];
    var before := FlowsOf(appends[..i], account);
    var after := before + [appends[i].flow];
    assert after[..|after| - 1] == before && before + [] == before;
    assert Run(after) == Appended(Run(before), after[|after| - 1]);
  }

  /** The payload after any sequence of appends from nothing. */
  function Run(flows: seq<Flow>): Payload {
    if flows == [] then NOTHING else Appended(Run(flows[..|flows| - 1]), flows[|flows| - 1])
  }

  // ---------- the fold over the raw records ----------

  function SumOn(flows: seq<Flow>, d: Day): int {
    if flows == [] then 0
    else SumOn(flows[..|flows| - 1], d) + if flows[|flows| - 1].date == d then Worth(flows[|flows| - 1]) else 0
  }

  function SumAll(flows: seq<Flow>): int {
    if flows == [] then 0 else SumAll(flows[..|flows| - 1]) + Worth(flows[|flows| - 1])
  }

  /** What a raw flow counts for: its amount, nothing when that is missing. */
  function Worth(f: Flow): int {
    match f.amount
    case None => 0
    case Some(cents) => cents
  }

  ghost function DaysOf(daily: map<Day, int>, m: Month): map<Day, int> {
    map d | d in daily && d.of == m :: daily[d]
  }

  ghost function MonthsOf(monthly: map<Month, int>, year: int): map<Month, int> {
    map m | m in monthly && m.year == year :: monthly[m]
  }

  /** Each level is the sum of the one below, and has an entry exactly where that one has. */
  ghost predicate Adds(p: Payload) {
    && (forall m :: At(p.monthly, m) == Total(DaysOf(p.daily, m)))
    && (forall y :: At(p.yearly, y) == Total(MonthsOf(p.monthly, y)))
    && p.cumulative == Total(p.yearly)
    && (forall m :: m in p.monthly <==> DaysOf(p.daily, m) != map[])
    && (forall y :: y in p.yearly <==> MonthsOf(p.monthly, y) != map[])
  }

  lemma DaysUpdate(daily: map<Day, int>, d: Day, v: int, m: Month)
    ensures DaysOf(daily[d := v], m) == if d.of == m then DaysOf(daily, m)[d := v] else DaysOf(daily, m)
    ensures Total(DaysOf(daily[d := v], m)) == Total(DaysOf(daily, m)) + if d.of == m then v - At(daily, d) else 0
  {
    TotalUpdate(DaysOf(daily, m), d, v);
  }

  lemma MonthsUpdate(monthly: map<Month, int>, m: Month, v: int, year: int)
    ensures MonthsOf(monthly[m := v], year) == if m.year == year then MonthsOf(monthly, year)[m := v]
            else MonthsOf(monthly, year)
    ensures Total(MonthsOf(monthly[m := v], year)) == Total(MonthsOf(monthly, year))
            + if m.year == year then v - At(monthly, m) else 0
  {
    TotalUpdate(MonthsOf(monthly, year), m, v);
  }

  lemma AppendAdds(p: Payload, f: Flow)
    requires Adds(p)
    ensures Adds(Appended(p, f))
  {
    hide Total, DaysOf, MonthsOf;
    var q := Appended(p, f);
    forall m
      ensures At(q.monthly, m) == Total(DaysOf(q.daily, m)) && (m in q.monthly <==> DaysOf(q.daily, m) != map[])
    {
      DaysUpdate(p.daily, f.date, q.daily[f.date], m);
      if f.date.of == m { assert f.date in DaysOf(p.daily, m)[f.date := q.daily[f.date]]; }
    }
    forall y
      ensures At(q.yearly, y) == Total(MonthsOf(q.monthly, y)) && (y in q.yearly <==> MonthsOf(q.monthly, y) != map[])
    {
      MonthsUpdate(p.monthly, f.date.of, q.monthly[f.date.of], y);
      if f.date.of.year == y { assert f.date.of in MonthsOf(p.monthly, y)[f.date.of := q.monthly[f.date.of]]; }
    }
    TotalUpdate(p.yearly, f.date.of.year, q.yearly[f.date.of.year]);
  }

  /**
   After any sequence of appends: a day is the sum of its flows, a month the sum of its days, a year
   the sum of its months, and the cumulative amount the sum of the years and of all flows.
   */
  lemma {:induction false} AggregatesEqualTheFold(flows: seq<Flow>)
    ensures Adds(Run(flows))
    ensures forall d :: At(Run(flows).daily, d) == SumOn(flows, d)
    ensures forall d :: d in Run(flows).daily <==> exists f :: f in flows && f.date == d
    ensures Run(flows).cumulative == SumAll(flows) && Run(flows).count == |flows|
    ensures Run(flows).last == if flows == [] then None else Some(flows[|flows| - 1])
  {
    if flows == [] {
      EmptyAdds();
    } else {
      var front, f := flows[..|flows| - 1], flows[|flows| - 1];
      AggregatesEqualTheFold(front);
      AppendAdds(Run(front), f);
      hide Adds;
      assert forall g :: g in flows <==> g in front || g == f;
    }
  }

  lemma EmptyAdds()
    ensures Adds(NOTHING)
  {
    forall m: Month ensures DaysOf(NOTHING.daily, m) == map[] {}
    forall y: int ensures MonthsOf(NOTHING.monthly, y) == map[] {}
  }
}
