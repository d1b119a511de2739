/** Exactly what one scan makes of a row, of a record and of a holding, and what it counts. */
module EffectDiscovery {
  import opened EffectModel
  import opened Optional
  import opened Totals
  import opened EffectOperations
  import opened EffectScan
  import opened EffectScanLaws
  import opened EffectRescan
  import opened EffectAccountRescan
  import opened EffectConfirm
  import opened EffectInvariants
  import opened EffectRuns
  import opened EffectGate
  import opened EffectMoves

  // ---------- one row ----------

  /** Something the completed-facts contract asks for is missing. */
  predicate Incomplete(flow: FlowRecord) {
    || !flow.sound || flow.recordId == "" || flow.date.None? || flow.account == "" || flow.broker == ""
    || flow.currency.None? || flow.amount.None? || flow.amount == Some(0)
  }

  /** How a row is discovered: from the cutover on it is to be applied, once it is due behind a final NAV. */
  predicate DiscoveredAs(flow: FlowRecord, facts: Facts, state: State, mode: Mode) {
    if Incomplete(flow) then state == Blocked && mode == Apply
    else if flow.date.value < facts.cutover then
      mode == Keep && state == if flow.date.value > facts.today then Scheduled else Pending
    else
      mode == Apply && state == if flow.date.value > facts.today || (flow.account, flow.date.value) !in facts.navFinal
                                then Scheduled else Pending
  }

  lemma DesiredExactly(flow: FlowRecord, facts: Facts)
    ensures DiscoveredAs(flow, facts, Desired(Flow(flow), facts).0, Desired(Flow(flow), facts).1)
  {
  }

  /** A version just inserted: unresolved as said, with nothing recorded yet, its predecessor no longer unresolved. */
  ghost predicate Inserts(chain: Chain, next: Chain, source: Source, state: State, mode: Mode) {
    && |next| == |chain| + 1
    && next[|chain|].source == source && next[|chain|].state == state && next[|chain|].mode == mode
    && next[|chain|].targets == [] && next[|chain|].deferred == [] && next[|chain|].task == None
    && (forall i :: 0 <= i < |chain| - 1 ==> next[i] == chain[i])
    && (chain != [] ==>
          next[|chain| - 1] == if chain[|chain| - 1].state in {Applied, RecordOnly, Superseded} then chain[|chain| - 1]
                               else chain[|chain| - 1].(state := Superseded))
  }

  lemma AddVersionInserts(chain: Chain, source: Source, state: State, mode: Mode)
    requires chain == [] || chain[|chain| - 1].source != source
    ensures Inserts(chain, AddVersion(chain, source, state, mode), source, state, mode)
  {
  }

  /** The row is none of the scanned account: neither its raw text nor the newest version names it. */
  predicate NotSeen(chain: Chain, row: LedgerRow, scope: Option<string>) {
    scope.Some? && row.rawAccount != scope.value
    && (chain == [] || chain[|chain| - 1].source.Account() != scope.value)
  }

  /** The source of the row is remembered on the version in compensation, which is otherwise as it was. */
  predicate Remembers(chain: Chain, next: Chain, source: Source)
    requires chain != []
  {
    && OnlyDeferred(chain, next)
    && next[|next| - 1].deferred == chain[|chain| - 1].deferred
                                    + if source in chain[|chain| - 1].deferred then [] else [source]
  }

  /** Whatever the row and the record: what the ledger loop leaves of the record, and how it counts it. */
  lemma ScannedRowExactly(chain: Chain, row: LedgerRow, scope: Option<string>, facts: Facts, state: State, mode: Mode)
    requires DiscoveredAs(row.flow, facts, state, mode)
    ensures var (next, change) := ScanRow(chain, row, scope, facts);
            && (if NotSeen(chain, row, scope) then next == chain
                else if chain != [] && chain[|chain| - 1].source == Flow(row.flow) then
                  next == if chain[|chain| - 1].state == Scheduled && state == Pending
                          then SetLatest(chain, chain[|chain| - 1].(state := Pending)) else chain
                else if chain != [] && chain[|chain| - 1].state == CompensationPending then
                  Remembers(chain, next, Flow(row.flow))
                else Inserts(chain, next, Flow(row.flow), state, mode))
            && (change == Added <==> chain == [] && next != [])
            && (change == Changed <==> chain != [] && next != chain)
            && (change == Unchanged <==> next == chain)
  {
    hide LastApplied;
    DesiredExactly(row.flow, facts);
    if chain == [] || chain[|chain| - 1].source != Flow(row.flow) {
      AddVersionInserts(chain, Flow(row.flow), state, mode);
    }
  }

  // ---------- incomplete rows ----------

  /**
   A scan that sees an incomplete row of a new record, or of one whose newest version has other facts and is not in
   compensation, leaves its version blocked.
   */
  lemma IncompleteRowIsBlocked(w: World, scope: Option<string>, facts: Facts, n: nat)
    requires UniqueRows(w.ledger) && n < |w.ledger| && Incomplete(w.ledger[n].flow)
    requires var chain := ChainAt(w, RowKey(w.ledger[n]));
             && !NotSeen(chain, w.ledger[n], scope)
             && (chain != [] ==> chain[|chain| - 1].source != Flow(w.ledger[n].flow) && !InCompensation(chain))
    ensures var chain := ChainAt(w, RowKey(w.ledger[n]));
            var next := ChainAt(Scan(w, w.ledger, scope, facts), RowKey(w.ledger[n]));
            Inserts(chain, next, Flow(w.ledger[n].flow), Blocked, Apply)
  {
    hide CommitScan, UniqueRows, ScanRow;
    ScannedChain(w, w.ledger, scope, facts, n);
    ScannedRowExactly(ChainAt(w, RowKey(w.ledger[n])), w.ledger[n], scope, facts, Blocked, Apply);
  }

  /**
   An incomplete row closes the gate of its account for every NAV date, also for dates before its own, when the gate
   sees it for the first time and as long as its version is blocked.
   */
  lemma IncompleteRowBlocks(w: World, account: string, navDate: int, facts: Facts, n: nat)
    requires UniqueRows(w.ledger) && n < |w.ledger| && Incomplete(w.ledger[n].flow)
    requires account != "" && account == w.ledger[n].flow.account
    requires var chain := ChainAt(w, RowKey(w.ledger[n]));
             if chain != [] && chain[|chain| - 1].source == Flow(w.ledger[n].flow) then
               chain[|chain| - 1].state == Blocked
             else !NotSeen(chain, w.ledger[n], Some(account)) && !InCompensation(chain)
    ensures !GatePasses(w, account, navDate, facts)
  {
    hide CommitScan, UniqueRows, ScanRow, GatePasses, EffectAccounts;
    var row, key := w.ledger[n], RowKey(w.ledger[n]);
    ScannedChain(w, w.ledger, Some(account), facts, n);
    ScannedRowExactly(ChainAt(w, key), row, Some(account), facts, Blocked, Apply);
    var next := ChainAt(Scan(w, w.ledger, Some(account), facts), key);
    OwnAccount(key, next, w.ledger);
    TouchedCloses(w, account, navDate, facts, key);
  }

  // ---------- one record that is gone ----------

  /**
   What a scan makes of a record no row has: out of the scanned account or deleted already it stays; in compensation
   the deletion is remembered; else the deletion is its newest version, to be applied iff the event was.
   */
  lemma GoneRecordExactly(w: World, rows: seq<LedgerRow>, scope: Option<string>, facts: Facts, key: Key)
    requires key.FlowKey? && ChainAt(w, key) != [] && !Lists(rows, key)
    ensures var chain, next := ChainAt(w, key), ChainAt(Scan(w, rows, scope, facts), key);
            var e := chain[|chain| - 1];
            if !e.source.Flow? || (scope.Some? && e.source.Account() != scope.value) then next == chain
            else if e.state == CompensationPending then Remembers(chain, next, Deletion(e.source.flow))
            else Inserts(chain, next, Deletion(e.source.flow), Pending,
                         if e.state == Applied && e.mode == Apply then Apply else Keep)
  {
    hide CommitScan, ScanRows;
    var chain := ChainAt(w, key);
    var e := chain[|chain| - 1];
    ScanRowsElsewhere(w.store.chains, rows, scope, facts, key);
    UnlistedIsMissing(rows, key);
    ScannedRecord(w.store, rows, InScope(w.holdings, scope), scope, facts, key);
    if e.source.Flow? {
      AddVersionInserts(chain, Deletion(e.source.flow), Pending,
                        if e.state == Applied && e.mode == Apply then Apply else Keep);
    }
  }

  // ---------- the counters of the ledger and deletion loops ----------

  ghost predicate RowAdded(s: Store, t: Store, row: LedgerRow) {
    ChainOf(s.chains, RowKey(row)) == [] && ChainOf(t.chains, RowKey(row)) != []
  }

  ghost predicate RowChanged(s: Store, t: Store, row: LedgerRow) {
    ChainOf(s.chains, RowKey(row)) != [] && ChainOf(t.chains, RowKey(row)) != ChainOf(s.chains, RowKey(row))
  }

  ghost predicate RowBroken(s: Store, row: LedgerRow, scope: Option<string>) {
    !NotSeen(ChainOf(s.chains, RowKey(row)), row, scope) && Incomplete(row.flow)
  }

  /** The rows whose record the scan added, those whose record it changed, and the incomplete ones it saw. */
  ghost function AddedRows(s: Store, t: Store, rows: seq<LedgerRow>): set<nat> {
    set n: nat | n < |rows| && RowAdded(s, t, rows[n])
  }

  ghost function ChangedRows(s: Store, t: Store, rows: seq<LedgerRow>): set<nat> {
    set n: nat | n < |rows| && RowChanged(s, t, rows[n])
  }

  ghost function BrokenRows(s: Store, rows: seq<LedgerRow>, scope: Option<string>): set<nat> {
    set n: nat | n < |rows| && RowBroken(s, rows[n], scope)
  }

  ghost function GoneRecords(s: Store, t: Store, rows: seq<LedgerRow>): set<Key> {
    set k | k in s.chains && k.FlowKey? && !Lists(rows, k) && ChainOf(t.chains, k) != s.chains[k]
  }

  /** The last row of the ledger loop: it meets the record the scan began with, and the others keep theirs. */
  lemma LastRowStep(s: Store, rows: seq<LedgerRow>, scope: Option<string>, facts: Facts)
    requires UniqueRows(rows) && rows != []
    ensures var front, last := rows[..|rows| - 1], rows[|rows| - 1];
            var (c, before) := ScanRows(s.chains, front, scope, facts);
            var (listed, tally) := ScanRows(s.chains, rows, scope, facts);
            var chain := ChainOf(s.chains, RowKey(last));
            var (next, change) := ScanRow(chain, last, scope, facts);
            && UniqueRows(front) && (forall n :: 0 <= n < |front| ==> front[n] == rows[n])
            && (forall n :: 0 <= n < |front| ==> ChainOf(listed, RowKey(rows[n])) == ChainOf(c, RowKey(rows[n])))
            && ChainOf(listed, RowKey(last)) == next
            && tally == Count(before, change, !OutOfScope(chain, last, scope) && !Flow(last.flow).Completed())
  {
    hide ScanRow;
    var front, last := rows[..|rows| - 1], rows[|rows| - 1];
    var c := ScanRows(s.chains, front, scope, facts).0;
    assert forall i :: 0 <= i < |front| ==> RowKey(front[i]) != RowKey(last);
    ScanRowsElsewhere(s.chains, front, scope, facts, RowKey(last));
    ScanRowKeepsRows(ChainOf(c, RowKey(last)), last, scope, facts);
  }

  /** The rows before the last one find the same records. */
  ghost predicate SameBefore(t0: Store, t: Store, rows: seq<LedgerRow>)
    requires rows != []
  {
    forall n :: 0 <= n < |rows| - 1 ==> ChainOf(t.chains, RowKey(rows[n])) == ChainOf(t0.chains, RowKey(rows[n]))
  }

  lemma CountLast(a: set<nat>, b: set<nat>, m: nat, counts: bool)
    requires m !in b && forall n :: n in a <==> n in b || (n == m && counts)
    ensures |a| == |b| + if counts then 1 else 0
  {
    assert a == b + if counts then {m} else {};
  }

  lemma LastRowAdds(s: Store, t0: Store, t: Store, rows: seq<LedgerRow>)
    requires rows != [] && SameBefore(t0, t, rows)
    ensures var m := |rows| - 1;
            |AddedRows(s, t, rows)| == |AddedRows(s, t0, rows[..m])| + if RowAdded(s, t, rows[m]) then 1 else 0
  {
    hide ChainOf, Incomplete, NotSeen;
    var front, m := rows[..|rows| - 1], |rows| - 1;
    forall n: nat
      ensures n in AddedRows(s, t, rows) <==>
                (n in AddedRows(s, t0, front) || (n == m && RowAdded(s, t, rows[m])))
    {
      if n < m { assert front[n] == rows[n]; }
    }
    CountLast(AddedRows(s, t, rows), AddedRows(s, t0, front), m, RowAdded(s, t, rows[m]));
  }

  lemma LastRowChanges(s: Store, t0: Store, t: Store, rows: seq<LedgerRow>)
    requires rows != [] && SameBefore(t0, t, rows)
    ensures var m := |rows| - 1;
            |ChangedRows(s, t, rows)| == |ChangedRows(s, t0, rows[..m])| + if RowChanged(s, t, rows[m]) then 1 else 0
  {
    hide ChainOf, Incomplete, NotSeen;
    var front, m := rows[..|rows| - 1], |rows| - 1;
    forall n: nat
      ensures n in ChangedRows(s, t, rows) <==>
                (n in ChangedRows(s, t0, front) || (n == m && RowChanged(s, t, rows[m])))
    {
      if n < m { assert front[n] == rows[n]; }
    }
    CountLast(ChangedRows(s, t, rows), ChangedRows(s, t0, front), m, RowChanged(s, t, rows[m]));
  }

  lemma LastRowBreaks(s: Store, rows: seq<LedgerRow>, scope: Option<string>)
    requires rows != []
    ensures var m := |rows| - 1;
            |BrokenRows(s, rows, scope)| == |BrokenRows(s, rows[..m], scope)|
                + if RowBroken(s, rows[m], scope) then 1 else 0
  {
    hide ChainOf, Incomplete, NotSeen;
    var front, m := rows[..|rows| - 1], |rows| - 1;
    forall n: nat
      ensures n in BrokenRows(s, rows, scope) <==>
                (n in BrokenRows(s, front, scope) || (n == m && RowBroken(s, rows[m], scope)))
    {
      if n < m { assert front[n] == rows[n]; }
    }
    CountLast(BrokenRows(s, rows, scope), BrokenRows(s, front, scope), m, RowBroken(s, rows[m], scope));
  }

  lemma {:induction false} LedgerCounts(s: Store, rows: seq<LedgerRow>, scope: Option<string>, facts: Facts)
    requires UniqueRows(rows)
    ensures var (listed, tally) := ScanRows(s.chains, rows, scope, facts);
            var t := Store(listed, s.prints);
            && tally.added == |AddedRows(s, t, rows)| && tally.changed == |ChangedRows(s, t, rows)|
            && tally.blocked == |BrokenRows(s, rows, scope)|
  {
    if rows == [] {
      NothingCounted(s, scope, facts);
    } else {
      hide ScanRow, ScanRows, Incomplete, UniqueRows;
      var front, last := rows[..|rows| - 1], rows[|rows| - 1];
      LastRowStep(s, rows, scope, facts);
      LedgerCounts(s, front, scope, facts);
      var t0 := Store(ScanRows(s.chains, front, scope, facts).0, s.prints);
      var t := Store(ScanRows(s.chains, rows, scope, facts).0, s.prints);
      var chain := ChainOf(s.chains, RowKey(last));
      DesiredExactly(last.flow, facts);
      ScannedRowExactly(chain, last, scope, facts, Desired(Flow(last.flow), facts).0,
                        Desired(Flow(last.flow), facts).1);
      var change := ScanRow(chain, last, scope, facts).1;
      IncompleteIs(last.flow);
      LastRowAdds(s, t0, t, rows);
      LastRowChanges(s, t0, t, rows);
      LastRowBreaks(s, rows, scope);
      hide AddedRows, ChangedRows, BrokenRows, NotSeen, DiscoveredAs, Inserts, Remembers;
    }
  }

  lemma NothingCounted(s: Store, scope: Option<string>, facts: Facts)
    ensures ScanRows(s.chains, [], scope, facts).1 == Tally(0, 0, 0)
    ensures forall t :: AddedRows(s, t, []) == {} && ChangedRows(s, t, []) == {}
    ensures BrokenRows(s, [], scope) == {}
  {
  }

  lemma IncompleteIs(flow: FlowRecord)
    ensures Incomplete(flow) <==> !Flow(flow).Completed()
  {
  }

  /** A reconciliation counts a holding exactly when it changed its chain or its baseline. */
  lemma ReconcileCounts(id: Identity, confirmed: Option<Observation>, chain: Chain, obs: Observation, owned: bool,
                        net: Option<int>, today: int)
    ensures var r := Reconcile(id, confirmed, chain, obs, owned, net, today);
            r.changed <==> r.chain != chain || r.mark.confirmed != confirmed
  {
    hide LastApplied;
    var source := DriftSource(id, chain, obs, confirmed, today);
    if chain == [] || chain[|chain| - 1].source != source {
      AddVersionShape(chain, source, RecordOnly, Keep);
      AddVersionShape(chain, source, Pending, Apply);
    }
  }

  ghost function ChangedHoldings(s: Store, t: Store, ids: set<Identity>): set<Identity> {
    set id | id in ids && (ChainOf(t.chains, DriftKey(id)) != ChainOf(s.chains, DriftKey(id))
                           || ConfirmedOf(t.prints, id) != ConfirmedOf(s.prints, id))
  }

  /**
   What a scan of a ledger with unique record ids counts: the rows whose record it added, the rows and the holdings
   whose record or baseline it changed, the records it found gone, and the rows it saw to be incomplete.
   */
  lemma ScanCounts(s: Store, rows: seq<LedgerRow>, cash: Holdings, scope: Option<string>, facts: Facts)
    requires UniqueRows(rows) && forall k :: k in s.chains ==> s.chains[k] != []
    ensures var scan := CommitScan(s, rows, cash, scope, facts);
            var t := scan.store;
            && scan.added == |AddedRows(s, t, rows)| && scan.blocked == |BrokenRows(s, rows, scope)|
            && scan.changed == |ChangedRows(s, t, rows)|
                               + |ChangedHoldings(s, t, ScannedIdentities(s.prints, cash, scope))|
            && scan.deleted == |GoneRecords(s, t, rows)|
  {
    hide ScanRow, ScanRows, ScanMissing, Reconcile, NetAt, OwnedIdentities;
    var scan := CommitScan(s, rows, cash, scope, facts);
    var listed := ScanRows(s.chains, rows, scope, facts).0;
    var swept, ids := AfterLedger(s, rows, scope, facts), ScannedIdentities(s.prints, cash, scope);
    LedgerCounts(s, rows, scope, facts);
    ReconcileAllKeepsFlows(swept, ids, cash, facts.today);
    forall n | 0 <= n < |rows|
      ensures ChainOf(scan.store.chains, RowKey(rows[n])) == ChainOf(listed, RowKey(rows[n]))
    {
      RowIsSeen(rows, n);
    }
    assert AddedRows(s, scan.store, rows) == AddedRows(s, Store(listed, s.prints), rows);
    assert ChangedRows(s, scan.store, rows) == ChangedRows(s, Store(listed, s.prints), rows);
    ScanDeletes(s, rows, cash, scope, facts);
    ScanMoves(s, rows, cash, scope, facts);
  }

  lemma ScanDeletes(s: Store, rows: seq<LedgerRow>, cash: Holdings, scope: Option<string>, facts: Facts)
    requires UniqueRows(rows) && forall k :: k in s.chains ==> s.chains[k] != []
    ensures Vanished(ScanRows(s.chains, rows, scope, facts).0, SeenRecords(rows), scope)
            == GoneRecords(s, CommitScan(s, rows, cash, scope, facts).store, rows)
  {
    hide ScanRow, ScanRows, ScanMissing, ReconcileAll, CommitScan;
    var listed, t := ScanRows(s.chains, rows, scope, facts).0, CommitScan(s, rows, cash, scope, facts).store;
    forall k ensures k in Vanished(listed, SeenRecords(rows), scope) <==> k in GoneRecords(s, t, rows) {
      if k.FlowKey? {
        ScannedRecord(s, rows, cash, scope, facts, k);
        if Lists(rows, k) {
          var i :| 0 <= i < |rows| && RowKey(rows[i]) == k;
          RowIsSeen(rows, i);
        } else {
          UnlistedIsMissing(rows, k);
          ScanRowsElsewhere(s.chains, rows, scope, facts, k);
        }
      }
    }
  }

  lemma ScanMoves(s: Store, rows: seq<LedgerRow>, cash: Holdings, scope: Option<string>, facts: Facts)
    ensures var ids := ScannedIdentities(s.prints, cash, scope);
            Moved(AfterLedger(s, rows, scope, facts), ids, cash, facts.today)
            == ChangedHoldings(s, CommitScan(s, rows, cash, scope, facts).store, ids)
  {
    hide ScanRow, ScanMissing, Reconcile, NetAt, OwnedIdentities, AfterLedger;
    var swept, ids := AfterLedger(s, rows, scope, facts), ScannedIdentities(s.prints, cash, scope);
    var t := ReconcileAll(swept, ids, cash, facts.today);
    forall id | id in ids
      ensures ReconcileAt(swept, cash, facts.today, id).changed <==>
              ChainOf(t.chains, DriftKey(id)) != ChainOf(s.chains, DriftKey(id))
              || ConfirmedOf(t.prints, id) != ConfirmedOf(s.prints, id)
    {
      SweptDrift(s, rows, scope, facts, id);
      ReconcileAllChain(swept, ids, cash, facts.today, DriftKey(id));
      ReconcileCounts(id, ConfirmedOf(swept.prints, id), ChainOf(swept.chains, DriftKey(id)), Obs(cash, id),
                      id in OwnedIdentities(swept.chains), NetAt(swept.chains, id), facts.today);
    }
  }

  /** The ledger and deletion passes leave baselines and external changes alone. */
  lemma SweptDrift(s: Store, rows: seq<LedgerRow>, scope: Option<string>, facts: Facts, id: Identity)
    ensures var swept := AfterLedger(s, rows, scope, facts);
            swept.prints == s.prints && ChainOf(swept.chains, DriftKey(id)) == ChainOf(s.chains, DriftKey(id))
  {
    ScanRowsElsewhere(s.chains, rows, scope, facts, DriftKey(id));
  }

  // ---------- what ledger effects explain ----------

  /** The newest version of a ledger record still waits to be applied, recorded or compensated at `id`. */
  predicate Waits(key: Key, chain: Chain, id: Identity) {
    && key.FlowKey? && chain != [] && chain[|chain| - 1].source.At() == Some(id)
    && chain[|chain| - 1].state in {Scheduled, Pending, Blocked, Previewed, Stale, Applying, CompensationPending}
  }

  /** Its amount less the amount applied before; nothing while one of them cannot be read. */
  function AmountChange(chain: Chain): int
    requires chain != []
  {
    var now, before := chain[|chain| - 1].source.Signed(), PreviousApplied(chain);
    if now.None? || (before.Some? && before.value.Signed().None?) then 0
    else now.value - if before.Some? then before.value.Signed().value else 0
  }

  lemma ChangeIsTheDeltas(chain: Chain)
    requires chain != []
    ensures ActiveDelta(chain) == AmountChange(chain)
  {
    hide LastApplied;
    var ops := Operations(PreviousApplied(chain), chain[|chain| - 1].source);
    if ops.Some? && ops.value != [] {
      var rest := ops.value[1..];
      assert DeltaSum(ops.value) == ops.value[0].delta + DeltaSum(rest);
      if rest != [] {
        assert rest == [ops.value[1]] && rest[1..] == [];
        assert DeltaSum(rest) == rest[0].delta;
      }
    }
  }

  /** What the ledger effects of a holding explain: the change of all that wait there, if any does. */
  lemma ExplainedExactly(chains: Chains, id: Identity)
    ensures NetAt(chains, id).Some? <==> exists k :: k in chains && Waits(k, chains[k], id)
    ensures NetAt(chains, id).Some? ==>
              NetAt(chains, id).value
              == Total(map k | k in chains && Waits(k, chains[k], id) :: AmountChange(chains[k]))
  {
    hide ActiveDelta, AmountChange;
    forall k | k in chains ensures Waits(k, chains[k], id) <==> ActiveAt(k, chains[k]) == Some(id) {}
    forall k | k in chains && Waits(k, chains[k], id) ensures ActiveDelta(chains[k]) == AmountChange(chains[k]) {
      ChangeIsTheDeltas(chains[k]);
    }
    assert ActiveDeltas(chains, id) == map k | k in chains && Waits(k, chains[k], id) :: AmountChange(chains[k]);
  }

  // ---------- one holding ----------

  /** The day of an external change: that of the newest one while it shows the same, else today. */
  function DriftDay(chain: Chain, obs: Observation, today: int): int {
    if chain != [] && chain[|chain| - 1].source.Drift? && chain[|chain| - 1].source.observed == obs
    then chain[|chain| - 1].source.day else today
  }

  /**
   What the reconciliation of one holding does to its external changes. An owned or explained one is left alone. Back
   at its baseline, an open change is settled. Else it has drifted: outside Futu the drift is accepted at once, in Futu
   it waits for the operator, and in compensation it is remembered; a drift that was the newest already is not
   recorded again.
   */
  lemma ReconciledExactly(id: Identity, confirmed: Option<Observation>, chain: Chain, obs: Observation, owned: bool,
                          net: Option<int>, today: int)
    requires Good(DriftKey(id), chain)
    ensures var next := Reconcile(id, confirmed, chain, obs, owned, net, today).chain;
            var drift := Drift(id, obs, DriftDay(chain, obs, today),
                               if confirmed.Some? then Some(Amount(confirmed.value)) else None);
            var explained := net.Some? && confirmed.Some? && Amount(obs) == Amount(confirmed.value) + net.value;
            if owned || explained then next == chain
            else if confirmed == Some(obs) then
              var waits := chain != []
                           && chain[|chain| - 1].state in {Scheduled, Pending, Blocked, Previewed, Stale, Applying};
              next == if waits then SetLatest(chain, chain[|chain| - 1].(state := Applied)) else chain
            else if chain != [] && chain[|chain| - 1].source == drift then
              if id.broker == FUTU_BROKER then next == chain
              else next == SetLatest(chain, chain[|chain| - 1].(state := RecordOnly, targets := [], task := None))
            else if InCompensation(chain) then Remembers(chain, next, drift)
            else if id.broker == FUTU_BROKER then Inserts(chain, next, drift, Pending, Apply)
            else Inserts(chain, next, drift, RecordOnly, Keep)
  {
    hide LastApplied, TaskBooked;
    var drift := DriftSource(id, chain, obs, confirmed, today);
    if chain != [] { assert RowOk(DriftKey(id), chain[|chain| - 1]); }
    if chain == [] || chain[|chain| - 1].source != drift {
      AddVersionInserts(chain, drift, Pending, Apply);
      AddVersionInserts(chain, drift, RecordOnly, Keep);
    }
  }

  // ---------- what an account scan does not look at ----------

  /** A scan of one account leaves the baselines and external changes of all other accounts alone. */
  lemma AccountScanLeavesHoldings(w: World, rows: seq<LedgerRow>, account: string, facts: Facts, id: Identity)
    requires id.account != account
    ensures var t := Scan(w, rows, Some(account), facts);
            && (id in t.store.prints <==> id in w.store.prints)
            && (id in w.store.prints ==> t.store.prints[id] == w.store.prints[id])
            && ChainAt(t, DriftKey(id)) == ChainAt(w, DriftKey(id))
  {
    hide AfterLedger, Reconcile, NetAt, OwnedIdentities;
    var cash := InScope(w.holdings, Some(account));
    var swept := AfterLedger(w.store, rows, Some(account), facts);
    var ids := ScannedIdentities(w.store.prints, cash, Some(account));
    SweptDrift(w.store, rows, Some(account), facts, id);
    assert id !in ids;
    ReconcileAllChain(swept, ids, cash, facts.today, DriftKey(id));
  }

  /** And every record that neither is in the account nor has a row whose raw text is. */
  lemma AccountScanLeavesRecords(w: World, rows: seq<LedgerRow>, account: string, facts: Facts, key: Key)
    requires key.FlowKey? && !SitsAt(ChainAt(w, key), account) && !Named(rows, key, account)
    ensures ChainAt(Scan(w, rows, Some(account), facts), key) == ChainAt(w, key)
  {
    hide CommitScan, ScanRows, ScanMissing;
    OutOfSight(w.store.chains, rows, account, facts, key);
    ScannedRecord(w.store, rows, InScope(w.holdings, Some(account)), Some(account), facts, key);
    if ChainAt(w, key) != [] { NotSwept(ChainAt(w, key), account); }
  }

  lemma ReconcileObserves(id: Identity, confirmed: Option<Observation>, chain: Chain, obs: Observation, owned: bool,
                          net: Option<int>, today: int)
    ensures Reconcile(id, confirmed, chain, obs, owned, net, today).mark.observed == obs
  {
  }

  /** A scan observes every holding it reads, and every known one of its scope that is gone. */
  lemma ScanObserves(w: World, rows: seq<LedgerRow>, scope: Option<string>, facts: Facts, id: Identity)
    requires (scope.Some? ==> id.account == scope.value) && (id in w.holdings || id in w.store.prints)
    ensures var t := Scan(w, rows, scope, facts);
            id in t.store.prints && t.store.prints[id].observed == Obs(w.holdings, id)
  {
    hide AfterLedger, NetAt, OwnedIdentities, Reconcile;
    var cash := InScope(w.holdings, scope);
    var swept := AfterLedger(w.store, rows, scope, facts);
    assert id in ScannedIdentities(w.store.prints, cash, scope) && Obs(cash, id) == Obs(w.holdings, id);
    ReconcileObserves(id, ConfirmedOf(swept.prints, id), ChainOf(swept.chains, DriftKey(id)), Obs(cash, id),
                      id in OwnedIdentities(swept.chains), NetAt(swept.chains, id), facts.today);
    var t := ReconcileAll(swept, ScannedIdentities(w.store.prints, cash, scope), cash, facts.today);
    assert t.prints[id] == ReconcileAt(swept, cash, facts.today, id).mark;
  }
}
