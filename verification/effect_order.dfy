/** A manual deposit or withdrawal ends the same way in whichever order people log, edit, scan and confirm. */
module EffectOrder {
  import opened EffectModel
  import opened Optional
  import opened EffectOperations
  import opened EffectScan
  import opened EffectScanLaws
  import opened EffectPreview
  import opened EffectConfirm
  import opened EffectInvariants
  import opened EffectRuns
  import opened Totals

  /** A complete ledger row outside Futu. */
  predicate Manual(row: LedgerRow) { Flow(row.flow).Completed() && Flow(row.flow).Broker() != FUTU_BROKER }

  predicate NavIsFinal(row: LedgerRow, facts: Facts) { PrecedingNavFinal(Flow(row.flow), facts) }

  /** Such a row that is due: after the cutover, not in the future, and behind a final NAV. */
  ghost predicate DueRow(row: LedgerRow, facts: Facts) {
    Manual(row) && facts.cutover <= row.flow.date.value <= facts.today && NavIsFinal(row, facts)
  }

  function Place(row: LedgerRow): Identity
    requires Flow(row.flow).Completed()
  {
    Flow(row.flow).At().value
  }

  function Event(row: LedgerRow): int
    requires Flow(row.flow).Completed()
  {
    row.flow.amount.value
  }

  function FirstId(row: LedgerRow): EffectId { EffectId(RowKey(row), 1) }

  function FirstVersion(row: LedgerRow): Effect {
    Effect(1, Flow(row.flow), Pending, Apply, [], [], None)
  }

  function PreviewedVersion(row: LedgerRow, p: Payload): Effect {
    FirstVersion(row).(state := Previewed, targets := p.targets)
  }

  /** Preview without a declared action, then confirm, perhaps another day, the hash it gave. */
  function PreviewThenConfirm(w: World, id: EffectId, facts: Facts, later: Facts,
                              newRecordId: string): (World, Verdict) {
    var (w1, p) := Preview(w, id, None, false, facts);
    if p.None? then (w1, Refused)
    else Confirm(w1, id, p.value, None, false, later, Ambient(w1.holdings, [Done(newRecordId)], w1.ledger))
  }

  /** The event has been discovered, and the operator has or has not put it into the holding yet. */
  ghost predicate Discovered(w: World, row: LedgerRow, b: int) {
    && Flow(row.flow).Completed()
    && ChainAt(w, RowKey(row)) == [FirstVersion(row)]
    && FindRow(w.ledger, row.flow.recordId) == Some(row)
    && Baseline(w.store, Place(row)) == Some(b)
    && (Amount(Obs(w.holdings, Place(row))) == b || Amount(Obs(w.holdings, Place(row))) == b + Event(row))
  }

  /** The holding and its confirmed baseline are `amount`, and the version is applied. */
  ghost predicate EndsAt(w: World, row: LedgerRow, amount: int)
    requires Flow(row.flow).Completed()
  {
    && Place(row) in w.holdings && Amount(Obs(w.holdings, Place(row))) == amount
    && Place(row) in w.store.prints && ConfirmedOf(w.store.prints, Place(row)) == Some(Obs(w.holdings, Place(row)))
    && ChainAt(w, RowKey(row)) != [] && ChainAt(w, RowKey(row))[0].state == Applied
  }

  /** What a ledger preview is computed from. */
  lemma SamePreview(s: Store, s': Store, id: EffectId, e: Effect, e': Effect, previous: Option<Source>,
                    given: Option<Action>,
                    historical: bool, h: Holdings, quotes: map<Identity, Quote>)
    requires forall at :: Baseline(s', at) == Baseline(s, at)
    requires e'.source == e.source && !e.source.Drift?
    ensures FlowPreview(s', id, e', previous, given, historical, h, quotes)
            == FlowPreview(s, id, e, previous, given, historical, h, quotes)
  {
    hide Baseline, FlowTargets, DeltaAt, InOrder, Operations, Befores;
    var ops := Operations(previous, e.source);
    if ops.Some? {
      forall at ensures DecideAt(s', ops.value, h, at) == DecideAt(s, ops.value, h, at) {
      }
      assert Detect(s', ops.value, h) == Detect(s, ops.value, h);
    }
  }

  /** The preview of a discovered event succeeds with the one target baseline plus event. */
  lemma DiscoveredPreview(w: World, row: LedgerRow, b: int, e: Effect, facts: Facts)
    requires Discovered(w, row, b) && Manual(row) && b + Event(row) >= 0
    requires e.source == Flow(row.flow)
    ensures var p := FlowPreview(w.store, FirstId(row), e, None, None, false, w.holdings, facts.quotes);
            && p.Some? && p.value.mode == Apply && |p.value.targets| == 1
            && p.value.targets[0].identity == Place(row) && p.value.targets[0].amount == b + Event(row)
            && p.value.targets[0].before == Obs(w.holdings, Place(row))
  {
    var op := Operation(e.source, Event(row));
    var at := Place(row);
    assert Operations(None, e.source) == Some([op]);
    assert HasNonFutu([op]) by { assert [op][0].source.Broker() != FUTU_BROKER; }
    DetectionIsExact(w.store, w.holdings, op);
    var action := Detect(w.store, [op], w.holdings);
    var t := FlowTarget(op, action, w.holdings, facts.quotes);
    assert t.Some? && t.value.amount == b + Event(row);
    assert [op][1..] == [];
    assert FlowTargets([op], action, w.holdings, facts.quotes) == Some([t.value] + []);
  }

  /** Outside Futu a preview does not look at the quotes. */
  lemma QuotesUnused(s: Store, id: EffectId, row: LedgerRow, e: Effect, h: Holdings, a: map<Identity, Quote>,
                     b: map<Identity, Quote>)
    requires Manual(row) && e.source == Flow(row.flow)
    ensures FlowPreview(s, id, e, None, None, false, h, a) == FlowPreview(s, id, e, None, None, false, h, b)
  {
    hide Detect;
    var op := Operation(e.source, Event(row));
    assert Operations(None, e.source) == Some([op]);
    assert [op][1..] == [];
    var action := ChosenAction(s, [op], None, h);
    assert FlowTarget(op, action, h, a) == FlowTarget(op, action, h, b);
    assert FlowTargets([], action, h, a) == FlowTargets([], action, h, b) == Some([]);
  }

  lemma StillCurrent(row: LedgerRow, e: Effect, ledger: seq<LedgerRow>, facts: Facts)
    requires e.source == Flow(row.flow) && FindRow(ledger, row.flow.recordId) == Some(row)
    ensures Refresh(RowKey(row), [e], ledger, facts) == ([e], false)
  {
  }

  /** The world after the preview, and the payload it returned. */
  lemma DiscoveredPreviewed(w: World, row: LedgerRow, b: int, facts: Facts, p: Payload)
    requires Discovered(w, row, b) && Manual(row) && b + Event(row) >= 0
    requires FlowPreview(w.store, FirstId(row), FirstVersion(row), None, None, false, w.holdings, facts.quotes)
             == Some(p)
    ensures Preview(w, FirstId(row), None, false, facts)
            == (WithChain(w, RowKey(row), [PreviewedVersion(row, p)]), Some(p))
  {
    var e := FirstVersion(row);
    StillCurrent(row, e, w.ledger, facts);
    assert PreviousApplied([e]) == None by { assert [e][..0] == []; }
    assert Recomputed(w, FirstId(row), [e], None, false, facts) == Some(p);
    assert SetLatest([e], e.(state := Previewed, targets := p.targets))
           == [e.(state := Previewed, targets := p.targets)];
  }

  /** Writing one fresh target that the storage confirms. */
  lemma WriteSingle(h: Holdings, t: Target, newRecordId: string)
    ensures WriteTargets(h, [t], [Done(newRecordId)]) == Written(WriteOne(h, t, newRecordId), 1)
  {
    assert [t][1..] == [];
  }

  lemma ConfirmSingle(stay: Commit, row: LedgerRow, p: Payload, locked: set<string>, facts: Facts, ambient: Ambient,
                      newRecordId: string)
    requires |stay.chain| == 1 && stay.chain[0].state == Previewed && stay.chain[0].source == Flow(row.flow)
    requires Manual(row) && NavIsFinal(row, facts) && p.mode == Apply && |p.targets| == 1
             && p.targets[0].identity == Place(row)
    requires Place(row).account in locked && p.targets[0].before == Obs(ambient.reread, Place(row))
    requires ambient.outcomes == [Done(newRecordId)] && FindRow(ambient.laterLedger, row.flow.recordId) == Some(row)
    ensures var c := ConfirmCurrent(stay, RowKey(row), p, locked, facts, ambient);
            && c.verdict == AppliedNow && c.chain == [stay.chain[0].(state := Applied)]
            && c.ledger == ambient.laterLedger
            && c.holdings == WriteOne(ambient.reread, p.targets[0], newRecordId)
            && c.prints == ConfirmPrints(stay.prints, p.targets, c.holdings)
  {
    var e := stay.chain[0];
    assert p.targets == [p.targets[0]];
    WriteSingle(ambient.reread, p.targets[0], newRecordId);
    assert SetLatest(stay.chain, e.(state := Applied)) == [e.(state := Applied)];
    StillCurrent(row, e.(state := Applied), ambient.laterLedger, facts);
    assert StillFresh(ambient.reread, p.targets);
  }

  /** The confirmation changed the row's chain, its baseline and its holding, and nothing else. */
  ghost predicate OnlyApplied(w: World, w': World, row: LedgerRow)
    requires Flow(row.flow).Completed()
  {
    var chain := ChainAt(w', RowKey(row));
    && |chain| == 1 && chain[0].state == Applied && chain[0].source == Flow(row.flow)
    && w'.store.chains == w.store.chains[RowKey(row) := chain]
    && Place(row) in w'.store.prints && w'.store.prints == w.store.prints[Place(row) := w'.store.prints[Place(row)]]
    && w'.ledger == w.ledger
  }

  /** What the confirmation of the previewed event commits. */
  lemma DiscoveredConfirms(w: World, row: LedgerRow, b: int, facts: Facts, later: Facts, p: Payload, w1: World,
                           ambient: Ambient,
                           newRecordId: string)
    requires Discovered(w, row, b) && Manual(row) && NavIsFinal(row, later) && b + Event(row) >= 0
    requires FlowPreview(w.store, FirstId(row), FirstVersion(row), None, None, false, w.holdings, facts.quotes)
             == Some(p)
    requires w1 == WithChain(w, RowKey(row), [PreviewedVersion(row, p)])
    requires ambient == Ambient(w.holdings, [Done(newRecordId)], w.ledger)
    ensures p.targets != []
    ensures var h := WriteOne(w.holdings, p.targets[0], newRecordId);
            ConfirmLatest(w1, FirstId(row), p, None, false, later, ambient)
            == Commit([PreviewedVersion(row, p).(state := Applied)], ConfirmPrints(w.store.prints, p.targets, h),
                      w.ledger, h, AppliedNow)
  {
    hide FlowPreview, ConfirmCurrent, WriteOne, ConfirmPrints, Operations, Refresh;
    var e := PreviewedVersion(row, p);
    DiscoveredPreview(w, row, b, FirstVersion(row), facts);
    StillPreviewed(w, row, b, facts, later, p, w1);
    StillCurrent(row, e, w1.ledger, later);
    var stay := Commit([e], w1.store.prints, w1.ledger, w1.holdings, Refused);
    var locked := EffectAccounts(RowKey(row), [e], w1.ledger);
    ConfirmSingle(stay, row, p, locked, later, ambient, newRecordId);
    assert ConfirmLatest(w1, FirstId(row), p, None, false, later, ambient)
        == ConfirmCurrent(stay, RowKey(row), p, locked, later, ambient);
  }

  /** The preview can still be recomputed: storing it changed nothing it is computed from, and quotes do not matter. */
  lemma StillPreviewed(w: World, row: LedgerRow, b: int, facts: Facts, later: Facts, p: Payload, w1: World)
    requires Discovered(w, row, b) && Manual(row)
    requires FlowPreview(w.store, FirstId(row), FirstVersion(row), None, None, false, w.holdings, facts.quotes)
             == Some(p)
    requires w1 == WithChain(w, RowKey(row), [PreviewedVersion(row, p)])
    ensures ChainAt(w1, RowKey(row)) == [PreviewedVersion(row, p)]
    ensures Recomputed(w1, FirstId(row), [PreviewedVersion(row, p)], None, false, later) == Some(p)
  {
    hide FlowPreview, Operations;
    var e := PreviewedVersion(row, p);
    forall at ensures Baseline(w1.store, at) == Baseline(w.store, at) {
      assert ChainAt(w1, DriftKey(at)) == ChainAt(w, DriftKey(at));
    }
    SamePreview(w.store, w1.store, FirstId(row), FirstVersion(row), e, None, None, false, w.holdings, facts.quotes);
    QuotesUnused(w1.store, FirstId(row), row, e, w.holdings, facts.quotes, later.quotes);
    assert PreviousApplied([e]) == None by { assert [e][..0] == []; }
  }

  /** From discovery on, preview and confirm always end at the baseline plus the event. */
  lemma DiscoveredEnds(w: World, row: LedgerRow, b: int, facts: Facts, later: Facts, newRecordId: string)
    requires Discovered(w, row, b) && Manual(row) && NavIsFinal(row, later) && b + Event(row) >= 0
    ensures var (w', v) := PreviewThenConfirm(w, FirstId(row), facts, later, newRecordId);
            && v == AppliedNow && EndsAt(w', row, b + Event(row)) && OnlyApplied(w, w', row)
  {
    hide FlowPreview, ConfirmLatest, Preview, Discovered, Operations;
    DiscoveredPreview(w, row, b, FirstVersion(row), facts);
    var p := FlowPreview(w.store, FirstId(row), FirstVersion(row), None, None, false, w.holdings, facts.quotes).value;
    DiscoveredPreviewed(w, row, b, facts, p);
    var w1 := WithChain(w, RowKey(row), [PreviewedVersion(row, p)]);
    DiscoveredConfirms(w, row, b, facts, later, p, w1, Ambient(w.holdings, [Done(newRecordId)], w.ledger), newRecordId);
    var w' := PreviewThenConfirm(w, FirstId(row), facts, later, newRecordId).0;
    assert p.targets == [p.targets[0]];
    assert w'.store.chains == w.store.chains[RowKey(row) := ChainAt(w', RowKey(row))];
  }

  // ---------- the scans before it ----------

  /** Every row of the ledger and every known record is as a scan would leave it. */
  ghost predicate Synced(chains: Chains, rows: seq<LedgerRow>, scope: Option<string>, facts: Facts) {
    && (forall i :: 0 <= i < |rows| ==>
          ScanRow(ChainOf(chains, RowKey(rows[i])), rows[i], scope, facts)
              == (ChainOf(chains, RowKey(rows[i])), Unchanged))
    && (forall k :: k in chains && IsMissing(k, SeenRecords(rows)) && chains[k] != [] ==>
          ScanMissing(chains[k], scope) == chains[k])
  }

  /** The scan looks at the row: it is one of the whole ledger, or one of the row's own account. */
  predicate Sees(scope: Option<string>, row: LedgerRow)
    requires Flow(row.flow).Completed()
  {
    scope.Some? ==> row.rawAccount == scope.value == Place(row).account
  }

  /** The row is written into the ledger at any place. */
  function Inserted(rows: seq<LedgerRow>, i: nat, row: LedgerRow): seq<LedgerRow>
    requires i <= |rows|
  {
    rows[..i] + [row] + rows[i..]
  }

  lemma InsertedHas(rows: seq<LedgerRow>, i: nat, row: LedgerRow)
    requires i <= |rows|
    ensures forall r :: r in SeenRecords(rows) ==> r in SeenRecords(Inserted(rows, i, row))
    ensures row.flow.recordId != "" ==> row.flow.recordId in SeenRecords(Inserted(rows, i, row))
  {
    var all := Inserted(rows, i, row);
    assert all[i] == row;
    forall r | r in SeenRecords(rows) ensures r in SeenRecords(all) {
      var j :| 0 <= j < |rows| && rows[j].flow.recordId == r;
      assert all[if j < i then j else j + 1] == rows[j];
    }
  }

  /** Without its last row. */
  lemma InsertedFront(rows: seq<LedgerRow>, i: nat, row: LedgerRow)
    requires i < |rows|
    ensures var all := Inserted(rows, i, row);
            all[..|all| - 1] == Inserted(rows[..|rows| - 1], i, row) && all[|all| - 1] == rows[|rows| - 1]
  {
    assert rows[..|rows| - 1][i..] == rows[i..][..|rows| - 1 - i];
  }

  /** A synced ledger, a holding at its confirmed baseline `b`, and nothing else going on at the identity. */
  ghost predicate Calm(w: World, row: LedgerRow, b: int, scope: Option<string>, facts: Facts) {
    && StoreOk(w.store) && Synced(w.store.chains, w.ledger, scope, facts)
    && DueRow(row, facts) && b + Event(row) >= 0
    && RowKey(row) !in w.store.chains && (forall i :: 0 <= i < |w.ledger| ==>
                                            w.ledger[i].flow.recordId != row.flow.recordId)
    && var at := Place(row);
       && DriftKey(at) !in w.store.chains && at !in OwnedIdentities(w.store.chains) && NetAt(w.store.chains, at) == None
       && at in w.store.prints
       && w.store.prints[at].confirmed == Some(Obs(w.holdings, at)) && Amount(Obs(w.holdings, at)) == b
  }

  lemma SyncedScan(s: Store, rows: seq<LedgerRow>, scope: Option<string>, facts: Facts)
    requires Synced(s.chains, rows, scope, facts)
    ensures AfterLedger(s, rows, scope, facts) == s
  {
    ScanRowsSettled(s.chains, rows, scope, facts);
    assert SweepMissing(s.chains, s.chains.Keys, SeenRecords(rows), scope) == s.chains;
  }

  /** What is in step with a scan of the whole ledger is in step with one of an account. */
  lemma SyncedNarrows(chains: Chains, rows: seq<LedgerRow>, account: string, facts: Facts)
    requires Synced(chains, rows, None, facts)
    ensures Synced(chains, rows, Some(account), facts)
  {
    hide LastApplied;
    forall i | 0 <= i < |rows|
      ensures ScanRow(ChainOf(chains, RowKey(rows[i])), rows[i], Some(account), facts)
              == (ChainOf(chains, RowKey(rows[i])), Unchanged)
    {
      assert ScanRow(ChainOf(chains, RowKey(rows[i])), rows[i], None, facts)
          == (ChainOf(chains, RowKey(rows[i])), Unchanged);
    }
    forall k | k in chains && IsMissing(k, SeenRecords(rows)) && chains[k] != []
      ensures ScanMissing(chains[k], Some(account)) == chains[k]
    {
      assert ScanMissing(chains[k], None) == chains[k];
    }
  }

  lemma ScanRowsLast(chains: Chains, rows: seq<LedgerRow>, last: LedgerRow, scope: Option<string>, facts: Facts)
    ensures var c := ScanRows(chains, rows, scope, facts).0;
            ScanRows(chains, rows + [last], scope, facts).0
            == Put(c, RowKey(last), ScanRow(ChainOf(c, RowKey(last)), last, scope, facts).0)
  {
    hide ScanRow;
    var all := rows + [last];
    assert all[..|all| - 1] == rows;
  }

  lemma FirstSeen(row: LedgerRow, scope: Option<string>, facts: Facts)
    requires DueRow(row, facts) && Sees(scope, row)
    ensures ScanRow([], row, scope, facts).0 == [FirstVersion(row)]
  {
  }

  /** The ledger pass over a synced ledger with one new row. */
  lemma {:induction false} LoggedRows(chains: Chains, rows: seq<LedgerRow>, i: nat, row: LedgerRow,
                                      scope: Option<string>, facts: Facts)
    requires i <= |rows| && DueRow(row, facts) && Sees(scope, row) && RowKey(row) !in chains
    requires RowsSettled(chains, rows, scope, facts)
    requires forall j :: 0 <= j < |rows| ==> rows[j].flow.recordId != row.flow.recordId
    ensures ScanRows(chains, Inserted(rows, i, row), scope, facts).0 == chains[RowKey(row) := [FirstVersion(row)]]
  {
    hide ScanRow, ScanRows, DueRow, Sees, FirstVersion;
    var next := chains[RowKey(row) := [FirstVersion(row)]];
    if i == |rows| {
      assert Inserted(rows, i, row) == rows + [row];
      ScanRowsSettled(chains, rows, scope, facts);
      FirstSeen(row, scope, facts);
      ScanRowsLast(chains, rows, row, scope, facts);
    } else {
      var front, last := rows[..|rows| - 1], rows[|rows| - 1];
      assert forall j :: 0 <= j < |front| ==> front[j] == rows[j];
      InsertedFront(rows, i, row);
      assert Inserted(rows, i, row) == Inserted(front, i, row) + [last];
      LoggedRows(chains, front, i, row, scope, facts);
      ScanRowsLast(chains, Inserted(front, i, row), last, scope, facts);
      assert ScanRow(ChainOf(chains, RowKey(last)), last, scope, facts) == (ChainOf(chains, RowKey(last)), Unchanged);
      assert RowKey(last) != RowKey(row) && ChainOf(next, RowKey(last)) == ChainOf(chains, RowKey(last));
      assert Put(next, RowKey(last), ChainOf(next, RowKey(last))) == next;
    }
  }

  /** One new row anywhere in a synced ledger: the scan adds its first version and nothing else. */
  lemma LoggedScan(s: Store, rows: seq<LedgerRow>, i: nat, row: LedgerRow, scope: Option<string>, facts: Facts)
    requires i <= |rows| && Synced(s.chains, rows, scope, facts) && DueRow(row, facts) && Sees(scope, row)
    requires RowKey(row) !in s.chains && forall j :: 0 <= j < |rows| ==> rows[j].flow.recordId != row.flow.recordId
    ensures AfterLedger(s, Inserted(rows, i, row), scope, facts)
            == Store(s.chains[RowKey(row) := [FirstVersion(row)]], s.prints)
  {
    hide LastApplied, ScanRow, ScanMissing;
    var all := Inserted(rows, i, row);
    var next := s.chains[RowKey(row) := [FirstVersion(row)]];
    LoggedRows(s.chains, rows, i, row, scope, facts);
    InsertedHas(rows, i, row);
    forall k | k in next && IsMissing(k, SeenRecords(all)) && next[k] != []
      ensures ScanMissing(next[k], scope) == next[k]
    {
      assert k in s.chains && IsMissing(k, SeenRecords(rows));
    }
    assert SweepMissing(next, next.Keys, SeenRecords(all), scope) == next;
  }

  /** The new version is the only active effect at its identity, and it owns nothing. */
  lemma LoggedNet(chains: Chains, row: LedgerRow)
    requires Flow(row.flow).Completed() && RowKey(row) !in chains && NetAt(chains, Place(row)) == None
    ensures var next := chains[RowKey(row) := [FirstVersion(row)]];
            && NetAt(next, Place(row)) == Some(Event(row))
            && (Place(row) !in OwnedIdentities(chains) ==> Place(row) !in OwnedIdentities(next))
  {
    var next := chains[RowKey(row) := [FirstVersion(row)]];
    var at := Place(row);
    assert ActiveAt(RowKey(row), next[RowKey(row)]) == Some(at);
    forall k | k in next && ActiveAt(k, next[k]) == Some(at) ensures k == RowKey(row) {
      assert k == RowKey(row) || k in chains;
    }
    var chain := [FirstVersion(row)];
    assert PreviousApplied(chain) == None by { assert chain[..0] == []; }
    var ops := [Operation(Flow(row.flow), Event(row))];
    assert ops[1..] == [];
    assert ActiveDelta(chain) == DeltaSum(ops) == Event(row);
    TotalSingle(ActiveDeltas(next, at), RowKey(row));
  }

  lemma {:induction false} FindLogged(rows: seq<LedgerRow>, i: nat, row: LedgerRow)
    requires i <= |rows| && forall j :: 0 <= j < |rows| ==> rows[j].flow.recordId != row.flow.recordId
    ensures FindRow(Inserted(rows, i, row), row.flow.recordId) == Some(row)
  {
    var all := Inserted(rows, i, row);
    if i == 0 {
      assert all[0] == row;
    } else {
      assert all[0] == rows[0] && all[1..] == Inserted(rows[1..], i - 1, row);
      FindLogged(rows[1..], i - 1, row);
    }
  }

  /** A scan, seen from one identity it looks at. */
  lemma ScanAt(w: World, scope: Option<string>, facts: Facts, swept: Store, at: Identity)
    requires swept == AfterLedger(w.store, w.ledger, scope, facts) && at in w.store.prints
    requires scope.Some? ==> at.account == scope.value
    ensures var t := Scan(w, w.ledger, scope, facts);
            var r := ReconcileAt(swept, w.holdings, facts.today, at);
            && at in t.store.prints && t.store.prints[at] == r.mark && ChainAt(t, DriftKey(at)) == r.chain
            && (forall k: Key :: k.FlowKey? ==> ChainAt(t, k) == ChainOf(swept.chains, k))
            && t.ledger == w.ledger && t.holdings == w.holdings
  {
    var cash := InScope(w.holdings, scope);
    assert Obs(cash, at) == Obs(w.holdings, at);
    assert ReconcileAt(swept, cash, facts.today, at) == ReconcileAt(swept, w.holdings, facts.today, at);
    var ids := ScannedIdentities(w.store.prints, cash, scope);
    assert at in ids;
    ReconcileAllChain(swept, ids, cash, facts.today, DriftKey(at));
    ReconcileAllKeepsFlows(swept, ids, cash, facts.today);
  }

  /** A scan after logging the row, given what its reconciliation does at the row's identity. */
  lemma LoggedIsDiscovered(s: Store, logged: World, rows: seq<LedgerRow>, i: nat, row: LedgerRow, b: int,
                           scope: Option<string>, facts: Facts, settled: Reconciled)
    requires i <= |rows| && logged.store == s && logged.ledger == Inserted(rows, i, row)
    requires Synced(s.chains, rows, scope, facts) && DueRow(row, facts) && Sees(scope, row) && RowKey(row) !in s.chains
    requires forall j :: 0 <= j < |rows| ==> rows[j].flow.recordId != row.flow.recordId
    requires Place(row) in s.prints && Place(row) !in OwnedIdentities(s.chains) && NetAt(s.chains, Place(row)) == None
    requires settled == Reconcile(Place(row), ConfirmedOf(s.prints, Place(row)),
                                  ChainOf(s.chains, DriftKey(Place(row))),
                                  Obs(logged.holdings, Place(row)), false, Some(Event(row)), facts.today)
    requires Amount(Obs(logged.holdings, Place(row))) == b || Amount(Obs(logged.holdings, Place(row))) == b + Event(row)
    requires if settled.chain != [] && settled.chain[|settled.chain| - 1].source.Drift?
             then settled.chain[|settled.chain| - 1].source.lastConfirmed == Some(b)
             else settled.chain == [] && settled.mark.confirmed.Some? && Amount(settled.mark.confirmed.value) == b
    ensures Discovered(Scan(logged, logged.ledger, scope, facts), row, b)
  {
    LoggedScan(s, rows, i, row, scope, facts);
    LoggedNet(s.chains, row);
    FindLogged(rows, i, row);
    var at := Place(row);
    var swept := AfterLedger(s, Inserted(rows, i, row), scope, facts);
    var t := Scan(logged, logged.ledger, scope, facts);
    ScanAt(logged, scope, facts, swept, at);
    assert ChainOf(swept.chains, DriftKey(at)) == ChainOf(s.chains, DriftKey(at));
    assert ReconcileAt(swept, logged.holdings, facts.today, at) == settled;
    BaselineFrom(t.store, at, settled, b);
    assert ChainAt(t, RowKey(row)) == ChainOf(swept.chains, RowKey(row)) == [FirstVersion(row)];
  }

  lemma BaselineFrom(s: Store, at: Identity, settled: Reconciled, b: int)
    requires at in s.prints && s.prints[at] == settled.mark && ChainOf(s.chains, DriftKey(at)) == settled.chain
    requires if settled.chain != [] && settled.chain[|settled.chain| - 1].source.Drift?
             then settled.chain[|settled.chain| - 1].source.lastConfirmed == Some(b)
             else settled.chain == [] && settled.mark.confirmed.Some? && Amount(settled.mark.confirmed.value) == b
    ensures Baseline(s, at) == Some(b)
  {
  }

  /** Log, then scan, with the holding edited or not in between: the baseline stays `b`. */
  lemma LogThenScan(w: World, i: nat, row: LedgerRow, b: int, scope: Option<string>, facts: Facts, now: Observation)
    requires i <= |w.ledger| && Calm(w, row, b, scope, facts) && Sees(scope, row)
    requires now == Obs(w.holdings, Place(row)) || Amount(now) == b + Event(row)
    ensures var logged := World(w.store, Inserted(w.ledger, i, row), Set(w.holdings, Place(row), now));
            Discovered(Scan(logged, logged.ledger, scope, facts), row, b)
  {
    var at := Place(row);
    var logged := World(w.store, Inserted(w.ledger, i, row), Set(w.holdings, at, now));
    assert Obs(logged.holdings, at) == now;
    LoggedIsDiscovered(w.store, logged, w.ledger, i, row, b, scope, facts,
                       Reconciled(Fingerprint(w.store.prints[at].confirmed, now), [], false));
  }

  /** The world after the operator edited the holding first and a scan accepted the new baseline. */
  ghost predicate Accepted(w: World, row: LedgerRow, b: int, scope: Option<string>, facts: Facts) {
    && StoreOk(w.store) && Synced(w.store.chains, w.ledger, scope, facts) && DueRow(row, facts)
    && RowKey(row) !in w.store.chains && (forall i :: 0 <= i < |w.ledger| ==>
                                            w.ledger[i].flow.recordId != row.flow.recordId)
    && var at := Place(row);
       var chain := ChainAt(w, DriftKey(at));
       && at !in OwnedIdentities(w.store.chains) && NetAt(w.store.chains, at) == None
       && chain != [] && chain[|chain| - 1].source.Drift? && chain[|chain| - 1].source.lastConfirmed == Some(b)
       && at in w.store.prints && w.store.prints[at].confirmed == Some(Obs(w.holdings, at))
       && Amount(Obs(w.holdings, at)) == b + Event(row)
  }

  lemma SyncedKept(a: Chains, b: Chains, rows: seq<LedgerRow>, scope: Option<string>, facts: Facts)
    requires Synced(a, rows, scope, facts) && forall k: Key :: k.FlowKey? ==> ChainOf(b, k) == ChainOf(a, k)
    ensures Synced(b, rows, scope, facts)
  {
    forall k | k in b && IsMissing(k, SeenRecords(rows)) && b[k] != [] ensures ScanMissing(b[k], scope) == b[k] {
      assert ChainOf(b, k) == ChainOf(a, k);
    }
  }

  /** An edit that nothing explains is accepted, and the external change keeps the amount from before. */
  lemma EditAccepted(at: Identity, before: Observation, now: Observation, today: int)
    requires at.broker != FUTU_BROKER && Amount(now) != Amount(before)
    ensures Reconcile(at, Some(before), [], now, false, None, today)
            == Reconciled(Fingerprint(Some(now), now),
                          [Effect(1, Drift(at, now, today, Some(Amount(before))), RecordOnly, Keep, [], [], None)],
                              true)
  {
  }

  lemma EditThenScan(w: World, row: LedgerRow, b: int, s1: Option<string>, f1: Facts, s2: Option<string>, f2: Facts,
                     now: Observation)
    requires Calm(w, row, b, s2, f2) && Synced(w.store.chains, w.ledger, s1, f1) && Amount(now) == b + Event(row)
    requires s1.Some? ==> Place(row).account == s1.value
    ensures var edited := w.(holdings := Set(w.holdings, Place(row), now));
            Accepted(Scan(edited, edited.ledger, s1, f1), row, b, s2, f2)
  {
    hide NetAt, OwnedIdentities, Synced, CommitScan, Reconcile;
    var at := Place(row);
    var edited := w.(holdings := Set(w.holdings, at, now));
    var t := Scan(edited, edited.ledger, s1, f1);
    SyncedScan(w.store, w.ledger, s1, f1);
    ScanAt(edited, s1, f1, w.store, at);
    EditAccepted(at, Obs(w.holdings, at), now, f1.today);
    CommitScanOk(edited.store, edited.ledger, InScope(edited.holdings, s1), s1, f1);
    ScanOwners(edited, s1, f1);
    SameNets(t.store.chains, w.store.chains, at);
    SyncedKept(w.store.chains, t.store.chains, w.ledger, s2, f2);
    assert ChainAt(t, RowKey(row)) == [];
    assert RowKey(row) !in t.store.chains;
  }

  lemma ScanOwners(w: World, scope: Option<string>, facts: Facts)
    requires AfterLedger(w.store, w.ledger, scope, facts) == w.store
    ensures OwnedIdentities(Scan(w, w.ledger, scope, facts).store.chains) == OwnedIdentities(w.store.chains)
  {
    var cash := InScope(w.holdings, scope);
    ReconcileAllKeepsOwners(w.store, ScannedIdentities(w.store.prints, cash, scope), cash, facts.today);
  }

  /** A holding at its confirmed baseline whose last external change is settled is left alone. */
  lemma SettledStays(id: Identity, chain: Chain, obs: Observation, net: int, today: int)
    requires net != 0 && (chain != [] ==> chain[|chain| - 1].state == RecordOnly)
    ensures Reconcile(id, Some(obs), chain, obs, false, Some(net), today)
            == Reconciled(Fingerprint(Some(obs), obs), chain, false)
  {
  }

  lemma AcceptedThenLogged(w: World, i: nat, row: LedgerRow, b: int, scope: Option<string>, facts: Facts)
    requires i <= |w.ledger| && Accepted(w, row, b, scope, facts) && Sees(scope, row)
    ensures var logged := w.(ledger := Inserted(w.ledger, i, row));
            Discovered(Scan(logged, logged.ledger, scope, facts), row, b)
  {
    hide CommitScan, Discovered, Synced, OwnedIdentities, NetAt, ReconcileAt;
    var at := Place(row);
    var logged := w.(ledger := Inserted(w.ledger, i, row));
    var chain := ChainAt(w, DriftKey(at));
    assert Good(DriftKey(at), chain) && RowOk(DriftKey(at), chain[|chain| - 1]);
    SettledStays(at, chain, Obs(w.holdings, at), Event(row), facts.today);
    LoggedIsDiscovered(w.store, logged, w.ledger, i, row, b, scope, facts,
                       Reconciled(Fingerprint(Some(Obs(w.holdings, at)), Obs(w.holdings, at)), chain, false));
  }

  /**
   Order independence, over any number of days. From a holding at its confirmed baseline `b`, with no
   earlier external change, the runs "log, edit the holding, scan, confirm", "edit the holding, scan, log,
   scan, confirm" and "log, scan, confirm" all end with the holding and its confirmed baseline at `b` plus
   the event. The row may be logged anywhere in the ledger, and each scan may be of the whole ledger or of
   the row's account. Dates, final NAVs and quotes may differ at the first scan (`s1`, `f1`), the scan that
   discovers the event (`s2`, `f2`), the preview (`f3`) and the confirmation (`f4`).
   */
  lemma OrderDoesNotMatter(w: World, i: nat, row: LedgerRow, b: int, s1: Option<string>, s2: Option<string>,
                           f1: Facts, f2: Facts, f3: Facts, f4: Facts, now: Observation, newRecordId: string)
    requires i <= |w.ledger| && Calm(w, row, b, s2, f2) && Sees(s2, row)
    requires Synced(w.store.chains, w.ledger, s1, f1) && (s1.Some? ==> Place(row).account == s1.value)
    requires NavIsFinal(row, f4) && Amount(now) == b + Event(row)
    ensures var ledger := Inserted(w.ledger, i, row);
            var steps := [EditLedger(ledger), EditHolding(Place(row), now), ScanStep(ledger, s2, f2)];
            EndsAt(PreviewThenConfirm(Run(w, steps), FirstId(row), f3, f4, newRecordId).0, row, b + Event(row))
    ensures var ledger := Inserted(w.ledger, i, row);
            var steps := [EditHolding(Place(row), now), ScanStep(w.ledger, s1, f1), EditLedger(ledger),
                          ScanStep(ledger, s2, f2)];
            EndsAt(PreviewThenConfirm(Run(w, steps), FirstId(row), f3, f4, newRecordId).0, row, b + Event(row))
    ensures var ledger := Inserted(w.ledger, i, row);
            var steps := [EditLedger(ledger), ScanStep(ledger, s2, f2)];
            EndsAt(PreviewThenConfirm(Run(w, steps), FirstId(row), f3, f4, newRecordId).0, row, b + Event(row))
  {
    hide CommitScan, Calm, Synced, Discovered, PreviewThenConfirm, EndsAt, OnlyApplied, NavIsFinal, Inserted;
    var ledger := Inserted(w.ledger, i, row);
    CalmIsDue(w, row, b, s2, f2);
    LogEditScan(w, i, row, b, s2, f2, now);
    EditScanLogScan(w, i, row, b, s1, f1, s2, f2, now);
    LogAndScan(w, i, row, b, s2, f2);
    DiscoveredEnds(Run(w, [EditLedger(ledger), EditHolding(Place(row), now), ScanStep(ledger, s2, f2)]), row, b, f3, f4,
                   newRecordId);
    DiscoveredEnds(Run(w, [EditHolding(Place(row), now), ScanStep(w.ledger, s1, f1), EditLedger(ledger),
                           ScanStep(ledger, s2, f2)]), row, b, f3, f4, newRecordId);
    DiscoveredEnds(Run(w, [EditLedger(ledger), ScanStep(ledger, s2, f2)]), row, b, f3, f4, newRecordId);
  }

  lemma LogEditScan(w: World, i: nat, row: LedgerRow, b: int, scope: Option<string>, facts: Facts, now: Observation)
    requires i <= |w.ledger| && Calm(w, row, b, scope, facts) && Sees(scope, row) && Amount(now) == b + Event(row)
    ensures var ledger := Inserted(w.ledger, i, row);
            Discovered(Run(w, [EditLedger(ledger), EditHolding(Place(row), now), ScanStep(ledger, scope, facts)]), row,
                       b)
  {
    hide CommitScan, Calm, Discovered, Inserted;
    var ledger := Inserted(w.ledger, i, row);
    CalmIsDue(w, row, b, scope, facts);
    RunThree(w, EditLedger(ledger), EditHolding(Place(row), now), ScanStep(ledger, scope, facts));
    LogThenScan(w, i, row, b, scope, facts, now);
  }

  lemma EditScanLogScan(w: World, i: nat, row: LedgerRow, b: int, s1: Option<string>, f1: Facts, s2: Option<string>,
                        f2: Facts, now: Observation)
    requires i <= |w.ledger| && Calm(w, row, b, s2, f2) && Sees(s2, row) && Amount(now) == b + Event(row)
    requires Synced(w.store.chains, w.ledger, s1, f1) && (s1.Some? ==> Place(row).account == s1.value)
    ensures var ledger := Inserted(w.ledger, i, row);
            Discovered(Run(w, [EditHolding(Place(row), now), ScanStep(w.ledger, s1, f1), EditLedger(ledger),
                               ScanStep(ledger, s2, f2)]), row, b)
  {
    hide CommitScan, Calm, Synced, Accepted, Discovered, Inserted;
    var ledger := Inserted(w.ledger, i, row);
    CalmIsDue(w, row, b, s2, f2);
    RunFour(w, EditHolding(Place(row), now), ScanStep(w.ledger, s1, f1), EditLedger(ledger), ScanStep(ledger, s2, f2));
    EditThenScan(w, row, b, s1, f1, s2, f2, now);
    var edited := w.(holdings := Set(w.holdings, Place(row), now));
    AcceptedThenLogged(Scan(edited, edited.ledger, s1, f1), i, row, b, s2, f2);
  }

  lemma LogAndScan(w: World, i: nat, row: LedgerRow, b: int, scope: Option<string>, facts: Facts)
    requires i <= |w.ledger| && Calm(w, row, b, scope, facts) && Sees(scope, row)
    ensures var ledger := Inserted(w.ledger, i, row);
            Discovered(Run(w, [EditLedger(ledger), ScanStep(ledger, scope, facts)]), row, b)
  {
    hide CommitScan, Calm, Discovered, Inserted;
    var ledger := Inserted(w.ledger, i, row);
    CalmIsDue(w, row, b, scope, facts);
    RunTwo(w, EditLedger(ledger), ScanStep(ledger, scope, facts));
    CalmHolding(w, row, b, scope, facts);
    LogThenScan(w, i, row, b, scope, facts, Obs(w.holdings, Place(row)));
  }

  lemma CalmHolding(w: World, row: LedgerRow, b: int, scope: Option<string>, facts: Facts)
    requires Calm(w, row, b, scope, facts)
    ensures Set(w.holdings, Place(row), Obs(w.holdings, Place(row))) == w.holdings
  {
  }

  lemma CalmIsDue(w: World, row: LedgerRow, b: int, scope: Option<string>, facts: Facts)
    requires Calm(w, row, b, scope, facts)
    ensures DueRow(row, facts) && b + Event(row) >= 0
  {
  }

  lemma RunTwo(w: World, a: Step, b: Step)
    ensures Run(w, [a, b]) == Next(Next(w, a), b)
  {
    assert [a, b][1..] == [b] && [b][1..] == [];
    assert Run(Next(w, a), [b]) == Next(Next(w, a), b);
  }

  lemma RunFour(w: World, a: Step, b: Step, c: Step, d: Step)
    ensures Run(w, [a, b, c, d]) == Next(Next(Next(Next(w, a), b), c), d)
  {
    assert [a, b, c, d][1..] == [b, c, d];
    RunThree(Next(w, a), b, c, d);
  }

  lemma RunThree(w: World, a: Step, b: Step, c: Step)
    ensures Run(w, [a, b, c]) == Next(Next(Next(w, a), b), c)
  {
    var steps := [a, b, c];
    assert steps[1..] == [b, c] && [b, c][1..] == [c] && [c][1..] == [];
    var w1 := Next(w, a);
    var w2 := Next(w1, b);
    assert Run(w2, [c]) == Next(w2, c);
    assert Run(w1, [b, c]) == Run(w2, [c]);
  }
}
