/** Where the code keeps less than its documentation promises: the input that shows it, and the exact condition. */
module EffectLimits {
  import opened EffectModel
  import opened Optional
  import opened EffectOperations
  import opened EffectScan
  import opened EffectScanLaws
  import opened EffectRescan
  import opened EffectPreview
  import opened EffectConfirm
  import opened EffectInvariants
  import opened EffectConfirmLaws
  import opened EffectRuns
  import opened EffectGate
  import opened EffectMoves
  import opened EffectOrder
  import opened EffectOwners
  import opened Totals

  // ---------- successive events after an external change ----------

  /**
   An event that is not yet in the holding: the holding equals its confirmed fingerprint. Detection
   applies it exactly when the chosen baseline is that fingerprint; it is taken for already
   reflected exactly when the chosen baseline is older by the very amount of the event.
   */
  lemma UnreflectedEvent(s: Store, h: Holdings, op: Operation)
    requires op.source.At().Some? && op.delta != 0
    requires Baseline(s, op.source.At().value).Some?
    requires ConfirmedOf(s.prints, op.source.At().value) == Some(Obs(h, op.source.At().value))
    ensures var confirmed := Amount(Obs(h, op.source.At().value));
            var chosen := Baseline(s, op.source.At().value).value;
            && (Detect(s, [op], h) == Some(ApplyDelta) <==> chosen == confirmed)
            && (Detect(s, [op], h) == Some(AlreadyReflected) <==> chosen == confirmed - op.delta)
  {
    DetectionIsExact(s, h, op);
  }

  /** A confirmed event leaves the identity as an accepted external change left it. */
  lemma StillAccepted(w: World, w': World, first: LedgerRow, second: LedgerRow, b: int, facts: Facts)
    requires StoreOk(w'.store) && Manual(first) && DueRow(second, facts)
    requires Place(second) == Place(first) && RowKey(second) != RowKey(first)
    requires OnlyApplied(w, w', first) && EndsAt(w', first, b + Event(second))
    requires RowKey(second) !in w.store.chains
    requires forall i :: 0 <= i < |w.ledger| ==> w.ledger[i].flow.recordId != second.flow.recordId
    requires |w.ledger| > 0 && w.ledger[|w.ledger| - 1] == first
    requires Synced(w.store.chains - {RowKey(first)}, w.ledger[..|w.ledger| - 1], None, facts)
    requires Place(first) !in OwnedIdentities(w.store.chains)
    requires forall k :: k in w.store.chains && k != RowKey(first) ==>
               ActiveAt(k, w.store.chains[k]) != Some(Place(first))
    requires forall i :: 0 <= i < |w.ledger| - 1 ==> w.ledger[i].flow.recordId != first.flow.recordId
    requires var chain := ChainAt(w, DriftKey(Place(first)));
             chain != [] && chain[|chain| - 1].source.Drift? && chain[|chain| - 1].source.lastConfirmed == Some(b)
    ensures Accepted(w', second, b, None, facts)
  {
    var at := Place(first);
    var key := RowKey(first);
    var rows := w.ledger;
    var chains := w'.store.chains;
    forall k | k in chains ensures ActiveAt(k, chains[k]) != Some(at) {
      assert k != key ==> chains[k] == w.store.chains[k];
    }
    forall id | id in OwnedIdentities(chains) ensures id in OwnedIdentities(w.store.chains) {
      var k :| k in chains && id in OwnedTargets(chains[k]);
      assert k != key && k in w.store.chains;
    }
    AppliedSynced(w.store.chains, chains, first, rows, facts);
    assert ChainAt(w', DriftKey(at)) == ChainAt(w, DriftKey(at));
  }

  lemma AppliedSynced(before: Chains, chains: Chains, first: LedgerRow, rows: seq<LedgerRow>, facts: Facts)
    requires rows != [] && rows[|rows| - 1] == first
    requires Synced(before - {RowKey(first)}, rows[..|rows| - 1], None, facts)
    requires RowKey(first) in chains && |chains[RowKey(first)]| == 1
    requires chains[RowKey(first)][0].state == Applied && chains[RowKey(first)][0].source == Flow(first.flow)
    requires chains == before[RowKey(first) := chains[RowKey(first)]]
    requires forall i :: 0 <= i < |rows| - 1 ==> rows[i].flow.recordId != first.flow.recordId
    requires first.flow.recordId != ""
    ensures Synced(chains, rows, None, facts)
  {
    var key := RowKey(first);
    var front := rows[..|rows| - 1];
    forall i | 0 <= i < |rows|
      ensures ScanRow(ChainOf(chains, RowKey(rows[i])), rows[i], None, facts)
              == (ChainOf(chains, RowKey(rows[i])), Unchanged)
    {
      if i < |rows| - 1 {
        assert front[i] == rows[i] && RowKey(rows[i]) != key;
        assert ChainOf(chains, RowKey(rows[i])) == ChainOf(before - {key}, RowKey(rows[i]));
      }
    }
    RowIsSeen(rows, |rows| - 1);
    forall k | k in chains && IsMissing(k, SeenRecords(rows)) && chains[k] != []
      ensures ScanMissing(chains[k], None) == chains[k]
    {
      forall r | r in SeenRecords(front) ensures r in SeenRecords(rows) {
        var i :| 0 <= i < |front| && front[i].flow.recordId == r;
        assert rows[i] == front[i];
      }
      assert k in before - {key} && IsMissing(k, SeenRecords(front));
    }
  }

  lemma AtTheEnd(rows: seq<LedgerRow>, row: LedgerRow)
    ensures Inserted(rows, |rows|, row) == rows + [row]
  {
  }

  /** What a scan of an accepted world with one new row leaves of the ledger records. */
  lemma LoggedRecords(w1: World, row: LedgerRow, b: int, facts: Facts, later: Facts, w2: World)
    requires Accepted(w1, row, b, None, facts) && Synced(w1.store.chains, w1.ledger, None, later)
    requires w2 == Scan(w1.(ledger := w1.ledger + [row]), w1.ledger + [row], None, facts)
    ensures StoreOk(w2.store)
    ensures Synced(w2.store.chains - {RowKey(row)}, w1.ledger, None, later)
    ensures Place(row) !in OwnedIdentities(w2.store.chains)
    ensures forall k :: k in w2.store.chains && k != RowKey(row) ==> ActiveAt(k, w2.store.chains[k]) != Some(Place(row))
    ensures forall k: Key :: k.FlowKey? && k != RowKey(row) ==> (k in w2.store.chains <==> k in w1.store.chains)
  {
    hide Reconcile, ReconcileAll, NetAt, Synced, CommitScan, OwnedIdentities, AfterLedger;
    var logged := w1.(ledger := w1.ledger + [row]);
    AtTheEnd(w1.ledger, row);
    LoggedScan(w1.store, w1.ledger, |w1.ledger|, row, None, facts);
    LoggedNet(w1.store.chains, row);
    var swept := AfterLedger(logged.store, logged.ledger, None, facts);
    ScanAt(logged, None, facts, swept, Place(row));
    CommitScanOk(logged.store, logged.ledger, InScope(logged.holdings, None), None, facts);
    ScanKeepsOwners(logged, facts, swept);
    SyncedKept(w1.store.chains, w2.store.chains - {RowKey(row)}, w1.ledger, None, later);
    OthersInactive(w1.store.chains, w2.store.chains, row);
  }

  /** And of the identity's external changes. */
  lemma LoggedDrift(w1: World, row: LedgerRow, b: int, facts: Facts, w2: World)
    requires Accepted(w1, row, b, None, facts)
    requires w2 == Scan(w1.(ledger := w1.ledger + [row]), w1.ledger + [row], None, facts)
    ensures w2.ledger == w1.ledger + [row]
    ensures var chain := ChainAt(w2, DriftKey(Place(row)));
            chain != [] && chain[|chain| - 1].source.Drift? && chain[|chain| - 1].source.lastConfirmed == Some(b)
  {
    hide Reconcile, ReconcileAll, NetAt, Synced, CommitScan, OwnedIdentities, AfterLedger;
    var at := Place(row);
    var logged := w1.(ledger := w1.ledger + [row]);
    var chain := ChainAt(w1, DriftKey(at));
    AtTheEnd(w1.ledger, row);
    LoggedScan(w1.store, w1.ledger, |w1.ledger|, row, None, facts);
    LoggedNet(w1.store.chains, row);
    var swept := AfterLedger(logged.store, logged.ledger, None, facts);
    ScanAt(logged, None, facts, swept, at);
    assert Good(DriftKey(at), chain) && RowOk(DriftKey(at), chain[|chain| - 1]);
    SettledStays(at, chain, Obs(w1.holdings, at), Event(row), facts.today);
  }

  /** Preview and confirm keep the store invariant. */
  lemma PreviewThenConfirmOk(w: World, id: EffectId, facts: Facts, later: Facts, newRecordId: string)
    requires StoreOk(w.store)
    ensures StoreOk(PreviewThenConfirm(w, id, facts, later, newRecordId).0.store)
  {
    PreviewQuiet(w, id, None, false, facts);
    var (w1, p) := Preview(w, id, None, false, facts);
    if p.Some? {
      ConfirmKeeps(w1, id, p.value, None, false, later, Ambient(w1.holdings, [Done(newRecordId)], w1.ledger));
    }
  }

  lemma ScanKeepsOwners(w: World, facts: Facts, swept: Store)
    requires swept == AfterLedger(w.store, w.ledger, None, facts)
    ensures OwnedIdentities(Scan(w, w.ledger, None, facts).store.chains) == OwnedIdentities(swept.chains)
    ensures forall k: Key :: k.FlowKey? ==> (k in Scan(w, w.ledger, None, facts).store.chains <==> k in swept.chains)
  {
    assert InScope(w.holdings, None) == w.holdings;
    ReconcileAllKeepsOwners(swept, ScannedIdentities(w.store.prints, w.holdings, None), w.holdings, facts.today);
  }

  lemma OthersInactive(before: Chains, after: Chains, row: LedgerRow)
    requires Flow(row.flow).Completed() && NetAt(before, Place(row)) == None
    requires forall k: Key :: k.FlowKey? && k != RowKey(row) ==>
               ChainOf(after, k) == ChainOf(before, k) && (k in after <==> k in before)
    ensures forall k :: k in after && k != RowKey(row) ==> ActiveAt(k, after[k]) != Some(Place(row))
  {
    forall k | k in after && k != RowKey(row) ensures ActiveAt(k, after[k]) != Some(Place(row)) {
      if k.FlowKey? { assert k in before && after[k] == before[k]; }
    }
  }

  /**
   A second event of the same amount is lost, over any number of days. From a calm holding: the operator edits
   it by `d`, a scan (facts `f1`) accepts the edit, the first event is logged, scanned (`f2`), previewed (`f3`)
   and confirmed (`f4`); then a second event of the same amount is logged, scanned (`f5`), previewed without a
   declared action (`f6`) and confirmed (`f7`). Both versions are applied, each worth `d`, and the holding has
   moved by `d` once.
   */
  lemma EqualEventIsLost(w: World, first: LedgerRow, second: LedgerRow, b: int, f1: Facts, f2: Facts, f3: Facts,
                         f4: Facts, f5: Facts, f6: Facts, f7: Facts, now: Observation, newRecordId: string,
                         w1: World, w2: World, w3: World, w4: World, w5: World)
    requires Calm(w, first, b, None, f2) && Amount(now) == b + Event(first) && NavIsFinal(first, f4)
    requires Synced(w.store.chains, w.ledger, None, f1) && Synced(w.store.chains, w.ledger, None, f5)
    requires DueRow(second, f5) && Place(second) == Place(first) && Event(second) == Event(first)
    requires NavIsFinal(second, f7)
    requires RowKey(second) !in w.store.chains && second.flow.recordId != first.flow.recordId
    requires forall i :: 0 <= i < |w.ledger| ==> w.ledger[i].flow.recordId != second.flow.recordId
    requires w1 == Scan(w.(holdings := Set(w.holdings, Place(first), now)), w.ledger, None, f1)
    requires w2 == Scan(w1.(ledger := w1.ledger + [first]), w1.ledger + [first], None, f2)
    requires w3 == PreviewThenConfirm(w2, FirstId(first), f3, f4, newRecordId).0
    requires w4 == Scan(w3.(ledger := w3.ledger + [second]), w3.ledger + [second], None, f5)
    requires w5 == PreviewThenConfirm(w4, FirstId(second), f6, f7, newRecordId).0
    ensures EndsAt(w3, first, b + Event(first)) && EndsAt(w5, second, b + Event(first))
    ensures PreviewThenConfirm(w4, FirstId(second), f6, f7, newRecordId).1 == AppliedNow
  {
    hide CommitScan, Calm, Discovered, PreviewThenConfirm, EndsAt, OnlyApplied, Accepted, NavIsFinal, Synced;
    EqualEventSecond(w, first, second, b, f1, f2, f3, f4, f5, now, newRecordId, w1, w2, w3);
    DiscoveredEnds(w4, second, b, f6, f7, newRecordId) by {
      AtTheEnd(w3.ledger, second);
      AcceptedThenLogged(w3, |w3.ledger|, second, b, None, f5);
    }
  }

  lemma EqualEventSecond(w: World, first: LedgerRow, second: LedgerRow, b: int, f1: Facts, f2: Facts, f3: Facts,
                         f4: Facts, f5: Facts, now: Observation, newRecordId: string, w1: World, w2: World, w3: World)
    requires Calm(w, first, b, None, f2) && Amount(now) == b + Event(first) && NavIsFinal(first, f4)
    requires Synced(w.store.chains, w.ledger, None, f1) && Synced(w.store.chains, w.ledger, None, f5)
    requires DueRow(second, f5) && Place(second) == Place(first) && Event(second) == Event(first)
    requires RowKey(second) !in w.store.chains && second.flow.recordId != first.flow.recordId
    requires forall i :: 0 <= i < |w.ledger| ==> w.ledger[i].flow.recordId != second.flow.recordId
    requires w1 == Scan(w.(holdings := Set(w.holdings, Place(first), now)), w.ledger, None, f1)
    requires w2 == Scan(w1.(ledger := w1.ledger + [first]), w1.ledger + [first], None, f2)
    requires w3 == PreviewThenConfirm(w2, FirstId(first), f3, f4, newRecordId).0
    ensures EndsAt(w3, first, b + Event(first)) && Accepted(w3, second, b, None, f5) && b + Event(second) >= 0
  {
    hide CommitScan, Discovered, PreviewThenConfirm, EndsAt, OnlyApplied, Accepted, Synced, DueRow, ActiveAt,
         NavIsFinal;
    CalmIsDue(w, first, b, None, f2);
    EditThenScan(w, first, b, None, f1, None, f2, now);
    EditKeepsKeys(w, first, second, f1, f5, now, w1);
    LoggedRecords(w1, first, b, f2, f5, w2);
    LoggedDrift(w1, first, b, f2, w2);
    AtTheEnd(w1.ledger, first);
    AcceptedThenLogged(w1, |w1.ledger|, first, b, None, f2);
    DueIsManual(first, f2);
    DiscoveredEnds(w2, first, b, f3, f4, newRecordId);
    PreviewThenConfirmOk(w2, FirstId(first), f3, f4, newRecordId);
    assert w2.ledger[..|w2.ledger| - 1] == w.ledger;
    StillAccepted(w2, w3, first, second, b, f5);
  }

  lemma DueIsManual(row: LedgerRow, facts: Facts)
    requires DueRow(row, facts)
    ensures Manual(row)
  {
  }

  lemma EditKeepsKeys(w: World, first: LedgerRow, second: LedgerRow, facts: Facts, later: Facts, now: Observation,
                      w1: World)
    requires Manual(first) && Synced(w.store.chains, w.ledger, None, facts)
             && Synced(w.store.chains, w.ledger, None, later)
    requires RowKey(second) !in w.store.chains
    requires w1 == Scan(w.(holdings := Set(w.holdings, Place(first), now)), w.ledger, None, facts)
    ensures RowKey(second) !in w1.store.chains && w1.ledger == w.ledger
            && Synced(w1.store.chains, w1.ledger, None, later)
  {
    hide Synced, CommitScan, AfterLedger;
    var edited := w.(holdings := Set(w.holdings, Place(first), now));
    SyncedScan(w.store, w.ledger, None, facts);
    ScanKeepsOwners(edited, facts, w.store);
    ReconcileKeepsFlows(edited, facts);
    SyncedKept(w.store.chains, w1.store.chains, w.ledger, None, later);
  }

  lemma ReconcileKeepsFlows(w: World, facts: Facts)
    requires AfterLedger(w.store, w.ledger, None, facts) == w.store
    ensures forall k: Key :: k.FlowKey? ==> ChainAt(Scan(w, w.ledger, None, facts), k) == ChainAt(w, k)
  {
    hide AfterLedger;
    var cash := InScope(w.holdings, None);
    ReconcileAllKeepsFlows(w.store, ScannedIdentities(w.store.prints, cash, None), cash, facts.today);
  }

  /** Calm worlds exist: one CNY holding at its confirmed baseline and an empty ledger. */
  lemma CalmExample(row: LedgerRow, facts: Facts, account: string, broker: string, amount: int, recordId: string)
    requires account != "" && broker != "" && broker != FUTU_BROKER && amount != 0 && recordId != ""
    requires row == LedgerRow(account, FlowRecord(recordId, Some(5), account, broker, Some(CNY), Some(amount), true,
                                                  ""))
    requires facts == Facts(9, 1, {(account, 5)}, map[])
    ensures var at := Identity(CNY, account, broker);
            var held := Holding("h", if amount < 0 then -amount else 7);
            forall scope :: Calm(World(Store(map[], map[at := Fingerprint(Some(Some(held)), Some(held))]), [],
                                       map[at := held]), row, held.quantity, scope, facts)
  {
  }

  /**
   After any whole-ledger scan of a settling ledger the ledger is in step with the store, so calm worlds are
   what scans leave.
   */
  lemma ScanLeavesSynced(s: Store, rows: seq<LedgerRow>, cash: Holdings, facts: Facts)
    requires Settles(s.chains, rows) && forall k :: k in s.chains ==> s.chains[k] != []
    ensures Synced(CommitScan(s, rows, cash, None, facts).store.chains, rows, None, facts)
  {
    hide RowsSettled, Synced, ScanRows, SweepMissing;
    var swept := AfterLedger(s, rows, None, facts);
    var t := CommitScan(s, rows, cash, None, facts).store;
    SettlingRows(s, rows, facts);
    ReconcileAllKeepsFlows(swept, ScannedIdentities(s.prints, cash, None), cash, facts.today);
    LedgerSynced(s, rows, facts, t.chains);
  }

  lemma LedgerSynced(s: Store, rows: seq<LedgerRow>, facts: Facts, chains: Chains)
    requires RowsSettled(AfterLedger(s, rows, None, facts).chains, rows, None, facts)
    requires forall k :: k in s.chains ==> s.chains[k] != []
    requires forall k: Key :: k.FlowKey? ==> ChainOf(chains, k) == ChainOf(AfterLedger(s, rows, None, facts).chains, k)
    ensures Synced(chains, rows, None, facts)
  {
    var seen := SeenRecords(rows);
    var listed := ScanRows(s.chains, rows, None, facts).0;
    ScanRowsNonEmpty(s.chains, rows, None, facts);
    forall i | 0 <= i < |rows|
      ensures ScanRow(ChainOf(chains, RowKey(rows[i])), rows[i], None, facts)
              == (ChainOf(chains, RowKey(rows[i])), Unchanged)
    {
      assert ChainOf(chains, RowKey(rows[i])) == ChainOf(AfterLedger(s, rows, None, facts).chains, RowKey(rows[i]));
    }
    forall k | k in chains && IsMissing(k, seen) && chains[k] != [] ensures ScanMissing(chains[k], None) == chains[k] {
      assert chains[k] == ChainOf(AfterLedger(s, rows, None, facts).chains, k);
      assert k in listed && chains[k] == ScanMissing(listed[k], None);
      ScanMissingTwice(listed[k], None);
    }
  }

  // ---------- what an active effect explains ----------

  /**
   The drift an active effect is credited with is the sum of all its deltas. That is its delta at
   its own identity exactly when it does not undo a non-zero amount somewhere else.
   */
  lemma NetIsTheDeltaHere(chain: Chain, at: Identity)
    requires chain != [] && chain[|chain| - 1].source.At() == Some(at)
    requires Operations(PreviousApplied(chain), chain[|chain| - 1].source).Some?
    ensures var previous := PreviousApplied(chain);
            var here := DeltaAt(Operations(previous, chain[|chain| - 1].source).value, at);
            ActiveDelta(chain) == here <==>
              previous.None? || SamePlace(previous.value, chain[|chain| - 1].source)
                  || previous.value.Signed() == Some(0)
  {
    var previous := PreviousApplied(chain);
    var current := chain[|chain| - 1].source;
    if previous.Some? && !SamePlace(previous.value, current) {
      var a := WithoutZero(Operation(previous.value, -previous.value.Signed().value));
      var b := WithoutZero(Operation(current, current.Signed().value));
      DeltaAtConcat(a, b, at);
      DeltaSumConcat(a, b);
      assert DeltaSum(a) == -previous.value.Signed().value by { assert a != [] ==> a[1..] == []; }
      assert DeltaSum(b) == current.Signed().value by { assert b != [] ==> b[1..] == []; }
      assert DeltaAt(a, at) == 0 by { assert a != [] ==> a[1..] == []; }
      assert DeltaAt(b, at) == current.Signed().value by { assert b != [] ==> b[1..] == []; }
    } else {
      var ops := Operations(previous, current).value;
      assert ops[1..] == [] && DeltaSum(ops[1..]) == 0 && DeltaAt(ops[1..], at) == 0;
    }
  }

  lemma {:induction false} DeltaSumConcat(a: seq<Operation>, b: seq<Operation>)
    ensures DeltaSum(a + b) == DeltaSum(a) + DeltaSum(b)
  {
    if a == [] {
      assert a + b == b;
    } else {
      DeltaSumConcat(a[1..], b);
      assert (a + b)[1..] == a[1..] + b;
    }
  }

  /** The event `left` is applied where it sits, which holds `a`; `at` holds its baseline `b`. */
  function MovingWorld(left: LedgerRow, at: Identity, targets: seq<Target>, a: Holding, b: Holding): World
    requires Flow(left.flow).Completed()
  {
    World(Store(map[RowKey(left) := [Effect(1, Flow(left.flow), Applied, Apply, targets, [], None)]],
                map[Place(left) := Fingerprint(Some(Some(a)), Some(a)), at := Fingerprint(Some(Some(b)), Some(b))]),
          [left], map[Place(left) := a, at := b])
  }

  /** The chain of the moved row, and what it is credited with where the row is now. */
  lemma MovedNet(w: World, left: LedgerRow, moved: LedgerRow, targets: seq<Target>, facts: Facts)
    requires Manual(left) && Manual(moved) && RowKey(moved) == RowKey(left)
    requires Place(moved) != Place(left) && Event(moved) == Event(left) && w.ledger == [moved]
    requires w.store.chains == map[RowKey(left) := [Effect(1, Flow(left.flow), Applied, Apply, targets, [], None)]]
    ensures var chain := ChainAt(Scan(w, [moved], None, facts), RowKey(moved));
            && |chain| == 2 && chain[1].source == Flow(moved.flow) && chain[1].state.Unresolved()
            && PreviousApplied(chain) == Some(Flow(left.flow))
            && Operations(PreviousApplied(chain), chain[1].source).Some?
            && ActiveDelta(chain) == 0
  {
    hide CommitScan, ScanRow;
    var applied := [Effect(1, Flow(left.flow), Applied, Apply, targets, [], None)];
    ScannedChain(w, [moved], None, facts, 0);
    EditedVersion(applied, moved, None, facts);
    var d := Event(left);
    var ops := [Operation(Flow(left.flow), -d), Operation(Flow(moved.flow), d)];
    assert d != 0 && !SamePlace(Flow(left.flow), Flow(moved.flow));
    assert WithoutZero(ops[0]) + WithoutZero(ops[1]) == ops;
    assert Operations(Some(Flow(left.flow)), Flow(moved.flow)) == Some(ops);
    assert ops[1..] == [ops[1]] && [ops[1]][1..] == [];
    assert DeltaSum([ops[1]]) == d && DeltaSum(ops) == 0;
  }

  lemma OnlyRecord(w: World, rows: seq<LedgerRow>, facts: Facts, key: Key, k: Key)
    requires key.FlowKey? && w.store.chains.Keys == {key} && k.FlowKey? && k != key
    requires forall i :: 0 <= i < |rows| ==> RowKey(rows[i]) == key
    ensures k !in Scan(w, rows, None, facts).store.chains
  {
    hide ScanRows, Reconcile, NetAt, OwnedIdentities;
    ScanRowsElsewhere(w.store.chains, rows, None, facts, k);
  }

  /**
   What that costs. An applied event is moved to another identity, and the operator puts its amount into the
   holding there. The correction is worth that amount there, so the edit is its effect; but it undoes the same
   amount where the event was, the net it is credited with is zero, and the scan takes the edit for an external
   change: it becomes the confirmed baseline while the correction is still to be applied.
   */
  lemma MoveEditAccepted(left: LedgerRow, moved: LedgerRow, targets: seq<Target>, a: Holding, b: Holding, now: Holding,
                         facts: Facts)
    requires Manual(left) && Manual(moved) && RowKey(moved) == RowKey(left)
    requires Place(moved) != Place(left) && Event(moved) == Event(left)
    requires now.quantity == b.quantity + Event(moved)
    ensures var at := Place(moved);
            var t := Run(MovingWorld(left, at, targets, a, b),
                         [EditLedger([moved]), EditHolding(at, Some(now)), ScanStep([moved], None, facts)]);
            var chain := ChainAt(t, RowKey(moved));
            && |chain| == 2 && chain[1].state.Unresolved() && Operations(PreviousApplied(chain), chain[1].source).Some?
            && DeltaAt(Operations(PreviousApplied(chain), chain[1].source).value, at) == Event(moved)
            && NetAt(t.store.chains, at) == Some(0)
            && ConfirmedOf(t.store.prints, at) == Some(Some(now))
  {
    hide CommitScan, NetAt, OwnedIdentities, ActiveDelta;
    var at, key := Place(moved), RowKey(moved);
    var w0 := MovingWorld(left, at, targets, a, b);
    var w := w0.(ledger := [moved], holdings := Set(w0.holdings, at, Some(now)));
    var t := Scan(w, [moved], None, facts);
    MovedNet(w, left, moved, targets, facts);
    OperationsAreTheChange(Some(Flow(left.flow)), Flow(moved.flow), at);
    NetOfOne(t.store.chains, key, at) by {
      forall k: Key | k.FlowKey? && k != key ensures k !in t.store.chains { OnlyRecord(w, [moved], facts, key, k); }
    }
    MovingOwners(w.store.chains, key);
    ScanBaseline(w, [moved], None, facts, at);
    assert InScope(w.holdings, None) == w.holdings;
    assert Event(moved) != 0;
    RunThree(w0, EditLedger([moved]), EditHolding(at, Some(now)), ScanStep([moved], None, facts));
    assert t == Run(w0, [EditLedger([moved]), EditHolding(at, Some(now)), ScanStep([moved], None, facts)]);
  }

  lemma MovingOwners(chains: Chains, key: Key)
    requires chains.Keys == {key} && |chains[key]| == 1 && chains[key][0].state == Applied
    ensures OwnedIdentities(chains) == {}
  {
  }

  /** The net where a single record is active. */
  lemma NetOfOne(chains: Chains, key: Key, at: Identity)
    requires key in chains && ActiveAt(key, chains[key]) == Some(at)
    requires forall k: Key :: k.FlowKey? && k != key ==> k !in chains
    ensures NetAt(chains, at) == Some(ActiveDelta(chains[key]))
  {
    assert ActiveDeltas(chains, at) == map[key := ActiveDelta(chains[key])];
    TotalSingle(ActiveDeltas(chains, at), key);
  }

  // ---------- Futu drift that the gate does not see ----------

  /** A world with one cash holding, nothing in the ledger and no record but this holding's external changes. */
  ghost predicate Lone(w: World, id: Identity) {
    && w.ledger == [] && w.holdings.Keys == {id} && w.store.prints.Keys == {id}
    && (w.store.chains == map[] || w.store.chains.Keys == {DriftKey(id)})
    && var chain := ChainAt(w, DriftKey(id)); chain != [] ==> chain[|chain| - 1].state in {Pending, Applied}
  }

  /** What a scan does there. */
  lemma LoneScan(w: World, id: Identity, scope: Option<string>, facts: Facts)
    requires Lone(w, id) && (scope.None? || scope.value == id.account)
    ensures var r := Reconcile(id, ConfirmedOf(w.store.prints, id), ChainAt(w, DriftKey(id)), Obs(w.holdings, id),
                               false, None, facts.today);
            Scan(w, [], scope, facts)
            == w.(store := Store(if r.chain == [] then w.store.chains else map[DriftKey(id) := r.chain],
                                 map[id := r.mark]))
  {
    hide Reconcile, AfterLedger, OwnedIdentities, NetAt, ScannedIdentities, ReconcileAll;
    var cash := InScope(w.holdings, scope);
    assert cash == w.holdings;
    LoneLedger(w, id, scope, facts);
    LoneReconciled(w, id, facts.today);
  }

  lemma LoneLedger(w: World, id: Identity, scope: Option<string>, facts: Facts)
    requires Lone(w, id) && (scope.None? || scope.value == id.account)
    ensures AfterLedger(w.store, [], scope, facts) == w.store
            && ScannedIdentities(w.store.prints, w.holdings, scope) == {id}
    ensures OwnedIdentities(w.store.chains) == {} && NetAt(w.store.chains, id) == None
  {
  }

  lemma LoneReconciled(w: World, id: Identity, today: int)
    requires Lone(w, id)
    ensures var r := ReconcileAt(w.store, w.holdings, today, id);
            ReconcileAll(w.store, {id}, w.holdings, today)
            == Store(if r.chain == [] then w.store.chains else map[DriftKey(id) := r.chain], map[id := r.mark])
  {
    hide Reconcile, OwnedIdentities, NetAt;
    LoneReconcile(w, id, today);
    var r := ReconcileAt(w.store, w.holdings, today, id);
    var t := ReconcileAll(w.store, {id}, w.holdings, today);
    assert t.prints == map[id := r.mark];
    assert t.chains == if r.chain == [] then w.store.chains else map[DriftKey(id) := r.chain];
  }

  lemma LoneReconcile(w: World, id: Identity, today: int)
    requires Lone(w, id)
    ensures ReconcileAt(w.store, w.holdings, today, id).chain == [] ==> ChainAt(w, DriftKey(id)) == []
    ensures DriftKey(id) in w.store.chains && ChainAt(w, DriftKey(id)) == [] ==>
              w.store.chains == map[DriftKey(id) := []]
  {
  }

  /** The external change of the first drift, as the scan of day `day` records it. */
  function FutuDrift(id: Identity, b: Holding, now: Holding, day: int, state: State): Effect {
    Effect(1, Drift(id, Some(now), day, Some(b.quantity)), state, Apply, [], [], None)
  }

  function LoneWorld(id: Identity, b: Holding, held: Holding, observed: Holding, chains: Chains): World {
    World(Store(chains, map[id := Fingerprint(Some(Some(b)), Some(observed))]), [], map[id := held])
  }

  /** The three scans of a drift that goes, comes back and goes again. */
  lemma DriftSeen(id: Identity, b: Holding, now: Holding, facts: Facts)
    requires id.broker == FUTU_BROKER && now != b
    ensures Scan(LoneWorld(id, b, now, b, map[]), [], None, facts)
            == LoneWorld(id, b, now, now, map[DriftKey(id) := [FutuDrift(id, b, now, facts.today, Pending)]])
  {
    hide CommitScan, NetAt, OwnedIdentities;
    LoneScan(LoneWorld(id, b, now, b, map[]), id, None, facts);
    assert AddVersion([], Drift(id, Some(now), facts.today, Some(b.quantity)), Pending, Apply)
           == [FutuDrift(id, b, now, facts.today, Pending)];
  }

  lemma DriftGone(id: Identity, b: Holding, now: Holding, day: int, facts: Facts)
    requires id.broker == FUTU_BROKER && now != b
    ensures Scan(LoneWorld(id, b, b, now, map[DriftKey(id) := [FutuDrift(id, b, now, day, Pending)]]), [], None, facts)
            == LoneWorld(id, b, b, b, map[DriftKey(id) := [FutuDrift(id, b, now, day, Applied)]])
  {
    hide CommitScan, NetAt, OwnedIdentities;
    var drift := FutuDrift(id, b, now, day, Pending);
    LoneScan(LoneWorld(id, b, b, now, map[DriftKey(id) := [drift]]), id, None, facts);
    assert SetLatest([drift], drift.(state := Applied)) == [FutuDrift(id, b, now, day, Applied)];
  }

  lemma DriftBack(id: Identity, b: Holding, now: Holding, day: int, facts: Facts)
    requires id.broker == FUTU_BROKER && now != b
    ensures Scan(LoneWorld(id, b, now, b, map[DriftKey(id) := [FutuDrift(id, b, now, day, Applied)]]), [],
                 Some(id.account), facts)
            == LoneWorld(id, b, now, now, map[DriftKey(id) := [FutuDrift(id, b, now, day, Applied)]])
  {
    hide CommitScan, NetAt, OwnedIdentities;
    LoneScan(LoneWorld(id, b, now, b, map[DriftKey(id) := [FutuDrift(id, b, now, day, Applied)]]), id,
             Some(id.account), facts);
  }

  /**
   Futu drift that the gate does not see. From a store with nothing but a confirmed Futu baseline `b`:
   the holding is changed, scanned, put back, scanned, and changed again in the same way. It differs from
   its baseline, and the gate passes for every NAV date.
   */
  lemma FutuDriftHidden(id: Identity, b: Holding, now: Holding, f1: Facts, f2: Facts, f3: Facts, navDate: int)
    requires id.broker == FUTU_BROKER && now != b
    ensures var steps := [EditHolding(id, Some(now)), ScanStep([], None, f1), EditHolding(id, Some(b)),
                          ScanStep([], None, f2),
                          EditHolding(id, Some(now))];
            var w := Run(LoneWorld(id, b, b, b, map[]), steps);
            && ConfirmedOf(w.store.prints, id) == Some(Some(b)) && Obs(w.holdings, id) == Some(now)
            && GatePasses(w, id.account, navDate, f3)
            && ConfirmedOf(Scan(w, w.ledger, Some(id.account), f3).store.prints, id) == Some(Some(b))
  {
    hide CommitScan, Blockers;
    var w0 := LoneWorld(id, b, b, b, map[]);
    var w := LoneWorld(id, b, now, b, map[DriftKey(id) := [FutuDrift(id, b, now, f1.today, Applied)]]);
    DriftSeen(id, b, now, f1);
    DriftGone(id, b, now, f1.today, f2);
    DriftBack(id, b, now, f1.today, f3);
    assert Set(w0.holdings, id, Some(now)) == map[id := now] && Set(map[id := now], id, Some(b)) == map[id := b];
    RunFour(w0, EditHolding(id, Some(now)), ScanStep([], None, f1), EditHolding(id, Some(b)), ScanStep([], None, f2));
    var four := [EditHolding(id, Some(now)), ScanStep([], None, f1), EditHolding(id, Some(b)), ScanStep([], None, f2)];
    RunAppend(w0, four, EditHolding(id, Some(now)));
    assert four + [EditHolding(id, Some(now))]
        == [EditHolding(id, Some(now)), ScanStep([], None, f1), EditHolding(id, Some(b)), ScanStep([], None, f2),
            EditHolding(id, Some(now))];
    AppliedPasses(id.account, navDate, DriftKey(id), FutuDrift(id, b, now, f1.today, Applied),
                  Scan(w, w.ledger, Some(id.account), f3));
  }

  lemma {:induction false} RunAppend(w: World, steps: seq<Step>, last: Step)
    ensures Run(w, steps + [last]) == Next(Run(w, steps), last)
    decreases |steps|
  {
    hide Next;
    if steps == [] {
      assert [] + [last] == [last] && [last][1..] == [];
      assert Run(Next(w, last), []) == Next(w, last);
    } else {
      assert (steps + [last])[1..] == steps[1..] + [last] && (steps + [last])[0] == steps[0];
      RunAppend(Next(w, steps[0]), steps[1..], last);
    }
  }

  lemma AppliedPasses(account: string, navDate: int, key: Key, settled: Effect, w: World)
    requires w.store.chains == map[key := [settled]] && settled.state == Applied
    ensures Blockers(w, account, navDate) == {}
  {
  }
}
