/**
 Two equal events at one holding, the second confirmed while the write of the first is in flight: one of them
 is lost.
 */
module EffectOverlap {
  import opened EffectModel
  import opened Optional
  import opened EffectScan
  import opened EffectScanLaws
  import opened EffectPreview
  import opened EffectConfirm
  import opened EffectRuns
  import opened EffectOrder
  import opened EffectRecovery

  /** Two rows of one holding with the same event. */
  predicate Twins(first: LedgerRow, second: LedgerRow) {
    && Manual(first) && Manual(second) && Place(first) == Place(second) && Event(first) == Event(second)
    && first.flow.recordId != second.flow.recordId
  }

  /** Preview, and a confirmation whose write fails leaving `after`. */
  function PreviewThenFail(w: World, id: EffectId, f1: Facts, f2: Facts, after: Observation): (World, Verdict) {
    var (w1, p) := Preview(w, id, None, false, f1);
    if p.None? then (w1, Refused)
    else Confirm(w1, id, p.value, None, false, f2, Ambient(w1.holdings, [Failed(after)], w1.ledger))
  }

  lemma FirstFails(w: World, first: LedgerRow, b: int, f1: Facts, f2: Facts, p: Payload, after: Observation)
    requires Discovered(w, first, b) && Manual(first) && NavIsFinal(first, f2) && b + Event(first) >= 0
    requires FlowPreview(w.store, FirstId(first), FirstVersion(first), None, None, false, w.holdings, f1.quotes)
             == Some(p)
    ensures PreviewThenFail(w, FirstId(first), f1, f2, after)
            == (WithChain(w.(holdings := Set(w.holdings, Place(first), after)), RowKey(first),
                          [FailedVersion(first, p, false)]),
                Compensating(0))
  {
    hide FlowPreview, Confirm, Preview, Discovered, NavIsFinal;
    DiscoveredPreviewed(w, first, b, f1, p);
    var w1 := WithChain(w, RowKey(first), [PreviewedVersion(first, p)]);
    DiscoveredFails(w, first, b, f1, f2, p, w1, after);
    assert WithChain(w1.(holdings := Set(w.holdings, Place(first), after)), RowKey(first),
                     [FailedVersion(first, p, false)])
        == WithChain(w.(holdings := Set(w.holdings, Place(first), after)), RowKey(first),
                     [FailedVersion(first, p, false)]);
  }

  /** The second event is still discovered, whether or not the write of the first landed. */
  lemma SecondStillDiscovered(w: World, first: LedgerRow, second: LedgerRow, b: int, chain: Chain, after: Observation)
    requires Twins(first, second) && Discovered(w, first, b) && Discovered(w, second, b)
             && Recoverable(w, first, b, after)
    ensures Discovered(WithChain(w.(holdings := Set(w.holdings, Place(first), after)), RowKey(first), chain), second, b)
  {
    var w' := WithChain(w.(holdings := Set(w.holdings, Place(first), after)), RowKey(first), chain);
    assert ChainAt(w', DriftKey(Place(second))) == ChainAt(w, DriftKey(Place(second)));
    assert ChainAt(w', RowKey(second)) == ChainAt(w, RowKey(second));
    assert Obs(w'.holdings, Place(second)) == after;
  }

  lemma RetryElsewhere(w: World, id: EffectId, outcomes: seq<Outcome>, facts: Facts, key: Key)
    requires key != id.key
    ensures ChainAt(Retry(w, id, outcomes, facts), key) == ChainAt(w, key)
  {
    hide Refresh, RetryTargets, ConfirmPrints, MatchingPrefix, LastApplied;
    assert ChainAt(RunTask(w, id, outcomes), key) == ChainAt(w, key);
  }

  /** The retry of the first finds its target in place, and leaves the holding and the second version alone. */
  lemma FirstLands(w: World, first: LedgerRow, second: LedgerRow, p: Payload, amount: int, outcome: Outcome,
                   facts: Facts)
    requires Twins(first, second) && Failing(w, first, p, amount) && EndsAt(w, second, amount)
    ensures var w' := Retry(w, FirstId(first), [outcome], facts);
              EndsAt(w', first, amount) && EndsAt(w', second, amount)
  {
    hide RunTask, Finalize, Failing, FailedVersion;
    var w1 := RunTask(w, FirstId(first), [outcome]);
    FailingMatches(w, first, p, amount);
    RunTaskSingle(w, first, p, amount, outcome);
    FailingRow(w, first, p, amount);
    FinalizeEnds(w1, first, p, amount, facts);
    RetryElsewhere(w, FirstId(first), [outcome], facts, RowKey(second));
  }

  lemma FailingRow(w: World, row: LedgerRow, p: Payload, amount: int)
    requires Failing(w, row, p, amount)
    ensures Manual(row) && FindRow(w.ledger, row.flow.recordId) == Some(row)
    ensures |p.targets| == 1 && p.targets[0].identity == Place(row) && p.targets[0].amount == amount
  {
  }

  lemma FailingMatches(w: World, row: LedgerRow, p: Payload, amount: int)
    requires Failing(w, row, p, amount) && Place(row) in w.holdings && w.holdings[Place(row)].quantity == amount
    ensures Matches(w.holdings, p.targets[0])
  {
  }

  /**
   Overlapping writes lose an event. Two equal events `d` are discovered at one holding with baseline `b`. The
   confirmed write of the first fails, leaving `b` or `b + d`. The second is previewed, with nothing declared, and
   confirmed. The retry of the first, whatever its own write would do, finds its target in place. Both versions
   are applied, and the holding and its confirmed baseline are `b + d`.
   */
  lemma OverlappingWritesLoseAnEvent(w: World, first: LedgerRow, second: LedgerRow, b: int, f1: Facts, f2: Facts,
                                     f3: Facts,
                                     f4: Facts, f5: Facts, after: Observation, outcome: Outcome, newRecordId: string)
    requires Twins(first, second) && Discovered(w, first, b) && Discovered(w, second, b) && b + Event(first) >= 0
    requires NavIsFinal(first, f2) && NavIsFinal(second, f4) && Recoverable(w, first, b, after)
    ensures var (w1, v1) := PreviewThenFail(w, FirstId(first), f1, f2, after);
            var (w2, v2) := PreviewThenConfirm(w1, FirstId(second), f3, f4, newRecordId);
            var w3 := Retry(w2, FirstId(first), [outcome], f5);
            && v1 == Compensating(0) && v2 == AppliedNow
            && EndsAt(w3, first, b + Event(first)) && EndsAt(w3, second, b + Event(first))
  {
    hide FlowPreview, PreviewThenFail, PreviewThenConfirm, Discovered, Retry, EndsAt, OnlyApplied, NavIsFinal,
        Failing, Recoverable;
    DiscoveredPreview(w, first, b, FirstVersion(first), f1);
    var p := FlowPreview(w.store, FirstId(first), FirstVersion(first), None, None, false, w.holdings, f1.quotes).value;
    FirstFails(w, first, b, f1, f2, p, after);
    var chain := [FailedVersion(first, p, false)];
    var w1 := WithChain(w.(holdings := Set(w.holdings, Place(first), after)), RowKey(first), chain);
    SecondStillDiscovered(w, first, second, b, chain, after);
    DiscoveredEnds(w1, second, b, f3, f4, newRecordId);
    var w2 := PreviewThenConfirm(w1, FirstId(second), f3, f4, newRecordId).0;
    LedgerStill(w, first, b);
    StillFailing(w1, w2, first, second, p, b + Event(first));
    FirstLands(w2, first, second, p, b + Event(first), outcome, f5);
  }

  lemma StillFailing(w1: World, w2: World, first: LedgerRow, second: LedgerRow, p: Payload, amount: int)
    requires Twins(first, second) && ChainAt(w1, RowKey(first)) == [FailedVersion(first, p, false)]
    requires FindRow(w1.ledger, first.flow.recordId) == Some(first)
    requires |p.targets| == 1 && p.targets[0].identity == Place(first) && p.targets[0].amount == amount
    requires OnlyApplied(w1, w2, second) && EndsAt(w2, second, amount)
    ensures Failing(w2, first, p, amount)
  {
    assert ChainAt(w2, RowKey(first)) == ChainAt(w1, RowKey(first));
  }

  /** Such a start is one scan away from a store with only a confirmed baseline and a ledger with the two rows. */
  lemma TwinsAreDiscovered(first: LedgerRow, second: LedgerRow, b: Holding, facts: Facts)
    requires Twins(first, second) && DueRow(first, facts) && DueRow(second, facts)
    ensures var at := Place(first);
            var w := World(Store(map[], map[at := Fingerprint(Some(Some(b)), Some(b))]), [first, second], map[at := b]);
            var t := Scan(w, w.ledger, None, facts);
            Discovered(t, first, b.quantity) && Discovered(t, second, b.quantity)
  {
    hide ScanRow, CommitScan, AfterLedger, NetAt, OwnedIdentities;
    var at := Place(first);
    var rows := [first, second];
    var w := World(Store(map[], map[at := Fingerprint(Some(Some(b)), Some(b))]), rows, map[at := b]);
    var chains := map[RowKey(first) := [FirstVersion(first)], RowKey(second) := [FirstVersion(second)]];
    TwinsLedger(first, second, w.store.prints, facts);
    ScanAt(w, None, facts, Store(chains, w.store.prints), at);
    var t := Scan(w, rows, None, facts);
    assert ChainAt(t, RowKey(first)) == [FirstVersion(first)] && ChainAt(t, RowKey(second)) == [FirstVersion(second)];
    assert FindRow(rows, second.flow.recordId) == Some(second) by { assert rows[1..] == [second]; }
  }

  lemma TwinsLedger(first: LedgerRow, second: LedgerRow, prints: Prints, facts: Facts)
    requires Twins(first, second) && DueRow(first, facts) && DueRow(second, facts)
    ensures AfterLedger(Store(map[], prints), [first, second], None, facts)
            == Store(map[RowKey(first) := [FirstVersion(first)], RowKey(second) := [FirstVersion(second)]], prints)
  {
    hide LastApplied;
    var rows := [first, second];
    assert ScanRow([], first, None, facts).0 == [FirstVersion(first)]
           && ScanRow([], second, None, facts).0 == [FirstVersion(second)];
    assert rows[..1] == [first] && [first][..0] == [];
    assert ScanRows(map[], [], None, facts).0 == map[];
    assert ScanRows(map[], [first], None, facts).0 == map[RowKey(first) := [FirstVersion(first)]];
    var listed := ScanRows(map[], rows, None, facts).0;
    assert listed == map[RowKey(first) := [FirstVersion(first)], RowKey(second) := [FirstVersion(second)]];
    RowIsSeen(rows, 0);
    RowIsSeen(rows, 1);
    assert SweepMissing(listed, listed.Keys, SeenRecords(rows), None) == listed;
  }
}
