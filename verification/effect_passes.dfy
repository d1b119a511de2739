/** When a NAV gate passes, exactly; and that a row only recorded and an accepted edit do not stop it. */
module EffectPasses {
  import opened EffectModel
  import opened Optional
  import opened EffectScan
  import opened EffectScanLaws
  import opened EffectPreview
  import opened EffectConfirm
  import opened EffectInvariants
  import opened EffectRuns
  import opened EffectGate
  import opened EffectMoves
  import opened EffectOrder
  import opened EffectDiscovery
  import opened EffectVerdicts

  // ---------- the gate, both ways ----------

  /** Version `n` is the newest applied one, and this is its source. */
  predicate AppliedLast(chain: Chain, source: Source, n: nat) {
    && n < |chain| && chain[n].state == Applied && chain[n].source == source
    && forall i | n < i < |chain| :: chain[i].state != Applied
  }

  /** LastApplied finds the newest applied version; of a chain without its newest row it is the one to undo. */
  lemma {:induction false} LastAppliedIsNewest(chain: Chain)
    ensures LastApplied(chain).None? <==> forall i :: 0 <= i < |chain| ==> chain[i].state != Applied
    ensures LastApplied(chain).Some? ==> exists n: nat :: AppliedLast(chain, LastApplied(chain).value, n)
  {
    if chain != [] {
      if chain[|chain| - 1].state == Applied {
        assert AppliedLast(chain, chain[|chain| - 1].source, |chain| - 1);
      } else {
        var front := chain[..|chain| - 1];
        LastAppliedIsNewest(front);
        assert forall i :: 0 <= i < |front| ==> front[i] == chain[i];
        if LastApplied(chain).Some? {
          var n: nat :| AppliedLast(front, LastApplied(chain).value, n);
          assert AppliedLast(chain, LastApplied(chain).value, n);
        }
      }
    }
  }

  /** Nothing is left to do for it before the NAV of that date. */
  predicate SettledBy(e: Effect, navDate: int) {
    || e.state in {Applied, RecordOnly, Superseded}
    || (e.state == Scheduled && e.source.Date().Some? && navDate < e.source.Date().value)
  }

  /** The newest version of a record concerns the account. */
  predicate Concerns(key: Key, chain: Chain, ledger: seq<LedgerRow>, account: string)
    requires chain != []
  {
    var e := chain[|chain| - 1];
    || account == e.source.Account()
    || (key.FlowKey? && PreviousApplied(chain).Some? && account == PreviousApplied(chain).value.Account())
    || (key.FlowKey? && e.state == CompensationPending && account == CurrentAccount(ledger, key.recordId))
    || (exists t | t in e.targets :: account == t.identity.account)
  }

  /**
   The NAV gate, exactly: after its scan of the account, it passes if and only if every newest version that concerns
   the account is applied, only recorded or superseded, or is scheduled for a date after the NAV.
   */
  lemma GateExactly(w: World, account: string, navDate: int, facts: Facts)
    requires account != ""
    ensures var t := Scan(w, w.ledger, Some(account), facts);
            GatePasses(w, account, navDate, facts) <==>
              forall k :: k in t.store.chains && t.store.chains[k] != []
                          && Concerns(k, t.store.chains[k], w.ledger, account) ==>
                            SettledBy(t.store.chains[k][|t.store.chains[k]| - 1], navDate)
  {
    hide CommitScan, LastApplied, CurrentAccount;
    var t := Scan(w, w.ledger, Some(account), facts);
    forall k | k in t.store.chains && t.store.chains[k] != []
      ensures k in Blockers(t, account, navDate) <==>
              Concerns(k, t.store.chains[k], w.ledger, account)
              && !SettledBy(t.store.chains[k][|t.store.chains[k]| - 1], navDate)
    {
      ConcernsExactly(k, t.store.chains[k], w.ledger, account);
      SettledExactly(t.store.chains[k][|t.store.chains[k]| - 1], navDate);
    }
    hide Blockers, Concerns, SettledBy;
    NoBlockers(t, account, navDate);
  }

  lemma NoBlockers(w: World, account: string, navDate: int)
    ensures Blockers(w, account, navDate) == {} <==>
              forall k :: k in w.store.chains && w.store.chains[k] != [] ==> k !in Blockers(w, account, navDate)
  {
    hide EffectAccounts, Blocks;
    if Blockers(w, account, navDate) != {} { var k :| k in Blockers(w, account, navDate); }
  }

  lemma ConcernsExactly(key: Key, chain: Chain, ledger: seq<LedgerRow>, account: string)
    requires chain != [] && account != ""
    ensures account in EffectAccounts(key, chain, ledger) <==> Concerns(key, chain, ledger, account)
  {
    hide LastApplied, CurrentAccount;
    assert forall t :: t in chain[|chain| - 1].targets && account == t.identity.account ==>
        account in (set t' | t' in chain[|chain| - 1].targets :: t'.identity.account);
  }

  lemma SettledExactly(e: Effect, navDate: int)
    ensures Blocks(e, navDate) <==> !SettledBy(e, navDate)
  {
  }

  // ---------- a row that is only recorded ----------

  /** The payload of a version that is only recorded. */
  function KeptPayload(row: LedgerRow): Payload {
    Payload(FirstId(row), Flow(row.flow), Keep, false, None, [], [])
  }

  function KeptVersion(row: LedgerRow, state: State): Effect {
    Effect(1, Flow(row.flow), state, Keep, [], [], None)
  }

  /** A new complete row from before the cutover, not in the future, in a ledger with unique ids. */
  ghost predicate Historical(w: World, n: nat, facts: Facts) {
    && WorldOk(w) && UniqueRows(w.ledger) && n < |w.ledger| && !Incomplete(w.ledger[n].flow)
    && w.ledger[n].flow.date.value < facts.cutover && w.ledger[n].flow.date.value <= facts.today
    && ChainAt(w, RowKey(w.ledger[n])) == []
  }

  lemma {:induction false} FindUnique(rows: seq<LedgerRow>, n: nat)
    requires n < |rows| && UniqueRows(rows)
    ensures FindRow(rows, rows[n].flow.recordId) == Some(rows[n])
  {
    FindRowIsFirst(rows, rows[n].flow.recordId);
  }

  lemma HistoricalScanned(w: World, scope: Option<string>, facts: Facts, n: nat)
    requires Historical(w, n, facts) && (scope.Some? ==> w.ledger[n].rawAccount == scope.value)
    ensures ChainAt(Scan(w, w.ledger, scope, facts), RowKey(w.ledger[n])) == [KeptVersion(w.ledger[n], Pending)]
  {
    hide CommitScan, ScanRow, UniqueRows, WorldOk;
    var row := w.ledger[n];
    ScannedChain(w, w.ledger, scope, facts, n);
    ScannedRowExactly([], row, scope, facts, Pending, Keep);
    var next := ScanRow([], row, scope, facts).0;
    FirstVersionIsOne(row, scope, facts);
    assert next == [next[0]];
  }

  lemma FirstVersionIsOne(row: LedgerRow, scope: Option<string>, facts: Facts)
    ensures var next := ScanRow([], row, scope, facts).0; next != [] ==> next[0].version == 1
  {
  }

  lemma KeptPreviewed(w: World, row: LedgerRow, facts: Facts)
    requires ChainAt(w, RowKey(row)) == [KeptVersion(row, Pending)] && FindRow(w.ledger, row.flow.recordId) == Some(row)
    ensures Preview(w, FirstId(row), None, false, facts)
            == (WithChain(w, RowKey(row), [KeptVersion(row, State.Previewed)]), Some(KeptPayload(row)))
  {
    hide Refresh, BuildPreview;
    var e := KeptVersion(row, Pending);
    StillCurrent(row, e, w.ledger, facts);
    PreviewableExactly(w.store, FirstId(row), e, PreviousApplied([e]), None, false, w.holdings, facts.quotes);
    assert SetLatest([e], KeptVersion(row, State.Previewed)) == [KeptVersion(row, State.Previewed)];
  }

  /**
   A historical row, from discovery through its preview to the confirmation of the hash it gave, on any days and
   whatever the second read of the holdings shows: the answer is kept, the version is only recorded, no baseline moves,
   no holding is written, and the version blocks no NAV of any account.
   */
  lemma HistoricalRowIsKept(w: World, scope: Option<string>, n: nat, f1: Facts, f2: Facts, f3: Facts, f4: Facts,
                            ambient: Ambient, account: string, navDate: int)
    requires Historical(w, n, f1) && n < |w.ledger| && account != ""
    requires scope.Some? ==> w.ledger[n].rawAccount == scope.value
    ensures var row := w.ledger[n];
            var w1 := Scan(w, w.ledger, scope, f1);
            var (w2, p) := Preview(w1, FirstId(row), None, false, f2);
            var (w3, v) := Confirm(w2, FirstId(row), KeptPayload(row), None, false, f3, ambient);
            && p == Some(KeptPayload(row)) && v == Kept
            && ChainAt(w3, RowKey(row)) == [KeptVersion(row, RecordOnly)]
            && w3.holdings == ambient.reread && w3.ledger == w.ledger && w3.store.prints == w1.store.prints
            && RowKey(row) !in Blockers(Scan(w3, w3.ledger, Some(account), f4), account, navDate)
  {
    hide CommitScan, UniqueRows, Preview, Confirm, ScanRow, Historical, Blockers;
    var row, key := w.ledger[n], RowKey(w.ledger[n]);
    HistoricalScanned(w, scope, f1, n);
    HistoricalUnique(w, n, f1);
    var w1 := Scan(w, w.ledger, scope, f1);
    KeptPreviewed(w1, row, f2);
    var w2 := Preview(w1, FirstId(row), None, false, f2).0;
    KeptConfirmed(w2, row, f3, ambient);
    var w3 := Confirm(w2, FirstId(row), KeptPayload(row), None, false, f3, ambient).0;
    ScannedChain(w3, w3.ledger, Some(account), f4, n);
    DesiredExactly(row.flow, f4);
    ScannedRowExactly(ChainAt(w3, key), row, Some(account), f4, Desired(Flow(row.flow), f4).0,
                      Desired(Flow(row.flow), f4).1);
    RecordedNeverBlocks(Scan(w3, w3.ledger, Some(account), f4), key, account, navDate);
  }

  lemma HistoricalUnique(w: World, n: nat, facts: Facts)
    requires Historical(w, n, facts)
    ensures UniqueRows(w.ledger) && FindRow(w.ledger, w.ledger[n].flow.recordId) == Some(w.ledger[n])
  {
    FindUnique(w.ledger, n);
  }

  lemma RecordedNeverBlocks(w: World, key: Key, account: string, navDate: int)
    requires ChainAt(w, key) != [] && ChainAt(w, key)[|ChainAt(w, key)| - 1].state in {Applied, RecordOnly, Superseded}
    ensures key !in Blockers(w, account, navDate)
  {
    BlocksExactly(w, key, account, navDate);
  }

  lemma KeptConfirmed(w: World, row: LedgerRow, facts: Facts, ambient: Ambient)
    requires ChainAt(w, RowKey(row)) == [KeptVersion(row, State.Previewed)]
    requires FindRow(w.ledger, row.flow.recordId) == Some(row)
    ensures Confirm(w, FirstId(row), KeptPayload(row), None, false, facts, ambient)
            == (WithChain(w, RowKey(row), [KeptVersion(row, RecordOnly)]).(holdings := ambient.reread), Kept)
  {
    hide Refresh, BuildPreview;
    var e := KeptVersion(row, State.Previewed);
    StillCurrent(row, e, w.ledger, facts);
    PreviewableExactly(w.store, FirstId(row), e, PreviousApplied([e]), None, false, w.holdings, facts.quotes);
    assert SetLatest([e], KeptVersion(row, RecordOnly)) == [KeptVersion(row, RecordOnly)];
  }

  // ---------- a gate that passes ----------

  /** A store with nothing but a confirmed baseline `b`, one ledger row and one holding. */
  function Fresh(row: LedgerRow, at: Identity, b: Holding): World {
    World(Store(map[], map[at := Fingerprint(Some(Some(b)), Some(b))]), [row], map[at := b])
  }

  /**
   A gate that passes. From a store with only a confirmed baseline: a historical row is scanned, previewed and kept, the
   holding is edited by hand, and the gate of the account passes for every NAV date: its scan accepts the edit as the
   new baseline, and neither the recorded row nor the accepted edit stops it.
   */
  lemma KeptRowAndEditPass(row: LedgerRow, b: Holding, now: Holding, f1: Facts, f2: Facts, f3: Facts, f4: Facts,
                           navDate: int)
    requires Manual(row) && !Incomplete(row.flow) && now != b
    requires row.flow.date.value < f1.cutover && row.flow.date.value <= f1.today
    ensures var at := Place(row);
            var w := Run(Fresh(row, at, b),
                         [ScanStep([row], None, f1), PreviewStep(FirstId(row), None, false, f2),
                          ConfirmStep(FirstId(row), KeptPayload(row), None, false, f3,
                                      Ambient(map[at := b], [], [row])),
                          EditHolding(at, Some(now))]);
            && ChainAt(w, RowKey(row)) == [KeptVersion(row, RecordOnly)]
            && ConfirmedOf(w.store.prints, at) == Some(Some(b)) && Obs(w.holdings, at) == Some(now)
            && GatePasses(w, at.account, navDate, f4)
            && ConfirmedOf(Scan(w, [row], Some(at.account), f4).store.prints, at) == Some(Some(now))
  {
    hide CommitScan, Preview, Confirm, ScanRow, GatePasses;
    var at, key := Place(row), RowKey(row);
    var w0 := Fresh(row, at, b);
    assert UniqueRows([row]);
    FreshScan(row, b, f1);
    var w1 := Scan(w0, [row], None, f1);
    FindUnique([row], 0);
    KeptPreviewed(w1, row, f2);
    var w2 := Preview(w1, FirstId(row), None, false, f2).0;
    KeptConfirmed(w2, row, f3, Ambient(map[at := b], [], [row]));
    var confirm := ConfirmStep(FirstId(row), KeptPayload(row), None, false, f3, Ambient(map[at := b], [], [row]));
    RunFour(w0, ScanStep([row], None, f1), PreviewStep(FirstId(row), None, false, f2), confirm,
            EditHolding(at, Some(now)));
    var w3 := World(Store(map[key := [KeptVersion(row, RecordOnly)]], w0.store.prints), [row], map[at := b]);
    assert Confirm(w2, FirstId(row), KeptPayload(row), None, false, f3, Ambient(map[at := b], [], [row])).0 == w3;
    var w := w3.(holdings := map[at := now]);
    assert Set(map[at := b], at, Some(now)) == map[at := now];
    EditedPasses(row, b, now, w, f4, navDate);
  }

  /** The first scan: the row is discovered, and the holding is at its baseline. */
  lemma FreshScan(row: LedgerRow, b: Holding, facts: Facts)
    requires Manual(row) && !Incomplete(row.flow)
    requires row.flow.date.value < facts.cutover && row.flow.date.value <= facts.today
    ensures var w := Fresh(row, Place(row), b);
            Scan(w, [row], None, facts)
              == w.(store := Store(map[RowKey(row) := [KeptVersion(row, Pending)]], w.store.prints))
  {
    hide Reconcile, NetAt, OwnedIdentities, AfterLedger, ScanRow;
    var at, key := Place(row), RowKey(row);
    var w := Fresh(row, at, b);
    assert InScope(w.holdings, None) == w.holdings;
    ScannedRowExactly([], row, None, facts, Pending, Keep);
    FirstVersionIsOne(row, None, facts);
    var next := ScanRow([], row, None, facts).0;
    assert next == [KeptVersion(row, Pending)] by { assert next == [next[0]]; }
    RowLedger(row, [], w.store.prints, facts, None);
    var swept := Store(map[key := next], w.store.prints);
    assert ScannedIdentities(w.store.prints, w.holdings, None) == {at};
    AtBaseline(at, b, [], at in OwnedIdentities(swept.chains), NetAt(swept.chains, at), facts.today);
    OnlyAt(swept, at, b, w.holdings, facts.today);
  }

  /** Reconciling a single holding that needs nothing leaves the store as it is. */
  lemma OnlyAt(s: Store, at: Identity, b: Holding, h: Holdings, today: int)
    requires s.prints == map[at := Fingerprint(Some(Some(b)), Some(b))] && DriftKey(at) !in s.chains
    requires ReconcileAt(s, h, today, at) == Reconciled(Fingerprint(Some(Some(b)), Some(b)), [], false)
    ensures ReconcileAll(s, {at}, h, today) == s
  {
    hide ReconcileAt;
    var t := ReconcileAll(s, {at}, h, today);
    assert DriftKeys(s, {at}, h, today) == {};
    assert t.prints == s.prints && t.chains == s.chains;
  }


  lemma AtBaseline(at: Identity, b: Holding, chain: Chain, owned: bool, net: Option<int>, today: int)
    requires chain == []
    ensures Reconcile(at, Some(Some(b)), chain, Some(b), owned, net, today)
            == Reconciled(Fingerprint(Some(Some(b)), Some(b)), chain, false)
  {
  }

  /** The ledger and deletion passes over a ledger of one row. */
  lemma RowLedger(row: LedgerRow, chain: Chain, prints: Prints, facts: Facts, scope: Option<string>)
    requires row.flow.recordId != "" && ScanRow(chain, row, scope, facts).0 != []
    ensures AfterLedger(Store(if chain == [] then map[] else map[RowKey(row) := chain], prints), [row], scope, facts)
            == Store(map[RowKey(row) := ScanRow(chain, row, scope, facts).0], prints)
  {
    hide ScanRow;
    var chains: Chains := if chain == [] then map[] else map[RowKey(row) := chain];
    assert [row][..0] == [];
    assert ScanRows(chains, [row][..0], scope, facts).0 == chains;
    var listed := ScanRows(chains, [row], scope, facts).0;
    assert ChainOf(chains, RowKey(row)) == chain;
    assert listed == map[RowKey(row) := ScanRow(chain, row, scope, facts).0];
    RowIsSeen([row], 0);
    assert SweepMissing(listed, listed.Keys, SeenRecords([row]), scope) == listed;
  }

  /** The gate after the edit. */
  lemma EditedPasses(row: LedgerRow, b: Holding, now: Holding, w: World, facts: Facts, navDate: int)
    requires Manual(row) && now != b
    requires w == World(Store(map[RowKey(row) := [KeptVersion(row, RecordOnly)]],
                              map[Place(row) := Fingerprint(Some(Some(b)), Some(b))]), [row], map[Place(row) := now])
    ensures GatePasses(w, Place(row).account, navDate, facts)
    ensures ConfirmedOf(Scan(w, [row], Some(Place(row).account), facts).store.prints, Place(row)) == Some(Some(now))
  {
    hide Reconcile, NetAt, OwnedIdentities, AfterLedger, ScanRow, Blockers;
    var at, key := Place(row), RowKey(row);
    var chain := [KeptVersion(row, RecordOnly)];
    var scope := Some(at.account);
    assert InScope(w.holdings, scope) == w.holdings;
    DesiredExactly(row.flow, facts);
    ScannedRowExactly(chain, row, scope, facts, Desired(Flow(row.flow), facts).0, Desired(Flow(row.flow), facts).1);
    RowLedger(row, chain, w.store.prints, facts, scope);
    var swept := Store(map[key := chain], w.store.prints);
    NothingOpen(swept.chains, key, at);
    GoodEmpty(DriftKey(at));
    ReconciledExactly(at, Some(Some(b)), [], Some(now), false, None, facts.today);
    ReconciledBaseline(at, Some(Some(b)), [], Some(now), false, None, facts.today);
    assert ScannedIdentities(w.store.prints, w.holdings, scope) == {at};
    var t := ReconcileAll(swept, {at}, w.holdings, facts.today);
    assert t.prints[at] == ReconcileAt(swept, w.holdings, facts.today, at).mark;
    var r := ReconcileAt(swept, w.holdings, facts.today, at);
    forall k | k in t.chains && t.chains[k] != []
      ensures t.chains[k][|t.chains[k]| - 1].state in {Applied, RecordOnly, Superseded}
    {
      assert k == key || k == DriftKey(at);
    }
    GateExactly(w, at.account, navDate, facts);
  }

  lemma NothingOpen(chains: Chains, key: Key, at: Identity)
    requires chains.Keys == {key} && |chains[key]| == 1 && chains[key][0].state == RecordOnly
    ensures OwnedIdentities(chains) == {} && NetAt(chains, at) == None
  {
  }
}
