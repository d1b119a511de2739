/** Whom a pending compensation protects from the drift scan: the targets it wrote, and when it does not. */
module EffectOwners {
  import opened EffectModel
  import opened Optional
  import opened EffectOperations
  import opened EffectScan
  import opened EffectScanLaws
  import opened EffectPreview
  import opened EffectConfirm
  import opened EffectInvariants
  import opened EffectConfirmLaws
  import opened EffectRuns
  import opened EffectGate
  import opened EffectOrder
  import opened Totals

  // ---------- the targets of a version are decided by its source ----------

  /** The identities the newest version is about: those of its operations, or the one that drifted. */
  function Expected(key: Key, chain: Chain): set<Identity>
    requires chain != []
  {
    if key.DriftKey? then {key.identity}
    else
      var ops := Operations(PreviousApplied(chain), chain[|chain| - 1].source);
      if ops.Some? then Places(ops.value) else {}
  }

  /** A version to be applied keeps the expected identities, in its last preview as in its compensation. */
  predicate RowPlaced(key: Key, expected: set<Identity>, e: Effect) {
    && (key.DriftKey? && e.state.Unresolved() ==> e.mode == Apply)
    && (e.mode == Apply && e.state in {Previewed, CompensationPending} ==> TargetIdentities(e.targets) == expected)
    && (e.mode == Apply && e.state == CompensationPending && e.task.Some? ==>
        TargetIdentities(e.task.value.targets) == expected)
  }

  predicate Placed(key: Key, chain: Chain) {
    chain == [] || RowPlaced(key, Expected(key, chain), chain[|chain| - 1])
  }

  ghost predicate WorldPlaced(w: World) { forall k :: Placed(k, ChainAt(w, k)) }

  /** Rewriting the newest row keeps what is expected of it. */
  lemma SetLatestPlaced(key: Key, chain: Chain, e: Effect)
    requires chain != [] && e.source == chain[|chain| - 1].source && RowPlaced(key, Expected(key, chain), e)
    ensures Placed(key, SetLatest(chain, e)) && Expected(key, SetLatest(chain, e)) == Expected(key, chain)
  {
    hide LastApplied, RowPlaced;
    assert SetLatest(chain, e)[..|chain| - 1] == chain[..|chain| - 1];
  }

  lemma DeferPlaced(key: Key, chain: Chain, source: Source)
    requires chain != [] && Placed(key, chain)
    ensures Placed(key, Defer(chain, source)) && Expected(key, Defer(chain, source)) == Expected(key, chain)
  {
    var e := chain[|chain| - 1];
    SetLatestPlaced(key, chain, e.(deferred := e.deferred + [source]));
  }

  lemma AddVersionPlaced(key: Key, chain: Chain, source: Source, state: State, mode: Mode)
    requires Placed(key, chain) && state !in {Previewed, CompensationPending}
    requires key.DriftKey? && state.Unresolved() ==> mode == Apply
    ensures Placed(key, AddVersion(chain, source, state, mode))
  {
    hide Expected, LastApplied;
    if chain == [] || chain[|chain| - 1].source != source { AddVersionShape(chain, source, state, mode); }
  }

  // ---------- scans ----------

  lemma ScanRowPlaced(chain: Chain, row: LedgerRow, scope: Option<string>, facts: Facts)
    requires Placed(RowKey(row), chain)
    ensures Placed(RowKey(row), ScanRow(chain, row, scope, facts).0)
  {
    hide Expected;
    var key := RowKey(row);
    var (state, mode) := Desired(Flow(row.flow), facts);
    if chain != [] && chain[|chain| - 1].source == Flow(row.flow) {
      SetLatestPlaced(key, chain, chain[|chain| - 1].(state := if chain[|chain| - 1].state == Scheduled then Pending
                                                      else chain[|chain| - 1].state));
    } else if chain != [] && chain[|chain| - 1].state == CompensationPending {
      DeferPlaced(key, chain, Flow(row.flow));
    } else {
      AddVersionPlaced(key, chain, Flow(row.flow), state, mode);
    }
  }

  lemma {:induction false} ScanRowsPlaced(chains: Chains, rows: seq<LedgerRow>, scope: Option<string>, facts: Facts,
                                          key: Key)
    requires Placed(key, ChainOf(chains, key))
    ensures Placed(key, ChainOf(ScanRows(chains, rows, scope, facts).0, key))
  {
    hide ScanRow, Placed;
    if rows != [] {
      var front, last := rows[..|rows| - 1], rows[|rows| - 1];
      ScanRowsPlaced(chains, front, scope, facts, key);
      if RowKey(last) == key {
        ScanRowPlaced(ChainOf(ScanRows(chains, front, scope, facts).0, key), last, scope, facts);
      }
    }
  }

  lemma ScanMissingPlaced(key: Key, chain: Chain, scope: Option<string>)
    requires key.FlowKey? && chain != [] && Placed(key, chain)
    ensures Placed(key, ScanMissing(chain, scope))
  {
    hide Expected;
    var e := chain[|chain| - 1];
    if e.source.Flow? {
      DeferPlaced(key, chain, Deletion(e.source.flow));
      if e.state != CompensationPending {
        AddVersionPlaced(key, chain, Deletion(e.source.flow), Pending,
                         if e.state == Applied && e.mode == Apply then Apply else Keep);
      }
    }
  }

  lemma ReconcilePlaced(id: Identity, confirmed: Option<Observation>, chain: Chain, obs: Observation,
                        owned: bool, net: Option<int>, today: int)
    requires Placed(DriftKey(id), chain)
    ensures Placed(DriftKey(id), Reconcile(id, confirmed, chain, obs, owned, net, today).chain)
  {
    hide Expected;
    var key := DriftKey(id);
    var source := DriftSource(id, chain, obs, confirmed, today);
    if chain != [] {
      var e := chain[|chain| - 1];
      SetLatestPlaced(key, chain, e.(state := Applied));
      SetLatestPlaced(key, chain, e.(state := RecordOnly, targets := [], task := None));
      DeferPlaced(key, chain, source);
    }
    AddVersionPlaced(key, chain, source, RecordOnly, Keep);
    AddVersionPlaced(key, chain, source, Pending, Apply);
  }

  lemma ScanPlaced(w: World, rows: seq<LedgerRow>, scope: Option<string>, facts: Facts)
    requires WorldPlaced(w)
    ensures WorldPlaced(Scan(w, rows, scope, facts))
  {
    hide Placed, ScanRows, ScanMissing, Reconcile;
    var cash := InScope(w.holdings, scope);
    var swept := AfterLedger(w.store, rows, scope, facts);
    var ids := ScannedIdentities(w.store.prints, cash, scope);
    forall k ensures Placed(k, ChainAt(Scan(w, rows, scope, facts), k)) {
      assert Placed(k, ChainAt(w, k));
      SweptPlaced(w.store, rows, scope, facts, k);
      ReconcileAllChain(swept, ids, cash, facts.today, k);
      if k.DriftKey? {
        ReconcilePlaced(k.identity, ConfirmedOf(swept.prints, k.identity), ChainOf(swept.chains, k),
                        Obs(cash, k.identity),
                        k.identity in OwnedIdentities(swept.chains), NetAt(swept.chains, k.identity), facts.today);
      }
    }
  }

  lemma SweptPlaced(s: Store, rows: seq<LedgerRow>, scope: Option<string>, facts: Facts, key: Key)
    requires Placed(key, ChainOf(s.chains, key))
    ensures Placed(key, ChainOf(AfterLedger(s, rows, scope, facts).chains, key))
  {
    hide Expected, RowPlaced, ScanRows, ScanMissing;
    var listed := ScanRows(s.chains, rows, scope, facts).0;
    ScanRowsPlaced(s.chains, rows, scope, facts, key);
    if key.FlowKey? && key in listed && listed[key] != [] { ScanMissingPlaced(key, listed[key], scope); }
  }

  // ---------- previews and confirmations ----------

  lemma RefreshPlaced(key: Key, chain: Chain, ledger: seq<LedgerRow>, facts: Facts)
    requires chain != [] && Placed(key, chain)
    ensures Placed(key, Refresh(key, chain, ledger, facts).0)
    ensures !Refresh(key, chain, ledger, facts).1 ==>
              var next := Refresh(key, chain, ledger, facts).0;
              next != [] && Expected(key, next) == Expected(key, chain)
  {
    hide Expected;
    var e := chain[|chain| - 1];
    if key.FlowKey? && !e.source.Drift? {
      var (source, state, mode) := CurrentSource(key, e, ledger, facts);
      DeferPlaced(key, chain, source);
      AddVersionPlaced(key, chain, source, state, mode);
    }
  }

  lemma SamePlaces(ops: seq<Operation>)
    requires |ops| <= 2
    ensures Places(InOrder(ops)) == Places(ops)
  {
    InOrderKeeps(ops);
  }

  /** Every preview of a version to be applied targets the expected identities. */
  lemma PreviewPlaced(s: Store, id: EffectId, chain: Chain, given: Option<Action>, historical: bool, h: Holdings,
                      quotes: map<Identity, Quote>)
    requires Good(id.key, chain) && chain != [] && chain[|chain| - 1].mode == Apply
    requires BuildPreview(s, id, chain[|chain| - 1], PreviousApplied(chain), given, historical, h, quotes).Some?
    ensures TargetIdentities(BuildPreview(s, id, chain[|chain| - 1], PreviousApplied(chain), given, historical, h,
                                          quotes).value.targets)
            == Expected(id.key, chain)
  {
    hide Detect, FlowTargets, InOrder, Operations, ChainOk, LastApplied;
    var e := chain[|chain| - 1];
    assert RowOk(id.key, e);
    var p := BuildPreview(s, id, e, PreviousApplied(chain), given, historical, h, quotes).value;
    if id.key.FlowKey? {
      var ops := Operations(PreviousApplied(chain), e.source).value;
      AtMostTwo(PreviousApplied(chain), e.source);
      SamePlaces(ops);
      FlowTargetsShape(InOrder(ops), p.action, h, quotes);
      TargetsAreFresh(InOrder(ops), p.targets, p.action, h, quotes);
      TargetPlaces(InOrder(ops), p.targets);
    }
  }

  lemma AtMostTwo(previous: Option<Source>, current: Source)
    requires Operations(previous, current).Some?
    ensures |Operations(previous, current).value| <= 2
  {
  }

  lemma TargetPlaces(ops: seq<Operation>, ts: seq<Target>)
    requires |ts| == |ops| && forall i :: 0 <= i < |ts| ==> ops[i].source.At() == Some(ts[i].identity)
    ensures TargetIdentities(ts) == Places(ops)
  {
    forall id | id in TargetIdentities(ts) ensures id in Places(ops) {
      var i :| 0 <= i < |ts| && ts[i].identity == id;
      assert ops[i] in ops;
    }
    forall id | id in Places(ops) ensures id in TargetIdentities(ts) {
      var i :| 0 <= i < |ops| && ops[i].source.At() == Some(id);
      assert ts[i] in ts;
    }
  }

  lemma PreviewLatestPlaced(w: World, id: EffectId, given: Option<Action>, historical: bool, facts: Facts)
    requires WorldOk(w) && ChainAt(w, id.key) != [] && Placed(id.key, ChainAt(w, id.key))
    ensures Placed(id.key, PreviewLatest(w, id, given, historical, facts).0)
  {
    hide Refresh, BuildPreview, Evolves, Expected, LastApplied, Good, AppliesNothing, TargetIdentities;
    var chain := ChainAt(w, id.key);
    RefreshQuiet(id.key, chain, w.ledger, facts);
    RefreshPlaced(id.key, chain, w.ledger, facts);
    var (current, moved) := Refresh(id.key, chain, w.ledger, facts);
    if !moved {
      var e := current[|current| - 1];
      var p := Recomputed(w, id, current, given, historical, facts);
      if p.Some? {
        PreviewableState(w.store, id, e, PreviousApplied(current), given, historical, w.holdings, facts.quotes);
        if e.mode == Apply { PreviewPlaced(w.store, id, current, given, historical, w.holdings, facts.quotes); }
        SetLatestPlaced(id.key, current, e.(state := Previewed, targets := p.value.targets));
      } else if e.state in {Pending, Previewed, Stale, Blocked} {
        SetLatestPlaced(id.key, current, e.(state := Blocked));
      }
    }
  }

  lemma ConfirmWritePlaced(stay: Commit, key: Key, p: Payload, facts: Facts, ambient: Ambient)
    requires stay.chain != [] && Placed(key, stay.chain)
    requires stay.chain[|stay.chain| - 1].mode == Apply ==> TargetIdentities(p.targets) == Expected(key, stay.chain)
    ensures Placed(key, ConfirmWrite(stay, key, p, facts, ambient).chain)
  {
    hide Refresh, WriteTargets, Expected, ConfirmPrints;
    var e := stay.chain[|stay.chain| - 1];
    if StillFresh(ambient.reread, p.targets) && e.state == Previewed {
      if WriteTargets(ambient.reread, p.targets, ambient.outcomes).confirmed < |p.targets| {
        SetLatestPlaced(key, stay.chain, e.(state := CompensationPending, task := Some(Task(p.targets, false))));
      } else {
        SetLatestPlaced(key, stay.chain, e.(state := Applied));
        RefreshPlaced(key, SetLatest(stay.chain, e.(state := Applied)), ambient.laterLedger, facts);
      }
    }
  }

  lemma ConfirmCurrentPlaced(stay: Commit, key: Key, p: Payload, locked: set<string>, facts: Facts, ambient: Ambient)
    requires stay.chain != [] && Placed(key, stay.chain)
    requires stay.chain[|stay.chain| - 1].mode == Apply ==> TargetIdentities(p.targets) == Expected(key, stay.chain)
    ensures Placed(key, ConfirmCurrent(stay, key, p, locked, facts, ambient).chain)
  {
    hide ConfirmWrite, Expected;
    ConfirmWritePlaced(stay, key, p, facts, ambient);
    SetLatestPlaced(key, stay.chain, stay.chain[|stay.chain| - 1].(state := RecordOnly));
  }

  lemma ConfirmPlaced(w: World, id: EffectId, hash: Payload, given: Option<Action>, historical: bool, facts: Facts,
                      ambient: Ambient)
    requires WorldOk(w) && ChainAt(w, id.key) != [] && Placed(id.key, ChainAt(w, id.key))
    ensures Placed(id.key, ConfirmLatest(w, id, hash, given, historical, facts, ambient).chain)
  {
    hide Refresh, BuildPreview, Evolves, Expected, LastApplied, ConfirmCurrent, EffectAccounts, Good, AppliesNothing,
         TargetIdentities;
    var chain := ChainAt(w, id.key);
    RefreshQuiet(id.key, chain, w.ledger, facts);
    RefreshPlaced(id.key, chain, w.ledger, facts);
    var (current, moved) := Refresh(id.key, chain, w.ledger, facts);
    if !moved {
      var e := current[|current| - 1];
      var p := Recomputed(w, id, current, given, historical, facts);
      if p.Some? {
        PreviewableState(w.store, id, e, PreviousApplied(current), given, historical, w.holdings, facts.quotes);
        if e.mode == Apply { PreviewPlaced(w.store, id, current, given, historical, w.holdings, facts.quotes); }
        SetLatestPlaced(id.key, current, e.(state := Stale));
        ConfirmCurrentPlaced(Commit(current, w.store.prints, w.ledger, w.holdings, Refused), id.key, p.value,
                             EffectAccounts(id.key, chain, w.ledger), facts, ambient);
      }
    }
  }

  lemma FinalizePlaced(w: World, id: EffectId, facts: Facts)
    requires Placed(id.key, ChainAt(w, id.key))
    ensures Placed(id.key, ChainAt(Finalize(w, id, facts), id.key))
  {
    hide Refresh, Expected, ConfirmPrints;
    var chain := ChainAt(w, id.key);
    if PendingTask(chain).Some? {
      var applied := SetLatest(chain, chain[|chain| - 1].(state := Applied));
      SetLatestPlaced(id.key, chain, chain[|chain| - 1].(state := Applied));
      RefreshPlaced(id.key, applied, w.ledger, facts);
    }
  }

  lemma RunTaskPlaced(w: World, id: EffectId, outcomes: seq<Outcome>)
    requires Placed(id.key, ChainAt(w, id.key))
    ensures Placed(id.key, ChainAt(RunTask(w, id, outcomes), id.key))
  {
    hide Expected, RetryTargets;
    var chain := ChainAt(w, id.key);
    var task := PendingTask(chain);
    if task.Some? {
      SetLatestPlaced(id.key, chain, chain[|chain| - 1].(task := Some(task.value.(resolved := true))));
      SetLatestPlaced(id.key, chain, chain[|chain| - 1].(task := Some(task.value.(resolved := false))));
    }
  }

  lemma OneChainPlaced(w: World, w': World, key: Key)
    requires WorldPlaced(w) && OnlyChain(w, w', key) && Placed(key, ChainAt(w', key))
    ensures WorldPlaced(w')
  {
    forall k ensures Placed(k, ChainAt(w', k)) {
      assert Placed(k, ChainAt(w, k));
    }
  }

  lemma NextPlaced(w: World, step: Step)
    requires WorldOk(w) && WorldPlaced(w)
    ensures WorldPlaced(Next(w, step))
  {
    hide Placed, PreviewLatest, ConfirmLatest, RunTask, Finalize, CommitScan, WorldOk, Refresh;
    match step {
      case EditLedger(_) => SameChains(w, Next(w, step));
      case EditHolding(_, _) => SameChains(w, Next(w, step));
      case ScanStep(rows, scope, facts) => ScanPlaced(w, rows, scope, facts);
      case PreviewStep(id, given, historical, facts) =>
        assert Placed(id.key, ChainAt(w, id.key));
        PreviewQuiet(w, id, given, historical, facts);
        if IsLatest(ChainAt(w, id.key), id.version) { PreviewLatestPlaced(w, id, given, historical, facts); }
        OneChainPlaced(w, Next(w, step), id.key);
      case ConfirmStep(id, hash, given, historical, facts, ambient) =>
        assert Placed(id.key, ChainAt(w, id.key));
        ConfirmKeeps(w, id, hash, given, historical, facts, ambient);
        if IsLatest(ChainAt(w, id.key), id.version) { ConfirmPlaced(w, id, hash, given, historical, facts, ambient); }
        OneChainPlaced(w, Next(w, step), id.key);
      case CompensateStep(id, outcomes) =>
        assert Placed(id.key, ChainAt(w, id.key));
        RunTaskKeeps(w, id, outcomes);
        RunTaskPlaced(w, id, outcomes);
        OneChainPlaced(w, Next(w, step), id.key);
      case FinalizeStep(id, facts) =>
        assert Placed(id.key, ChainAt(w, id.key));
        FinalizeKeeps(w, id, facts);
        FinalizePlaced(w, id, facts);
        OneChainPlaced(w, Next(w, step), id.key);
    }
  }

  lemma SameChains(w: World, w': World)
    requires WorldPlaced(w) && w'.store == w.store
    ensures WorldPlaced(w')
  {
    forall k ensures Placed(k, ChainAt(w', k)) { assert Placed(k, ChainAt(w, k)); }
  }

  lemma {:induction false} RunPlaced(w: World, steps: seq<Step>)
    requires WorldOk(w) && WorldPlaced(w)
    ensures WorldOk(Run(w, steps)) && WorldPlaced(Run(w, steps))
    decreases |steps|
  {
    hide WorldPlaced, WorldOk, Next;
    if steps != [] {
      NextKeeps(w, steps[0], FlowKey(""));
      NextPlaced(w, steps[0]);
      RunPlaced(Next(w, steps[0]), steps[1..]);
    }
  }

  /** Every run starts so: an empty store keeps both invariants. */
  lemma EmptyStorePlaced(w: World)
    requires w.store.chains == map[]
    ensures WorldOk(w) && WorldPlaced(w)
  {
  }

  // ---------- owners and targets ----------

  /** The targets a pending compensation has still to bring in place. */
  function PendingTargets(chain: Chain): set<Identity> {
    var task := PendingTask(chain);
    if task.Some? then TargetIdentities(task.value.targets) else {}
  }

  function PendingIdentities(chains: Chains): set<Identity> {
    set k, id | k in chains && id in PendingTargets(chains[k]) :: id
  }

  /**
   In every state a run reaches, a pending compensation of an external change, or of a ledger version that
   is to be applied, protects exactly the targets it has to bring in place.
   */
  lemma AppliedVersionsOwnTheirTargets(w: World, steps: seq<Step>, key: Key)
    requires WorldOk(w) && WorldPlaced(w)
    ensures var chain := ChainAt(Run(w, steps), key);
            chain != [] && (key.FlowKey? ==> chain[|chain| - 1].mode == Apply) ==>
                  OwnedTargets(chain) == PendingTargets(chain)
  {
    hide Run, Expected;
    RunPlaced(w, steps);
    var chain := ChainAt(Run(w, steps), key);
    GoodEmpty(key);
    assert Placed(key, chain) && Good(key, chain);
    if chain != [] { assert RowOk(key, chain[|chain| - 1]); }
  }

  /** No record-only version of a ledger record is pending compensation. */
  ghost predicate AppliesWhatIsPending(w: World) {
    forall k: Key :: k.FlowKey? && PendingTask(ChainAt(w, k)).Some? ==> Latest(ChainAt(w, k)).value.mode == Apply
  }

  /** So a state protects its pending targets when no record-only version is pending compensation. */
  lemma OwnersAreTheTargets(w: World, steps: seq<Step>)
    requires WorldOk(w) && WorldPlaced(w) && AppliesWhatIsPending(Run(w, steps))
    ensures OwnedIdentities(Run(w, steps).store.chains) == PendingIdentities(Run(w, steps).store.chains)
  {
    hide Run, WorldPlaced, WorldOk;
    var chains := Run(w, steps).store.chains;
    RunPlaced(w, steps);
    forall k | k in chains ensures OwnedTargets(chains[k]) == PendingTargets(chains[k]) {
      assert ChainAt(Run(w, steps), k) == chains[k];
      PendingHasTask(Run(w, steps), k);
      AppliedVersionsOwnTheirTargets(w, steps, k);
    }
    forall id ensures id in OwnedIdentities(chains) <==> id in PendingIdentities(chains) {
      if id in OwnedIdentities(chains) {
        var k :| k in chains && id in OwnedTargets(chains[k]);
        assert id in PendingTargets(chains[k]);
      }
      if id in PendingIdentities(chains) {
        var k :| k in chains && id in PendingTargets(chains[k]);
        assert id in OwnedTargets(chains[k]);
      }
    }
  }

  lemma PendingHasTask(w: World, key: Key)
    requires WorldOk(w)
    ensures PendingTask(ChainAt(w, key)).Some? || (OwnedTargets(ChainAt(w, key)) == {}
                                                   && PendingTargets(ChainAt(w, key)) == {})
  {
    GoodEmpty(key);
    var chain := ChainAt(w, key);
    if chain != [] { assert RowOk(key, chain[|chain| - 1]); }
  }

  /**
   Which targets a failed confirmation leaves protected. The scanner asks the last preview stored on the
   version: that is the targets written exactly when the stored preview names the same identities.
   */
  lemma OwnersOfAFailedConfirmation(w: World, id: EffectId, hash: Payload, given: Option<Action>, historical: bool,
                                    facts: Facts, ambient: Ambient)
    requires WorldOk(w) && Confirm(w, id, hash, given, historical, facts, ambient).1.Compensating?
    ensures var chain := ChainAt(w, id.key);
            var chain' := ChainAt(Confirm(w, id, hash, given, historical, facts, ambient).0, id.key);
            && chain != [] && PendingTargets(chain') == TargetIdentities(hash.targets)
            && (OwnedTargets(chain') == PendingTargets(chain')
                <==> TargetIdentities(chain[|chain| - 1].targets) == TargetIdentities(hash.targets))
  {
    hide ConfirmLatest, MayWrite;
    ConfirmWritesThePreview(w, id, hash, given, historical, facts, ambient);
  }

  // ---------- baseline ownership ----------

  lemma ScanRowKeepsOwned(chain: Chain, row: LedgerRow, scope: Option<string>, facts: Facts)
    ensures OwnedTargets(ScanRow(chain, row, scope, facts).0) == OwnedTargets(chain)
  {
    hide LastApplied;
    var (state, mode) := Desired(Flow(row.flow), facts);
    if chain == [] || chain[|chain| - 1].source != Flow(row.flow) {
      AddVersionShape(chain, Flow(row.flow), state, mode);
    }
  }

  lemma ScanMissingKeepsOwned(chain: Chain, scope: Option<string>)
    requires chain != []
    ensures OwnedTargets(ScanMissing(chain, scope)) == OwnedTargets(chain)
  {
  }

  lemma {:induction false} ScanRowsKeepOwned(chains: Chains, rows: seq<LedgerRow>, scope: Option<string>, facts: Facts,
                                             key: Key)
    ensures OwnedTargets(ChainOf(ScanRows(chains, rows, scope, facts).0, key)) == OwnedTargets(ChainOf(chains, key))
  {
    hide ScanRow, OwnedTargets;
    if rows != [] {
      var front, last := rows[..|rows| - 1], rows[|rows| - 1];
      ScanRowsKeepOwned(chains, front, scope, facts, key);
      ScanRowKeepsOwned(ChainOf(ScanRows(chains, front, scope, facts).0, RowKey(last)), last, scope, facts);
      ScanRowKeepsRows(ChainOf(ScanRows(chains, front, scope, facts).0, RowKey(last)), last, scope, facts);
    }
  }

  /** The ledger and deletion passes of a scan do not change who owns a baseline. */
  lemma AfterLedgerKeepsOwners(s: Store, rows: seq<LedgerRow>, scope: Option<string>, facts: Facts)
    ensures OwnedIdentities(AfterLedger(s, rows, scope, facts).chains) == OwnedIdentities(s.chains)
  {
    hide ScanRows, ScanMissing, OwnedIdentities, OwnedTargets;
    var listed := ScanRows(s.chains, rows, scope, facts).0;
    forall k ensures OwnedTargets(ChainOf(AfterLedger(s, rows, scope, facts).chains, k))
                     == OwnedTargets(ChainOf(s.chains, k)) {
      ScanRowsKeepOwned(s.chains, rows, scope, facts, k);
      if k in listed && listed[k] != [] { ScanMissingKeepsOwned(listed[k], scope); }
    }
    SameOwners(AfterLedger(s, rows, scope, facts).chains, s.chains);
  }

  /** What the scan of a state finds protected from it: the state's owners, Futu, and explained drift. */
  lemma ScanBaseline(w: World, rows: seq<LedgerRow>, scope: Option<string>, facts: Facts, id: Identity)
    requires WorldOk(w)
    ensures var t := Scan(w, rows, scope, facts);
            var cash := InScope(w.holdings, scope);
            var scanned := id in ScannedIdentities(w.store.prints, cash, scope);
            var confirmed := ConfirmedOf(w.store.prints, id);
            var kept := id.broker == FUTU_BROKER || id in OwnedIdentities(w.store.chains)
                || Explained(confirmed, Obs(cash, id), NetAt(t.store.chains, id));
            && ConfirmedOf(t.store.prints, id) == (if scanned && !kept then Some(Obs(cash, id)) else confirmed)
            && (scanned ==> id in t.store.prints && t.store.prints[id].observed == Obs(cash, id))
  {
    hide AfterLedger, ReconcileAll, OwnedIdentities, NetAt;
    var cash := InScope(w.holdings, scope);
    var swept := AfterLedger(w.store, rows, scope, facts);
    var ids := ScannedIdentities(w.store.prints, cash, scope);
    AfterLedgerOk(w.store, rows, scope, facts);
    AfterLedgerKeepsOwners(w.store, rows, scope, facts);
    ScannedBaseline(swept, ids, cash, facts.today, id);
    ReconcileAllKeepsFlows(swept, ids, cash, facts.today);
    SameNets(Scan(w, rows, scope, facts).store.chains, swept.chains, id);
    SweptPrints(w.store, rows, scope, facts);
  }

  lemma SweptPrints(s: Store, rows: seq<LedgerRow>, scope: Option<string>, facts: Facts)
    ensures AfterLedger(s, rows, scope, facts).prints == s.prints
  {
  }

  /**
   Baseline ownership, over a scan of any state that any run reaches without a record-only version pending
   compensation. The scan keeps the confirmed baseline of every Futu identity, of every target a pending
   compensation still has to bring in place, and of every identity whose drift is the net delta of its
   unresolved ledger effects; any other identity it looks at ends confirmed at what was observed; and
   identities it does not look at are untouched.
   */
  lemma BaselineOwnership(w: World, steps: seq<Step>, rows: seq<LedgerRow>, scope: Option<string>, facts: Facts,
                          id: Identity)
    requires WorldOk(w) && WorldPlaced(w) && AppliesWhatIsPending(Run(w, steps))
    ensures var before := Run(w, steps);
            var after := Scan(before, rows, scope, facts);
            var cash := InScope(before.holdings, scope);
            var scanned := id in ScannedIdentities(before.store.prints, cash, scope);
            var confirmed := ConfirmedOf(before.store.prints, id);
            var kept := id.broker == FUTU_BROKER || id in PendingIdentities(before.store.chains)
                || Explained(confirmed, Obs(cash, id), NetAt(after.store.chains, id));
            && ConfirmedOf(after.store.prints, id) == (if scanned && !kept then Some(Obs(cash, id)) else confirmed)
            && (scanned ==> id in after.store.prints && after.store.prints[id].observed == Obs(cash, id))
  {
    hide Run, CommitScan, WorldOk, WorldPlaced, OwnedIdentities, PendingIdentities, NetAt;
    RunPlaced(w, steps);
    OwnersAreTheTargets(w, steps);
    ScanBaseline(Run(w, steps), rows, scope, facts, id);
  }

  /**
   And exactly when a scan keeps the baseline of a pending target outside Futu that has drifted: when the
   last preview stored on a version in compensation names it.
   */
  lemma PendingTargetKept(w: World, rows: seq<LedgerRow>, scope: Option<string>, facts: Facts, id: Identity)
    requires WorldOk(w) && id in PendingIdentities(w.store.chains) && id.broker != FUTU_BROKER
    requires var cash := InScope(w.holdings, scope);
             && id in ScannedIdentities(w.store.prints, cash, scope)
             && ConfirmedOf(w.store.prints, id) != Some(Obs(cash, id))
             && !Explained(ConfirmedOf(w.store.prints, id), Obs(cash, id),
                           NetAt(Scan(w, rows, scope, facts).store.chains, id))
    ensures ConfirmedOf(Scan(w, rows, scope, facts).store.prints, id) == ConfirmedOf(w.store.prints, id)
            <==> id in OwnedIdentities(w.store.chains)
  {
    hide CommitScan, OwnedIdentities, NetAt;
    ScanBaseline(w, rows, scope, facts, id);
  }

  // ---------- a pending target that loses its baseline ----------

  /** A complete row from before the cutover, outside Futu, behind a final NAV. */
  ghost predicate OldRow(row: LedgerRow, facts: Facts) {
    Manual(row) && NavIsFinal(row, facts) && row.flow.date.value < facts.cutover && row.flow.date.value <= facts.today
  }

  function Kept(row: LedgerRow, state: State, targets: seq<Target>, task: Option<Task>): Effect {
    Effect(1, Flow(row.flow), state, Keep, targets, [], task)
  }

  /** A world with one ledger row, one holding, and at most one version of the row. */
  function Solo(row: LedgerRow, at: Identity, chain: Chain, confirmed: Holding, observed: Holding,
                held: Holding): World {
    World(Store(if chain == [] then map[] else map[RowKey(row) := chain],
                map[at := Fingerprint(Some(Some(confirmed)), Some(observed))]),
          [row], map[at := held])
  }

  /** What the ledger and deletion passes do there. */
  lemma SoloLedger(row: LedgerRow, chain: Chain, prints: Prints, facts: Facts)
    requires row.flow.recordId != "" && ScanRow(chain, row, None, facts).0 != []
    ensures AfterLedger(Store(if chain == [] then map[] else map[RowKey(row) := chain], prints), [row], None, facts)
            == Store(map[RowKey(row) := ScanRow(chain, row, None, facts).0], prints)
  {
    hide ScanRow;
    var chains: Chains := if chain == [] then map[] else map[RowKey(row) := chain];
    assert [row][..0] == [];
    assert ScanRows(chains, [row][..0], None, facts).0 == chains;
    var listed := ScanRows(chains, [row], None, facts).0;
    assert ChainOf(chains, RowKey(row)) == chain;
    assert listed == map[RowKey(row) := ScanRow(chain, row, None, facts).0];
    RowIsSeen([row], 0);
    assert SweepMissing(listed, listed.Keys, SeenRecords([row]), None) == listed;
  }

  lemma SoloNet(row: LedgerRow, at: Identity, e: Effect)
    requires Manual(row) && at == Place(row) && e.source == Flow(row.flow) && e.state.Unresolved()
             && TargetIdentities(e.targets) == {}
    ensures NetAt(map[RowKey(row) := [e]], at) == Some(Event(row)) && OwnedIdentities(map[RowKey(row) := [e]]) == {}
  {
    var chains := map[RowKey(row) := [e]];
    assert ActiveAt(RowKey(row), chains[RowKey(row)]) == Some(at);
    assert PreviousApplied([e]) == None by { assert [e][..0] == []; }
    var ops := [Operation(e.source, Event(row))];
    assert ops[1..] == [];
    assert ActiveDelta([e]) == DeltaSum(ops) == Event(row);
    TotalSingle(ActiveDeltas(chains, at), RowKey(row));
  }

  /** A scan there, given the version it leaves of the row. */
  lemma SoloScan(row: LedgerRow, at: Identity, chain: Chain, e: Effect, confirmed: Holding, observed: Holding,
                 held: Holding, facts: Facts)
    requires Manual(row) && at == Place(row) && ScanRow(chain, row, None, facts).0 == [e]
    requires e.source == Flow(row.flow) && e.state.Unresolved() && TargetIdentities(e.targets) == {}
    ensures var r := Reconcile(at, Some(Some(confirmed)), [], Some(held), false, Some(Event(row)), facts.today);
            var t := Scan(Solo(row, at, chain, confirmed, observed, held), [row], None, facts);
            && t.store.chains == map[RowKey(row) := [e]]
                + (if r.chain == [] then map[] else map[DriftKey(at) := r.chain])
            && t.store.prints == map[at := r.mark] && t.ledger == [row] && t.holdings == map[at := held]
  {
    hide Reconcile, ScanRow, NetAt, OwnedIdentities, AfterLedger;
    var w := Solo(row, at, chain, confirmed, observed, held);
    var cash := InScope(w.holdings, None);
    assert cash == w.holdings;
    SoloLedger(row, chain, w.store.prints, facts);
    var swept := Store(map[RowKey(row) := [e]], w.store.prints);
    SoloNet(row, at, e);
    assert ScannedIdentities(w.store.prints, cash, None) == {at};
    var r := ReconcileAt(swept, cash, facts.today, at);
    var t := ReconcileAll(swept, {at}, cash, facts.today);
    assert t.prints == map[at := r.mark];
    assert t.chains == swept.chains + (if r.chain == [] then map[] else map[DriftKey(at) := r.chain]);
  }

  function OldTarget(row: LedgerRow, b: Holding): Target
    requires Manual(row)
  {
    Target(Place(row), Some(b), b.quantity + Event(row), Event(row), Estimated, None)
  }

  /** The payload of the historical preview. */
  function OldPayload(row: LedgerRow, b: Holding): Payload
    requires Manual(row)
  {
    Payload(FirstId(row), Flow(row.flow), Apply, true, Some(ApplyDelta), [Some(b)], [OldTarget(row, b)])
  }

  /** What the historical preview computes, whatever the version's targets. */
  lemma OldPreview(w: World, row: LedgerRow, e: Effect, b: Holding, facts: Facts)
    requires Manual(row) && e.source == Flow(row.flow) && e.state in {Pending, Previewed}
             && b.quantity + Event(row) >= 0
    requires Obs(w.holdings, Place(row)) == Some(b)
    ensures Recomputed(w, FirstId(row), [e], Some(ApplyDelta), true, facts) == Some(OldPayload(row, b))
  {
    hide Detect;
    var op := Operation(e.source, Event(row));
    assert PreviousApplied([e]) == None by { assert [e][..0] == []; }
    assert Operations(None, e.source) == Some([op]);
    assert [op][1..] == [];
    var t := FlowTarget(op, Some(ApplyDelta), w.holdings, facts.quotes);
    assert t == Some(OldTarget(row, b));
    assert FlowTargets([], Some(ApplyDelta), w.holdings, facts.quotes) == Some([]);
    assert [t.value] + [] == [t.value];
    assert FlowTargets([op], Some(ApplyDelta), w.holdings, facts.quotes) == Some([t.value] + []);
    assert Befores([t.value]) == [Some(b)];
  }

  lemma OldPreviews(row: LedgerRow, b: Holding, facts: Facts)
    requires OldRow(row, facts) && b.quantity + Event(row) >= 0
    ensures var at := Place(row);
            var w1 := Solo(row, at, [Kept(row, Pending, [], None)], b, b, b);
            var w2 := Preview(w1, FirstId(row), Some(ApplyDelta), true, facts).0;
            && w2 == Solo(row, at, [Kept(row, Previewed, [OldTarget(row, b)], None)], b, b, b)
            && Preview(w2, FirstId(row), None, false, facts).0
                == Solo(row, at, [Kept(row, Previewed, [], None)], b, b, b)
  {
    hide BuildPreview, Refresh;
    var at, key := Place(row), RowKey(row);
    var e1, e2 := Kept(row, Pending, [], None), Kept(row, Previewed, [OldTarget(row, b)], None);
    var w1, w2 := Solo(row, at, [e1], b, b, b), Solo(row, at, [e2], b, b, b);
    StillCurrent(row, e1, [row], facts);
    StillCurrent(row, e2, [row], facts);
    OldPreview(w1, row, e1, b, facts);
    assert SetLatest([e1], e2) == [e2];
    assert PreviewLatest(w1, FirstId(row), Some(ApplyDelta), true, facts).0 == [e2];
    KeptPreview(w2, row, e2, facts);
    assert SetLatest([e2], e2.(targets := [])) == [Kept(row, Previewed, [], None)];
    assert PreviewLatest(w2, FirstId(row), None, false, facts).0 == [Kept(row, Previewed, [], None)];
    assert Put(w1.store.chains, key, [e2]) == w2.store.chains;
    assert Put(w2.store.chains, key, [Kept(row, Previewed, [], None)])
           == Solo(row, at, [Kept(row, Previewed, [], None)], b, b, b).store.chains;
  }

  lemma KeptPreview(w: World, row: LedgerRow, e: Effect, facts: Facts)
    requires e.mode == Keep && e.state == Previewed
    ensures var p := Recomputed(w, FirstId(row), [e], None, false, facts); p.Some? && p.value.targets == []
  {
  }

  lemma OldConfirmFails(row: LedgerRow, b: Holding, a: Holding, facts: Facts)
    requires OldRow(row, facts) && b.quantity + Event(row) >= 0
    ensures var at := Place(row);
            var w := Solo(row, at, [Kept(row, Previewed, [], None)], b, b, b);
            Confirm(w, FirstId(row), OldPayload(row, b), Some(ApplyDelta), true, facts,
                    Ambient(w.holdings, [Failed(Some(a))], [row]))
            == (Solo(row, at, [Kept(row, CompensationPending, [], Some(Task([OldTarget(row, b)], false)))], b, b, a),
                Compensating(0))
  {
    hide BuildPreview, Refresh, ConfirmCurrent;
    var at, e := Place(row), Kept(row, Previewed, [], None);
    var w := Solo(row, at, [e], b, b, b);
    var ambient := Ambient(w.holdings, [Failed(Some(a))], [row]);
    var failed := Kept(row, CompensationPending, [], Some(Task([OldTarget(row, b)], false)));
    StillCurrent(row, e, [row], facts);
    OldPreview(w, row, e, b, facts);
    var stay := Commit([e], w.store.prints, w.ledger, w.holdings, Refused);
    var locked := EffectAccounts(RowKey(row), [e], w.ledger);
    OldWriteFails(stay, row, b, a, locked, facts, ambient);
    assert ConfirmLatest(w, FirstId(row), OldPayload(row, b), Some(ApplyDelta), true, facts, ambient)
        == ConfirmCurrent(stay, RowKey(row), OldPayload(row, b), locked, facts, ambient);
    assert Put(w.store.chains, RowKey(row), [failed]) == map[RowKey(row) := [failed]];
    assert Set(w.holdings, at, Some(a)) == map[at := a];
  }

  lemma OldWriteFails(stay: Commit, row: LedgerRow, b: Holding, a: Holding, locked: set<string>, facts: Facts,
                      ambient: Ambient)
    requires OldRow(row, facts) && stay.chain == [Kept(row, Previewed, [], None)]
    requires Place(row).account in locked && Obs(ambient.reread, Place(row)) == Some(b)
             && ambient.outcomes == [Failed(Some(a))]
    ensures ConfirmCurrent(stay, RowKey(row), OldPayload(row, b), locked, facts, ambient)
            == Commit([Kept(row, CompensationPending, [], Some(Task([OldTarget(row, b)], false)))], stay.prints,
                      stay.ledger,
                      Set(ambient.reread, Place(row), Some(a)), Compensating(0))
  {
    var targets := [OldTarget(row, b)];
    assert StillFresh(ambient.reread, targets);
    assert WriteTargets(ambient.reread, targets, ambient.outcomes)
           == Written(Set(ambient.reread, Place(row), Some(a)), 0);
    var failed := Kept(row, CompensationPending, [], Some(Task(targets, false)));
    assert SetLatest(stay.chain, failed) == [failed];
  }

  /**
   The documentation's promise fails for a record-only version. From a store with only a confirmed
   baseline `b` and a ledger row from before the cutover: a scan, a preview that asks for the historical
   apply, a plain preview, and the confirmation of the first one, whose write fails and leaves `a`. The
   compensation is pending on the holding, yet the next scan takes `a` for its new confirmed baseline.
   */
  lemma PendingTargetLosesBaseline(row: LedgerRow, b: Holding, a: Holding, f1: Facts, f2: Facts, f3: Facts)
    requires OldRow(row, f1) && OldRow(row, f2) && b.quantity + Event(row) >= 0
    requires a != b && a.quantity != b.quantity + Event(row)
    ensures var at, id := Place(row), FirstId(row);
            var w := Run(Solo(row, at, [], b, b, b),
                         [ScanStep([row], None, f1), PreviewStep(id, Some(ApplyDelta), true, f2),
                          PreviewStep(id, None, false, f2),
                          ConfirmStep(id, OldPayload(row, b), Some(ApplyDelta), true, f2,
                                      Ambient(map[at := b], [Failed(Some(a))], [row]))]);
            && at in PendingIdentities(w.store.chains) && OwnedIdentities(w.store.chains) == {}
            && ConfirmedOf(w.store.prints, at) == Some(Some(b))
            && ConfirmedOf(Scan(w, [row], None, f3).store.prints, at) == Some(Some(a))
  {
    hide CommitScan, Preview, Confirm, ScanRow, NetAt, OwnedIdentities, Run;
    var at, id := Place(row), FirstId(row);
    var e1 := Kept(row, Pending, [], None);
    var failed := Kept(row, CompensationPending, [], Some(Task([OldTarget(row, b)], false)));
    var w0, w1 := Solo(row, at, [], b, b, b), Solo(row, at, [e1], b, b, b);
    OldRowScans(row, failed, f1, f3);
    SoloScan(row, at, [], e1, b, b, b, f1);
    assert Scan(w0, [row], None, f1) == w1;
    OldPreviews(row, b, f2);
    OldConfirmFails(row, b, a, f2);
    RunFour(w0, ScanStep([row], None, f1), PreviewStep(id, Some(ApplyDelta), true, f2),
            PreviewStep(id, None, false, f2),
            ConfirmStep(id, OldPayload(row, b), Some(ApplyDelta), true, f2,
                        Ambient(map[at := b], [Failed(Some(a))], [row])));
    SoloScan(row, at, [failed], failed, b, b, a, f3);
    SoloNet(row, at, failed);
    assert OldTarget(row, b) in failed.task.value.targets;
    assert at in PendingTargets([failed]);
    var chains := Solo(row, at, [failed], b, b, a).store.chains;
    assert RowKey(row) in chains && chains[RowKey(row)] == [failed];
    assert at in PendingIdentities(chains);
  }

  lemma OldRowScans(row: LedgerRow, failed: Effect, f1: Facts, f3: Facts)
    requires OldRow(row, f1) && failed.source == Flow(row.flow) && failed.state == CompensationPending
    ensures ScanRow([], row, None, f1).0 == [Kept(row, Pending, [], None)]
            && ScanRow([failed], row, None, f3).0 == [failed]
  {
    assert AddVersion([], Flow(row.flow), Pending, Keep) == [Kept(row, Pending, [], None)];
  }
}
