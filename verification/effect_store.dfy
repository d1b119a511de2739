/** The effect store and the effect service as the objects the program has, refining the step functions. */
module EffectStore {
  import opened EffectModel
  import opened Optional
  import opened EffectOperations
  import opened EffectScan
  import opened EffectScanLaws
  import opened EffectScanLoops
  import opened EffectInvariants

  /** The tables cash_flow_effects (grouped by record) and cash_holding_fingerprints. */
  class CashFlowEffectStore {
    var chains: Chains
    var prints: Prints

    function View(): Store
      reads this
    {
      Store(chains, prints)
    }

    constructor ()
      ensures View() == Store(map[], map[])
    {
      chains, prints := map[], map[];
    }

    /** create_version. */
    method CreateVersion(key: Key, source: Source, state: State, mode: Mode) returns (e: Effect)
      modifies this`chains
      ensures chains == old(chains)[key := AddVersion(ChainOf(old(chains), key), source, state, mode)]
      ensures Latest(chains[key]) == Some(e) && e.source == source
    {
      var chain := ChainOf(chains, key);
      if chain != [] && chain[|chain| - 1].source == source {
        e := chain[|chain| - 1];
        chains := chains[key := chain];
        return;
      }
      var version := if chain == [] then 1 else chain[|chain| - 1].version + 1;
      e := Effect(version, source, state, mode, [], [], None);
      if chain != [] && chain[|chain| - 1].state.Unresolved() {
        chain := SetLatest(chain, chain[|chain| - 1].(state := Superseded));
      }
      chains := chains[key := chain + [e]];
    }

    /** update_effect on the newest version, guarded by the expected states; false is its state conflict. */
    method UpdateEffect(key: Key, expected: set<State>, e: Effect) returns (ok: bool)
      modifies this`chains
      ensures ok <==> ChainOf(old(chains), key) != [] && Latest(ChainOf(old(chains), key)).value.state in expected
      ensures chains == if ok then old(chains)[key := SetLatest(ChainOf(old(chains), key), e)] else old(chains)
    {
      var chain := ChainOf(chains, key);
      ok := chain != [] && chain[|chain| - 1].state in expected;
      if ok {
        chains := chains[key := SetLatest(chain, e)];
      }
    }

    /** _defer_source_change over the event log of the newest version. */
    method DeferSourceChange(key: Key, source: Source) returns (isNew: bool)
      requires ChainOf(chains, key) != []
      modifies this`chains
      ensures isNew <==> source !in Latest(ChainOf(old(chains), key)).value.deferred
      ensures chains == old(chains)[key := Defer(ChainOf(old(chains), key), source)]
    {
      var chain := ChainOf(chains, key);
      var e := chain[|chain| - 1];
      isNew := source !in e.deferred;
      if isNew {
        chains := chains[key := SetLatest(chain, e.(deferred := e.deferred + [source]))];
      }
    }

    method ObserveFingerprint(id: Identity, obs: Observation)
      modifies this`prints
      ensures prints == old(prints)[id := Fingerprint(ConfirmedOf(old(prints), id), obs)]
    {
      prints := prints[id := Fingerprint(if id in prints then prints[id].confirmed else None, obs)];
    }

    method ConfirmFingerprint(id: Identity, obs: Observation)
      modifies this`prints
      ensures prints == old(prints)[id := Fingerprint(Some(obs), obs)]
    {
      prints := prints[id := Fingerprint(Some(obs), obs)];
    }

    /** get_previous_applied: the newest applied version below the newest one. */
    method GetPreviousApplied(key: Key) returns (source: Option<Source>)
      ensures source == PreviousApplied(ChainOf(chains, key))
    {
      var chain := ChainOf(chains, key);
      if chain == [] { return None; }
      var n := |chain| - 1;
      while n > 0
        invariant 0 <= n <= |chain| - 1
        invariant LastApplied(chain[..|chain| - 1]) == LastApplied(chain[..n])
      {
        if chain[n - 1].state == Applied {
          return Some(chain[n - 1].source);
        }
        assert chain[..n][..n - 1] == chain[..n - 1];
        n := n - 1;
      }
      source := None;
    }
  }

  /** The discovery half of the service: scanning. */
  class CashFlowScanner {
    const store: CashFlowEffectStore

    constructor (store: CashFlowEffectStore)
      ensures this.store == store
    {
      this.store := store;
    }

    /** One iteration of the ledger loop of _commit_scan. */
    method ScanOneRow(row: LedgerRow, scope: Option<string>, facts: Facts) returns (change: Change, broken: bool)
      modifies store`chains
      ensures (store.chains, change) ==
                var (next, c) := ScanRow(ChainOf(old(store.chains), RowKey(row)), row, scope, facts);
                (Put(old(store.chains), RowKey(row), next), c)
      ensures broken <==>
                !OutOfScope(ChainOf(old(store.chains), RowKey(row)), row, scope) && !Flow(row.flow).Completed()
    {
      var key := RowKey(row);
      var chain := ChainOf(store.chains, key);
      assert Put(store.chains, key, chain) == store.chains;
      if scope.Some? && row.rawAccount != scope.value
         && (chain == [] || chain[|chain| - 1].source.Account() != scope.value)
      {
        return Unchanged, false;
      }
      var source := Flow(row.flow);
      var (state, mode) := Desired(source, facts);
      broken := !source.Completed();
      if chain != [] && chain[|chain| - 1].source == source {
        if chain[|chain| - 1].state == Scheduled && state == Pending {
          var _ := store.UpdateEffect(key, {Scheduled}, chain[|chain| - 1].(state := Pending));
          return Changed, broken;
        }
        return Unchanged, broken;
      }
      if chain != [] && chain[|chain| - 1].state == CompensationPending {
        var isNew := store.DeferSourceChange(key, source);
        return if isNew then Changed else Unchanged, broken;
      }
      var _ := store.CreateVersion(key, source, state, mode);
      return if chain != [] then Changed else Added, broken;
    }

    /** The ledger loop of _commit_scan. */
    method ScanLedger(rows: seq<LedgerRow>, scope: Option<string>, facts: Facts)
      returns (added: nat, changed: nat, blocked: nat, seen: set<string>)
      modifies store`chains
      ensures (store.chains, Tally(added, changed, blocked)) == ScanRows(old(store.chains), rows, scope, facts)
      ensures seen == SeenRecords(rows)
    {
      hide ScanRow, OutOfScope, SeenRecords;
      added, changed, blocked, seen := 0, 0, 0, {};
      SeenNothing(rows);
      assert rows[..0] == [];
      for i := 0 to |rows|
        invariant (store.chains, Tally(added, changed, blocked)) == ScanRows(old(store.chains), rows[..i], scope, facts)
        invariant seen == SeenRecords(rows[..i])
      {
        var row := rows[i];
        assert rows[..i + 1][..i] == rows[..i] && rows[..i + 1][i] == row;
        SeenStep(rows, i);
        if row.flow.recordId != "" {
          seen := seen + {row.flow.recordId};
        }
        var change, broken := ScanOneRow(row, scope, facts);
        if change == Added { added := added + 1; }
        if change == Changed { changed := changed + 1; }
        if broken { blocked := blocked + 1; }
      }
      assert rows[..|rows|] == rows;
    }

    /** One iteration of the deletion loop. */
    method SweepOne(key: Key, scope: Option<string>) returns (deleted: bool)
      requires key in store.chains && store.chains[key] != []
      modifies store`chains
      ensures store.chains == old(store.chains)[key := ScanMissing(old(store.chains[key]), scope)]
      ensures deleted <==> store.chains[key] != old(store.chains[key])
    {
      var chain := store.chains[key];
      var latest := chain[|chain| - 1];
      assert store.chains == store.chains[key := chain];
      if scope.Some? && latest.source.Account() != scope.value {
        return false;
      }
      if !latest.source.Flow? {
        return false;
      }
      if latest.state == CompensationPending {
        deleted := store.DeferSourceChange(key, Deletion(latest.source.flow));
        return;
      }
      var mode := if latest.state == Applied && latest.mode == Apply then Apply else Keep;
      var _ := store.CreateVersion(key, Deletion(latest.source.flow), Pending, mode);
      deleted := true;
      assert |store.chains[key]| == |chain| + 1;
    }

    /** The deletion loop of _commit_scan, over the newest versions in any order. */
    method SweepDeletions(seen: set<string>, scope: Option<string>) returns (deleted: nat)
      requires forall k :: k in store.chains ==> store.chains[k] != []
      modifies store`chains
      ensures store.chains == SweepMissing(old(store.chains), old(store.chains).Keys, seen, scope)
      ensures deleted == |Vanished(old(store.chains), seen, scope)|
    {
      hide ScanMissing, SweepMissing, Vanished;
      deleted := 0;
      ghost var chains0 := store.chains;
      var rest := store.chains.Keys;
      ghost var done: set<Key> := {};
      ghost var gone: set<Key> := {};
      SweepEnds(chains0, seen, scope);
      while rest != {}
        invariant done + rest == chains0.Keys && done !! rest
        invariant store.chains == SweepMissing(chains0, done, seen, scope)
        invariant gone == Vanished(chains0, seen, scope) * done && deleted == |gone|
        decreases rest
      {
        var key :| key in rest;
        SweepStep(chains0, done, key, seen, scope);
        if key.FlowKey? && key.recordId !in seen {
          var found := SweepOne(key, scope);
          if found {
            deleted := deleted + 1;
            gone := gone + {key};
          }
        } else {
          assert store.chains == store.chains[key := chains0[key]];
        }
        done, rest := done + {key}, rest - {key};
      }
      assert done == chains0.Keys;
    }

    // ---------- holdings ----------

    /** compensation_identities. */
    method OwnedByCompensation() returns (owned: set<Identity>)
      ensures owned == OwnedIdentities(store.chains)
    {
      owned := {};
      var rest := store.chains.Keys;
      ghost var done: set<Key> := {};
      while rest != {}
        invariant done + rest == store.chains.Keys && done !! rest
        invariant owned == set k, id | k in done && id in OwnedTargets(store.chains[k]) :: id
        decreases rest
      {
        var key :| key in rest;
        owned := owned + OwnedTargets(store.chains[key]);
        done, rest := done + {key}, rest - {key};
      }
    }

    static method SumDeltas(ops: seq<Operation>) returns (sum: int)
      ensures sum == DeltaSum(ops)
    {
      sum := 0;
      assert ops[0..] == ops;
      for i := 0 to |ops|
        invariant sum + DeltaSum(ops[i..]) == DeltaSum(ops)
      {
        assert ops[i..][1..] == ops[i + 1..];
        sum := sum + ops[i].delta;
      }
    }

    /** active_cash_flow_net together with active_cash_flow_identities. */
    method NetOfActive() returns (nets: map<Identity, int>)
      ensures forall id :: NetAt(store.chains, id) == if id in nets then Some(nets[id]) else None
    {
      hide ActiveDelta, NetsAre;
      nets := map[];
      var rest := store.chains.Keys;
      ghost var done: set<Key> := {};
      NetsStart(store.chains);
      while rest != {}
        invariant done + rest == store.chains.Keys && done !! rest
        invariant NetsAre(store.chains, done, nets)
        decreases rest
      {
        var key :| key in rest;
        var chain := store.chains[key];
        NetsStep(store.chains, done, nets, key);
        if key.FlowKey? && chain != [] && chain[|chain| - 1].state.Unresolved()
            && chain[|chain| - 1].source.At().Some? {
          var at := chain[|chain| - 1].source.At().value;
          var delta := DeltaOf(key);
          nets := nets[at := (if at in nets then nets[at] else 0) + delta];
        }
        done, rest := done + {key}, rest - {key};
      }
      assert done == store.chains.Keys;
      NetsEnd(store.chains, nets);
    }

    /** The deltas of one active effect; nothing is added when reading an amount raises. */
    method DeltaOf(key: Key) returns (delta: int)
      requires key in store.chains && store.chains[key] != []
      ensures delta == ActiveDelta(store.chains[key])
    {
      var chain := store.chains[key];
      var previous := store.GetPreviousApplied(key);
      var ops := Operations(previous, chain[|chain| - 1].source);
      delta := 0;
      if ops.Some? {
        delta := SumDeltas(ops.value);
      }
    }

    /** One iteration of _scan_holding_fingerprints. */
    method ReconcileOne(id: Identity, obs: Observation, owned: bool, net: Option<int>,
                        today: int) returns (changed: bool)
      requires var chain := ChainOf(store.chains, DriftKey(id)); chain != [] ==> chain[|chain| - 1].state != Superseded
      modifies store
      ensures var r := Reconcile(id, ConfirmedOf(old(store.prints), id), ChainOf(old(store.chains), DriftKey(id)),
                                 obs, owned, net, today);
              && store.chains == Put(old(store.chains), DriftKey(id), r.chain)
              && store.prints == old(store.prints)[id := r.mark] && changed == r.changed
    {
      var key := DriftKey(id);
      var chain := ChainOf(store.chains, key);
      var latest := Latest(chain);
      var confirmed := ConfirmedOf(store.prints, id);
      assert Put(store.chains, key, chain) == store.chains;
      store.ObserveFingerprint(id, obs);
      if owned {
        return false;
      }
      if net.Some? && confirmed.Some? && Amount(obs) == Amount(confirmed.value) + net.value {
        return false;
      }
      if confirmed == Some(obs) {
        if latest.Some? && latest.value.state.Unresolved() && latest.value.state != CompensationPending {
          changed := store.UpdateEffect(key, {Scheduled, Pending, Blocked, Previewed, Stale, Applying},
                                        latest.value.(state := Applied));
          return;
        }
        return false;
      }
      var source := DriftSource(id, chain, obs, confirmed, today);
      if id.broker != FUTU_BROKER {
        changed := AcceptBaseline(id, obs, source);
        return;
      }
      if latest.Some? && latest.value.source == source {
        return false;
      }
      if latest.Some? && latest.value.state == CompensationPending {
        changed := store.DeferSourceChange(key, source);
        return;
      }
      var _ := store.CreateVersion(key, source, Pending, Apply);
      changed := true;
    }

    /** The automatic policy for a non-Futu holding edited by hand: a settled record and a new baseline. */
    method AcceptBaseline(id: Identity, obs: Observation, source: Source) returns (changed: bool)
      requires var chain := ChainOf(store.chains, DriftKey(id)); chain != [] ==> chain[|chain| - 1].state != Superseded
      modifies store
      ensures var chain := ChainOf(old(store.chains), DriftKey(id));
              var latest := Latest(chain);
              if latest.Some? && latest.value.state == CompensationPending
              then store.chains == old(store.chains) && store.prints == old(store.prints) && !changed
              else changed && store.prints == old(store.prints)[id := Fingerprint(Some(obs), obs)]
                   && store.chains == old(store.chains)[DriftKey(id) :=
                        if latest.Some? && latest.value.source == source
                        then SetLatest(chain, latest.value.(state := RecordOnly, targets := [], task := None))
                        else AddVersion(chain, source, RecordOnly, Keep)]
    {
      var key := DriftKey(id);
      var latest := Latest(ChainOf(store.chains, key));
      if latest.Some? && latest.value.state == CompensationPending {
        return false;
      }
      if latest.Some? && latest.value.source == source {
        var _ := store.UpdateEffect(key, {Applied, RecordOnly, Scheduled, Pending, Blocked, Previewed, Stale, Applying},
                                    latest.value.(state := RecordOnly, targets := [], task := None));
      } else {
        var _ := store.CreateVersion(key, source, RecordOnly, Keep);
      }
      store.ConfirmFingerprint(id, obs);
      changed := true;
    }

    /** _scan_holding_fingerprints, over the scanned identities in any order. */
    method ReconcileHoldings(ids: set<Identity>, cash: Holdings, today: int) returns (changed: nat)
      requires forall k :: k in store.chains ==>
                 store.chains[k] != [] && store.chains[k][|store.chains[k]| - 1].state != Superseded
      modifies store
      ensures store.View() == ReconcileAll(old(store.View()), ids, cash, today)
      ensures changed == |Moved(old(store.View()), ids, cash, today)|
    {
      hide Reconcile, ReconcileAll, NetAt, OwnedIdentities, Moved;
      ghost var s0 := store.View();
      var owned := OwnedByCompensation();
      var nets := NetOfActive();
      changed := 0;
      var rest := ids;
      ghost var done: set<Identity> := {};
      ReconcileNone(s0, cash, today);
      while rest != {}
        invariant done + rest == ids && done !! rest
        invariant store.View() == ReconcileAll(s0, done, cash, today)
        invariant changed == |Moved(s0, done, cash, today)| && Moved(s0, done, cash, today) <= done
        decreases rest
      {
        var id :| id in rest;
        ReconcileBefore(s0, done, cash, today, id);
        ReconcileStep(s0, done, cash, today, id);
        MovedStep(s0, done, cash, today, id);
        var found := ReconcileOne(id, Obs(cash, id), id in owned, if id in nets then Some(nets[id]) else None, today);
        if found {
          changed := changed + 1;
        }
        done, rest := done + {id}, rest - {id};
      }
      assert done == ids;
    }

    /** _commit_scan. */
    method Commit(rows: seq<LedgerRow>, cash: Holdings, scope: Option<string>, facts: Facts)
      returns (added: nat, changed: nat, deleted: nat, blocked: nat)
      requires StoreOk(store.View())
      modifies store
      ensures ScanResult(store.View(), added, changed, deleted, blocked)
              == EffectScan.CommitScan(old(store.View()), rows, cash, scope, facts)
      ensures StoreOk(store.View())
    {
      hide ScanRows, SweepMissing, Vanished, ReconcileAll, Moved, SeenRecords;
      ghost var s := store.View();
      CommitScanOk(s, rows, cash, scope, facts);
      ScanRowsNonEmpty(s.chains, rows, scope, facts);
      var seen: set<string>;
      added, changed, blocked, seen := ScanLedger(rows, scope, facts);
      deleted := SweepDeletions(seen, scope);
      AfterLedgerOk(s, rows, scope, facts);
      assert store.View() == AfterLedger(s, rows, scope, facts);
      SweptNotSuperseded(store.View());
      var moved := ReconcileHoldings(ScannedIdentities(store.prints, cash, scope), cash, facts.today);
      changed := changed + moved;
    }
  }

  lemma SweptNotSuperseded(s: Store)
    requires StoreOk(s)
    ensures forall k :: k in s.chains ==> s.chains[k] != [] && s.chains[k][|s.chains[k]| - 1].state != Superseded
  {
    forall k | k in s.chains ensures s.chains[k][|s.chains[k]| - 1].state != Superseded {
      assert Good(k, s.chains[k]);
    }
  }
}
