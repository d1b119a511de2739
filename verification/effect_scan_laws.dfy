/** Laws of the scanner: scanning twice changes nothing, and who owns which baseline. */
module EffectScanLaws {
  import opened EffectModel
  import opened Optional
  import opened EffectOperations
  import opened EffectScan

  // ---------- one row, one record, one identity ----------

  lemma ScanRowTwice(chain: Chain, row: LedgerRow, scope: Option<string>, facts: Facts)
    ensures ScanRow(ScanRow(chain, row, scope, facts).0, row, scope, facts)
            == (ScanRow(chain, row, scope, facts).0, Unchanged)
  {
  }

  lemma ScanMissingTwice(chain: Chain, scope: Option<string>)
    requires chain != []
    ensures ScanMissing(chain, scope) != []
    ensures ScanMissing(ScanMissing(chain, scope), scope) == ScanMissing(chain, scope)
  {
  }

  lemma ReconcileTwice(id: Identity, confirmed: Option<Observation>, chain: Chain, obs: Observation,
                       owned: bool, net: Option<int>, today: int)
    ensures var r := Reconcile(id, confirmed, chain, obs, owned, net, today);
            Reconcile(id, r.mark.confirmed, r.chain, obs, owned, net, today) == Reconciled(r.mark, r.chain, false)
  {
  }

  lemma ReconcileKeepsOwned(id: Identity, confirmed: Option<Observation>, chain: Chain, obs: Observation,
                            owned: bool, net: Option<int>, today: int)
    ensures OwnedTargets(Reconcile(id, confirmed, chain, obs, owned, net, today).chain) == OwnedTargets(chain)
  {
  }

  // ---------- the ledger loop ----------

  /** Record ids are present and no two rows share one. */
  ghost predicate UniqueRows(rows: seq<LedgerRow>) {
    && (forall i :: 0 <= i < |rows| ==> rows[i].flow.recordId != "")
    && (forall i, j :: 0 <= i < j < |rows| ==> rows[i].flow.recordId != rows[j].flow.recordId)
  }

  lemma {:induction false} ScanRowsElsewhere(chains: Chains, rows: seq<LedgerRow>, scope: Option<string>,
                                             facts: Facts, key: Key)
    requires forall i :: 0 <= i < |rows| ==> RowKey(rows[i]) != key
    ensures ChainOf(ScanRows(chains, rows, scope, facts).0, key) == ChainOf(chains, key)
    ensures key in ScanRows(chains, rows, scope, facts).0 <==> key in chains
  {
    if rows != [] {
      var front := rows[..|rows| - 1];
      assert forall i :: 0 <= i < |front| ==> front[i] == rows[i];
      ScanRowsElsewhere(chains, front, scope, facts, key);
      assert RowKey(rows[|rows| - 1]) != key;
    }
  }

  lemma ScanRowKeepsRows(chain: Chain, row: LedgerRow, scope: Option<string>, facts: Facts)
    ensures ScanRow(chain, row, scope, facts).0 == [] ==> chain == []
  {
  }

  /** With unique ids every row meets the chain the scan started with. */
  lemma {:induction false} ScanRowsAt(chains: Chains, rows: seq<LedgerRow>, scope: Option<string>, facts: Facts, n: nat)
    requires n < |rows| && UniqueRows(rows)
    ensures var key := RowKey(rows[n]);
            ChainOf(ScanRows(chains, rows, scope, facts).0, key)
                == ScanRow(ChainOf(chains, key), rows[n], scope, facts).0
  {
    hide ScanRow;
    var front := rows[..|rows| - 1];
    var last := rows[|rows| - 1];
    var key := RowKey(rows[n]);
    assert UniqueRows(front);
    var c := ScanRows(chains, front, scope, facts).0;
    var next := ScanRow(ChainOf(c, RowKey(last)), last, scope, facts).0;
    if n == |rows| - 1 {
      assert forall i :: 0 <= i < |front| ==> front[i] == rows[i];
      ScanRowsElsewhere(chains, front, scope, facts, key);
      ScanRowKeepsRows(ChainOf(c, key), last, scope, facts);
      assert ChainOf(Put(c, key, next), key) == next;
    } else {
      assert front[n] == rows[n];
      ScanRowsAt(chains, front, scope, facts, n);
      assert RowKey(last) != key;
    }
  }

  /** If every row finds its chain settled, the loop changes and counts nothing. */
  lemma {:induction false} ScanRowsSettled(chains: Chains, rows: seq<LedgerRow>, scope: Option<string>, facts: Facts)
    requires forall i :: 0 <= i < |rows| ==>
               ScanRow(ChainOf(chains, RowKey(rows[i])), rows[i], scope, facts)
                   == (ChainOf(chains, RowKey(rows[i])), Unchanged)
    ensures ScanRows(chains, rows, scope, facts).0 == chains
    ensures ScanRows(chains, rows, scope, facts).1.added == 0
    ensures ScanRows(chains, rows, scope, facts).1.changed == 0
  {
    if rows != [] {
      var front := rows[..|rows| - 1];
      assert forall i :: 0 <= i < |front| ==> front[i] == rows[i];
      ScanRowsSettled(chains, front, scope, facts);
      var last := rows[|rows| - 1];
      var key := RowKey(last);
      assert ScanRow(ChainOf(chains, key), last, scope, facts) == (ChainOf(chains, key), Unchanged);
      assert Put(chains, key, ChainOf(chains, key)) == chains;
    }
  }

  /** The rows are counted as broken the same way each time. */
  lemma RowIsSeen(rows: seq<LedgerRow>, n: nat)
    requires n < |rows| && rows[n].flow.recordId != ""
    ensures !IsMissing(RowKey(rows[n]), SeenRecords(rows))
  {
    assert rows[n].flow.recordId in SeenRecords(rows);
  }

  /** Every row finds its record as it would leave it. */
  ghost predicate RowsSettled(chains: Chains, rows: seq<LedgerRow>, scope: Option<string>, facts: Facts) {
    forall i :: 0 <= i < |rows| ==>
      ScanRow(ChainOf(chains, RowKey(rows[i])), rows[i], scope, facts) == (ChainOf(chains, RowKey(rows[i])), Unchanged)
  }

  /** With unique record ids the ledger and deletion passes settle every row. */
  lemma UniqueSettles(s: Store, rows: seq<LedgerRow>, scope: Option<string>, facts: Facts)
    requires UniqueRows(rows)
    ensures RowsSettled(AfterLedger(s, rows, scope, facts).chains, rows, scope, facts)
  {
    var listed, chains := ScanRows(s.chains, rows, scope, facts).0, AfterLedger(s, rows, scope, facts).chains;
    forall i | 0 <= i < |rows|
      ensures ScanRow(ChainOf(chains, RowKey(rows[i])), rows[i], scope, facts)
              == (ChainOf(chains, RowKey(rows[i])), Unchanged)
    {
      RowIsSeen(rows, i);
      ScanRowsAt(s.chains, rows, scope, facts, i);
      assert ChainOf(chains, RowKey(rows[i])) == ChainOf(listed, RowKey(rows[i]));
      ScanRowTwice(ChainOf(s.chains, RowKey(rows[i])), rows[i], scope, facts);
    }
  }

  /** A second ledger and deletion pass over the result of a first one that settled the rows finds nothing to do. */
  lemma {:induction false} LedgerTwice(s: Store, rows: seq<LedgerRow>, scope: Option<string>, facts: Facts,
                                       later: Store)
    requires RowsSettled(AfterLedger(s, rows, scope, facts).chains, rows, scope, facts)
    requires forall k :: k in s.chains ==> s.chains[k] != []
    requires forall k: Key :: k.FlowKey? ==> ChainOf(later.chains,
                                                     k) == ChainOf(AfterLedger(s, rows, scope, facts).chains, k)
    requires forall k :: k in later.chains ==> later.chains[k] != []
    ensures AfterLedger(later, rows, scope, facts) == later
    ensures ScanRows(later.chains, rows, scope, facts).1.added == 0
    ensures ScanRows(later.chains, rows, scope, facts).1.changed == 0
    ensures Vanished(ScanRows(later.chains, rows, scope, facts).0, SeenRecords(rows), scope) == {}
  {
    var seen := SeenRecords(rows);
    var listed := ScanRows(s.chains, rows, scope, facts).0;
    ScanRowsNonEmpty(s.chains, rows, scope, facts);
    forall i | 0 <= i < |rows|
      ensures ScanRow(ChainOf(later.chains, RowKey(rows[i])), rows[i], scope, facts)
              == (ChainOf(later.chains, RowKey(rows[i])), Unchanged)
    {
      assert ChainOf(later.chains, RowKey(rows[i]))
             == ChainOf(AfterLedger(s, rows, scope, facts).chains, RowKey(rows[i]));
    }
    ScanRowsSettled(later.chains, rows, scope, facts);
    forall k | k in later.chains && IsMissing(k, seen)
      ensures ScanMissing(later.chains[k], scope) == later.chains[k]
    {
      assert later.chains[k] == ChainOf(AfterLedger(s, rows, scope, facts).chains, k);
      assert k in listed && later.chains[k] == ScanMissing(listed[k], scope);
      ScanMissingTwice(listed[k], scope);
    }
    assert SweepMissing(later.chains, later.chains.Keys, seen, scope) == later.chains;
  }

  lemma {:induction false} ScanRowsNonEmpty(chains: Chains, rows: seq<LedgerRow>, scope: Option<string>, facts: Facts)
    requires forall k :: k in chains ==> chains[k] != []
    ensures forall k :: k in ScanRows(chains, rows, scope, facts).0 ==> ScanRows(chains, rows, scope, facts).0[k] != []
  {
    if rows != [] {
      ScanRowsNonEmpty(chains, rows[..|rows| - 1], scope, facts);
    }
  }

  // ---------- the holdings loop ----------

  lemma ReconcileAllChain(s: Store, ids: set<Identity>, cash: Holdings, today: int, key: Key)
    ensures var t := ReconcileAll(s, ids, cash, today);
            ChainOf(t.chains, key) ==
              if key.DriftKey? && key.identity in ids then ReconcileAt(s, cash, today, key.identity).chain
              else ChainOf(s.chains, key)
  {
    if key.DriftKey? && key.identity in ids {
      ReconcileNonEmpty(s, cash, today, key.identity);
    }
  }

  lemma ReconcileNonEmpty(s: Store, cash: Holdings, today: int, id: Identity)
    ensures ChainOf(s.chains, DriftKey(id)) != [] ==> ReconcileAt(s, cash, today, id).chain != []
  {
  }

  /** The reconciliation does not change who owns a baseline. */
  lemma ReconcileAllKeepsOwners(s: Store, ids: set<Identity>, cash: Holdings, today: int)
    ensures OwnedIdentities(ReconcileAll(s, ids, cash, today).chains) == OwnedIdentities(s.chains)
  {
    var t := ReconcileAll(s, ids, cash, today);
    forall k ensures OwnedTargets(ChainOf(t.chains, k)) == OwnedTargets(ChainOf(s.chains, k)) {
      ReconcileAllChain(s, ids, cash, today, k);
      if k.DriftKey? && k.identity in ids {
        var id := k.identity;
        ReconcileKeepsOwned(id, ConfirmedOf(s.prints, id), ChainOf(s.chains, k), Obs(cash, id),
                            id in OwnedIdentities(s.chains), NetAt(s.chains, id), today);
      }
    }
    SameOwners(t.chains, s.chains);
  }

  /** The nets depend on the ledger chains only. */
  lemma SameNets(a: Chains, b: Chains, id: Identity)
    requires forall k: Key :: k.FlowKey? ==> ChainOf(a, k) == ChainOf(b, k)
    ensures NetAt(a, id) == NetAt(b, id)
  {
    forall k | k in a && ActiveAt(k, a[k]) == Some(id) ensures k in b && ActiveAt(k, b[k]) == Some(id) && b[k] == a[k] {
      assert ChainOf(a, k) == ChainOf(b, k);
    }
    forall k | k in b && ActiveAt(k, b[k]) == Some(id) ensures k in a && ActiveAt(k, a[k]) == Some(id) && b[k] == a[k] {
      assert ChainOf(a, k) == ChainOf(b, k);
    }
    assert ActiveDeltas(a, id) == ActiveDeltas(b, id);
  }

  lemma ReconcileAllKeepsFlows(s: Store, ids: set<Identity>, cash: Holdings, today: int)
    ensures forall k: Key :: k.FlowKey? ==> ChainOf(ReconcileAll(s, ids, cash, today).chains, k) == ChainOf(s.chains, k)
  {
    forall k: Key | k.FlowKey? ensures ChainOf(ReconcileAll(s, ids, cash, today).chains, k) == ChainOf(s.chains, k) {
      ReconcileAllChain(s, ids, cash, today, k);
    }
  }

  lemma SameOwners(a: Chains, b: Chains)
    requires forall k :: OwnedTargets(ChainOf(a, k)) == OwnedTargets(ChainOf(b, k))
    ensures OwnedIdentities(a) == OwnedIdentities(b)
  {
    forall id | id in OwnedIdentities(a) ensures id in OwnedIdentities(b) {
      var k :| k in a && id in OwnedTargets(a[k]);
      assert id in OwnedTargets(ChainOf(b, k));
    }
    forall id | id in OwnedIdentities(b) ensures id in OwnedIdentities(a) {
      var k :| k in b && id in OwnedTargets(b[k]);
      assert id in OwnedTargets(ChainOf(a, k));
    }
  }

  /** After a reconciliation every identity finds itself settled. */
  lemma ReconcileAtTwice(s: Store, ids: set<Identity>, cash: Holdings, today: int, id: Identity)
    requires id in ids
    ensures var t := ReconcileAll(s, ids, cash, today);
            ReconcileAt(t, cash, today, id) == Reconciled(t.prints[id], ChainOf(t.chains, DriftKey(id)), false)
  {
    var t := ReconcileAll(s, ids, cash, today);
    ReconcileAllKeepsOwners(s, ids, cash, today);
    ReconcileAllKeepsFlows(s, ids, cash, today);
    SameNets(t.chains, s.chains, id);
    ReconcileAllChain(s, ids, cash, today, DriftKey(id));
    ReconcileTwice(id, ConfirmedOf(s.prints, id), ChainOf(s.chains, DriftKey(id)), Obs(cash, id),
                   id in OwnedIdentities(s.chains), NetAt(s.chains, id), today);
  }

  lemma ReconcileAllSettled(t: Store, ids: set<Identity>, cash: Holdings, today: int)
    requires ids <= t.prints.Keys
    requires forall id :: id in ids ==>
               ReconcileAt(t, cash, today, id) == Reconciled(t.prints[id], ChainOf(t.chains, DriftKey(id)), false)
    requires forall k :: k in t.chains ==> t.chains[k] != []
    ensures ReconcileAll(t, ids, cash, today) == t && Moved(t, ids, cash, today) == {}
  {
    forall k | k in DriftKeys(t, ids, cash, today) ensures k in t.chains {
      var id :| id in ids && ReconcileAt(t, cash, today, id).chain != [] && k == DriftKey(id);
    }
    var u := ReconcileAll(t, ids, cash, today);
    assert u.prints == t.prints;
    assert u.chains == t.chains;
  }

  lemma AfterLedgerNonEmpty(s: Store, rows: seq<LedgerRow>, scope: Option<string>, facts: Facts)
    requires forall k :: k in s.chains ==> s.chains[k] != []
    ensures forall k :: k in AfterLedger(s, rows, scope, facts).chains ==>
              AfterLedger(s, rows, scope, facts).chains[k] != []
  {
    ScanRowsNonEmpty(s.chains, rows, scope, facts);
    var listed := ScanRows(s.chains, rows, scope, facts).0;
    forall k | k in listed ensures ScanMissing(listed[k], scope) != [] {
      ScanMissingTwice(listed[k], scope);
    }
  }

  lemma ReconcileAllNonEmpty(s: Store, ids: set<Identity>, cash: Holdings, today: int)
    requires forall k :: k in s.chains ==> s.chains[k] != []
    ensures forall k :: k in ReconcileAll(s, ids, cash, today).chains ==>
              ReconcileAll(s, ids, cash, today).chains[k] != []
  {
    var t := ReconcileAll(s, ids, cash, today);
    forall k | k in t.chains ensures t.chains[k] != [] {
      if k.DriftKey? && k.identity in ids {
        ReconcileNonEmpty(s, cash, today, k.identity);
        if k !in s.chains {
          var id :| id in ids && ReconcileAt(s, cash, today, id).chain != [] && k == DriftKey(id);
        }
      }
    }
  }

  lemma ScanSettled(t: Store, rows: seq<LedgerRow>, cash: Holdings, scope: Option<string>, facts: Facts)
    requires AfterLedger(t, rows, scope, facts) == t
    requires ScanRows(t.chains, rows, scope, facts).1.added == 0
    requires ScanRows(t.chains, rows, scope, facts).1.changed == 0
    requires Vanished(ScanRows(t.chains, rows, scope, facts).0, SeenRecords(rows), scope) == {}
    requires ReconcileAll(t, ScannedIdentities(t.prints, cash, scope), cash, facts.today) == t
    requires Moved(t, ScannedIdentities(t.prints, cash, scope), cash, facts.today) == {}
    ensures var again := CommitScan(t, rows, cash, scope, facts);
            again.store == t && again.added == 0 && again.changed == 0 && again.deleted == 0
  {
  }

  /** After a scan the ledger side is settled. */
  lemma LedgerSettled(s: Store, rows: seq<LedgerRow>, cash: Holdings, scope: Option<string>, facts: Facts, t: Store)
    requires RowsSettled(AfterLedger(s, rows, scope, facts).chains, rows, scope, facts)
    requires forall k :: k in s.chains ==> s.chains[k] != []
    requires t == ReconcileAll(AfterLedger(s, rows, scope, facts), ScannedIdentities(s.prints, cash, scope), cash,
                               facts.today)
    ensures AfterLedger(t, rows, scope, facts) == t
    ensures ScanRows(t.chains, rows, scope, facts).1.added == 0
    ensures ScanRows(t.chains, rows, scope, facts).1.changed == 0
    ensures Vanished(ScanRows(t.chains, rows, scope, facts).0, SeenRecords(rows), scope) == {}
  {
    AfterLedgerNonEmpty(s, rows, scope, facts);
    ReconcileAllNonEmpty(AfterLedger(s, rows, scope, facts), ScannedIdentities(s.prints, cash, scope), cash,
                         facts.today);
    ReconcileAllKeepsFlows(AfterLedger(s, rows, scope, facts), ScannedIdentities(s.prints, cash, scope), cash,
                           facts.today);
    LedgerTwice(s, rows, scope, facts, t);
  }

  /** After a reconciliation over `ids` the holdings side is settled. */
  lemma HoldingsSettled(s: Store, ids: set<Identity>, cash: Holdings, today: int)
    requires forall k :: k in s.chains ==> s.chains[k] != []
    ensures var t := ReconcileAll(s, ids, cash, today);
            ReconcileAll(t, ids, cash, today) == t && Moved(t, ids, cash, today) == {}
  {
    var t := ReconcileAll(s, ids, cash, today);
    ReconcileAllNonEmpty(s, ids, cash, today);
    forall id | id in ids
      ensures ReconcileAt(t, cash, today, id) == Reconciled(t.prints[id], ChainOf(t.chains, DriftKey(id)), false)
    {
      ReconcileAtTwice(s, ids, cash, today, id);
    }
    ReconcileAllSettled(t, ids, cash, today);
  }

  lemma SameIdentities(s: Store, ids: set<Identity>, cash: Holdings, scope: Option<string>, today: int)
    requires ids == ScannedIdentities(s.prints, cash, scope)
    ensures ScannedIdentities(ReconcileAll(s, ids, cash, today).prints, cash, scope) == ids
  {
  }

  // ---------- what a row and a vanished row become ----------

  /** A complete row that is due gives the same record whether it was first seen now or while it was still scheduled. */
  lemma DiscoveryTimeDoesNotMatter(row: LedgerRow, scope: Option<string>, early: Facts, due: Facts)
    requires Flow(row.flow).Completed() && early.cutover == due.cutover
    requires Desired(Flow(row.flow), due).0 == Pending
    ensures ScanRow(ScanRow([], row, scope, early).0, row, scope, due).0 == ScanRow([], row, scope, due).0
  {
  }

  /**
   A record that vanished from the ledger gets a deletion. It is to be applied exactly when the newest
   version was applied, and then it takes back at every identity what that version holds; otherwise it
   is only recorded. What was applied before stays applied.
   */
  lemma DeletionTakesBack(chain: Chain, scope: Option<string>)
    requires chain != [] && chain[|chain| - 1].source.Flow? && chain[|chain| - 1].state != CompensationPending
    requires scope.None? || chain[|chain| - 1].source.Account() == scope.value
    ensures var latest := chain[|chain| - 1];
            var next := ScanMissing(chain, scope);
            && |next| == |chain| + 1 && next[|chain|].source == Deletion(latest.source.flow)
            && next[|chain|].state == Pending
            && (next[|chain|].mode == Apply <==> latest.state == Applied && latest.mode == Apply)
            && PreviousApplied(next) == LastApplied(chain)
            && (latest.state == Applied && latest.source.Signed().Some? ==>
                  var ops := Operations(PreviousApplied(next), next[|chain|].source);
                  ops.Some? && forall id :: DeltaAt(ops.value, id) == -Worth(Some(latest.source), id))
  {
  }

  // ---------- the theorems ----------

  /** A scan whose ledger and deletion passes settle every row is idempotent. */
  lemma SettledScanTwice(s: Store, rows: seq<LedgerRow>, cash: Holdings, scope: Option<string>, facts: Facts)
    requires RowsSettled(AfterLedger(s, rows, scope, facts).chains, rows, scope, facts)
    requires forall k :: k in s.chains ==> s.chains[k] != []
    ensures var first := CommitScan(s, rows, cash, scope, facts);
            var second := CommitScan(first.store, rows, cash, scope, facts);
            second.store == first.store && second.added == 0 && second.changed == 0 && second.deleted == 0
  {
    hide RowsSettled, ScanRows, SweepMissing;
    var ids := ScannedIdentities(s.prints, cash, scope);
    var t := CommitScan(s, rows, cash, scope, facts).store;
    LedgerSettled(s, rows, cash, scope, facts, t);
    AfterLedgerNonEmpty(s, rows, scope, facts);
    HoldingsSettled(AfterLedger(s, rows, scope, facts), ids, cash, facts.today);
    SameIdentities(AfterLedger(s, rows, scope, facts), ids, cash, scope, facts.today);
    ScanSettled(t, rows, cash, scope, facts);
  }

  /**
   Scan idempotence, whole ledger or one account: with unique record ids, an unchanged ledger, unchanged
   holdings and the same date and NAV facts, a second scan counts no addition, change or deletion and
   leaves every version, state, deferral and baseline as it is.
   */
  lemma ScanTwice(s: Store, rows: seq<LedgerRow>, cash: Holdings, scope: Option<string>, facts: Facts)
    requires UniqueRows(rows)
    requires forall k :: k in s.chains ==> s.chains[k] != []
    ensures var first := CommitScan(s, rows, cash, scope, facts);
            var second := CommitScan(first.store, rows, cash, scope, facts);
            second.store == first.store && second.added == 0 && second.changed == 0 && second.deleted == 0
  {
    hide CommitScan, RowsSettled;
    UniqueSettles(s, rows, scope, facts);
    SettledScanTwice(s, rows, cash, scope, facts);
  }
}
