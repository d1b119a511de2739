/** Exactly when a second scan of an unchanged ledger is idle, and which ledgers never settle. */
module EffectRescan {
  import opened EffectModel
  import opened Optional
  import opened EffectScan
  import opened EffectScanLaws

  predicate InCompensation(chain: Chain) { chain != [] && chain[|chain| - 1].state == CompensationPending }

  /** Outside compensation every row has a record id, and rows that share one have the same facts. */
  ghost predicate Settles(chains: Chains, rows: seq<LedgerRow>) {
    forall i :: 0 <= i < |rows| ==> InCompensation(ChainOf(chains, RowKey(rows[i]))) || Settling(rows, rows[i])
  }

  ghost predicate Settling(rows: seq<LedgerRow>, row: LedgerRow) {
    row.flow.recordId != "" && forall j :: 0 <= j < |rows| && rows[j].flow.recordId == row.flow.recordId ==>
                                 rows[j].flow == row.flow
  }

  ghost predicate RowSettled(chain: Chain, row: LedgerRow, scope: Option<string>, facts: Facts) {
    ScanRow(chain, row, scope, facts) == (chain, Unchanged)
  }

  lemma ScanRowCompensation(chain: Chain, row: LedgerRow, scope: Option<string>, facts: Facts)
    ensures InCompensation(ScanRow(chain, row, scope, facts).0) <==> InCompensation(chain)
  {
  }

  /** A scan neither begins nor ends a compensation. */
  lemma {:induction false} ScanKeepsCompensation(chains: Chains, rows: seq<LedgerRow>, scope: Option<string>,
                                                 facts: Facts, key: Key)
    ensures InCompensation(ChainOf(ScanRows(chains, rows, scope, facts).0, key)) <==>
              InCompensation(ChainOf(chains, key))
  {
    if rows != [] {
      hide ScanRow;
      var front, last := rows[..|rows| - 1], rows[|rows| - 1];
      ScanKeepsCompensation(chains, front, scope, facts, key);
      ScanRowCompensation(ChainOf(ScanRows(chains, front, scope, facts).0, RowKey(last)), last, scope, facts);
    }
  }

  /** Under compensation each row is remembered, and stays so when another one is. */
  lemma CompensationRemembers(chain: Chain, row: LedgerRow, other: LedgerRow, scope: Option<string>, facts: Facts)
    requires InCompensation(chain) && RowSettled(chain, row, scope, facts)
    ensures RowSettled(ScanRow(chain, other, scope, facts).0, row, scope, facts)
    ensures RowSettled(ScanMissing(chain, scope), row, scope, facts)
  {
  }

  /** The ledger pass leaves every row of a settling ledger settled, whatever rows follow it. */
  lemma {:induction false} RowStaysSettled(chains: Chains, rows: seq<LedgerRow>, scope: Option<string>, facts: Facts,
                                           n: nat)
    requires n < |rows|
    requires || InCompensation(ChainOf(chains, RowKey(rows[n])))
             || forall j :: 0 <= j < |rows| && RowKey(rows[j]) == RowKey(rows[n]) ==> rows[j].flow == rows[n].flow
    ensures RowSettled(ChainOf(ScanRows(chains, rows, scope, facts).0, RowKey(rows[n])), rows[n], scope, facts)
  {
    hide ScanRow, RowSettled;
    var front, last := rows[..|rows| - 1], rows[|rows| - 1];
    var key := RowKey(rows[n]);
    var c := ScanRows(chains, front, scope, facts).0;
    var chain := ChainOf(c, RowKey(last));
    ScanRowKeepsRows(chain, last, scope, facts);
    assert RowKey(last) == key ==>
             ChainOf(ScanRows(chains, rows, scope, facts).0, key) == ScanRow(chain, last, scope, facts).0;
    SettledAfterScan(chain, last, scope, facts);
    if n < |rows| - 1 {
      assert front[n] == rows[n] && forall j :: 0 <= j < |front| ==> front[j] == rows[j];
      RowStaysSettled(chains, front, scope, facts, n);
      if RowKey(last) == key {
        ScanKeepsCompensation(chains, front, scope, facts, key);
        if InCompensation(chain) {
          CompensationRemembers(chain, rows[n], last, scope, facts);
        } else {
          SameFlowSettled(chain, last, rows[n], scope, facts);
        }
      }
    }
  }

  lemma SettledAfterScan(chain: Chain, row: LedgerRow, scope: Option<string>, facts: Facts)
    ensures RowSettled(ScanRow(chain, row, scope, facts).0, row, scope, facts)
  {
    ScanRowTwice(chain, row, scope, facts);
  }

  lemma SameFlowSettled(chain: Chain, row: LedgerRow, other: LedgerRow, scope: Option<string>, facts: Facts)
    requires !InCompensation(chain) && RowSettled(chain, other, scope, facts) && other.flow == row.flow
    ensures RowSettled(ScanRow(chain, row, scope, facts).0, other, scope, facts)
  {
    SettledAfterScan(chain, row, scope, facts);
  }

  lemma SettlingRows(s: Store, rows: seq<LedgerRow>, facts: Facts)
    requires Settles(s.chains, rows)
    ensures RowsSettled(AfterLedger(s, rows, None, facts).chains, rows, None, facts)
  {
    hide ScanRow, ScanRows, ScanMissing;
    var listed, chains := ScanRows(s.chains, rows, None, facts).0, AfterLedger(s, rows, None, facts).chains;
    forall i | 0 <= i < |rows| ensures RowSettled(ChainOf(chains, RowKey(rows[i])), rows[i], None, facts) {
      var key := RowKey(rows[i]);
      RowStaysSettled(s.chains, rows, None, facts, i);
      if rows[i].flow.recordId != "" {
        RowIsSeen(rows, i);
      } else {
        ScanKeepsCompensation(s.chains, rows, None, facts, key);
        CompensationRemembers(ChainOf(listed, key), rows[i], rows[i], None, facts);
      }
    }
  }

  // ---------- ledgers that never settle ----------

  lemma ScanRowNewest(chain: Chain, row: LedgerRow, facts: Facts)
    requires !InCompensation(chain)
    ensures var next := ScanRow(chain, row, None, facts).0;
            && next != [] && next[|next| - 1].source == Flow(row.flow) && |chain| <= |next|
            && (|next| == |chain| ==> chain != [] && chain[|chain| - 1].source == Flow(row.flow))
  {
    hide LastApplied;
    var (state, mode) := Desired(Flow(row.flow), facts);
    if chain == [] || chain[|chain| - 1].source != Flow(row.flow) {
      AddVersionShape(chain, Flow(row.flow), state, mode);
    }
  }

  /** A record that is no longer than before kept its newest source, and all its rows have it. */
  ghost predicate LeftAlone(a: Chain, b: Chain, rows: seq<LedgerRow>, key: Key) {
    && |a| <= |b|
    && (|a| == |b| ==>
          && (a != [] ==> b[|b| - 1].source == a[|a| - 1].source)
          && forall i :: 0 <= i < |rows| && RowKey(rows[i]) == key ==>
                a != [] && a[|a| - 1].source == Flow(rows[i].flow))
  }

  lemma LeftAloneStep(a: Chain, c: Chain, b: Chain, rows: seq<LedgerRow>, key: Key)
    requires rows != [] && LeftAlone(a, c, rows[..|rows| - 1], key)
    requires if RowKey(rows[|rows| - 1]) == key then
               var source := Flow(rows[|rows| - 1].flow);
               && |c| <= |b| && b != [] && b[|b| - 1].source == source
               && (|b| == |c| ==> c != [] && c[|c| - 1].source == source)
             else b == c
    ensures LeftAlone(a, b, rows, key)
  {
    var front := rows[..|rows| - 1];
    if |a| == |b| {
      forall i | 0 <= i < |rows| && RowKey(rows[i]) == key ensures a != [] && a[|a| - 1].source == Flow(rows[i].flow) {
        if i < |front| { assert front[i] == rows[i]; }
      }
    }
  }

  /** The last row of the ledger pass, seen from one record. */
  lemma ScanLastRow(chains: Chains, rows: seq<LedgerRow>, scope: Option<string>, facts: Facts, key: Key)
    requires rows != []
    ensures var last := rows[|rows| - 1];
            var before := ChainOf(ScanRows(chains, rows[..|rows| - 1], scope, facts).0, key);
            ChainOf(ScanRows(chains, rows, scope, facts).0, key)
            == if RowKey(last) == key then ScanRow(before, last, scope, facts).0 else before
  {
    hide ScanRow;
    var last := rows[|rows| - 1];
    ScanRowKeepsRows(ChainOf(ScanRows(chains, rows[..|rows| - 1], scope, facts).0, RowKey(last)), last, scope, facts);
  }

  lemma LeftAloneAtFirst(chains: Chains, facts: Facts, key: Key)
    ensures LeftAlone(ChainOf(chains, key), ChainOf(ScanRows(chains, [], None, facts).0, key), [], key)
  {
  }

  /** Outside compensation the ledger pass leaves a record alone only if all its rows have the newest source. */
  lemma {:induction false} ScanGrows(chains: Chains, rows: seq<LedgerRow>, facts: Facts, key: Key)
    requires !InCompensation(ChainOf(chains, key))
    ensures LeftAlone(ChainOf(chains, key), ChainOf(ScanRows(chains, rows, None, facts).0, key), rows, key)
  {
    hide ScanRow, ScanRows, InCompensation, LeftAlone, ChainOf;
    if rows == [] {
      LeftAloneAtFirst(chains, facts, key);
    } else {
      var front, last := rows[..|rows| - 1], rows[|rows| - 1];
      var c := ChainOf(ScanRows(chains, front, None, facts).0, key);
      ScanGrows(chains, front, facts, key);
      ScanKeepsCompensation(chains, front, None, facts, key);
      ScanLastRow(chains, rows, None, facts, key);
      ScanRowNewest(c, last, facts);
      LeftAloneStep(ChainOf(chains, key), c, ChainOf(ScanRows(chains, rows, None, facts).0, key), rows, key);
    }
  }

  /** Outside compensation the newest version of a listed record is one of its rows. */
  lemma {:induction false} ScanListed(chains: Chains, rows: seq<LedgerRow>, facts: Facts, n: nat)
    requires n < |rows| && !InCompensation(ChainOf(chains, RowKey(rows[n])))
    ensures var chain := ChainOf(ScanRows(chains, rows, None, facts).0, RowKey(rows[n]));
            chain != [] && chain[|chain| - 1].source.Flow?
  {
    hide ScanRow, InCompensation;
    var front, last := rows[..|rows| - 1], rows[|rows| - 1];
    var c := ScanRows(chains, front, None, facts).0;
    var key := RowKey(rows[n]);
    if RowKey(last) == key {
      ScanKeepsCompensation(chains, front, None, facts, key);
      ScanRowNewest(ChainOf(c, key), last, facts);
      assert ChainOf(ScanRows(chains, rows, None, facts).0, key) == ScanRow(ChainOf(c, key), last, None, facts).0;
    } else {
      assert front[n] == rows[n];
      ScanListed(chains, front, facts, n);
    }
  }

  /**
   A row without a record id never settles: every whole-ledger scan of a ledger that has one, from any
   store and with any holdings, counts a deletion, unless its record is in compensation.
   */
  lemma EmptyRecordIdNeverSettles(s: Store, rows: seq<LedgerRow>, cash: Holdings, facts: Facts, n: nat)
    requires n < |rows| && rows[n].flow.recordId == "" && !InCompensation(ChainOf(s.chains, FlowKey("")))
    ensures var scan := CommitScan(s, rows, cash, None, facts);
            scan.deleted >= 1 && !InCompensation(ChainOf(scan.store.chains, FlowKey("")))
  {
    hide ScanRow, ScanRows, ReconcileAll;
    var key := FlowKey("");
    var listed := ScanRows(s.chains, rows, None, facts).0;
    var swept := AfterLedger(s, rows, None, facts);
    assert RowKey(rows[n]) == key;
    ScanListed(s.chains, rows, facts, n);
    ScanKeepsCompensation(s.chains, rows, None, facts, key);
    SweptGrows(listed[key]);
    assert key in Vanished(listed, SeenRecords(rows), None);
    ReconcileAllKeepsFlows(swept, ScannedIdentities(s.prints, cash, None), cash, facts.today);
  }

  lemma SweptGrows(chain: Chain)
    requires chain != [] && chain[|chain| - 1].source.Flow? && !InCompensation(chain)
    ensures ScanMissing(chain, None) != chain && !InCompensation(ScanMissing(chain, None))
  {
    hide LastApplied;
    var e := chain[|chain| - 1];
    AddVersionShape(chain, Deletion(e.source.flow), Pending,
                    if e.state == Applied && e.mode == Apply then Apply else Keep);
  }

  lemma SweptLonger(chain: Chain, scope: Option<string>)
    requires chain != []
    ensures |chain| <= |ScanMissing(chain, scope)|
  {
    hide LastApplied;
    var e := chain[|chain| - 1];
    if e.source.Flow? && e.state != CompensationPending {
      AddVersionShape(chain, Deletion(e.source.flow), Pending,
                      if e.state == Applied && e.mode == Apply then Apply else Keep);
    }
  }

  /** If a scan leaves the store alone, rows of one record outside compensation have the same facts. */
  lemma IdleMeansSameFacts(t: Store, rows: seq<LedgerRow>, cash: Holdings, facts: Facts, i: nat, j: nat)
    requires i < |rows| && j < |rows| && RowKey(rows[i]) == RowKey(rows[j])
             && !InCompensation(ChainOf(t.chains, RowKey(rows[i])))
    requires CommitScan(t, rows, cash, None, facts).store == t
    ensures rows[i].flow == rows[j].flow
  {
    hide ScanRow, ScanRows, ReconcileAll, ScanMissing;
    var key := RowKey(rows[i]);
    var listed := ScanRows(t.chains, rows, None, facts).0;
    var swept := AfterLedger(t, rows, None, facts);
    ScanGrows(t.chains, rows, facts, key);
    ReconcileAllKeepsFlows(swept, ScannedIdentities(t.prints, cash, None), cash, facts.today);
    assert ChainOf(swept.chains, key) == ChainOf(t.chains, key);
    if key in listed && listed[key] != [] { SweptLonger(listed[key], None); }
    assert |ChainOf(listed, key)| <= |ChainOf(swept.chains, key)|;
  }

  /**
   Exactly when a whole-ledger scan is idempotent: a second scan with the same facts counts nothing and
   changes nothing if and only if, outside compensation, every row has a record id and rows that share
   one have the same facts.
   */
  lemma ScanTwiceExactly(s: Store, rows: seq<LedgerRow>, cash: Holdings, facts: Facts)
    requires forall k :: k in s.chains ==> s.chains[k] != []
    ensures var first := CommitScan(s, rows, cash, None, facts);
            var second := CommitScan(first.store, rows, cash, None, facts);
            (second.store == first.store && second.added == 0 && second.changed == 0 && second.deleted == 0)
            <==> Settles(s.chains, rows)
  {
    hide CommitScan, RowsSettled;
    var first := CommitScan(s, rows, cash, None, facts);
    var second := CommitScan(first.store, rows, cash, None, facts);
    if Settles(s.chains, rows) {
      SettlingRows(s, rows, facts);
      SettledScanTwice(s, rows, cash, None, facts);
    } else if second.store == first.store && second.deleted == 0 {
      forall i | 0 <= i < |rows| ensures InCompensation(ChainOf(s.chains, RowKey(rows[i]))) || Settling(rows, rows[i]) {
        ScanCompensation(s, rows, cash, None, facts, RowKey(rows[i]));
        if !InCompensation(ChainOf(s.chains, RowKey(rows[i]))) {
          if rows[i].flow.recordId == "" { EmptyRecordIdNeverSettles(first.store, rows, cash, facts, i); }
          forall j | 0 <= j < |rows| && rows[j].flow.recordId == rows[i].flow.recordId
            ensures rows[j].flow
                    == rows[i].flow
          {
            IdleMeansSameFacts(first.store, rows, cash, facts, i, j);
          }
        }
      }
    }
  }

  /** A scan neither begins nor ends a compensation of a ledger record. */
  lemma ScanCompensation(s: Store, rows: seq<LedgerRow>, cash: Holdings, scope: Option<string>, facts: Facts, key: Key)
    requires key.FlowKey?
    ensures InCompensation(ChainOf(CommitScan(s, rows, cash, scope, facts).store.chains, key)) <==>
              InCompensation(ChainOf(s.chains, key))
  {
    hide ScanRow, ScanRows, ReconcileAll, ScanMissing;
    var listed := ScanRows(s.chains, rows, scope, facts).0;
    var swept := AfterLedger(s, rows, scope, facts);
    ScanKeepsCompensation(s.chains, rows, scope, facts, key);
    if key in listed && listed[key] != [] { SweptCompensation(listed[key], scope); }
    ReconcileAllKeepsFlows(swept, ScannedIdentities(s.prints, cash, scope), cash, facts.today);
  }

  lemma SweptCompensation(chain: Chain, scope: Option<string>)
    requires chain != []
    ensures InCompensation(ScanMissing(chain, scope)) <==> InCompensation(chain)
  {
  }
}
