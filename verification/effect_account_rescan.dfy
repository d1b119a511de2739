/** Exactly when a second scan of one account is idle. */
module EffectAccountRescan {
  import opened EffectModel
  import opened Optional
  import opened EffectScan
  import opened EffectScanLaws
  import opened EffectRescan

  /** The newest version is one of the account. */
  predicate SitsAt(chain: Chain, account: string) {
    chain != [] && chain[|chain| - 1].source.Account() == account
  }

  /** A row of the record whose raw text is the account. */
  predicate Names(row: LedgerRow, key: Key, account: string) { RowKey(row) == key && row.rawAccount == account }

  ghost predicate Named(rows: seq<LedgerRow>, key: Key, account: string) {
    exists i :: 0 <= i < |rows| && Names(rows[i], key, account)
  }

  ghost predicate HasRowElsewhere(rows: seq<LedgerRow>, key: Key, account: string) {
    exists i :: 0 <= i < |rows| && RowKey(rows[i]) == key && rows[i].flow.account != account
  }

  /** The scan leaves the record with facts of another account, where it does not look again. */
  ghost predicate MovesAway(rows: seq<LedgerRow>, key: Key, account: string) {
    if Named(rows, key, account) then
      && (forall i :: 0 <= i < |rows| && Names(rows[i], key, account) ==> rows[i].flow.account != account)
      && (forall i, j | 0 <= i < |rows| && 0 <= j < |rows| && Names(rows[i], key, account)
                        && Names(rows[j], key, account) :: rows[i].flow == rows[j].flow)
    else HasRowElsewhere(rows, key, account)
  }

  /** The record of the row is in compensation, or out of sight, or settles, or moves out of sight. */
  ghost predicate SettlesFor(chain: Chain, rows: seq<LedgerRow>, row: LedgerRow, account: string) {
    || InCompensation(chain)
    || Settling(rows, row)
    || (!SitsAt(chain, account) && !Named(rows, RowKey(row), account))
    || MovesAway(rows, RowKey(row), account)
  }

  /** The newest version is of these facts, and they leave it as it is. */
  ghost predicate IsAt(chain: Chain, flow: FlowRecord, facts: Facts) {
    && chain != [] && chain[|chain| - 1].source == Flow(flow)
    && !(chain[|chain| - 1].state == Scheduled && Desired(Flow(flow), facts).0 == Pending)
  }

  /** One row outside compensation. */
  lemma AccountRow(chain: Chain, row: LedgerRow, account: string, facts: Facts)
    requires !InCompensation(chain)
    ensures var next := ScanRow(chain, row, Some(account), facts).0;
            if row.rawAccount != account && !SitsAt(chain, account) then next == chain
            else
              && IsAt(next, row.flow, facts) && |chain| <= |next|
              && (|next| == |chain| ==> chain != [] && chain[|chain| - 1].source == Flow(row.flow))
  {
    hide LastApplied;
    var (state, mode) := Desired(Flow(row.flow), facts);
    if chain == [] || chain[|chain| - 1].source != Flow(row.flow) {
      AddVersionShape(chain, Flow(row.flow), state, mode);
    }
  }

  // ---------- records that settle ----------

  lemma {:induction false} OutOfSight(chains: Chains, rows: seq<LedgerRow>, account: string, facts: Facts, key: Key)
    requires !SitsAt(ChainOf(chains, key), account) && !Named(rows, key, account)
    ensures ChainOf(ScanRows(chains, rows, Some(account), facts).0, key) == ChainOf(chains, key)
  {
    hide ScanRows;
    if rows == [] {
      NoRows(chains, account, facts);
    } else {
      var front, last := rows[..|rows| - 1], rows[|rows| - 1];
      assert forall i :: 0 <= i < |front| ==> front[i] == rows[i];
      assert !Names(last, key, account);
      OutOfSight(chains, front, account, facts, key);
      ScanLastRow(chains, rows, Some(account), facts, key);
    }
  }

  lemma NoRows(chains: Chains, account: string, facts: Facts)
    ensures ScanRows(chains, [], Some(account), facts).0 == chains
  {
  }

  /** Rows that name the account and all have the same facts of another one take the record there. */
  lemma {:induction false} NamedMoves(chains: Chains, rows: seq<LedgerRow>, account: string, facts: Facts, key: Key,
                                      flow: FlowRecord)
    requires !InCompensation(ChainOf(chains, key)) && flow.account != account
    requires forall i :: 0 <= i < |rows| && Names(rows[i], key, account) ==> rows[i].flow == flow
    ensures Named(rows, key, account) ==> IsAt(ChainOf(ScanRows(chains, rows, Some(account), facts).0, key), flow,
                                               facts)
  {
    hide ScanRows, ScanRow, InCompensation, Desired;
    if rows != [] {
      var front, last := rows[..|rows| - 1], rows[|rows| - 1];
      assert forall i :: 0 <= i < |front| ==> front[i] == rows[i];
      NamedMoves(chains, front, account, facts, key, flow);
      ScanLastRow(chains, rows, Some(account), facts, key);
      ScanKeepsCompensation(chains, front, Some(account), facts, key);
      if RowKey(last) == key {
        AccountRow(ChainOf(ScanRows(chains, front, Some(account), facts).0, key), last, account, facts);
      }
      if Named(rows, key, account) && !Names(last, key, account) {
        var i :| 0 <= i < |rows| && Names(rows[i], key, account);
        assert Names(front[i], key, account);
      }
    }
  }

  /** Where no row names the account, the first row of another account takes the record there. */
  lemma {:induction false} UnnamedMoves(chains: Chains, rows: seq<LedgerRow>, account: string, facts: Facts, key: Key)
    requires !InCompensation(ChainOf(chains, key)) && !Named(rows, key, account)
    ensures HasRowElsewhere(rows, key, account) ==>
              !SitsAt(ChainOf(ScanRows(chains, rows, Some(account), facts).0, key), account)
  {
    hide ScanRows, ScanRow, InCompensation, Desired;
    if rows != [] {
      var front, last := rows[..|rows| - 1], rows[|rows| - 1];
      assert forall i :: 0 <= i < |front| ==> front[i] == rows[i];
      assert !Names(last, key, account);
      UnnamedMoves(chains, front, account, facts, key);
      ScanLastRow(chains, rows, Some(account), facts, key);
      ScanKeepsCompensation(chains, front, Some(account), facts, key);
      if RowKey(last) == key {
        AccountRow(ChainOf(ScanRows(chains, front, Some(account), facts).0, key), last, account, facts);
      }
      if HasRowElsewhere(rows, key, account) && !(RowKey(last) == key && last.flow.account != account) {
        var i :| 0 <= i < |rows| && RowKey(rows[i]) == key && rows[i].flow.account != account;
        assert RowKey(front[i]) == key && front[i].flow.account != account;
      }
    }
  }

  lemma NotSwept(chain: Chain, account: string)
    requires chain != [] && !SitsAt(chain, account)
    ensures ScanMissing(chain, Some(account)) == chain
  {
  }

  lemma FarRowSettled(chain: Chain, row: LedgerRow, account: string, facts: Facts)
    requires !SitsAt(chain, account) && row.rawAccount != account
    ensures RowSettled(chain, row, Some(account), facts)
  {
  }

  lemma NearRowSettled(chain: Chain, row: LedgerRow, account: string, facts: Facts)
    requires IsAt(chain, row.flow, facts)
    ensures RowSettled(chain, row, Some(account), facts)
  {
  }

  /** The ledger pass leaves a record that is or moves out of sight there, with its rows settled. */
  lemma MovedRowSettled(chains: Chains, rows: seq<LedgerRow>, account: string, facts: Facts, n: nat)
    requires n < |rows| && !InCompensation(ChainOf(chains, RowKey(rows[n])))
    requires (!SitsAt(ChainOf(chains, RowKey(rows[n])), account) && !Named(rows, RowKey(rows[n]), account))
             || MovesAway(rows, RowKey(rows[n]), account)
    ensures var chain := ChainOf(ScanRows(chains, rows, Some(account), facts).0, RowKey(rows[n]));
            !SitsAt(chain, account) && RowSettled(chain, rows[n], Some(account), facts)
  {
    hide ScanRows, ScanRow, InCompensation, Desired, RowSettled;
    var key := RowKey(rows[n]);
    var chain := ChainOf(ScanRows(chains, rows, Some(account), facts).0, key);
    if Named(rows, key, account) {
      var i :| 0 <= i < |rows| && Names(rows[i], key, account);
      NamedMoves(chains, rows, account, facts, key, rows[i].flow);
      if Names(rows[n], key, account) { NearRowSettled(chain, rows[n], account, facts); }
    } else if MovesAway(rows, key, account) {
      UnnamedMoves(chains, rows, account, facts, key);
    } else {
      OutOfSight(chains, rows, account, facts, key);
    }
    if !Names(rows[n], key, account) { FarRowSettled(chain, rows[n], account, facts); }
  }

  /** So a row whose record settles for the account is settled after the ledger and deletion passes. */
  lemma AccountSettles(s: Store, rows: seq<LedgerRow>, account: string, facts: Facts, n: nat)
    requires n < |rows| && SettlesFor(ChainOf(s.chains, RowKey(rows[n])), rows, rows[n], account)
    ensures RowSettled(ChainOf(AfterLedger(s, rows, Some(account), facts).chains, RowKey(rows[n])), rows[n],
                       Some(account), facts)
  {
    hide ScanRows, ScanRow, ScanMissing, RowSettled, MovesAway, Named, SitsAt;
    var key := RowKey(rows[n]);
    var listed := ScanRows(s.chains, rows, Some(account), facts).0;
    if InCompensation(ChainOf(s.chains, key)) {
      RowStaysSettled(s.chains, rows, Some(account), facts, n);
      ScanKeepsCompensation(s.chains, rows, Some(account), facts, key);
      CompensationRemembers(ChainOf(listed, key), rows[n], rows[n], Some(account), facts);
    } else if Settling(rows, rows[n]) {
      RowStaysSettled(s.chains, rows, Some(account), facts, n);
      RowIsSeen(rows, n);
    } else {
      MovedRowSettled(s.chains, rows, account, facts, n);
      if ChainOf(listed, key) != [] { NotSwept(ChainOf(listed, key), account); }
    }
  }

  // ---------- records that do not ----------

  predicate InSight(row: LedgerRow, chain: Chain, key: Key, account: string) {
    RowKey(row) == key && (row.rawAccount == account || SitsAt(chain, account))
  }

  /** A record that is no longer than before kept its newest source, and the rows in sight of it have it. */
  ghost predicate AccountLeftAlone(a: Chain, b: Chain, rows: seq<LedgerRow>, key: Key, account: string) {
    && |a| <= |b|
    && (|a| == |b| ==>
          && (a != [] ==> b[|b| - 1].source == a[|a| - 1].source)
          && forall i | 0 <= i < |rows| && InSight(rows[i], a, key, account) ::
               a != [] && a[|a| - 1].source == Flow(rows[i].flow))
  }

  lemma {:induction false} AccountScanGrows(chains: Chains, rows: seq<LedgerRow>, account: string, facts: Facts,
                                            key: Key)
    requires !InCompensation(ChainOf(chains, key))
    ensures AccountLeftAlone(ChainOf(chains, key), ChainOf(ScanRows(chains, rows, Some(account), facts).0, key),
                             rows, key, account)
  {
    hide ScanRow, ScanRows, InCompensation, AccountLeftAlone, ChainOf, IsAt;
    if rows == [] {
      NoRows(chains, account, facts);
      AccountLeftAloneStep(ChainOf(chains, key), ChainOf(chains, key), ChainOf(chains, key), rows, key, account);
    } else {
      var front, last := rows[..|rows| - 1], rows[|rows| - 1];
      var c := ChainOf(ScanRows(chains, front, Some(account), facts).0, key);
      AccountScanGrows(chains, front, account, facts, key);
      ScanKeepsCompensation(chains, front, Some(account), facts, key);
      ScanLastRow(chains, rows, Some(account), facts, key);
      AccountRow(c, last, account, facts);
      AccountNewest(ScanRow(c, last, Some(account), facts).0, last.flow, facts);
      AccountLeftAloneStep(ChainOf(chains, key), c, ChainOf(ScanRows(chains, rows, Some(account), facts).0, key),
                           rows, key, account);
    }
  }

  lemma AccountNewest(chain: Chain, flow: FlowRecord, facts: Facts)
    ensures IsAt(chain, flow, facts) ==> chain != [] && chain[|chain| - 1].source == Flow(flow)
  {
  }

  lemma AccountLeftAloneStep(a: Chain, c: Chain, b: Chain, rows: seq<LedgerRow>, key: Key, account: string)
    requires rows != [] ==> AccountLeftAlone(a, c, rows[..|rows| - 1], key, account)
    requires if rows == [] then a == c == b
             else if InSight(rows[|rows| - 1], c, key, account) then
               var source := Flow(rows[|rows| - 1].flow);
               && |c| <= |b| && b != [] && b[|b| - 1].source == source
               && (|b| == |c| ==> c != [] && c[|c| - 1].source == source)
             else b == c
    ensures AccountLeftAlone(a, b, rows, key, account)
  {
    if rows != [] && |a| == |b| {
      var front := rows[..|rows| - 1];
      forall i | 0 <= i < |rows| && InSight(rows[i], a, key, account)
        ensures a != [] && a[|a| - 1].source == Flow(rows[i].flow)
      {
        if i < |front| { assert front[i] == rows[i]; }
      }
    }
  }

  /** A record of the account with rows of the account only stays there. */
  lemma {:induction false} StaysAt(chains: Chains, rows: seq<LedgerRow>, account: string, facts: Facts, key: Key)
    requires !InCompensation(ChainOf(chains, key)) && SitsAt(ChainOf(chains, key), account)
    requires !HasRowElsewhere(rows, key, account)
    ensures SitsAt(ChainOf(ScanRows(chains, rows, Some(account), facts).0, key), account)
  {
    hide ScanRows, ScanRow, InCompensation, Desired;
    if rows == [] {
      NoRows(chains, account, facts);
    } else {
      var front, last := rows[..|rows| - 1], rows[|rows| - 1];
      assert forall i :: 0 <= i < |front| ==> front[i] == rows[i];
      StaysAt(chains, front, account, facts, key);
      ScanLastRow(chains, rows, Some(account), facts, key);
      ScanKeepsCompensation(chains, front, Some(account), facts, key);
      if RowKey(last) == key {
        assert last.flow.account == account;
        AccountRow(ChainOf(ScanRows(chains, front, Some(account), facts).0, key), last, account, facts);
      }
    }
  }

  lemma SweptStaysAt(chain: Chain, account: string)
    requires SitsAt(chain, account)
    ensures SitsAt(ScanMissing(chain, Some(account)), account)
  {
    hide LastApplied;
    var e := chain[|chain| - 1];
    if e.source.Flow? && e.state != CompensationPending {
      AddVersionShape(chain, Deletion(e.source.flow), Pending,
                      if e.state == Applied && e.mode == Apply then Apply else Keep);
    }
  }

  lemma SweptGrowsAt(chain: Chain, account: string)
    requires SitsAt(chain, account) && chain[|chain| - 1].source.Flow? && !InCompensation(chain)
    ensures |ScanMissing(chain, Some(account))| > |chain|
  {
    hide LastApplied;
    var e := chain[|chain| - 1];
    AddVersionShape(chain, Deletion(e.source.flow), Pending,
                    if e.state == Applied && e.mode == Apply then Apply else Keep);
  }

  /** The record of a key after a scan, by its passes. */
  lemma ScannedRecord(s: Store, rows: seq<LedgerRow>, cash: Holdings, scope: Option<string>, facts: Facts, key: Key)
    requires key.FlowKey?
    ensures var listed := ChainOf(ScanRows(s.chains, rows, scope, facts).0, key);
            ChainOf(CommitScan(s, rows, cash, scope, facts).store.chains, key)
            == if listed != [] && IsMissing(key, SeenRecords(rows)) then ScanMissing(listed, scope) else listed
  {
    hide ScanRows, ScanMissing, ReconcileAll;
    ReconcileAllKeepsFlows(AfterLedger(s, rows, scope, facts), ScannedIdentities(s.prints, cash, scope), cash,
                           facts.today);
  }

  /** If a scan leaves the store alone, the rows in sight of a record have the facts of its newest version. */
  lemma IdleRow(t: Store, rows: seq<LedgerRow>, cash: Holdings, account: string, facts: Facts, n: nat)
    requires n < |rows| && !InCompensation(ChainOf(t.chains, RowKey(rows[n])))
    requires CommitScan(t, rows, cash, Some(account), facts).store == t
    ensures var key, chain := RowKey(rows[n]), ChainOf(t.chains, RowKey(rows[n]));
            && AccountLeftAlone(chain, chain, rows, key, account)
            && (SitsAt(chain, account) ==> rows[n].flow.recordId != "")
  {
    hide ScanRow, ScanRows, ReconcileAll, ScanMissing, CommitScan;
    var key, chain := RowKey(rows[n]), ChainOf(t.chains, RowKey(rows[n]));
    var listed := ChainOf(ScanRows(t.chains, rows, Some(account), facts).0, key);
    ScannedRecord(t, rows, cash, Some(account), facts, key);
    AccountScanGrows(t.chains, rows, account, facts, key);
    ScanKeepsCompensation(t.chains, rows, Some(account), facts, key);
    if listed != [] { SweptLonger(listed, Some(account)); }
    assert |chain| == |listed|;
    if SitsAt(chain, account) && rows[n].flow.recordId == "" {
      assert chain[|chain| - 1].source == Flow(rows[n].flow) && SitsAt(listed, account);
      assert IsMissing(key, SeenRecords(rows));
      SweptGrowsAt(listed, account);
    }
  }

  /** A scan takes a record of the account elsewhere only if one of its rows is elsewhere. */
  lemma LeavesByARow(s: Store, rows: seq<LedgerRow>, cash: Holdings, account: string, facts: Facts, key: Key)
    requires key.FlowKey? && !InCompensation(ChainOf(s.chains, key)) && SitsAt(ChainOf(s.chains, key), account)
    requires !SitsAt(ChainOf(CommitScan(s, rows, cash, Some(account), facts).store.chains, key), account)
    ensures HasRowElsewhere(rows, key, account)
  {
    hide ScanRows, ScanMissing, CommitScan, SitsAt;
    if !HasRowElsewhere(rows, key, account) {
      StaysAt(s.chains, rows, account, facts, key);
      ScannedRecord(s, rows, cash, Some(account), facts, key);
      SweptStaysAt(ChainOf(ScanRows(s.chains, rows, Some(account), facts).0, key), account);
    }
  }

  lemma IdleMeansSettled(s: Store, rows: seq<LedgerRow>, cash: Holdings, account: string, facts: Facts, n: nat)
    requires n < |rows|
    requires var first := CommitScan(s, rows, cash, Some(account), facts).store;
             CommitScan(first, rows, cash, Some(account), facts).store == first
    ensures SettlesFor(ChainOf(s.chains, RowKey(rows[n])), rows, rows[n], account)
  {
    hide CommitScan;
    var key := RowKey(rows[n]);
    var first := CommitScan(s, rows, cash, Some(account), facts).store;
    var chain := ChainOf(first.chains, key);
    ScanCompensation(s, rows, cash, Some(account), facts, key);
    if !InCompensation(ChainOf(s.chains, key)) {
      IdleRow(first, rows, cash, account, facts, n);
      if SitsAt(chain, account) {
        assert Settling(rows, rows[n]);
      } else if !Named(rows, key, account) && SitsAt(ChainOf(s.chains, key), account) {
        LeavesByARow(s, rows, cash, account, facts, key);
      }
    }
  }

  /**
   Exactly when a scan of one account is idempotent: a second one with the same facts counts nothing and
   changes nothing if and only if every row's record is in compensation; or has a record id and the same facts
   in all its rows; or is out of the account's sight, its newest version and the raw text of its rows being of
   other accounts; or moves out of it, because the rows whose raw text names the account all have the same
   facts of another one or, when there is none, because some row has facts of another one.
   */
  lemma AccountScanTwiceExactly(s: Store, rows: seq<LedgerRow>, cash: Holdings, account: string, facts: Facts)
    requires forall k :: k in s.chains ==> s.chains[k] != []
    ensures var first := CommitScan(s, rows, cash, Some(account), facts);
            var second := CommitScan(first.store, rows, cash, Some(account), facts);
            (second.store == first.store && second.added == 0 && second.changed == 0 && second.deleted == 0)
            <==> forall i :: 0 <= i < |rows| ==> SettlesFor(ChainOf(s.chains, RowKey(rows[i])), rows, rows[i], account)
  {
    hide CommitScan, RowsSettled, SettlesFor;
    var first := CommitScan(s, rows, cash, Some(account), facts);
    var second := CommitScan(first.store, rows, cash, Some(account), facts);
    if forall i :: 0 <= i < |rows| ==> SettlesFor(ChainOf(s.chains, RowKey(rows[i])), rows, rows[i], account) {
      AccountRowsSettle(s, rows, account, facts);
      SettledScanTwice(s, rows, cash, Some(account), facts);
    } else if second.store == first.store {
      forall i | 0 <= i < |rows| ensures SettlesFor(ChainOf(s.chains, RowKey(rows[i])), rows, rows[i], account) {
        IdleMeansSettled(s, rows, cash, account, facts, i);
      }
    }
  }

  lemma AccountRowsSettle(s: Store, rows: seq<LedgerRow>, account: string, facts: Facts)
    requires forall i :: 0 <= i < |rows| ==> SettlesFor(ChainOf(s.chains, RowKey(rows[i])), rows, rows[i], account)
    ensures RowsSettled(AfterLedger(s, rows, Some(account), facts).chains, rows, Some(account), facts)
  {
    hide ScanRow, AfterLedger, SettlesFor;
    forall i | 0 <= i < |rows|
      ensures RowSettled(ChainOf(AfterLedger(s, rows, Some(account), facts).chains, RowKey(rows[i])), rows[i],
                         Some(account), facts)
    {
      AccountSettles(s, rows, account, facts, i);
    }
  }
}
