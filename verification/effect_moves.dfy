/** Which NAV gates an edit or a move of an applied event closes, from the edit of the ledger to its resolution. */
module EffectMoves {
  import opened EffectModel
  import opened Optional
  import opened EffectScan
  import opened EffectScanLaws
  import opened EffectRescan
  import opened EffectAccountRescan
  import opened EffectConfirm
  import opened EffectInvariants
  import opened EffectRuns
  import opened EffectGate

  // ---------- edits of an applied row ----------

  /**
   A rescanned row leaves the newest version in place exactly when every fact in its hash is the same,
   the remark among them, or compensation owns the version. Otherwise there is one more version.
   */
  lemma RescanKeepsVersion(chain: Chain, row: LedgerRow, scope: Option<string>, facts: Facts)
    requires chain != [] && !OutOfScope(chain, row, scope)
    ensures var next := ScanRow(chain, row, scope, facts).0;
            && (|next| == |chain| <==>
                chain[|chain| - 1].source == Flow(row.flow) || chain[|chain| - 1].state == CompensationPending)
            && (|next| != |chain| ==>
                  |next| == |chain| + 1 && next[|chain|].source == Flow(row.flow) && next[|chain|].state.Unresolved())
  {
    hide LastApplied;
    if chain[|chain| - 1].source != Flow(row.flow) && chain[|chain| - 1].state != CompensationPending {
      var (state, mode) := Desired(Flow(row.flow), facts);
      AddVersionShape(chain, Flow(row.flow), state, mode);
    }
  }

  /** With unique record ids, a scan leaves of a record what the scan of its row leaves. */
  lemma ScannedChain(w: World, rows: seq<LedgerRow>, scope: Option<string>, facts: Facts, n: nat)
    requires UniqueRows(rows) && n < |rows|
    ensures ChainAt(Scan(w, rows, scope, facts), RowKey(rows[n]))
            == ScanRow(ChainAt(w, RowKey(rows[n])), rows[n], scope, facts).0
  {
    hide ScanRow, ReconcileAll, SweepMissing, ScanRows;
    var cash := InScope(w.holdings, scope);
    ScanRowsAt(w.store.chains, rows, scope, facts, n);
    RowIsSeen(rows, n);
    RowNotSwept(ScanRows(w.store.chains, rows, scope, facts).0, SeenRecords(rows), scope, RowKey(rows[n]));
    ReconcileAllKeepsFlows(AfterLedger(w.store, rows, scope, facts), ScannedIdentities(w.store.prints, cash, scope),
                           cash, facts.today);
  }

  lemma RowNotSwept(chains: Chains, seen: set<string>, scope: Option<string>, key: Key)
    requires !IsMissing(key, seen)
    ensures ChainOf(SweepMissing(chains, chains.Keys, seen, scope), key) == ChainOf(chains, key)
  {
  }

  /** What the scan of its row makes of an applied version: another one, unless the facts are the same. */
  lemma EditedVersion(chain: Chain, row: LedgerRow, scope: Option<string>, facts: Facts)
    requires chain != [] && chain[|chain| - 1].state == Applied && chain[|chain| - 1].source != Flow(row.flow)
    ensures var next := ScanRow(chain, row, scope, facts).0;
            if OutOfScope(chain, row, scope) then next == chain
            else && |next| == |chain| + 1
                 && next[|chain|].source == Flow(row.flow) && next[|chain|].state == Desired(Flow(row.flow), facts).0
                 && next[|chain|].targets == []
                 && PreviousApplied(next) == Some(chain[|chain| - 1].source)
  {
    var (state, mode) := Desired(Flow(row.flow), facts);
    if !OutOfScope(chain, row, scope) {
      AddVersionShape(chain, Flow(row.flow), state, mode);
      assert AddVersion(chain, Flow(row.flow), state, mode)[..|chain|] == chain;
    }
  }

  /**
   Which gates an edit of an applied row closes when no scan has seen it yet, in any ledger with unique record
   ids. The gate of an account scans that account only, so it takes up the edit exactly when the applied version
   or the raw text of the row names the account; then the new version blocks the account of the applied version
   and the account the row has now, unless it is scheduled for a date after the NAV.
   */
  lemma AppliedEditBlocks(w: World, account: string, navDate: int, facts: Facts, n: nat)
    requires StoreOk(w.store) && UniqueRows(w.ledger) && n < |w.ledger| && account != ""
    requires var chain := ChainAt(w, RowKey(w.ledger[n]));
             && chain != [] && chain[|chain| - 1].state == Applied
             && chain[|chain| - 1].source != Flow(w.ledger[n].flow)
    ensures var row := w.ledger[n];
            var applied := Latest(ChainAt(w, RowKey(row))).value.source;
            var later := Desired(Flow(row.flow), facts).0 == Scheduled && row.flow.date.Some?
                         && navDate < row.flow.date.value;
            var closes := !later && (account == applied.Account()
                                     || (account == row.flow.account && account == row.rawAccount));
            && (RowKey(row) in Blockers(Scan(w, w.ledger, Some(account), facts), account, navDate) <==> closes)
            && (closes ==> !GatePasses(w, account, navDate, facts))
  {
    hide ScanRow, CommitScan, UniqueRows, StoreOk, LastApplied;
    var row, key := w.ledger[n], RowKey(w.ledger[n]);
    var t := Scan(w, w.ledger, Some(account), facts);
    ScannedChain(w, w.ledger, Some(account), facts, n);
    EditedVersion(ChainAt(w, key), row, Some(account), facts);
    BlocksExactly(t, key, account, navDate);
  }

  /** A record is a blocker exactly when its newest version blocks and names the account. */
  lemma BlocksExactly(w: World, key: Key, account: string, navDate: int)
    ensures var chain := ChainAt(w, key);
            key in Blockers(w, account, navDate) <==>
              chain != [] && account in EffectAccounts(key, chain, w.ledger) && Blocks(chain[|chain| - 1], navDate)
  {
  }

  /**
   Editing nothing but the remark of an applied event, in any ledger with unique record ids, closes the
   gate of its account for every NAV from the event on: the scan makes an unresolved version of it.
   */
  lemma RemarkEditBlocks(w: World, account: string, navDate: int, facts: Facts, n: nat, flow: FlowRecord,
                         remark: string)
    requires StoreOk(w.store) && UniqueRows(w.ledger) && n < |w.ledger|
    requires w.ledger[n].flow == flow.(detail := remark) && remark != flow.detail
    requires flow.account == account && account != "" && (flow.date.Some? ==> flow.date.value <= navDate)
    requires var chain := ChainAt(w, RowKey(w.ledger[n]));
             chain != [] && chain[|chain| - 1].source == Flow(flow) && chain[|chain| - 1].state == Applied
    ensures !GatePasses(w, account, navDate, facts)
  {
    hide CommitScan, UniqueRows, StoreOk, Blockers;
    AppliedEditBlocks(w, account, navDate, facts, n);
  }

  // ---------- pending moves ----------

  /** The newest version waits for the operator or for its compensation. */
  predicate Open(chain: Chain) { chain != [] && chain[|chain| - 1].state.Unresolved() }

  /** Not dated after the NAV; a date that cannot be read counts. */
  predicate Due(source: Source, navDate: int) { source.Date().Some? ==> source.Date().value <= navDate }

  ghost predicate RowsDue(rows: seq<LedgerRow>, key: Key, navDate: int) {
    forall i :: 0 <= i < |rows| && RowKey(rows[i]) == key ==> Due(Flow(rows[i].flow), navDate)
  }

  predicate OpenAndDue(chain: Chain, navDate: int) { Open(chain) && Due(chain[|chain| - 1].source, navDate) }

  lemma ScanRowOpen(chain: Chain, row: LedgerRow, scope: Option<string>, facts: Facts, navDate: int)
    requires Open(chain)
    ensures Open(ScanRow(chain, row, scope, facts).0)
    ensures OpenAndDue(chain, navDate) && Due(Flow(row.flow), navDate) ==>
              OpenAndDue(ScanRow(chain, row, scope, facts).0, navDate)
  {
    hide LastApplied;
    var (state, mode) := Desired(Flow(row.flow), facts);
    if chain[|chain| - 1].source != Flow(row.flow) { AddVersionShape(chain, Flow(row.flow), state, mode); }
  }

  lemma ScanMissingOpen(chain: Chain, scope: Option<string>, navDate: int)
    requires Open(chain)
    ensures Open(ScanMissing(chain, scope))
    ensures OpenAndDue(chain, navDate) ==> OpenAndDue(ScanMissing(chain, scope), navDate)
  {
    hide LastApplied;
    var e := chain[|chain| - 1];
    if e.source.Flow? && e.state != CompensationPending {
      AddVersionShape(chain, Deletion(e.source.flow), Pending,
                      if e.state == Applied && e.mode == Apply then Apply else Keep);
    }
  }

  lemma {:induction false} ScanRowsOpen(chains: Chains, rows: seq<LedgerRow>, scope: Option<string>, facts: Facts,
                                        key: Key, navDate: int)
    requires Open(ChainOf(chains, key))
    ensures Open(ChainOf(ScanRows(chains, rows, scope, facts).0, key))
    ensures OpenAndDue(ChainOf(chains, key), navDate) && RowsDue(rows, key, navDate) ==>
              OpenAndDue(ChainOf(ScanRows(chains, rows, scope, facts).0, key), navDate)
  {
    hide ScanRow, Open, Due, OpenAndDue;
    if rows != [] {
      var front, last := rows[..|rows| - 1], rows[|rows| - 1];
      ScanRowsOpen(chains, front, scope, facts, key, navDate);
      ScanLastRow(chains, rows, scope, facts, key);
      if RowKey(last) == key {
        ScanRowOpen(ChainOf(ScanRows(chains, front, scope, facts).0, key), last, scope, facts, navDate);
      }
    }
  }

  /** A scan resolves nothing: an open record stays open, and relative to the same applied version. */
  lemma ScanOpen(w: World, rows: seq<LedgerRow>, scope: Option<string>, facts: Facts, key: Key, navDate: int)
    requires WorldOk(w) && key.FlowKey? && Open(ChainAt(w, key))
    ensures var next := ChainAt(Scan(w, rows, scope, facts), key);
            && Open(next) && PreviousApplied(next) == PreviousApplied(ChainAt(w, key))
            && (OpenAndDue(ChainAt(w, key), navDate) && RowsDue(rows, key, navDate) ==> OpenAndDue(next, navDate))
  {
    hide ScanRows, ScanMissing, CommitScan, Good, Evolves, AppliesNothing, OpenAndDue, RowsDue;
    var cash := InScope(w.holdings, scope);
    var listed := ChainOf(ScanRows(w.store.chains, rows, scope, facts).0, key);
    ScanRowsOpen(w.store.chains, rows, scope, facts, key, navDate);
    ScannedRecord(w.store, rows, cash, scope, facts, key);
    ScanMissingOpen(listed, scope, navDate);
    CommitScanKeeps(w.store, rows, cash, scope, facts, key);
  }

  /** A record that is open after the gate's scan and touches the account stops the gate. */
  lemma TouchedCloses(w: World, account: string, navDate: int, facts: Facts, key: Key)
    requires var t := Scan(w, w.ledger, Some(account), facts);
             Open(ChainAt(t, key)) && account in EffectAccounts(key, ChainAt(t, key), w.ledger)
    ensures var next := ChainAt(Scan(w, w.ledger, Some(account), facts), key);
            && (GatePasses(w, account, navDate, facts) ==> Later(next[|next| - 1], navDate))
            && (OpenAndDue(next, navDate) ==> !GatePasses(w, account, navDate, facts))
  {
    hide CommitScan, EffectAccounts, Blockers;
    if GatePasses(w, account, navDate, facts) {
      NotBlocked(Scan(w, w.ledger, Some(account), facts), account, navDate, key);
    }
  }

  lemma PreviousAccount(key: Key, chain: Chain, ledger: seq<LedgerRow>)
    requires key.FlowKey? && chain != [] && PreviousApplied(chain).Some? && PreviousApplied(chain).value.Account() != ""
    ensures PreviousApplied(chain).value.Account() in EffectAccounts(key, chain, ledger)
  {
  }

  /** While a record is open, the account of the version applied before it stays closed, whatever the ledger says. */
  lemma LeftAccountCloses(w: World, account: string, navDate: int, facts: Facts, key: Key)
    requires WorldOk(w) && key.FlowKey? && account != "" && Open(ChainAt(w, key))
    requires PreviousApplied(ChainAt(w, key)).Some? && PreviousApplied(ChainAt(w, key)).value.Account() == account
    ensures var next := ChainAt(Scan(w, w.ledger, Some(account), facts), key);
            && next != [] && (GatePasses(w, account, navDate, facts) ==> Later(next[|next| - 1], navDate))
            && (OpenAndDue(ChainAt(w, key), navDate) && RowsDue(w.ledger, key, navDate) ==>
                  !GatePasses(w, account, navDate, facts))
  {
    hide CommitScan, EffectAccounts, GatePasses, OpenAndDue, RowsDue, WorldOk;
    ScanOpen(w, w.ledger, Some(account), facts, key, navDate);
    PreviousAccount(key, ChainAt(Scan(w, w.ledger, Some(account), facts), key), w.ledger);
    TouchedCloses(w, account, navDate, facts, key);
  }

  /** A scan of the account leaves a record there while no row of it is elsewhere. */
  lemma ScanSitsAt(w: World, account: string, facts: Facts, key: Key)
    requires key.FlowKey? && SitsAt(ChainAt(w, key), account) && !InCompensation(ChainAt(w, key))
    requires !HasRowElsewhere(w.ledger, key, account)
    ensures SitsAt(ChainAt(Scan(w, w.ledger, Some(account), facts), key), account)
  {
    hide CommitScan, SitsAt, HasRowElsewhere, InCompensation;
    var cash := InScope(w.holdings, Some(account));
    if !SitsAt(ChainAt(Scan(w, w.ledger, Some(account), facts), key), account) {
      LeavesByARow(w.store, w.ledger, cash, account, facts, key);
    }
  }

  /** While a record is open, the account it enters stays closed as long as no row of it is elsewhere. */
  lemma EnteredAccountCloses(w: World, account: string, navDate: int, facts: Facts, key: Key)
    requires WorldOk(w) && key.FlowKey? && account != "" && Open(ChainAt(w, key)) && SitsAt(ChainAt(w, key), account)
    requires !InCompensation(ChainAt(w, key)) && !HasRowElsewhere(w.ledger, key, account)
    ensures var next := ChainAt(Scan(w, w.ledger, Some(account), facts), key);
            && next != [] && (GatePasses(w, account, navDate, facts) ==> Later(next[|next| - 1], navDate))
            && (OpenAndDue(ChainAt(w, key), navDate) && RowsDue(w.ledger, key, navDate) ==>
                  !GatePasses(w, account, navDate, facts))
  {
    hide CommitScan, EffectAccounts, GatePasses, OpenAndDue, RowsDue, WorldOk, HasRowElsewhere;
    ScanOpen(w, w.ledger, Some(account), facts, key, navDate);
    ScanSitsAt(w, account, facts, key);
    OwnAccount(key, ChainAt(Scan(w, w.ledger, Some(account), facts), key), w.ledger);
    TouchedCloses(w, account, navDate, facts, key);
  }

  // ---------- moves deferred by a compensation ----------

  /** Nothing but the sources remembered on the newest version differs. */
  predicate OnlyDeferred(a: Chain, b: Chain)
    requires a != []
  {
    |b| == |a| && b == SetLatest(a, a[|a| - 1].(deferred := b[|b| - 1].deferred))
  }

  lemma OnlyDeferredThen(a: Chain, b: Chain, c: Chain)
    requires a != [] && OnlyDeferred(a, b) && OnlyDeferred(b, c)
    ensures OnlyDeferred(a, c)
  {
  }

  lemma ScanRowDefers(chain: Chain, row: LedgerRow, scope: Option<string>, facts: Facts)
    requires InCompensation(chain)
    ensures OnlyDeferred(chain, ScanRow(chain, row, scope, facts).0)
  {
    assert chain == SetLatest(chain, chain[|chain| - 1].(deferred := chain[|chain| - 1].deferred));
  }

  lemma ScanMissingDefers(chain: Chain, scope: Option<string>)
    requires InCompensation(chain)
    ensures OnlyDeferred(chain, ScanMissing(chain, scope))
  {
    assert chain == SetLatest(chain, chain[|chain| - 1].(deferred := chain[|chain| - 1].deferred));
  }

  lemma {:induction false} ScanRowsDefer(chains: Chains, rows: seq<LedgerRow>, scope: Option<string>, facts: Facts,
                                         key: Key)
    requires InCompensation(ChainOf(chains, key))
    ensures OnlyDeferred(ChainOf(chains, key), ChainOf(ScanRows(chains, rows, scope, facts).0, key))
  {
    hide ScanRow;
    var chain := ChainOf(chains, key);
    if rows == [] {
      assert chain == SetLatest(chain, chain[|chain| - 1].(deferred := chain[|chain| - 1].deferred));
    } else {
      var front, last := rows[..|rows| - 1], rows[|rows| - 1];
      var c := ChainOf(ScanRows(chains, front, scope, facts).0, key);
      ScanRowsDefer(chains, front, scope, facts, key);
      ScanLastRow(chains, rows, scope, facts, key);
      if RowKey(last) == key {
        ScanRowDefers(c, last, scope, facts);
        OnlyDeferredThen(chain, c, ScanRow(c, last, scope, facts).0);
      }
    }
  }

  /** A scan only remembers what it finds of a record in compensation. */
  lemma ScanDefers(w: World, rows: seq<LedgerRow>, scope: Option<string>, facts: Facts, key: Key)
    requires key.FlowKey? && InCompensation(ChainAt(w, key))
    ensures OnlyDeferred(ChainAt(w, key), ChainAt(Scan(w, rows, scope, facts), key))
  {
    hide ScanRows, ScanMissing, CommitScan;
    var cash := InScope(w.holdings, scope);
    var listed := ChainOf(ScanRows(w.store.chains, rows, scope, facts).0, key);
    ScanRowsDefer(w.store.chains, rows, scope, facts, key);
    ScannedRecord(w.store, rows, cash, scope, facts, key);
    ScanMissingDefers(listed, scope);
    OnlyDeferredThen(ChainAt(w, key), listed, ScanMissing(listed, scope));
  }

  lemma DeferredAccounts(key: Key, a: Chain, b: Chain, ledger: seq<LedgerRow>)
    requires a != [] && OnlyDeferred(a, b)
    ensures EffectAccounts(key, b, ledger) == EffectAccounts(key, a, ledger)
  {
    assert b[..|b| - 1] == a[..|a| - 1];
  }

  /**
   A record in compensation closes the gate of the account its version is of, of the account of the version
   applied before, of every account it has stored a target in, and, when its row was moved in the meantime, of
   the account the ledger now names.
   */
  lemma DeferredMoveBlocks(w: World, account: string, navDate: int, facts: Facts, key: Key)
    requires key.FlowKey? && account != "" && InCompensation(ChainAt(w, key))
    requires var chain := ChainAt(w, key);
             || account == CurrentAccount(w.ledger, key.recordId)
             || account == chain[|chain| - 1].source.Account()
             || (PreviousApplied(chain).Some? && account == PreviousApplied(chain).value.Account())
             || (exists t :: t in chain[|chain| - 1].targets && account == t.identity.account)
    ensures !GatePasses(w, account, navDate, facts)
  {
    hide CommitScan, Blockers, LastApplied;
    ScanDefers(w, w.ledger, Some(account), facts, key);
    var next := ChainAt(Scan(w, w.ledger, Some(account), facts), key);
    DeferredAccounts(key, ChainAt(w, key), next, w.ledger);
    hide EffectAccounts, GatePasses;
    TouchedCloses(w, account, navDate, facts, key);
  }

  /** Of the only row of a record, the raw account text counts. */
  lemma {:induction false} CurrentAccountOf(rows: seq<LedgerRow>, n: nat)
    requires n < |rows| && UniqueRows(rows)
    ensures CurrentAccount(rows, rows[n].flow.recordId) == rows[n].rawAccount
  {
    if n < |rows| - 1 {
      assert rows[..|rows| - 1][n] == rows[n];
      CurrentAccountOf(rows[..|rows| - 1], n);
    }
  }

  // ---------- both accounts of a pending move ----------

  /** A record that the gate for `navDate` has to wait for, whatever a scan finds of it. */
  ghost predicate Counts(w: World, key: Key, navDate: int) {
    InCompensation(ChainAt(w, key)) || (OpenAndDue(ChainAt(w, key), navDate) && RowsDue(w.ledger, key, navDate))
  }

  /** The gate's scan left a version of the record that is scheduled for after the NAV. */
  ghost predicate LaterAt(w: World, account: string, navDate: int, facts: Facts, key: Key) {
    var next := ChainAt(Scan(w, w.ledger, Some(account), facts), key);
    next != [] && Later(next[|next| - 1], navDate)
  }

  /**
   A pending move blocks both accounts. From the scan that finds it until it is resolved, in whatever state and
   whatever the raw text of its row: the gate of the account of the last applied version passes only if the
   version is scheduled for after the NAV, and so does the gate of the account the move enters, as long as no
   row of the record is elsewhere, and in compensation even then. With dates up to the NAV neither passes.
   */
  lemma MoveBlocksBoth(w: World, left: string, entered: string, navDate: int, facts: Facts, key: Key)
    requires WorldOk(w) && key.FlowKey? && left != "" && entered != "" && Open(ChainAt(w, key))
    requires var chain := ChainAt(w, key);
             && SitsAt(chain, entered)
             && PreviousApplied(chain).Some? && PreviousApplied(chain).value.Account() == left
    ensures GatePasses(w, left, navDate, facts) ==> LaterAt(w, left, navDate, facts, key)
    ensures Counts(w, key, navDate) ==> !GatePasses(w, left, navDate, facts)
    ensures InCompensation(ChainAt(w, key)) || !HasRowElsewhere(w.ledger, key, entered) ==>
              && (GatePasses(w, entered, navDate, facts) ==> LaterAt(w, entered, navDate, facts, key))
              && (Counts(w, key, navDate) ==> !GatePasses(w, entered, navDate, facts))
  {
    hide CommitScan, GatePasses, OpenAndDue, RowsDue, WorldOk, HasRowElsewhere, LastApplied;
    if InCompensation(ChainAt(w, key)) {
      DeferredMoveBlocks(w, left, navDate, facts, key);
      DeferredMoveBlocks(w, entered, navDate, facts, key);
    } else {
      LeftAccountCloses(w, left, navDate, facts, key);
      if !HasRowElsewhere(w.ledger, key, entered) { EnteredAccountCloses(w, entered, navDate, facts, key); }
    }
  }

  // ---------- records that the gate's rows no longer hold ----------

  predicate Lists(rows: seq<LedgerRow>, key: Key) { exists i | 0 <= i < |rows| :: RowKey(rows[i]) == key }

  lemma UnlistedIsMissing(rows: seq<LedgerRow>, key: Key)
    requires key.FlowKey? && !Lists(rows, key)
    ensures IsMissing(key, SeenRecords(rows))
  {
  }

  lemma DeletionSits(chain: Chain, account: string)
    requires SitsAt(chain, account) && chain[|chain| - 1].source.Flow? && chain[|chain| - 1].state == Applied
    ensures var next := ScanMissing(chain, Some(account));
            SitsAt(next, account) && next[|next| - 1].state == Pending
  {
    hide LastApplied;
    var e := chain[|chain| - 1];
    AddVersionShape(chain, Deletion(e.source.flow), Pending, if e.mode == Apply then Apply else Keep);
  }

  /** An applied event whose row the gate does not see: the gate's own scan makes a deletion of it, which blocks. */
  lemma VanishedMoveBlocks(w: World, account: string, navDate: int, facts: Facts, key: Key)
    requires key.FlowKey? && account != "" && SitsAt(ChainAt(w, key), account) && !Lists(w.ledger, key)
    requires var e := ChainAt(w, key)[|ChainAt(w, key)| - 1]; e.state == Applied && e.source.Flow?
    ensures !GatePasses(w, account, navDate, facts)
  {
    hide ScanRows, ScanMissing, CommitScan, EffectAccounts, GatePasses;
    var cash := InScope(w.holdings, Some(account));
    ScanRowsElsewhere(w.store.chains, w.ledger, Some(account), facts, key);
    UnlistedIsMissing(w.ledger, key);
    ScannedRecord(w.store, w.ledger, cash, Some(account), facts, key);
    DeletionSits(ChainAt(w, key), account);
    OwnAccount(key, ChainAt(Scan(w, w.ledger, Some(account), facts), key), w.ledger);
    TouchedCloses(w, account, navDate, facts, key);
  }

  // ---------- rows of the account itself ----------

  /** Every row of the record names the account, as raw text and as fact. */
  ghost predicate AllOf(rows: seq<LedgerRow>, key: Key, account: string) {
    forall i :: 0 <= i < |rows| && RowKey(rows[i]) == key ==>
      rows[i].rawAccount == account && rows[i].flow.account == account
  }

  /** The version a gate of the account has made of the record: open, of the account, dated as one of its rows. */
  ghost predicate MadeOf(rows: seq<LedgerRow>, chain: Chain, key: Key, account: string, navDate: int) {
    Open(chain) && SitsAt(chain, account) && (RowsDue(rows, key, navDate) ==> OpenAndDue(chain, navDate))
  }

  lemma NamedRowOpens(chain: Chain, row: LedgerRow, account: string, facts: Facts)
    requires !InCompensation(chain) && row.rawAccount == account && row.flow.account == account
    requires Open(chain) || !SitsAt(chain, account)
    ensures var next := ScanRow(chain, row, Some(account), facts).0;
            Open(next) && next[|next| - 1].source == Flow(row.flow)
  {
    hide LastApplied;
    var (state, mode) := Desired(Flow(row.flow), facts);
    if chain == [] || chain[|chain| - 1].source != Flow(row.flow) {
      AddVersionShape(chain, Flow(row.flow), state, mode);
    }
  }

  lemma {:induction false} NamedRowsOpen(chains: Chains, rows: seq<LedgerRow>, account: string, facts: Facts, key: Key,
                                         navDate: int)
    requires !InCompensation(ChainOf(chains, key)) && AllOf(rows, key, account)
    requires Open(ChainOf(chains, key)) || !SitsAt(ChainOf(chains, key), account)
    ensures var next := ChainOf(ScanRows(chains, rows, Some(account), facts).0, key);
            if Lists(rows, key) then MadeOf(rows, next, key, account, navDate) else next == ChainOf(chains, key)
  {
    hide ScanRows, ScanRow, InCompensation;
    if rows == [] {
      NoRows(chains, account, facts);
    } else {
      var front, last := rows[..|rows| - 1], rows[|rows| - 1];
      assert forall i :: 0 <= i < |front| ==> front[i] == rows[i];
      NamedRowsOpen(chains, front, account, facts, key, navDate);
      ScanKeepsCompensation(chains, front, Some(account), facts, key);
      ScanLastRow(chains, rows, Some(account), facts, key);
      if RowKey(last) == key {
        NamedRowOpens(ChainOf(ScanRows(chains, front, Some(account), facts).0, key), last, account, facts);
      } else if Lists(rows, key) {
        var i :| 0 <= i < |rows| && RowKey(rows[i]) == key;
        assert RowKey(front[i]) == key;
      }
    }
  }

  /**
   A gate that sees the row of a record in its own account, as raw text too, closes, unless that version of the
   record was resolved before: whether the move was found before or not.
   */
  lemma NamedRowCloses(w: World, account: string, navDate: int, facts: Facts, key: Key)
    requires WorldOk(w) && key.FlowKey? && account != "" && Lists(w.ledger, key) && AllOf(w.ledger, key, account)
    requires (Open(ChainAt(w, key)) || !SitsAt(ChainAt(w, key), account))
             && (InCompensation(ChainAt(w, key)) ==> key.recordId != "")
    ensures GatePasses(w, account, navDate, facts) ==> LaterAt(w, account, navDate, facts, key)
    ensures InCompensation(ChainAt(w, key)) || RowsDue(w.ledger, key, navDate) ==>
              !GatePasses(w, account, navDate, facts)
  {
    hide ScanRows, ScanMissing, CommitScan, EffectAccounts, GatePasses, AllOf, RowsDue, WorldOk;
    var cash := InScope(w.holdings, Some(account));
    if InCompensation(ChainAt(w, key)) {
      AllOfIsCurrent(w.ledger, key, account);
      DeferredMoveBlocks(w, account, navDate, facts, key);
    } else {
      NamedRowsOpen(w.store.chains, w.ledger, account, facts, key, navDate);
      var listed := ChainOf(ScanRows(w.store.chains, w.ledger, Some(account), facts).0, key);
      ScannedRecord(w.store, w.ledger, cash, Some(account), facts, key);
      ScanMissingOpen(listed, Some(account), navDate);
      SweptStaysAt(listed, account);
      OwnAccount(key, ChainAt(Scan(w, w.ledger, Some(account), facts), key), w.ledger);
      TouchedCloses(w, account, navDate, facts, key);
    }
  }

  lemma {:induction false} AllOfIsCurrent(rows: seq<LedgerRow>, key: Key, account: string)
    requires key.FlowKey? && Lists(rows, key) && AllOf(rows, key, account)
    ensures key.recordId != "" ==> CurrentAccount(rows, key.recordId) == account
  {
    var front, last := rows[..|rows| - 1], rows[|rows| - 1];
    if RowKey(last) != key {
      assert forall i :: 0 <= i < |front| ==> front[i] == rows[i];
      var i :| 0 <= i < |rows| && RowKey(rows[i]) == key;
      assert RowKey(front[i]) == key;
      AllOfIsCurrent(front, key, account);
    }
  }

  // ---------- the official gates ----------

  /** The gate of a NAV run: it is given the frozen rows of its account, and nothing else is read. */
  ghost predicate OfficialGatePasses(w: World, rows: seq<LedgerRow>, account: string, navDate: int, facts: Facts) {
    GatePasses(w.(ledger := rows), account, navDate, facts)
  }

  ghost predicate RowsOf(rows: seq<LedgerRow>, account: string) {
    forall i :: 0 <= i < |rows| ==> rows[i].rawAccount == account && rows[i].flow.account == account
  }

  /**
   The official gates of a move. The frozen rows of the account an applied event left no longer hold it, those of
   the account it entered do. Neither gate passes for a NAV from the event on, whether a scan has found the move,
   a gate has taken it for a deletion, or nothing has seen it yet.
   */
  lemma OfficialGatesBlockMoves(w: World, left: string, entered: string, leftRows: seq<LedgerRow>,
                                enteredRows: seq<LedgerRow>, navDate: int, facts: Facts, key: Key)
    requires WorldOk(w) && key.FlowKey? && key.recordId != "" && left != "" && entered != "" && left != entered
    requires RowsOf(leftRows, left) && !Lists(leftRows, key) && RowsOf(enteredRows, entered) && Lists(enteredRows, key)
    requires RowsDue(enteredRows, key, navDate)
    requires var chain := ChainAt(w, key);
             if Open(chain) then PreviousApplied(chain).Some? && PreviousApplied(chain).value.Account() == left
                                 && (InCompensation(chain) || Due(chain[|chain| - 1].source, navDate))
             else SitsAt(chain, left) && chain[|chain| - 1].state == Applied && chain[|chain| - 1].source.Flow?
    ensures !OfficialGatePasses(w, leftRows, left, navDate, facts)
    ensures !OfficialGatePasses(w, enteredRows, entered, navDate, facts)
  {
    hide CommitScan, GatePasses, WorldOk, LastApplied;
    var a, b := w.(ledger := leftRows), w.(ledger := enteredRows);
    assert ChainAt(a, key) == ChainAt(b, key) == ChainAt(w, key);
    SameStoreOk(w, a);
    SameStoreOk(w, b);
    if !Open(ChainAt(w, key)) {
      VanishedMoveBlocks(a, left, navDate, facts, key);
    } else if InCompensation(ChainAt(w, key)) {
      DeferredMoveBlocks(a, left, navDate, facts, key);
    } else {
      LeftAccountCloses(a, left, navDate, facts, key);
    }
    NamedRowCloses(b, entered, navDate, facts, key);
  }

  lemma SameStoreOk(w: World, w': World)
    requires WorldOk(w) && w'.store == w.store
    ensures WorldOk(w')
  {
  }

  // ---------- from the edit of the ledger on ----------

  lemma OnlyRow(rows: seq<LedgerRow>, n: nat)
    requires UniqueRows(rows) && n < |rows|
    ensures forall i :: 0 <= i < |rows| && RowKey(rows[i]) == RowKey(rows[n]) ==> i == n
  {
  }

  /**
   An applied event is edited or moved in a ledger with unique record ids, and a scan of the whole ledger finds
   it. From then on both the account it left and the account it entered are closed for every NAV from the event
   on, whatever the raw account text of the row.
   */
  lemma FoundMoveBlocks(w: World, account: string, navDate: int, f1: Facts, f2: Facts, n: nat)
    requires WorldOk(w) && UniqueRows(w.ledger) && n < |w.ledger| && account != ""
    requires Due(Flow(w.ledger[n].flow), navDate)
    requires var chain := ChainAt(w, RowKey(w.ledger[n]));
             && chain != [] && chain[|chain| - 1].state == Applied
             && chain[|chain| - 1].source != Flow(w.ledger[n].flow)
             && (account == chain[|chain| - 1].source.Account() || account == w.ledger[n].flow.account)
    ensures !GatePasses(Scan(w, w.ledger, None, f1), account, navDate, f2)
  {
    hide ScanRow, CommitScan, UniqueRows, GatePasses, WorldOk, LastApplied;
    var row, key := w.ledger[n], RowKey(w.ledger[n]);
    var t := Scan(w, w.ledger, None, f1);
    ScannedChain(w, w.ledger, None, f1, n);
    EditedVersion(ChainAt(w, key), row, None, f1);
    DesiredOpen(Flow(row.flow), f1);
    ScannedOk(w, w.ledger, None, f1);
    OnlyRow(w.ledger, n);
    if account == row.flow.account {
      EnteredAccountCloses(t, account, navDate, f2, key);
    } else {
      LeftAccountCloses(t, account, navDate, f2, key);
    }
  }

  lemma DesiredOpen(source: Source, facts: Facts)
    ensures Desired(source, facts).0.Unresolved() && Desired(source, facts).0 != CompensationPending
  {
  }

  lemma ScannedOk(w: World, rows: seq<LedgerRow>, scope: Option<string>, facts: Facts)
    requires WorldOk(w)
    ensures WorldOk(Scan(w, rows, scope, facts))
  {
    hide CommitScan;
    CommitScanOk(w.store, rows, InScope(w.holdings, scope), scope, facts);
  }

  /**
   Exactly when the account a pending move enters stays blocked, with unique record ids: the gate's scan leaves
   the record a blocker if and only if the version it leaves counts for the NAV date, and the row is not of
   another account by now or the last applied version was of this one.
   */
  lemma EnteredAccountExactly(w: World, account: string, navDate: int, facts: Facts, key: Key)
    requires WorldOk(w) && key.FlowKey? && account != "" && UniqueRows(w.ledger)
    requires Open(ChainAt(w, key)) && SitsAt(ChainAt(w, key), account) && !InCompensation(ChainAt(w, key))
    ensures var t := Scan(w, w.ledger, Some(account), facts);
            var next := ChainAt(t, key);
            var previous := PreviousApplied(ChainAt(w, key));
            && next != []
            && (key in Blockers(t, account, navDate) <==>
                  && Blocks(next[|next| - 1], navDate)
                  && (!HasRowElsewhere(w.ledger, key, account)
                      || (previous.Some? && previous.value.Account() == account)))
  {
    hide CommitScan, WorldOk, LastApplied, ScanRow, UniqueRows, EffectAccounts, Blockers, Blocks, HasRowElsewhere;
    var t := Scan(w, w.ledger, Some(account), facts);
    var next := ChainAt(t, key);
    ScanOpen(w, w.ledger, Some(account), facts, key, navDate);
    BlocksExactly(t, key, account, navDate);
    if HasRowElsewhere(w.ledger, key, account) {
      ElsewhereMoves(w, account, facts, key);
      FreshAccounts(key, next, w.ledger);
    } else {
      ScanSitsAt(w, account, facts, key);
      OwnAccount(key, next, w.ledger);
    }
  }

  /** The row of another account makes a fresh version of the record there. */
  lemma ElsewhereMoves(w: World, account: string, facts: Facts, key: Key)
    requires key.FlowKey? && UniqueRows(w.ledger) && HasRowElsewhere(w.ledger, key, account)
    requires SitsAt(ChainAt(w, key), account) && !InCompensation(ChainAt(w, key))
    ensures var next := ChainAt(Scan(w, w.ledger, Some(account), facts), key);
            && next != [] && next[|next| - 1].source.Account() != account && next[|next| - 1].targets == []
            && next[|next| - 1].state != CompensationPending
  {
    hide CommitScan, UniqueRows, LastApplied;
    var n :| 0 <= n < |w.ledger| && RowKey(w.ledger[n]) == key && w.ledger[n].flow.account != account;
    ScannedChain(w, w.ledger, Some(account), facts, n);
    DesiredOpen(Flow(w.ledger[n].flow), facts);
  }

  lemma FreshAccounts(key: Key, chain: Chain, ledger: seq<LedgerRow>)
    requires key.FlowKey? && chain != [] && chain[|chain| - 1].targets == []
             && chain[|chain| - 1].state != CompensationPending
    ensures var previous := PreviousApplied(chain);
            forall account :: account != "" ==>
              (account in EffectAccounts(key, chain, ledger) <==>
                 account == chain[|chain| - 1].source.Account()
                 || (previous.Some? && account == previous.value.Account()))
  {
  }
}
