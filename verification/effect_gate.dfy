/** Who owns a baseline during a scan, and what a successful NAV gate guarantees. */
module EffectGate {
  import opened EffectModel
  import opened Optional
  import opened EffectScan
  import opened EffectScanLaws
  import opened EffectConfirm
  import opened EffectInvariants
  import opened EffectRuns

  // ---------- baseline ownership ----------

  /** What the reconciliation of one identity sees, after the ledger part of the scan. */
  ghost predicate IsExplained(s: Store, id: Identity, obs: Observation) {
    Explained(ConfirmedOf(s.prints, id), obs, NetAt(s.chains, id))
  }

  lemma ReconciledBaseline(id: Identity, confirmed: Option<Observation>, chain: Chain, obs: Observation,
                           owned: bool, net: Option<int>, today: int)
    requires Good(DriftKey(id), chain)
    ensures var r := Reconcile(id, confirmed, chain, obs, owned, net, today);
            var kept := id.broker == FUTU_BROKER || owned || Explained(confirmed, obs, net);
            r.mark.observed == obs && r.mark.confirmed == if kept then confirmed else Some(obs)
  {
    assert chain != [] ==> RowOk(DriftKey(id), chain[|chain| - 1]);
  }

  /**
   What a reconciliation does to a baseline. It is kept for a Futu identity, for one that a pending
   compensation names in its last stored preview, and for one whose drift the unresolved ledger effects
   explain; every other identity it looks at ends with confirmed equal to observed.
   */
  lemma ScannedBaseline(s: Store, ids: set<Identity>, cash: Holdings, today: int, id: Identity)
    requires StoreOk(s)
    ensures var t := ReconcileAll(s, ids, cash, today);
            var kept := id.broker == FUTU_BROKER || id in OwnedIdentities(s.chains)
                || IsExplained(s, id, Obs(cash, id));
            && (kept || id !in ids ==> ConfirmedOf(t.prints, id) == ConfirmedOf(s.prints, id))
            && (!kept && id in ids ==> ConfirmedOf(t.prints, id) == Some(Obs(cash, id)))
            && (id in ids ==> id in t.prints && t.prints[id].observed == Obs(cash, id))
  {
    var t := ReconcileAll(s, ids, cash, today);
    if id in ids {
      var chain := ChainOf(s.chains, DriftKey(id));
      GoodEmpty(DriftKey(id));
      ReconciledBaseline(id, ConfirmedOf(s.prints, id), chain, Obs(cash, id),
                         id in OwnedIdentities(s.chains), NetAt(s.chains, id), today);
      assert t.prints[id] == ReconcileAt(s, cash, today, id).mark;
    }
  }

  // ---------- the NAV gate ----------

  /** _is_nav_blocker; a version without a readable date makes the gate raise, so it does not pass. */
  predicate Blocks(e: Effect, navDate: int) {
    e.state.Unresolved() && !(e.state == Scheduled && e.source.Date().Some? && navDate < e.source.Date().value)
  }

  /** The newest versions that block `account`. */
  function Blockers(w: World, account: string, navDate: int): set<Key> {
    set k | k in w.store.chains && w.store.chains[k] != []
            && account in EffectAccounts(k, w.store.chains[k], w.ledger)
            && Blocks(w.store.chains[k][|w.store.chains[k]| - 1], navDate)
  }

  /** nav_gate: a scan of the account, then no blocker is left. */
  ghost predicate GatePasses(w: World, account: string, navDate: int, facts: Facts) {
    Blockers(Scan(w, w.ledger, Some(account), facts), account, navDate) == {}
  }

  ghost predicate Later(e: Effect, navDate: int) {
    e.state == Scheduled && e.source.Date().Some? && navDate < e.source.Date().value
  }

  /** A chain touched by the account, whose newest version is unresolved, stops the gate. */
  lemma NotBlocked(w: World, account: string, navDate: int, key: Key)
    requires Blockers(w, account, navDate) == {} && key in w.store.chains && w.store.chains[key] != []
    requires account in EffectAccounts(key, w.store.chains[key], w.ledger)
    ensures var e := w.store.chains[key][|w.store.chains[key]| - 1]; e.state.Unresolved() ==> Later(e, navDate)
  {
    assert key !in Blockers(w, account, navDate);
  }

  lemma ChainIsGood(s: Store, key: Key)
    requires StoreOk(s) && key in s.chains
    ensures Good(key, s.chains[key])
  {
  }

  /** A record touches the account of its newest version. */
  lemma OwnAccount(key: Key, chain: Chain, ledger: seq<LedgerRow>)
    requires chain != [] && chain[|chain| - 1].source.Account() != ""
    ensures chain[|chain| - 1].source.Account() in EffectAccounts(key, chain, ledger)
  {
  }

  /**
   Gate completeness: if the gate passes for an account, then no version at all, not only the newest
   of its record, is unresolved in that account, apart from scheduled ones dated after the NAV date.
   */
  lemma GateIsComplete(w: World, account: string, navDate: int, facts: Facts, key: Key, i: nat)
    requires WorldOk(w) && account != "" && GatePasses(w, account, navDate, facts)
    requires var chain := ChainAt(Scan(w, w.ledger, Some(account), facts), key);
             i < |chain| && chain[i].source.Account() == account
    ensures var e := ChainAt(Scan(w, w.ledger, Some(account), facts), key)[i]; e.state.Unresolved() ==>
              Later(e, navDate)
  {
    hide CommitScan, EffectAccounts, Blockers, RowOk, TaskBooked, StoreOk;
    var t := Scan(w, w.ledger, Some(account), facts);
    var chain := ChainAt(t, key);
    CommitScanOk(w.store, w.ledger, InScope(w.holdings, Some(account)), Some(account), facts);
    ChainIsGood(t.store, key);
    if chain[i].state.Unresolved() {
      assert i == |chain| - 1;
      OwnAccount(key, chain, t.ledger);
      NotBlocked(t, account, navDate, key);
    }
  }

  /** A pending compensation blocks the account of every target it recorded on its version. */
  lemma OwnedAccountBlocked(w: World, account: string, navDate: int, id: Identity)
    requires Blockers(w, account, navDate) == {} && id.account == account && account != ""
    ensures id !in OwnedIdentities(w.store.chains)
  {
    if id in OwnedIdentities(w.store.chains) {
      var k :| k in w.store.chains && id in OwnedTargets(w.store.chains[k]);
      var e := w.store.chains[k][|w.store.chains[k]| - 1];
      var t :| t in e.targets && t.identity == id;
      assert account in EffectAccounts(k, w.store.chains[k], w.ledger);
      NotBlocked(w, account, navDate, k);
    }
  }

  /** A scheduled effect of `id` whose date is after the NAV date. */
  ghost predicate ScheduledLater(chains: Chains, id: Identity, navDate: int) {
    exists k :: k in chains && ActiveAt(k, chains[k]) == Some(id) && Later(chains[k][|chains[k]| - 1], navDate)
  }

  lemma ActiveIsLater(w: World, account: string, navDate: int, id: Identity)
    requires Blockers(w, account, navDate) == {} && id.account == account && account != ""
    requires NetAt(w.store.chains, id).Some?
    ensures ScheduledLater(w.store.chains, id, navDate)
  {
    var k :| k in w.store.chains && ActiveAt(k, w.store.chains[k]) == Some(id);
    assert w.store.chains[k][|w.store.chains[k]| - 1].source.Account() == account;
    assert account in EffectAccounts(k, w.store.chains[k], w.ledger);
    NotBlocked(w, account, navDate, k);
  }

  /**
   A passing gate has settled the account's non-Futu cash: every holding it scanned equals its
   confirmed baseline, unless a scheduled effect dated after the NAV date accounts for the drift.
   */
  lemma GateSettlesHoldings(w: World, account: string, navDate: int, facts: Facts, id: Identity)
    requires WorldOk(w) && account != "" && GatePasses(w, account, navDate, facts)
    requires id.account == account && id.broker != FUTU_BROKER
    requires id in w.holdings || id in w.store.prints
    ensures var t := Scan(w, w.ledger, Some(account), facts);
            ConfirmedOf(t.store.prints, id) == Some(Obs(w.holdings, id)) || ScheduledLater(t.store.chains, id, navDate)
  {
    var cash := InScope(w.holdings, Some(account));
    var swept := AfterLedger(w.store, w.ledger, Some(account), facts);
    var ids := ScannedIdentities(w.store.prints, cash, Some(account));
    var t := Scan(w, w.ledger, Some(account), facts);
    assert t.store == ReconcileAll(swept, ids, cash, facts.today);
    AfterLedgerOk(w.store, w.ledger, Some(account), facts);
    SettledUnlessLater(swept, ids, cash, facts.today, t, account, navDate, id);
  }

  lemma SettledUnlessLater(s: Store, ids: set<Identity>, cash: Holdings, today: int, t: World, account: string,
                           navDate: int, id: Identity)
    requires StoreOk(s) && t.store == ReconcileAll(s, ids, cash, today)
    requires Blockers(t, account, navDate) == {} && id.account == account && account != ""
    requires id in ids && id.broker != FUTU_BROKER
    ensures ConfirmedOf(t.store.prints, id) == Some(Obs(cash, id)) || ScheduledLater(t.store.chains, id, navDate)
  {
    ScannedBaseline(s, ids, cash, today, id);
    ReconcileAllKeepsOwners(s, ids, cash, today);
    OwnedAccountBlocked(t, account, navDate, id);
    if IsExplained(s, id, Obs(cash, id)) {
      ReconcileAllKeepsFlows(s, ids, cash, today);
      SameNets(t.store.chains, s.chains, id);
      ActiveIsLater(t, account, navDate, id);
    }
  }

  // ---------- Futu drift ----------

  /**
   Unexplained Futu drift is meant to block the gate. Exactly when it does: after the reconciliation
   of a Futu identity that is neither owned nor explained, its newest external change is unresolved
   if and only if the holding differs from its baseline and the same drift was not settled as the
   newest external change before, or a compensation is still pending on it.
   */
  lemma FutuDriftBlocks(s: Store, cash: Holdings, today: int, id: Identity)
    requires StoreOk(s) && id.broker == FUTU_BROKER
    requires id !in OwnedIdentities(s.chains) && !IsExplained(s, id, Obs(cash, id))
    ensures var before := Latest(ChainOf(s.chains, DriftKey(id)));
            var after := Latest(ReconcileAt(s, cash, today, id).chain);
            var confirmed := ConfirmedOf(s.prints, id);
            var drifted := confirmed != Some(Obs(cash, id));
            var settledBefore := before.Some? && before.value.state.Terminal()
                                 && before.value.source == DriftSource(id, ChainOf(s.chains, DriftKey(id)),
                                                                       Obs(cash, id), confirmed, today);
            var compensating := before.Some? && before.value.state == CompensationPending;
            (after.Some? && after.value.state.Unresolved()) <==> (drifted && !settledBefore) || compensating
  {
    var chain := ChainOf(s.chains, DriftKey(id));
    if chain != [] {
      assert Good(DriftKey(id), chain) && RowOk(DriftKey(id), chain[|chain| - 1]);
    }
  }
}
