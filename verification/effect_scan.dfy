/** The scanner: ledger rows become versions, and holdings are reconciled with their baselines. */
module EffectScan {
  import opened EffectModel
  import opened Optional
  import opened EffectOperations
  import opened Totals

  /** Dates, the cutover, the accounts and dates whose preceding NAV is final, and Futu cash. */
  datatype Facts = Facts(today: int, cutover: int, navFinal: set<(string, int)>, quotes: map<Identity, Quote>)

  function InitialState(source: Source, mode: Mode, facts: Facts): State
    requires source.Completed()
  {
    if source.flow.date.value > facts.today then Scheduled
    else if mode == Apply && (source.flow.account, source.flow.date.value) !in facts.navFinal then Scheduled
    else Pending
  }

  /** The state and mode a ledger row is discovered with. */
  function Desired(source: Source, facts: Facts): (State, Mode) {
    if source.Completed() then
      var mode := if source.flow.date.value < facts.cutover then Keep else Apply;
      (InitialState(source, mode, facts), mode)
    else (Blocked, Apply)
  }

  datatype Change = Unchanged | Added | Changed

  predicate OutOfScope(chain: Chain, row: LedgerRow, scope: Option<string>) {
    && scope.Some? && row.rawAccount != scope.value
    && (chain == [] || chain[|chain| - 1].source.Account() != scope.value)
  }

  function ScanRow(chain: Chain, row: LedgerRow, scope: Option<string>, facts: Facts): (Chain, Change) {
    var latest := Latest(chain);
    var (state, mode) := Desired(Flow(row.flow), facts);
    if OutOfScope(chain, row, scope) then (chain, Unchanged)
    else if latest.Some? && latest.value.source == Flow(row.flow) then
      if latest.value.state == Scheduled && state == Pending
      then (SetLatest(chain, latest.value.(state := Pending)), Changed) else (chain, Unchanged)
    else if latest.Some? && latest.value.state == CompensationPending then
      if Flow(row.flow) in latest.value.deferred then (chain, Unchanged) else (Defer(chain, Flow(row.flow)), Changed)
    else (AddVersion(chain, Flow(row.flow), state, mode), if latest.Some? then Changed else Added)
  }

  datatype Tally = Tally(added: nat, changed: nat, blocked: nat)

  function Count(t: Tally, c: Change, broken: bool): Tally {
    Tally(t.added + (if c == Added then 1 else 0),
          t.changed + (if c == Changed then 1 else 0),
          t.blocked + (if broken then 1 else 0))
  }

  function RowKey(row: LedgerRow): Key { FlowKey(row.flow.recordId) }

  /** The ledger loop of _commit_scan. */
  function ScanRows(chains: Chains, rows: seq<LedgerRow>, scope: Option<string>, facts: Facts): (Chains, Tally) {
    if rows == [] then (chains, Tally(0, 0, 0))
    else
      var (c, t) := ScanRows(chains, rows[..|rows| - 1], scope, facts);
      var row := rows[|rows| - 1];
      var chain := ChainOf(c, RowKey(row));
      var (next, change) := ScanRow(chain, row, scope, facts);
      (Put(c, RowKey(row), next),
       Count(t, change, !OutOfScope(chain, row, scope) && !Flow(row.flow).Completed()))
  }

  function SeenRecords(rows: seq<LedgerRow>): set<string> {
    set i | 0 <= i < |rows| && rows[i].flow.recordId != "" :: rows[i].flow.recordId
  }

  /** One known record that the ledger no longer contains. */
  function ScanMissing(chain: Chain, scope: Option<string>): Chain
    requires chain != []
  {
    var latest := chain[|chain| - 1];
    if scope.Some? && latest.source.Account() != scope.value then chain
    else if !latest.source.Flow? then chain
    else if latest.state == CompensationPending then Defer(chain, Deletion(latest.source.flow))
    else AddVersion(chain, Deletion(latest.source.flow), Pending,
                    if latest.state == Applied && latest.mode == Apply then Apply else Keep)
  }

  predicate IsMissing(key: Key, seen: set<string>) { key.FlowKey? && key.recordId !in seen }

  /** The deletion loop over `keys`: the order of the records does not matter. */
  function SweepMissing(chains: Chains, keys: set<Key>, seen: set<string>, scope: Option<string>): Chains {
    map k | k in chains :: if k in keys && IsMissing(k, seen) && chains[k] != [] then ScanMissing(chains[k], scope)
                           else chains[k]
  }

  /** The records the deletion loop changes. */
  function Vanished(chains: Chains, seen: set<string>, scope: Option<string>): set<Key> {
    set k | k in chains && IsMissing(k, seen) && chains[k] != [] && ScanMissing(chains[k], scope) != chains[k]
  }

  function TargetIdentities(targets: seq<Target>): set<Identity> {
    set t | t in targets :: t.identity
  }

  /** Identities whose baseline belongs to a pending compensation. */
  function OwnedTargets(chain: Chain): set<Identity> {
    if chain != [] && chain[|chain| - 1].state == CompensationPending
    then TargetIdentities(chain[|chain| - 1].targets) else {}
  }

  function OwnedIdentities(chains: Chains): set<Identity> {
    set k, id | k in chains && id in OwnedTargets(chains[k]) :: id
  }

  /** The identity an unresolved ledger effect is active at. */
  function ActiveAt(key: Key, chain: Chain): Option<Identity> {
    if key.FlowKey? && chain != [] && chain[|chain| - 1].state.Unresolved()
    then chain[|chain| - 1].source.At() else None
  }

  /** All its deltas are counted at its current identity, also those that undo another one. */
  function ActiveDelta(chain: Chain): int
    requires chain != []
  {
    var ops := Operations(PreviousApplied(chain), chain[|chain| - 1].source);
    if ops.Some? then DeltaSum(ops.value) else 0
  }

  ghost function ActiveDeltas(chains: Chains, id: Identity): map<Key, int> {
    map k | k in chains && ActiveAt(k, chains[k]) == Some(id) :: ActiveDelta(chains[k])
  }

  /** The net delta of the unresolved ledger effects at `id`; None when there is no such effect. */
  ghost function NetAt(chains: Chains, id: Identity): Option<int> {
    if exists k | k in chains :: ActiveAt(k, chains[k]) == Some(id)
    then Some(Total(ActiveDeltas(chains, id))) else None
  }

  datatype Reconciled = Reconciled(mark: Fingerprint, chain: Chain, changed: bool)

  function DriftSource(id: Identity, chain: Chain, obs: Observation, confirmed: Option<Observation>,
                       today: int): Source {
    var latest := Latest(chain);
    var day := if latest.Some? && latest.value.source.Drift? && latest.value.source.observed == obs
               then latest.value.source.day else today;
    Drift(id, obs, day, if confirmed.Some? then Some(Amount(confirmed.value)) else None)
  }

  /** Drift that the unresolved ledger effects of the identity account for. */
  predicate Explained(confirmed: Option<Observation>, obs: Observation, net: Option<int>) {
    net.Some? && confirmed.Some? && Amount(obs) == Amount(confirmed.value) + net.value
  }

  function ConfirmedOf(prints: Prints, id: Identity): Option<Observation> {
    if id in prints then prints[id].confirmed else None
  }

  /** One identity of _scan_holding_fingerprints. */
  function Reconcile(id: Identity, confirmed: Option<Observation>, chain: Chain, obs: Observation,
                     owned: bool, net: Option<int>, today: int): Reconciled
  {
    var seen := Fingerprint(confirmed, obs);
    var latest := Latest(chain);
    var source := DriftSource(id, chain, obs, confirmed, today);
    if owned || Explained(confirmed, obs, net) then Reconciled(seen, chain, false)
    else if confirmed == Some(obs) then
      if latest.Some? && latest.value.state.Unresolved() && latest.value.state != CompensationPending
      then Reconciled(seen, SetLatest(chain, latest.value.(state := Applied)), true)
      else Reconciled(seen, chain, false)
    else if id.broker != FUTU_BROKER then
      if latest.Some? && latest.value.state == CompensationPending then Reconciled(seen, chain, false)
      else if latest.Some? && latest.value.source == source then
        Reconciled(Fingerprint(Some(obs), obs),
                   SetLatest(chain, latest.value.(state := RecordOnly, targets := [], task := None)), true)
      else Reconciled(Fingerprint(Some(obs), obs), AddVersion(chain, source, RecordOnly, Keep), true)
    else if latest.Some? && latest.value.source == source then Reconciled(seen, chain, false)
    else if latest.Some? && latest.value.state == CompensationPending then
      Reconciled(seen, Defer(chain, source), source !in latest.value.deferred)
    else Reconciled(seen, AddVersion(chain, source, Pending, Apply), true)
  }

  ghost function ReconcileAt(s: Store, cash: Holdings, today: int, id: Identity): Reconciled {
    Reconcile(id, ConfirmedOf(s.prints, id), ChainOf(s.chains, DriftKey(id)), Obs(cash, id),
              id in OwnedIdentities(s.chains), NetAt(s.chains, id), today)
  }

  ghost function DriftKeys(s: Store, ids: set<Identity>, cash: Holdings, today: int): set<Key> {
    set id | id in ids && ReconcileAt(s, cash, today, id).chain != [] :: DriftKey(id)
  }

  /** The holdings loop over `ids`; ownership and nets are read once, before the loop. */
  ghost function ReconcileAll(s: Store, ids: set<Identity>, cash: Holdings, today: int): Store {
    Store(
      map k | k in s.chains.Keys + DriftKeys(s, ids, cash, today) ::
        if k.DriftKey? && k.identity in ids then ReconcileAt(s, cash, today, k.identity).chain else s.chains[k],
      map id | id in s.prints.Keys + ids ::
        if id in ids then ReconcileAt(s, cash, today, id).mark else s.prints[id])
  }

  /** The identities a scan looks at: the holdings it read and the fingerprints it knows. */
  function ScannedIdentities(prints: Prints, cash: Holdings, scope: Option<string>): set<Identity> {
    cash.Keys + set id | id in prints && (scope.None? || id.account == scope.value)
  }

  ghost function Moved(s: Store, ids: set<Identity>, cash: Holdings, today: int): set<Identity> {
    set id | id in ids && ReconcileAt(s, cash, today, id).changed
  }

  datatype ScanResult = ScanResult(store: Store, added: nat, changed: nat, deleted: nat, blocked: nat)

  /** The store after the ledger loop and the deletion loop. */
  ghost function AfterLedger(s: Store, rows: seq<LedgerRow>, scope: Option<string>, facts: Facts): Store {
    var listed := ScanRows(s.chains, rows, scope, facts).0;
    Store(SweepMissing(listed, listed.Keys, SeenRecords(rows), scope), s.prints)
  }

  /** _commit_scan. */
  ghost function CommitScan(s: Store, rows: seq<LedgerRow>, cash: Holdings, scope: Option<string>,
                            facts: Facts): ScanResult {
    var (listed, tally) := ScanRows(s.chains, rows, scope, facts);
    var swept := AfterLedger(s, rows, scope, facts);
    var ids := ScannedIdentities(s.prints, cash, scope);
    ScanResult(ReconcileAll(swept, ids, cash, facts.today),
               tally.added,
               tally.changed + |Moved(swept, ids, cash, facts.today)|,
               |Vanished(listed, SeenRecords(rows), scope)|,
               tally.blocked)
  }
}
