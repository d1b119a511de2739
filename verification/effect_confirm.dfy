/** Preview, confirmation, compensation and audit as steps over the store, the ledger and the holdings. */
module EffectConfirm {
  import opened EffectModel
  import opened Optional
  import opened EffectScan
  import opened EffectPreview

  datatype World = World(store: Store, ledger: seq<LedgerRow>, holdings: Holdings)

  function ChainAt(w: World, key: Key): Chain { ChainOf(w.store.chains, key) }

  function WithChain(w: World, key: Key, chain: Chain): World {
    w.(store := w.store.(chains := Put(w.store.chains, key, chain)))
  }

  predicate IsLatest(chain: Chain, version: nat) {
    chain != [] && chain[|chain| - 1].version == version
  }

  function FindRow(ledger: seq<LedgerRow>, recordId: string): Option<LedgerRow> {
    if ledger == [] then None
    else if ledger[0].flow.recordId == recordId then Some(ledger[0])
    else FindRow(ledger[1..], recordId)
  }

  // ---------- authoritative source ----------

  /** The source, state and mode the ledger now gives for the newest version of a record. */
  function CurrentSource(key: Key, e: Effect, ledger: seq<LedgerRow>, facts: Facts): (Source, State, Mode)
    requires key.FlowKey? && !e.source.Drift?
  {
    var row := FindRow(ledger, key.recordId);
    if row.Some? then
      var (state, mode) := Desired(Flow(row.value.flow), facts);
      (Flow(row.value.flow), state, mode)
    else
      (Deletion(e.source.flow), Pending,
       if e.mode == Apply && e.state in {Applying, Applied} then Apply else Keep)
  }

  /** _current_cash_flow_source on the newest version: the chain after it, and whether a correction was made. */
  function Refresh(key: Key, chain: Chain, ledger: seq<LedgerRow>, facts: Facts): (Chain, bool)
    requires chain != []
  {
    var e := chain[|chain| - 1];
    if !key.FlowKey? || e.source.Drift? then (chain, false)
    else
      var (source, state, mode) := CurrentSource(key, e, ledger, facts);
      if source == e.source then (chain, false)
      else if e.state == CompensationPending then (Defer(chain, source), false)
      else (AddVersion(chain, source, state, mode), true)
  }

  // ---------- preview ----------

  /** The payload the newest version gives now. */
  function Recomputed(w: World, id: EffectId, chain: Chain, given: Option<Action>, historical: bool,
                      facts: Facts): Option<Payload>
    requires chain != []
  {
    BuildPreview(w.store, id, chain[|chain| - 1], PreviousApplied(chain), given, historical, w.holdings, facts.quotes)
  }

  /** preview of the newest version: the chain it stores and the payload, None where it raises. */
  function PreviewLatest(w: World, id: EffectId, given: Option<Action>, historical: bool,
                         facts: Facts): (Chain, Option<Payload>)
    requires ChainAt(w, id.key) != []
  {
    var (current, moved) := Refresh(id.key, ChainAt(w, id.key), w.ledger, facts);
    if moved || current == [] then (current, None)
    else
      var e := current[|current| - 1];
      var p := Recomputed(w, id, current, given, historical, facts);
      if p.Some? then (SetLatest(current, e.(state := Previewed, targets := p.value.targets)), p)
      else if e.state in {Pending, Previewed, Stale, Blocked} then (SetLatest(current, e.(state := Blocked)), None)
      else (current, None)
  }

  function Preview(w: World, id: EffectId, given: Option<Action>, historical: bool,
                   facts: Facts): (World, Option<Payload>) {
    var chain := ChainAt(w, id.key);
    if !IsLatest(chain, id.version) then (w, None)
    else
      var (next, p) := PreviewLatest(w, id, given, historical, facts);
      (WithChain(w, id.key, next), p)
  }

  // ---------- writing the targets ----------

  /** What the storage does with one target; `Failed` is an exception or a wrong readback. */
  datatype Outcome = Done(newRecordId: string) | Failed(after: Observation)

  function Set(h: Holdings, id: Identity, o: Observation): Holdings {
    if o.Some? then h[id := o.value] else h - {id}
  }

  predicate Matches(h: Holdings, t: Target) { t.identity in h && h[t.identity].quantity == t.amount }

  /** A target that already matches is not written. */
  function WriteOne(h: Holdings, t: Target, newRecordId: string): Holdings {
    if Matches(h, t) then h
    else h[t.identity := Holding(if t.identity in h then h[t.identity].recordId else newRecordId, t.amount)]
  }

  datatype Written = Written(holdings: Holdings, confirmed: nat)

  /** The write loop of _confirm_under_locks, stopping at the first target that is not confirmed. */
  function WriteTargets(h: Holdings, targets: seq<Target>, outcomes: seq<Outcome>): Written
    decreases |targets|
  {
    if targets == [] then Written(h, 0)
    else if outcomes == [] then Written(h, 0)
    else match outcomes[0]
      case Failed(after) => Written(Set(h, targets[0].identity, after), 0)
      case Done(newRecordId) =>
        var rest := WriteTargets(WriteOne(h, targets[0], newRecordId), targets[1..], outcomes[1..]);
        Written(rest.holdings, rest.confirmed + 1)
  }

  /** confirm_fingerprint for every target, with the holding read back. */
  function ConfirmPrints(prints: Prints, targets: seq<Target>, h: Holdings): Prints {
    prints + map t | t in targets :: t.identity := Fingerprint(Some(Obs(h, t.identity)), Obs(h, t.identity))
  }

  // ---------- confirm ----------

  /** What happens around one confirmation: the second holding read, the writes, the last ledger read. */
  datatype Ambient = Ambient(reread: Holdings, outcomes: seq<Outcome>, laterLedger: seq<LedgerRow>)

  datatype Verdict =
    | Refused | SourceMoved | StaleHash | Kept | Compensating(confirmed: nat) | AppliedNow | AppliedThenMoved

  predicate PrecedingNavFinal(source: Source, facts: Facts) {
    source.Date().Some? && (source.Account(), source.Date().value) in facts.navFinal
  }

  /** _current_flow_accounts: the raw account text of a listed record; of several rows the last one counts. */
  function CurrentAccount(ledger: seq<LedgerRow>, recordId: string): string {
    if ledger == [] || recordId == "" then ""
    else if ledger[|ledger| - 1].flow.recordId == recordId then ledger[|ledger| - 1].rawAccount
    else CurrentAccount(ledger[..|ledger| - 1], recordId)
  }

  /** The accounts an effect touches; confirm holds their locks. */
  function EffectAccounts(key: Key, chain: Chain, ledger: seq<LedgerRow>): set<string>
    requires chain != []
  {
    var e := chain[|chain| - 1];
    var previous := PreviousApplied(chain);
    ({e.source.Account()}
     + (if key.FlowKey? && previous.Some? then {previous.value.Account()} else {})
     + (if key.FlowKey? && e.state == CompensationPending then {CurrentAccount(ledger, key.recordId)} else {})
     + (set t | t in e.targets :: t.identity.account)) - {""}
  }

  /** The holdings still are what the preview recorded. */
  predicate StillFresh(h: Holdings, targets: seq<Target>) {
    forall t | t in targets :: Obs(h, t.identity) == t.before
  }

  /** What one confirmation leaves behind. */
  datatype Commit = Commit(chain: Chain, prints: Prints, ledger: seq<LedgerRow>, holdings: Holdings, verdict: Verdict)

  function Confirm(w: World, id: EffectId, hash: Payload, given: Option<Action>, historical: bool,
                   facts: Facts, ambient: Ambient): (World, Verdict)
  {
    if !IsLatest(ChainAt(w, id.key), id.version) then (w, Refused)
    else
      var c := ConfirmLatest(w, id, hash, given, historical, facts, ambient);
      (World(Store(Put(w.store.chains, id.key, c.chain), c.prints), c.ledger, c.holdings), c.verdict)
  }

  /** _confirm_under_locks on the newest version: the source check, then the recomputed preview. */
  function ConfirmLatest(w: World, id: EffectId, hash: Payload, given: Option<Action>, historical: bool,
                         facts: Facts, ambient: Ambient): Commit
    requires ChainAt(w, id.key) != []
  {
    var (current, moved) := Refresh(id.key, ChainAt(w, id.key), w.ledger, facts);
    var stay := Commit(current, w.store.prints, w.ledger, w.holdings, Refused);
    if moved || current == [] then stay.(verdict := SourceMoved)
    else
      var p := Recomputed(w, id, current, given, historical, facts);
      if p.None? then stay
      else if p.value != hash then
        stay.(chain := SetLatest(current, current[|current| - 1].(state := Stale)), verdict := StaleHash)
      else ConfirmCurrent(stay, id.key, hash, EffectAccounts(id.key, ChainAt(w, id.key), w.ledger), facts, ambient)
  }

  /** A confirmation whose hash is current. */
  function ConfirmCurrent(stay: Commit, key: Key, p: Payload, locked: set<string>, facts: Facts,
                          ambient: Ambient): Commit
    requires stay.chain != []
  {
    if key.FlowKey? && p.mode == Apply && !PrecedingNavFinal(stay.chain[|stay.chain| - 1].source, facts) then stay
    else if p.mode == Keep then ConfirmKept(stay, ambient.reread)
    else if exists t | t in p.targets :: t.identity.account !in locked then stay
    else ConfirmWrite(stay, key, p, facts, ambient)
  }

  /** The record_only branch; an external change confirms its baseline before the guarded update. */
  function ConfirmKept(stay: Commit, reread: Holdings): Commit
    requires stay.chain != []
  {
    var e := stay.chain[|stay.chain| - 1];
    var now := if e.source.Drift? then Obs(reread, e.source.identity) else None;
    var prints := if e.source.Drift? then stay.prints[e.source.identity := Fingerprint(Some(now), now)]
        else stay.prints;
    if e.state == Previewed
    then Commit(SetLatest(stay.chain, e.(state := RecordOnly)), prints, stay.ledger, reread, Kept)
    else Commit(stay.chain, prints, stay.ledger, reread, Refused)
  }

  /** The apply branch, from the second holding read on. */
  function ConfirmWrite(stay: Commit, key: Key, p: Payload, facts: Facts, ambient: Ambient): Commit
    requires stay.chain != []
  {
    var chain := stay.chain;
    var e := chain[|chain| - 1];
    if !StillFresh(ambient.reread, p.targets) || e.state != Previewed then stay.(holdings := ambient.reread)
    else
      var written := WriteTargets(ambient.reread, p.targets, ambient.outcomes);
      if written.confirmed < |p.targets| then
        var failed := e.(state := CompensationPending, task := Some(Task(p.targets, false)));
        Commit(SetLatest(chain, failed), stay.prints, stay.ledger, written.holdings, Compensating(written.confirmed))
      else
        var applied := SetLatest(chain, e.(state := Applied));
        var (last, moved) := Refresh(key, applied, ambient.laterLedger, facts);
        Commit(last, ConfirmPrints(stay.prints, p.targets, written.holdings), ambient.laterLedger, written.holdings,
               if moved then AppliedThenMoved else AppliedNow)
  }

  // ---------- compensation ----------

  /** compensation.retry over the recorded absolute targets: match, write from `before`, or conflict. */
  function RetryTargets(h: Holdings, targets: seq<Target>, outcomes: seq<Outcome>): Written
    decreases |targets|
  {
    if targets == [] then Written(h, 0)
    else
      var t := targets[0];
      if Matches(h, t) then
        var rest := RetryTargets(h, targets[1..], outcomes);
        Written(rest.holdings, rest.confirmed + 1)
      else if Obs(h, t.identity) != t.before || outcomes == [] then Written(h, 0)
      else match outcomes[0]
        case Failed(after) => Written(Set(h, t.identity, after), 0)
        case Done(newRecordId) =>
          var rest := RetryTargets(WriteOne(h, t, newRecordId), targets[1..], outcomes[1..]);
          Written(rest.holdings, rest.confirmed + 1)
  }

  /** The pending compensation of the newest version, if there is one. */
  function PendingTask(chain: Chain): Option<Task> {
    if chain != [] && chain[|chain| - 1].state == CompensationPending then chain[|chain| - 1].task else None
  }

  /** compensation.retry: the task becomes resolved when every target was confirmed. */
  function RunTask(w: World, id: EffectId, outcomes: seq<Outcome>): World {
    var chain := ChainAt(w, id.key);
    var task := PendingTask(chain);
    if !IsLatest(chain, id.version) || task.None? || task.value.resolved then w
    else
      var written := RetryTargets(w.holdings, task.value.targets, outcomes);
      var done := task.value.(resolved := written.confirmed == |task.value.targets|);
      WithChain(w.(holdings := written.holdings), id.key, SetLatest(chain, chain[|chain| - 1].(task := Some(done))))
  }

  /** How many targets of a resolved task read back as recorded, from the front. */
  function MatchingPrefix(h: Holdings, targets: seq<Target>): nat
    ensures MatchingPrefix(h, targets) <= |targets|
  {
    if targets == [] || !Matches(h, targets[0]) then 0 else 1 + MatchingPrefix(h, targets[1..])
  }

  /** _finalize_compensation_if_resolved, then the source check that follows a success. */
  function Finalize(w: World, id: EffectId, facts: Facts): World {
    var chain := ChainAt(w, id.key);
    var task := PendingTask(chain);
    if !IsLatest(chain, id.version) || task.None? || !task.value.resolved then w
    else
      var n := MatchingPrefix(w.holdings, task.value.targets);
      var prints := ConfirmPrints(w.store.prints, task.value.targets[..n], w.holdings);
      var w1 := w.(store := Store(w.store.chains, prints));
      if n < |task.value.targets| then w1
      else
        var applied := SetLatest(chain, chain[|chain| - 1].(state := Applied));
        WithChain(w1, id.key, Refresh(id.key, applied, w.ledger, facts).0)
  }

  /** retry: the compensation task, then its finalization. */
  function Retry(w: World, id: EffectId, outcomes: seq<Outcome>, facts: Facts): World {
    Finalize(RunTask(w, id, outcomes), id, facts)
  }
}
