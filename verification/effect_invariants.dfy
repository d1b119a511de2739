/** What every step keeps: version chains, and which steps can touch an applied version. */
module EffectInvariants {
  import opened EffectModel
  import opened Optional
  import opened EffectOperations
  import opened EffectScan
  import opened EffectScanLaws
  import opened EffectPreview
  import opened EffectConfirm

  /**
   The rows of a chain belong to its key; outside Futu an external change is always settled as
   record_only; and a pending compensation has its task, with no identity targeted twice.
   */
  ghost predicate RowOk(key: Key, e: Effect) {
    && (match key
        case FlowKey(r) => !e.source.Drift? && e.source.RecordId() == r
        case DriftKey(id) =>
              e.source.Drift? && e.source.identity == id && (id.broker != FUTU_BROKER ==> e.state == RecordOnly))
    && (e.state == CompensationPending ==> e.task.Some? && DistinctTargets(e.task.value.targets))
  }

  /** The targets undo what the last applied version holds and add what the newest one holds. */
  ghost predicate Booked(chain: Chain, targets: seq<Target>)
    requires chain != []
  {
    forall at :: TargetDelta(targets, at) == Worth(Some(chain[|chain| - 1].source), at)
        - Worth(PreviousApplied(chain), at)
  }

  ghost predicate TaskBooked(key: Key, chain: Chain) {
    key.FlowKey? && PendingTask(chain).Some? ==> Booked(chain, PendingTask(chain).value.targets)
  }

  ghost predicate Good(key: Key, chain: Chain) {
    ChainOk(chain) && (forall i :: 0 <= i < |chain| ==> RowOk(key, chain[i])) && TaskBooked(key, chain)
  }

  ghost predicate StoreOk(s: Store) {
    forall k :: k in s.chains ==> s.chains[k] != [] && Good(k, s.chains[k])
  }

  /** `b` is a legal successor of `a` that applies nothing. */
  ghost predicate Quiet(key: Key, a: Chain, b: Chain) {
    Good(key, b) && Evolves(key, a, b) && AppliesNothing(a, b) && LastApplied(b) == LastApplied(a)
  }

  lemma QuietRefl(key: Key, a: Chain)
    requires Good(key, a)
    ensures Quiet(key, a, a)
  {
  }

  lemma QuietThen(key: Key, a: Chain, b: Chain, c: Chain)
    requires Quiet(key, a, b) && Quiet(key, b, c)
    ensures Quiet(key, a, c)
  {
    EvolvesThen(key, a, b, c);
  }

  /** The rows of a chain after an insertion still belong to its key. */
  lemma AddVersionRows(key: Key, chain: Chain, source: Source, state: State, mode: Mode)
    requires forall i :: 0 <= i < |chain| ==> RowOk(key, chain[i])
    requires chain == [] || chain[|chain| - 1].source != source
    requires state != CompensationPending
    requires match key
             case FlowKey(r) => !source.Drift? && source.RecordId() == r
             case DriftKey(id) =>
                   source.Drift? && source.identity == id && (id.broker != FUTU_BROKER ==> state == RecordOnly)
    ensures forall i :: 0 <= i < |AddVersion(chain, source, state, mode)| ==>
              RowOk(key, AddVersion(chain, source, state, mode)[i])
    ensures PendingTask(AddVersion(chain, source, state, mode)).None?
  {
    AddVersionShape(chain, source, state, mode);
    var next := AddVersion(chain, source, state, mode);
    forall i | 0 <= i < |next| ensures RowOk(key, next[i]) {
      if i < |chain| { assert RowOk(key, chain[i]); }
    }
  }

  lemma AddVersionQuiet(key: Key, chain: Chain, source: Source, state: State, mode: Mode)
    requires Good(key, chain) && state !in {Superseded, Applied, CompensationPending}
    requires match key
             case FlowKey(r) => !source.Drift? && source.RecordId() == r
             case DriftKey(id) =>
                   source.Drift? && source.identity == id && (id.broker != FUTU_BROKER ==> state == RecordOnly)
    ensures Quiet(key, chain, AddVersion(chain, source, state, mode))
  {
    AddVersionKeeps(key, chain, source, state, mode);
    AddVersionAppliesNothing(chain, source, state, mode);
    if chain == [] || chain[|chain| - 1].source != source {
      AddVersionRows(key, chain, source, state, mode);
    } else {
      assert AddVersion(chain, source, state, mode) == chain;
    }
  }

  lemma DeferQuiet(key: Key, chain: Chain, source: Source)
    requires Good(key, chain) && chain != []
    ensures Quiet(key, chain, Defer(chain, source))
  {
    DeferKeeps(key, chain, source);
    assert Defer(chain, source)[..|chain| - 1] == chain[..|chain| - 1];
    assert PendingTask(Defer(chain, source)) == PendingTask(chain);
  }

  /** Rewriting the newest row of a ledger chain without applying it. */
  lemma SetLatestQuiet(key: Key, chain: Chain, e: Effect)
    requires Good(key, chain) && chain != []
    requires e.version == chain[|chain| - 1].version && e.source == chain[|chain| - 1].source
             && e.mode == chain[|chain| - 1].mode
    requires e.state !in {Superseded, Applied} && chain[|chain| - 1].state != Applied
    requires key.FlowKey? && chain[|chain| - 1].state.Terminal() ==> e.state == chain[|chain| - 1].state
    requires RowOk(key, e) && TaskBooked(key, SetLatest(chain, e))
    ensures Quiet(key, chain, SetLatest(chain, e))
  {
    SetLatestKeeps(key, chain, e);
  }

  // ---------- the scanner ----------

  lemma ScanRowQuiet(chain: Chain, row: LedgerRow, scope: Option<string>, facts: Facts)
    requires Good(RowKey(row), chain)
    ensures Quiet(RowKey(row), chain, ScanRow(chain, row, scope, facts).0)
  {
    var key := RowKey(row);
    var latest := Latest(chain);
    var (state, mode) := Desired(Flow(row.flow), facts);
    QuietRefl(key, chain);
    if OutOfScope(chain, row, scope) {
    } else if latest.Some? && latest.value.source == Flow(row.flow) {
      if latest.value.state == Scheduled && state == Pending {
        SetLatestQuiet(key, chain, latest.value.(state := Pending));
      }
    } else if latest.Some? && latest.value.state == CompensationPending {
      DeferQuiet(key, chain, Flow(row.flow));
    } else {
      AddVersionQuiet(key, chain, Flow(row.flow), state, mode);
    }
  }

  lemma GoodEmpty(key: Key)
    ensures Good(key, [])
  {
  }

  lemma {:induction false} ScanRowsQuiet(chains: Chains, rows: seq<LedgerRow>, scope: Option<string>, facts: Facts,
                                         key: Key)
    requires Good(key, ChainOf(chains, key))
    ensures Quiet(key, ChainOf(chains, key), ChainOf(ScanRows(chains, rows, scope, facts).0, key))
  {
    QuietRefl(key, ChainOf(chains, key));
    if rows != [] {
      var front := rows[..|rows| - 1];
      var last := rows[|rows| - 1];
      ScanRowsQuiet(chains, front, scope, facts, key);
      var c := ScanRows(chains, front, scope, facts).0;
      if RowKey(last) == key {
        ScanRowQuiet(ChainOf(c, key), last, scope, facts);
        QuietThen(key, ChainOf(chains, key), ChainOf(c, key), ScanRow(ChainOf(c, key), last, scope, facts).0);
      }
    }
  }

  lemma ScanMissingQuiet(key: Key, chain: Chain, scope: Option<string>)
    requires key.FlowKey? && Good(key, chain) && chain != []
    ensures Quiet(key, chain, ScanMissing(chain, scope))
  {
    var e := chain[|chain| - 1];
    QuietRefl(key, chain);
    assert RowOk(key, e);
    if e.source.Flow? && e.state == CompensationPending {
      DeferQuiet(key, chain, Deletion(e.source.flow));
    } else if e.source.Flow? {
      AddVersionQuiet(key, chain, Deletion(e.source.flow), Pending,
                      if e.state == Applied && e.mode == Apply then Apply else Keep);
    }
  }

  lemma ReconcileGood(id: Identity, confirmed: Option<Observation>, chain: Chain, obs: Observation,
                      owned: bool, net: Option<int>, today: int)
    requires Good(DriftKey(id), chain)
    ensures Good(DriftKey(id), Reconcile(id, confirmed, chain, obs, owned, net, today).chain)
    ensures Evolves(DriftKey(id), chain, Reconcile(id, confirmed, chain, obs, owned, net, today).chain)
  {
    var key := DriftKey(id);
    var latest := Latest(chain);
    var source := DriftSource(id, chain, obs, confirmed, today);
    QuietRefl(key, chain);
    assert latest.Some? ==> RowOk(key, latest.value);
    if owned || Explained(confirmed, obs, net) {
    } else if confirmed == Some(obs) {
      if latest.Some? && latest.value.state.Unresolved() && latest.value.state != CompensationPending {
        SetLatestKeeps(key, chain, latest.value.(state := Applied));
      }
    } else if id.broker != FUTU_BROKER {
      if latest.Some? && latest.value.source == source {
        SetLatestKeeps(key, chain, latest.value.(state := RecordOnly, targets := [], task := None));
      } else {
        AddVersionQuiet(key, chain, source, RecordOnly, Keep);
      }
    } else if latest.Some? && latest.value.source == source {
    } else if latest.Some? && latest.value.state == CompensationPending {
      DeferQuiet(key, chain, source);
    } else {
      AddVersionQuiet(key, chain, source, Pending, Apply);
    }
  }

  /** A scan is quiet on every ledger record and legal on every external-change record. */
  lemma CommitScanKeeps(s: Store, rows: seq<LedgerRow>, cash: Holdings, scope: Option<string>, facts: Facts, key: Key)
    requires StoreOk(s)
    ensures var t := CommitScan(s, rows, cash, scope, facts).store;
            && Good(key, ChainOf(t.chains, key)) && Evolves(key, ChainOf(s.chains, key), ChainOf(t.chains, key))
            && (key.FlowKey? ==> Quiet(key, ChainOf(s.chains, key), ChainOf(t.chains, key)))
  {
    GoodEmpty(key);
    var swept := AfterLedger(s, rows, scope, facts);
    AfterLedgerQuiet(s, rows, scope, facts, key);
    var ids := ScannedIdentities(s.prints, cash, scope);
    ReconcileAllChain(swept, ids, cash, facts.today, key);
    if key.DriftKey? && key.identity in ids {
      var id := key.identity;
      assert ChainOf(swept.chains, key) == ChainOf(s.chains, key);
      ReconcileGood(id, ConfirmedOf(swept.prints, id), ChainOf(swept.chains, key), Obs(cash, id),
                    id in OwnedIdentities(swept.chains), NetAt(swept.chains, id), facts.today);
    }
  }

  lemma AfterLedgerQuiet(s: Store, rows: seq<LedgerRow>, scope: Option<string>, facts: Facts, key: Key)
    requires StoreOk(s)
    ensures Quiet(key, ChainOf(s.chains, key), ChainOf(AfterLedger(s, rows, scope, facts).chains, key))
    ensures key.DriftKey? ==> ChainOf(AfterLedger(s, rows, scope, facts).chains, key) == ChainOf(s.chains, key)
  {
    GoodEmpty(key);
    var listed := ScanRows(s.chains, rows, scope, facts).0;
    ScanRowsQuiet(s.chains, rows, scope, facts, key);
    if key.DriftKey? {
      ScanRowsElsewhere(s.chains, rows, scope, facts, key);
    } else if key in listed && IsMissing(key, SeenRecords(rows)) && listed[key] != [] {
      ScanMissingQuiet(key, listed[key], scope);
      QuietThen(key, ChainOf(s.chains, key), listed[key], ScanMissing(listed[key], scope));
    }
  }

  lemma AfterLedgerOk(s: Store, rows: seq<LedgerRow>, scope: Option<string>, facts: Facts)
    requires StoreOk(s)
    ensures StoreOk(AfterLedger(s, rows, scope, facts))
  {
    AfterLedgerNonEmpty(s, rows, scope, facts);
    var t := AfterLedger(s, rows, scope, facts);
    forall k | k in t.chains ensures Good(k, t.chains[k]) {
      AfterLedgerQuiet(s, rows, scope, facts, k);
      assert ChainOf(t.chains, k) == t.chains[k];
    }
  }

  lemma CommitScanOk(s: Store, rows: seq<LedgerRow>, cash: Holdings, scope: Option<string>, facts: Facts)
    requires StoreOk(s)
    ensures StoreOk(CommitScan(s, rows, cash, scope, facts).store)
  {
    var t := CommitScan(s, rows, cash, scope, facts).store;
    AfterLedgerNonEmpty(s, rows, scope, facts);
    ReconcileAllNonEmpty(AfterLedger(s, rows, scope, facts), ScannedIdentities(s.prints, cash, scope), cash,
                         facts.today);
    forall k | k in t.chains ensures t.chains[k] != [] && Good(k, t.chains[k]) {
      CommitScanKeeps(s, rows, cash, scope, facts, k);
    }
  }

  // ---------- source refresh, preview, confirm, compensation ----------

  lemma RefreshQuiet(key: Key, chain: Chain, ledger: seq<LedgerRow>, facts: Facts)
    requires Good(key, chain) && chain != []
    ensures Quiet(key, chain, Refresh(key, chain, ledger, facts).0)
    ensures Refresh(key, chain, ledger, facts).0 != []
    ensures !Refresh(key, chain, ledger, facts).1 ==>
              var next := Refresh(key, chain, ledger, facts).0;
              && |next| == |chain| && PreviousApplied(next) == PreviousApplied(chain)
              && next[|chain| - 1].state == chain[|chain| - 1].state
              && next[|chain| - 1].source == chain[|chain| - 1].source
              && next[|chain| - 1].task == chain[|chain| - 1].task
              && next[|chain| - 1].targets == chain[|chain| - 1].targets
  {
    var e := chain[|chain| - 1];
    QuietRefl(key, chain);
    if key.FlowKey? && !e.source.Drift? {
      var (source, state, mode) := CurrentSource(key, e, ledger, facts);
      assert RowOk(key, e);
      FindRowHas(ledger, key.recordId);
      if source == e.source {
      } else if e.state == CompensationPending {
        DeferQuiet(key, chain, source);
        assert Defer(chain, source)[..|chain| - 1] == chain[..|chain| - 1];
      } else {
        AddVersionQuiet(key, chain, source, state, mode);
      }
    }
  }

  lemma {:induction false} FindRowHas(ledger: seq<LedgerRow>, recordId: string)
    ensures FindRow(ledger, recordId).Some? ==> FindRow(ledger, recordId).value.flow.recordId == recordId
    ensures FindRow(ledger, recordId).Some? ==> FindRow(ledger, recordId).value in ledger
  {
    if ledger != [] && ledger[0].flow.recordId != recordId {
      FindRowHas(ledger[1..], recordId);
    }
  }

  /** Only the chain of `key` differs. */
  ghost predicate OnlyChain(w: World, w': World, key: Key) {
    forall k :: k != key ==> ChainAt(w', k) == ChainAt(w, k) && (k in w'.store.chains <==> k in w.store.chains)
  }

  ghost predicate WorldOk(w: World) { StoreOk(w.store) }

  /** Storing one good chain keeps a good store. */
  lemma WithChainOk(w: World, w': World, key: Key, chain: Chain)
    requires WorldOk(w) && chain != [] && Good(key, chain)
    requires w'.store.chains == Put(w.store.chains, key, chain)
    ensures WorldOk(w') && OnlyChain(w, w', key) && ChainAt(w', key) == chain
  {
  }

  lemma PreviewLatestQuiet(w: World, id: EffectId, given: Option<Action>, historical: bool, facts: Facts)
    requires WorldOk(w) && ChainAt(w, id.key) != []
    ensures PreviewLatest(w, id, given, historical, facts).0 != []
    ensures Quiet(id.key, ChainAt(w, id.key), PreviewLatest(w, id, given, historical, facts).0)
  {
    hide Refresh, BuildPreview, Evolves, ChainOk, LastApplied, TaskBooked;
    var chain := ChainAt(w, id.key);
    RefreshQuiet(id.key, chain, w.ledger, facts);
    var (current, moved) := Refresh(id.key, chain, w.ledger, facts);
    var e := current[|current| - 1];
    var p := Recomputed(w, id, current, given, historical, facts);
    if p.Some? {
      PreviewableState(w.store, id, e, PreviousApplied(current), given, historical, w.holdings, facts.quotes);
    }
    if !moved && e.state in {Pending, Previewed, Stale, Blocked} {
      PreviewedQuiet(id.key, current, Blocked, e.targets);
      if p.Some? { PreviewedQuiet(id.key, current, Previewed, p.value.targets); }
      QuietThen(id.key, chain, current, PreviewLatest(w, id, given, historical, facts).0);
    }
  }

  /** A preview changes one chain, quietly, and nothing else: no baseline and no holding. */
  lemma PreviewQuiet(w: World, id: EffectId, given: Option<Action>, historical: bool, facts: Facts)
    requires WorldOk(w)
    ensures var w' := Preview(w, id, given, historical, facts).0;
            && WorldOk(w') && OnlyChain(w, w', id.key) && Quiet(id.key, ChainAt(w, id.key), ChainAt(w', id.key))
            && w'.store.prints == w.store.prints && w'.ledger == w.ledger && w'.holdings == w.holdings
  {
    GoodEmpty(id.key);
    QuietRefl(id.key, ChainAt(w, id.key));
    if IsLatest(ChainAt(w, id.key), id.version) {
      PreviewLatestQuiet(w, id, given, historical, facts);
      WithChainOk(w, Preview(w, id, given, historical, facts).0, id.key,
                  PreviewLatest(w, id, given, historical, facts).0);
    }
  }

  /** A version that can be previewed may become blocked, previewed or stale. */
  lemma PreviewedQuiet(key: Key, chain: Chain, state: State, targets: seq<Target>)
    requires Good(key, chain) && chain != []
    requires chain[|chain| - 1].state in {Pending, Previewed, Stale, Blocked}
    requires state in {Previewed, Stale, Blocked}
    ensures Quiet(key, chain, SetLatest(chain, chain[|chain| - 1].(state := state, targets := targets)))
  {
    assert RowOk(key, chain[|chain| - 1]);
    SetLatestQuiet(key, chain, chain[|chain| - 1].(state := state, targets := targets));
  }

  // ---------- writing ----------

  /** Targets 0..n read back as recorded, the rest are untouched except possibly the one that failed. */
  ghost predicate PrefixWritten(h: Holdings, h': Holdings, targets: seq<Target>, n: nat) {
    && n <= |targets|
    && (forall i :: 0 <= i < n ==> Matches(h', targets[i]))
    && (forall i :: n < i < |targets| ==> Obs(h', targets[i].identity) == Obs(h, targets[i].identity))
    && (forall id :: id !in TargetIdentities(targets) ==> Obs(h', id) == Obs(h, id))
  }

  lemma {:induction false} WriteTargetsPrefix(h: Holdings, targets: seq<Target>, outcomes: seq<Outcome>)
    requires DistinctTargets(targets)
    ensures var r := WriteTargets(h, targets, outcomes); PrefixWritten(h, r.holdings, targets, r.confirmed)
    decreases |targets|
  {
    if targets != [] && outcomes != [] && outcomes[0].Done? {
      var h1 := WriteOne(h, targets[0], outcomes[0].newRecordId);
      var rest := targets[1..];
      WriteTargetsPrefix(h1, rest, outcomes[1..]);
      var r := WriteTargets(h1, rest, outcomes[1..]);
      PrefixStep(h, h1, r.holdings, targets, r.confirmed);
    }
  }

  lemma PrefixStep(h: Holdings, h1: Holdings, h': Holdings, targets: seq<Target>, n: nat)
    requires targets != [] && DistinctTargets(targets)
    requires Matches(h1, targets[0]) && forall id :: id != targets[0].identity ==> Obs(h1, id) == Obs(h, id)
    requires PrefixWritten(h1, h', targets[1..], n)
    ensures PrefixWritten(h, h', targets, n + 1)
  {
    var rest := targets[1..];
    assert targets[0].identity !in TargetIdentities(rest);
    assert Obs(h', targets[0].identity) == Obs(h1, targets[0].identity);
    forall i | 0 <= i < n + 1 ensures Matches(h', targets[i]) {
      if i > 0 { assert rest[i - 1] == targets[i]; }
    }
    forall i | n + 1 < i < |targets| ensures Obs(h', targets[i].identity) == Obs(h, targets[i].identity) {
      assert rest[i - 1] == targets[i];
    }
    forall id | id !in TargetIdentities(targets) ensures Obs(h', id) == Obs(h, id) {
      assert targets[0] in targets;
      assert forall t :: t in rest ==> t in targets;
    }
  }

  lemma {:induction false} RetryTargetsPrefix(h: Holdings, targets: seq<Target>, outcomes: seq<Outcome>)
    requires DistinctTargets(targets)
    ensures var r := RetryTargets(h, targets, outcomes); PrefixWritten(h, r.holdings, targets, r.confirmed)
    decreases |targets|
  {
    if targets != [] {
      var t := targets[0];
      var rest := targets[1..];
      if Matches(h, t) {
        RetryTargetsPrefix(h, rest, outcomes);
        PrefixStep(h, h, RetryTargets(h, rest, outcomes).holdings, targets, RetryTargets(h, rest, outcomes).confirmed);
      } else if Obs(h, t.identity) == t.before && outcomes != [] && outcomes[0].Done? {
        var h1 := WriteOne(h, t, outcomes[0].newRecordId);
        RetryTargetsPrefix(h1, rest, outcomes[1..]);
        PrefixStep(h, h1, RetryTargets(h1, rest, outcomes[1..]).holdings, targets,
                   RetryTargets(h1, rest, outcomes[1..]).confirmed);
      }
    }
  }
}
