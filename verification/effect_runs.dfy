/** Whole runs: people edit the ledger and the holdings, and the workflow's operations interleave with them. */
module EffectRuns {
  import opened EffectModel
  import opened Optional
  import opened EffectScan
  import opened EffectPreview
  import opened EffectConfirm
  import opened EffectInvariants
  import opened EffectConfirmLaws

  datatype Step =
      /** People rewrite the ledger. */
    | EditLedger(ledger: seq<LedgerRow>)
      /** People rewrite, create or delete one cash holding. */
    | EditHolding(identity: Identity, now: Observation)
      /** A scan of the rows it read: the whole ledger, or the frozen rows of one account. */
    | ScanStep(rows: seq<LedgerRow>, scope: Option<string>, facts: Facts)
    | PreviewStep(id: EffectId, given: Option<Action>, historical: bool, facts: Facts)
    | ConfirmStep(id: EffectId, hash: Payload, given: Option<Action>, historical: bool, facts: Facts, ambient: Ambient)
      /** compensation.retry; the effect's own retry is this step followed by FinalizeStep. */
    | CompensateStep(id: EffectId, outcomes: seq<Outcome>)
      /** The tail of retry, and what audit does for one effect. */
    | FinalizeStep(id: EffectId, facts: Facts)

  function InScope(h: Holdings, scope: Option<string>): Holdings {
    map id | id in h && (scope.None? || id.account == scope.value) :: h[id]
  }

  ghost function Scan(w: World, rows: seq<LedgerRow>, scope: Option<string>, facts: Facts): World {
    w.(store := CommitScan(w.store, rows, InScope(w.holdings, scope), scope, facts).store)
  }

  ghost function Next(w: World, step: Step): World {
    match step
    case EditLedger(ledger) => w.(ledger := ledger)
    case EditHolding(id, now) => w.(holdings := Set(w.holdings, id, now))
    case ScanStep(rows, scope, facts) => Scan(w, rows, scope, facts)
    case PreviewStep(id, given, historical, facts) => Preview(w, id, given, historical, facts).0
    case ConfirmStep(id, hash, given, historical, facts, ambient) => Confirm(w, id, hash, given, historical, facts,
                                                                             ambient).0
    case CompensateStep(id, outcomes) => RunTask(w, id, outcomes)
    case FinalizeStep(id, facts) => Finalize(w, id, facts)
  }

  ghost function Run(w: World, steps: seq<Step>): World
    decreases |steps|
  {
    if steps == [] then w else Run(Next(w, steps[0]), steps[1..])
  }

  // ---------- the version-chain invariant ----------

  /** What compensation does to the chain: nothing is applied before the task is resolved. */
  lemma RunTaskKeeps(w: World, id: EffectId, outcomes: seq<Outcome>)
    requires WorldOk(w)
    ensures var w' := RunTask(w, id, outcomes);
            && WorldOk(w') && OnlyChain(w, w', id.key) && Quiet(id.key, ChainAt(w, id.key), ChainAt(w', id.key))
            && w'.store.prints == w.store.prints
  {
    var chain := ChainAt(w, id.key);
    var task := PendingTask(chain);
    GoodEmpty(id.key);
    QuietRefl(id.key, chain);
    if IsLatest(chain, id.version) && task.Some? && !task.value.resolved {
      var e := chain[|chain| - 1];
      assert RowOk(id.key, e);
      var written := RetryTargets(w.holdings, task.value.targets, outcomes);
      var e' := e.(task := Some(task.value.(resolved := written.confirmed == |task.value.targets|)));
      assert SetLatest(chain, e')[..|chain| - 1] == chain[..|chain| - 1];
      SetLatestQuiet(id.key, chain, e');
      WithChainOk(w, RunTask(w, id, outcomes), id.key, SetLatest(chain, e'));
    }
  }

  /** The chain after a finalized compensation. */
  lemma FinalizedChain(key: Key, chain: Chain, ledger: seq<LedgerRow>, facts: Facts)
    requires Good(key, chain) && chain != [] && chain[|chain| - 1].state == CompensationPending
    ensures var last := Refresh(key, SetLatest(chain, chain[|chain| - 1].(state := Applied)), ledger, facts).0;
            && last != [] && Good(key, last) && Evolves(key, chain, last)
            && LastApplied(last) == Some(chain[|chain| - 1].source) && LastApplied(chain) == PreviousApplied(chain)
  {
    var e := chain[|chain| - 1];
    assert RowOk(key, e);
    var applied := SetLatest(chain, e.(state := Applied));
    SetLatestKeeps(key, chain, e.(state := Applied));
    forall i | 0 <= i < |applied| ensures RowOk(key, applied[i]) {
      if i < |chain| - 1 { assert RowOk(key, chain[i]); }
    }
    RefreshQuiet(key, applied, ledger, facts);
    EvolvesThen(key, chain, applied, Refresh(key, applied, ledger, facts).0);
  }

  /** Finalization goes through: the task is resolved and every target still reads back. */
  ghost predicate Finalizes(w: World, id: EffectId) {
    var chain := ChainAt(w, id.key);
    var task := PendingTask(chain);
    IsLatest(chain, id.version) && task.Some? && task.value.resolved
    && MatchingPrefix(w.holdings, task.value.targets) == |task.value.targets|
  }

  lemma FinalizeKeeps(w: World, id: EffectId, facts: Facts)
    requires WorldOk(w)
    ensures var w' := Finalize(w, id, facts);
            && WorldOk(w') && OnlyChain(w, w', id.key) && w'.holdings == w.holdings
            && Good(id.key, ChainAt(w', id.key)) && Evolves(id.key, ChainAt(w, id.key), ChainAt(w', id.key))
            && (!Finalizes(w, id) ==> w'.store.chains == w.store.chains)
            && (Finalizes(w, id) ==>
                  var chain := ChainAt(w, id.key);
                  && LastApplied(ChainAt(w', id.key)) == Some(chain[|chain| - 1].source)
                  && LastApplied(chain) == PreviousApplied(chain))
  {
    hide Refresh, LastApplied, ConfirmPrints;
    var chain := ChainAt(w, id.key);
    GoodEmpty(id.key);
    QuietRefl(id.key, chain);
    if Finalizes(w, id) {
      FinalizedChain(id.key, chain, w.ledger, facts);
      var last := Refresh(id.key, SetLatest(chain, chain[|chain| - 1].(state := Applied)), w.ledger, facts).0;
      WithChainOk(w, Finalize(w, id, facts), id.key, last);
    }
  }

  /** Every step keeps the invariant and changes every chain legally. */
  lemma NextKeeps(w: World, step: Step, key: Key)
    requires WorldOk(w)
    ensures WorldOk(Next(w, step))
    ensures Evolves(key, ChainAt(w, key), ChainAt(Next(w, step), key))
  {
    hide CommitScan, Preview, Confirm, RunTask, Finalize;
    GoodEmpty(key);
    QuietRefl(key, ChainAt(w, key));
    match step {
      case EditLedger(_) =>
      case EditHolding(_, _) =>
      case ScanStep(rows, scope, facts) =>
        CommitScanOk(w.store, rows, InScope(w.holdings, scope), scope, facts);
        CommitScanKeeps(w.store, rows, InScope(w.holdings, scope), scope, facts, key);
      case PreviewStep(id, given, historical, facts) => PreviewQuiet(w, id, given, historical, facts);
      case ConfirmStep(id, hash, given, historical, facts, ambient) =>
        ConfirmKeeps(w, id, hash, given, historical, facts, ambient);
      case CompensateStep(id, outcomes) => RunTaskKeeps(w, id, outcomes);
      case FinalizeStep(id, facts) => FinalizeKeeps(w, id, facts);
    }
  }

  /**
   The version-chain invariant holds in every reachable state: versions are 1..n, neighbours differ
   in source, only the newest may be unresolved, and what is settled stays as it is.
   */
  lemma {:induction false} RunKeeps(w: World, steps: seq<Step>, key: Key)
    requires WorldOk(w)
    ensures WorldOk(Run(w, steps))
    ensures ChainOk(ChainAt(Run(w, steps), key))
    ensures Settled(key, ChainAt(w, key), ChainAt(Run(w, steps), key))
    decreases |steps|
  {
    GoodEmpty(key);
    if steps != [] {
      NextKeeps(w, steps[0], key);
      RunKeeps(Next(w, steps[0]), steps[1..], key);
      SettledThen(key, ChainAt(w, key), ChainAt(Next(w, steps[0]), key), ChainAt(Run(w, steps), key));
    }
  }

  /** What a whole run keeps of a chain: its rows, their sources, and the absorbing states. */
  ghost predicate Settled(key: Key, a: Chain, b: Chain) {
    && |a| <= |b|
    && (forall i :: 0 <= i < |a| ==>
          b[i].version == a[i].version && b[i].source == a[i].source && b[i].mode == a[i].mode)
    && (forall i :: 0 <= i < |a| && (a[i].state == Superseded || (key.FlowKey? && a[i].state.Terminal())) ==>
          b[i].state == a[i].state)
  }

  lemma SettledThen(key: Key, a: Chain, b: Chain, c: Chain)
    requires Evolves(key, a, b) && Settled(key, b, c)
    ensures Settled(key, a, c)
  {
    forall i | 0 <= i < |a|
      ensures c[i].version == a[i].version && c[i].source == a[i].source
              && c[i].mode == a[i].mode
    {
      assert b[i].version == a[i].version;
    }
    forall i | 0 <= i < |a| && (a[i].state == Superseded
                                || (key.FlowKey? && a[i].state.Terminal())) ensures c[i].state == a[i].state {
      assert b[i].state == a[i].state;
    }
  }

  /** An applied version is closed: no confirmation or compensation of it writes a holding. */
  lemma AppliedIsClosed(w: World, id: EffectId, hash: Payload, given: Option<Action>, historical: bool, facts: Facts,
                        ambient: Ambient)
    requires WorldOk(w) && 1 <= id.version <= |ChainAt(w, id.key)|
    requires ChainAt(w, id.key)[id.version - 1].state == Applied
    ensures !Wrote(Confirm(w, id, hash, given, historical, facts, ambient).1)
    ensures RunTask(w, id, ambient.outcomes) == w
  {
    hide Refresh, ConfirmLatest, Recomputed, BuildPreview, WroteExactly, RetryTargets;
    assert Good(id.key, ChainAt(w, id.key));
    if IsLatest(ChainAt(w, id.key), id.version) {
      ConfirmWritesThePreview(w, id, hash, given, historical, facts, ambient);
    }
  }

  /** An applied version is still applied after any run. */
  lemma StaysApplied(w: World, id: EffectId, steps: seq<Step>)
    requires WorldOk(w) && id.key.FlowKey?
    requires 1 <= id.version <= |ChainAt(w, id.key)| && ChainAt(w, id.key)[id.version - 1].state == Applied
    ensures var later := Run(w, steps);
            && WorldOk(later) && id.version <= |ChainAt(later, id.key)|
            && ChainAt(later, id.key)[id.version - 1].state == Applied
  {
    RunKeeps(w, steps, id.key);
  }

  /**
   A ledger version is applied at most once in any run: once some reachable state has it applied, by a
   confirmation or by a finalized compensation, no later confirmation or compensation of that version
   writes a holding, whatever happened in between.
   */
  lemma NeverAppliedTwice(w: World, id: EffectId, steps: seq<Step>, later: World, hash: Payload, given: Option<Action>,
                          historical: bool, facts: Facts, ambient: Ambient)
    requires WorldOk(w) && id.key.FlowKey?
    requires 1 <= id.version <= |ChainAt(w, id.key)| && ChainAt(w, id.key)[id.version - 1].state == Applied
    requires later == Run(w, steps)
    ensures !Wrote(Confirm(later, id, hash, given, historical, facts, ambient).1)
    ensures RunTask(later, id, ambient.outcomes) == later
  {
    hide ConfirmLatest, Refresh, Run, Evolves, RetryTargets;
    StaysApplied(w, id, steps);
    AppliedIsClosed(later, id, hash, given, historical, facts, ambient);
  }

  /** The step applied version `i` of the record, counted from 0. */
  ghost predicate NewlyApplied(w: World, step: Step, key: Key, i: nat) {
    var a, b := ChainAt(w, key), ChainAt(Next(w, step), key);
    i < |b| && b[i].state == Applied && !(i < |a| && a[i].state == Applied)
  }

  /** Versions of one record are applied in increasing order, across any two steps of a run. */
  lemma AppliedInOrder(w: World, key: Key, first: Step, steps: seq<Step>, second: Step, i: nat, j: nat)
    requires WorldOk(w) && key.FlowKey? && NewlyApplied(w, first, key, i)
    requires NewlyApplied(Run(Next(w, first), steps), second, key, j)
    ensures i < j
  {
    hide Next, Run, Good;
    NextKeeps(w, first, key);
    RunKeeps(Next(w, first), steps, key);
    NextKeeps(Run(Next(w, first), steps), second, key);
  }
}
