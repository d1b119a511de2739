/** Conservation through compensation: what a holding is worth while a write to it is in flight. */
module EffectSettled {
  import opened EffectModel
  import opened Optional
  import opened EffectScan
  import opened EffectScanLaws
  import opened EffectPreview
  import opened EffectConfirm
  import opened EffectInvariants
  import opened EffectConfirmLaws
  import opened EffectRuns
  import opened EffectConservation
  import opened EffectOwners

  /** The targets a pending compensation of a record has recorded. */
  function TaskTargets(chain: Chain): seq<Target> {
    if PendingTask(chain).Some? then PendingTask(chain).value.targets else []
  }

  /** A write of a ledger record to `id` is in flight. */
  ghost predicate InFlight(w: World, key: Key, id: Identity) {
    key.FlowKey? && id in TargetIdentities(TaskTargets(ChainAt(w, key)))
  }

  ghost predicate Flying(w: World, id: Identity) { exists key :: InFlight(w, key, id) }

  /** The recorded amount of the target at `id`. */
  function FinalAmount(targets: seq<Target>, id: Identity): int {
    if targets == [] then 0 else if targets[0].identity == id then targets[0].amount else FinalAmount(targets[1..], id)
  }

  /** What a write in flight will have left, before the event it books. */
  function FlightValue(targets: seq<Target>, id: Identity): int { FinalAmount(targets, id) - TargetDelta(targets, id) }

  lemma {:induction false} FinalAmountAt(targets: seq<Target>, id: Identity, t: Target)
    requires DistinctTargets(targets) && t in targets && t.identity == id
    ensures FinalAmount(targets, id) == t.amount
  {
    if targets[0].identity != id {
      assert t in targets[1..];
      FinalAmountAt(targets[1..], id, t);
    }
  }

  /** No task changed, so the same writes are in flight. */
  lemma SameFlights(w: World, w': World, id: Identity)
    requires forall k: Key :: k.FlowKey? ==> TaskTargets(ChainAt(w', k)) == TaskTargets(ChainAt(w, k))
    ensures forall k :: InFlight(w', k, id) <==> InFlight(w, k, id)
    ensures Flying(w', id) <==> Flying(w, id)
  {
    hide TaskTargets;
    forall k ensures InFlight(w', k, id) <==> InFlight(w, k, id) {}
    if Flying(w', id) { var k :| InFlight(w', k, id); }
    if Flying(w, id) { var k :| InFlight(w, k, id); assert InFlight(w', k, id); }
  }

  // ---------- which steps touch a task ----------

  lemma ScanRowTask(chain: Chain, row: LedgerRow, scope: Option<string>, facts: Facts)
    ensures TaskTargets(ScanRow(chain, row, scope, facts).0) == TaskTargets(chain)
  {
  }

  lemma ScanMissingTask(chain: Chain, scope: Option<string>)
    requires chain != []
    ensures TaskTargets(ScanMissing(chain, scope)) == TaskTargets(chain)
  {
  }

  lemma {:induction false} ScanRowsTask(chains: Chains, rows: seq<LedgerRow>, scope: Option<string>, facts: Facts,
                                        key: Key)
    ensures TaskTargets(ChainOf(ScanRows(chains, rows, scope, facts).0, key)) == TaskTargets(ChainOf(chains, key))
  {
    hide ScanRow, TaskTargets;
    if rows != [] {
      var front, last := rows[..|rows| - 1], rows[|rows| - 1];
      ScanRowsTask(chains, front, scope, facts, key);
      ScanRowTask(ChainOf(ScanRows(chains, front, scope, facts).0, RowKey(last)), last, scope, facts);
    }
  }

  lemma ScanTask(w: World, rows: seq<LedgerRow>, scope: Option<string>, facts: Facts, key: Key)
    requires key.FlowKey?
    ensures TaskTargets(ChainAt(Scan(w, rows, scope, facts), key)) == TaskTargets(ChainAt(w, key))
  {
    hide ScanRows, ScanMissing, TaskTargets, ReconcileAll;
    var cash := InScope(w.holdings, scope);
    var listed, swept := ScanRows(w.store.chains, rows, scope, facts).0, AfterLedger(w.store, rows, scope, facts);
    ScanRowsTask(w.store.chains, rows, scope, facts, key);
    if key in listed && listed[key] != [] { ScanMissingTask(listed[key], scope); }
    ReconcileAllKeepsFlows(swept, ScannedIdentities(w.store.prints, cash, scope), cash, facts.today);
  }

  lemma RefreshTask(key: Key, chain: Chain, ledger: seq<LedgerRow>, facts: Facts)
    requires chain != []
    ensures Refresh(key, chain, ledger, facts).0 != []
            && TaskTargets(Refresh(key, chain, ledger, facts).0) == TaskTargets(chain)
  {
  }

  lemma PreviewTask(w: World, id: EffectId, given: Option<Action>, historical: bool, facts: Facts)
    requires ChainAt(w, id.key) != []
    ensures TaskTargets(PreviewLatest(w, id, given, historical, facts).0) == TaskTargets(ChainAt(w, id.key))
  {
    hide Refresh, Recomputed;
    var chain := ChainAt(w, id.key);
    RefreshTask(id.key, chain, w.ledger, facts);
    var (current, moved) := Refresh(id.key, chain, w.ledger, facts);
    if !moved && current != [] && Recomputed(w, id, current, given, historical, facts).Some? {
      RecomputedState(w, id, current, given, historical, facts);
    }
  }

  lemma RecomputedState(w: World, id: EffectId, chain: Chain, given: Option<Action>, historical: bool, facts: Facts)
    requires chain != [] && Recomputed(w, id, chain, given, historical, facts).Some?
    ensures chain[|chain| - 1].state in {Pending, Blocked, Previewed, Stale}
  {
  }

  lemma ConfirmTask(w: World, id: EffectId, hash: Payload, given: Option<Action>, historical: bool, facts: Facts,
                    ambient: Ambient)
    requires ChainAt(w, id.key) != []
    ensures var c := ConfirmLatest(w, id, hash, given, historical, facts, ambient);
            && c.chain != []
            && (!c.verdict.Compensating? ==> TaskTargets(c.chain) == TaskTargets(ChainAt(w, id.key)))
            && (c.verdict.Compensating? ==>
                TaskTargets(c.chain) == hash.targets && TaskTargets(ChainAt(w, id.key)) == [])
  {
    hide Refresh, Recomputed, ConfirmCurrent, EffectAccounts;
    var chain := ChainAt(w, id.key);
    RefreshTask(id.key, chain, w.ledger, facts);
    var (current, moved) := Refresh(id.key, chain, w.ledger, facts);
    if !moved && current != [] {
      var p := Recomputed(w, id, current, given, historical, facts);
      if p.Some? {
        RecomputedState(w, id, current, given, historical, facts);
        ConfirmCurrentTask(Commit(current, w.store.prints, w.ledger, w.holdings, Refused), id.key, p.value,
                           EffectAccounts(id.key, chain, w.ledger), facts, ambient);
      }
    }
  }

  lemma ConfirmCurrentTask(stay: Commit, key: Key, p: Payload, locked: set<string>, facts: Facts, ambient: Ambient)
    requires stay.chain != [] && stay.chain[|stay.chain| - 1].state in {Pending, Blocked, Previewed, Stale}
             && stay.verdict.Refused?
    ensures var c := ConfirmCurrent(stay, key, p, locked, facts, ambient);
            c.chain != [] && TaskTargets(c.chain) == if c.verdict.Compensating? then p.targets else []
  {
    hide Refresh, WriteTargets, ConfirmPrints;
    var applied := SetLatest(stay.chain, stay.chain[|stay.chain| - 1].(state := Applied));
    RefreshTask(key, applied, ambient.laterLedger, facts);
  }

  lemma RunTaskTask(w: World, id: EffectId, outcomes: seq<Outcome>)
    ensures TaskTargets(ChainAt(RunTask(w, id, outcomes), id.key)) == TaskTargets(ChainAt(w, id.key))
  {
    hide RetryTargets;
  }

  lemma FinalizeTask(w: World, id: EffectId, facts: Facts)
    requires Finalizes(w, id)
    ensures TaskTargets(ChainAt(Finalize(w, id, facts), id.key)) == []
  {
    hide Refresh, ConfirmPrints, MatchingPrefix;
    var chain := ChainAt(w, id.key);
    RefreshTask(id.key, SetLatest(chain, chain[|chain| - 1].(state := Applied)), w.ledger, facts);
  }

  // ---------- the law ----------

  /** The finalization of a write in flight at `id` that goes through. */
  ghost predicate Lands(w: World, step: Step, id: Identity) {
    step.FinalizeStep? && InFlight(w, step.id.key, id) && Finalizes(w, step.id)
  }

  /** A confirmation of a ledger version that writes. */
  ghost predicate Writes(w: World, step: Step) {
    step.ConfirmStep? && step.id.key.FlowKey?
    && Wrote(Confirm(w, step.id, step.hash, step.given, step.historical, step.facts, step.ambient).1)
  }

  ghost predicate AppliesNow(w: World, step: Step) {
    step.ConfirmStep? && step.id.key.FlowKey?
    && Applies(Confirm(w, step.id, step.hash, step.given, step.historical, step.facts, step.ambient).1)
  }

  /** What a landing write books at `id`. */
  ghost function LandingDelta(w: World, step: Step, id: Identity): int
    requires step.FinalizeStep?
  {
    TargetDelta(TaskTargets(ChainAt(w, step.id.key)), id)
  }

  /**
   What is held at `id` after a step, `held` having been held before it. It is the holding while nothing is
   in flight. A write that takes off is counted at the value it will have without its event, and each write
   that lands adds its event.
   */
  ghost function NextHeld(w: World, held: int, step: Step, id: Identity): int {
    if !Flying(Next(w, step), id) then Quantity(Next(w, step), id)
    else if !Flying(w, id) && step.ConfirmStep? then FlightValue(step.hash.targets, id)
    else if Lands(w, step, id) then held + LandingDelta(w, step, id)
    else held
  }

  ghost predicate Holds(w: World, held: int, id: Identity) { !Flying(w, id) ==> held == Quantity(w, id) }

  /**
   What reaches `id` from outside while nothing is in flight: manual edits, also between the two reads of a
   confirmation, less events declared to be in the holding already.
   */
  ghost function Arrives(w: World, step: Step, id: Identity): int {
    if Flying(w, id) then 0
    else match step
      case EditHolding(i, now) => if i == id then Amount(now) - Quantity(w, id) else 0
      case ConfirmStep(_, hash, _, _, _, _) =>
        BetweenReads(w, step, id)
        - if hash.action == Some(AlreadyReflected) && Writes(w, step) then TargetDelta(hash.targets, id) else 0
      case _ => 0
  }

  /**
   What overlapping writes lose: an event that is confirmed while another write to `id` is in flight, and, when
   the last one lands, the difference between what is held and the value it was begun from.
   */
  ghost function Lost(w: World, held: int, step: Step, id: Identity): int {
    if AppliesNow(w, step) && Flying(w, id) then TargetDelta(step.hash.targets, id)
    else if Lands(w, step, id) && !Flying(Next(w, step), id)
    then held - FlightValue(TaskTargets(ChainAt(w, step.id.key)), id)
    else 0
  }

  /** One step keeps the account of what is held. */
  ghost predicate Settles(w: World, held: int, step: Step, id: Identity) {
    NextHeld(w, held, step, id) - held == Book(Next(w, step), id) - Book(w, id) + Arrives(w, step, id)
        - Lost(w, held, step, id)
  }

  /** Steps that leave every task, every last applied version and, where nothing is in flight, all but arrivals. */
  lemma QuietStep(w: World, held: int, step: Step, id: Identity)
    requires Holds(w, held, id)
    requires forall k: Key :: k.FlowKey? ==> TaskTargets(ChainAt(Next(w, step), k)) == TaskTargets(ChainAt(w, k))
    requires forall k: Key :: k.FlowKey? ==> LastApplied(ChainAt(Next(w, step), k)) == LastApplied(ChainAt(w, k))
    requires !Flying(w, id) ==> Quantity(Next(w, step), id) == Quantity(w, id) + Arrives(w, step, id)
    requires !AppliesNow(w, step) && !Lands(w, step, id)
    ensures Settles(w, held, step, id)
  {
    hide Next, TaskTargets, Flying, Book, LastApplied, AppliesNow, Lands, Arrives, Quantity;
    SameFlights(w, Next(w, step), id);
    BookSame(w, Next(w, step), id);
    if Flying(w, id) { NothingArrives(w, step, id); }
  }

  lemma NothingArrives(w: World, step: Step, id: Identity)
    requires Flying(w, id)
    ensures Arrives(w, step, id) == 0
  {
  }

  lemma EditSettles(w: World, held: int, i: Identity, now: Observation, id: Identity)
    requires Holds(w, held, id)
    ensures Settles(w, held, EditHolding(i, now), id)
  {
    var w' := w.(holdings := Set(w.holdings, i, now));
    BookSame(w, w', id);
    SameFlights(w, w', id);
  }

  lemma ScanSettles(w: World, held: int, rows: seq<LedgerRow>, scope: Option<string>, facts: Facts, id: Identity)
    requires WorldOk(w) && Holds(w, held, id)
    ensures Settles(w, held, ScanStep(rows, scope, facts), id)
  {
    hide CommitScan, TaskTargets, Flying;
    forall k: Key | k.FlowKey?
      ensures TaskTargets(ChainAt(Scan(w, rows, scope, facts), k)) == TaskTargets(ChainAt(w, k))
      ensures LastApplied(ChainAt(Scan(w, rows, scope, facts), k)) == LastApplied(ChainAt(w, k))
    {
      ScanTask(w, rows, scope, facts, k);
      CommitScanKeeps(w.store, rows, InScope(w.holdings, scope), scope, facts, k);
    }
    QuietStep(w, held, ScanStep(rows, scope, facts), id);
  }

  /** One chain changed, with its task and its last applied version as they were. */
  lemma OneChainQuiet(w: World, w': World, key: Key)
    requires OnlyChain(w, w', key)
    requires key.FlowKey? ==> TaskTargets(ChainAt(w', key)) == TaskTargets(ChainAt(w, key))
    requires key.FlowKey? ==> LastApplied(ChainAt(w', key)) == LastApplied(ChainAt(w, key))
    ensures forall k: Key :: k.FlowKey? ==> TaskTargets(ChainAt(w', k)) == TaskTargets(ChainAt(w, k))
    ensures forall k: Key :: k.FlowKey? ==> LastApplied(ChainAt(w', k)) == LastApplied(ChainAt(w, k))
  {
    hide TaskTargets, LastApplied;
    forall k: Key | k.FlowKey?
      ensures TaskTargets(ChainAt(w', k)) == TaskTargets(ChainAt(w, k))
              && LastApplied(ChainAt(w', k)) == LastApplied(ChainAt(w, k))
    {
      if k != key { assert ChainAt(w', k) == ChainAt(w, k); }
    }
  }

  lemma PreviewSettles(w: World, held: int, e: EffectId, given: Option<Action>, historical: bool, facts: Facts,
                       id: Identity)
    requires WorldOk(w) && Holds(w, held, id)
    ensures Settles(w, held, PreviewStep(e, given, historical, facts), id)
  {
    hide TaskTargets, PreviewLatest, Flying, LastApplied, Evolves, AppliesNothing, Good, WorldOk, OnlyChain;
    PreviewQuiet(w, e, given, historical, facts);
    if IsLatest(ChainAt(w, e.key), e.version) { PreviewTask(w, e, given, historical, facts); }
    OneChainQuiet(w, Preview(w, e, given, historical, facts).0, e.key);
    QuietStep(w, held, PreviewStep(e, given, historical, facts), id);
  }

  /** Outside Futu, a compensation of an external change has no target. */
  lemma DriftTaskElsewhere(w: World, e: EffectId, id: Identity)
    requires WorldOk(w) && WorldPlaced(w) && e.key.DriftKey? && id.broker != FUTU_BROKER
    ensures NotInTask(w, e, id)
  {
    var chain := ChainAt(w, e.key);
    GoodEmpty(e.key);
    assert Placed(e.key, chain);
    if chain != [] { assert RowOk(e.key, chain[|chain| - 1]); }
  }

  lemma CompensationSettles(w: World, held: int, e: EffectId, outcomes: seq<Outcome>, id: Identity)
    requires WorldOk(w) && WorldPlaced(w) && id.broker != FUTU_BROKER && Holds(w, held, id)
    ensures Settles(w, held, CompensateStep(e, outcomes), id)
  {
    hide RunTask, Settles, TaskTargets, LastApplied, Flying, NotInTask, WorldPlaced, Quantity, Evolves,
         AppliesNothing, Good, WorldOk, OnlyChain, Holds;
    RunTaskKeeps(w, e, outcomes);
    RunTaskTask(w, e, outcomes);
    OneChainQuiet(w, RunTask(w, e, outcomes), e.key);
    if e.key.DriftKey? { DriftTaskElsewhere(w, e, id); }
    if NotInTask(w, e, id) {
      RunTaskElsewhere(w, e, outcomes, id);
    } else {
      TaskFlies(w, e, id);
    }
    QuietStep(w, held, CompensateStep(e, outcomes), id);
  }

  lemma TaskFlies(w: World, e: EffectId, id: Identity)
    requires e.key.FlowKey? && !NotInTask(w, e, id)
    ensures Flying(w, id)
  {
    assert InFlight(w, e.key, id);
  }

  lemma RunTaskElsewhere(w: World, e: EffectId, outcomes: seq<Outcome>, id: Identity)
    requires WorldOk(w) && NotInTask(w, e, id)
    ensures Quantity(RunTask(w, e, outcomes), id) == Quantity(w, id)
  {
    var chain := ChainAt(w, e.key);
    var task := PendingTask(chain);
    if task.Some? {
      assert Good(e.key, chain) && RowOk(e.key, chain[|chain| - 1]);
      RetryTargetsPrefix(w.holdings, task.value.targets, outcomes);
    }
  }

  // ---------- landings ----------

  lemma UnfinishedQuiet(w: World, e: EffectId, facts: Facts)
    requires WorldOk(w) && !(Finalizes(w, e) && e.key.FlowKey?)
    ensures Finalize(w, e, facts).holdings == w.holdings
    ensures forall k: Key :: k.FlowKey? ==> ChainAt(Finalize(w, e, facts), k) == ChainAt(w, k)
  {
    hide Finalize, Finalizes, LastApplied, Evolves, Good, WorldOk;
    FinalizeKeeps(w, e, facts);
  }

  lemma FinalizeSettles(w: World, held: int, e: EffectId, facts: Facts, id: Identity)
    requires WorldOk(w) && id.broker != FUTU_BROKER && Holds(w, held, id)
    ensures Settles(w, held, FinalizeStep(e, facts), id)
  {
    hide Finalize, TaskTargets, Settles, Finalizes, LastApplied, Evolves, Good, WorldOk, Holds, Flying;
    if Finalizes(w, e) && e.key.FlowKey? {
      FinalizedSettles(w, held, e, facts, id);
    } else {
      UnfinishedQuiet(w, e, facts);
      QuietStep(w, held, FinalizeStep(e, facts), id);
    }
  }

  /** A finalized version books its delta, its write is no longer in flight, and its target is in place. */
  lemma Landed(w: World, e: EffectId, facts: Facts, id: Identity)
    requires WorldOk(w) && Finalizes(w, e) && e.key.FlowKey?
    ensures var w' := Finalize(w, e, facts);
            var targets := TaskTargets(ChainAt(w, e.key));
            && w'.holdings == w.holdings && Book(w', id) == Book(w, id) + TargetDelta(targets, id)
            && (forall k :: InFlight(w', k, id) <==> InFlight(w, k, id) && k != e.key)
            && (InFlight(w, e.key, id) ==> Quantity(w, id) == FinalAmount(targets, id))
            && (!InFlight(w, e.key, id) ==> TargetDelta(targets, id) == 0)
  {
    hide Finalize, Book, LastApplied, Evolves;
    var w' := Finalize(w, e, facts);
    var chain := ChainAt(w, e.key);
    var targets := TaskTargets(chain);
    FinalizeKeeps(w, e, facts);
    FinalizeTask(w, e, facts);
    FinalizeBooks(w, e, facts, id);
    assert Good(e.key, chain) && RowOk(e.key, chain[|chain| - 1]);
    TargetDeltaAt(targets, id);
    forall k ensures InFlight(w', k, id) <==> InFlight(w, k, id) && k != e.key {
      if k != e.key { assert ChainAt(w', k) == ChainAt(w, k); }
    }
    if InFlight(w, e.key, id) {
      var t :| t in targets && t.identity == id;
      FinalAmountAt(targets, id, t);
      AllMatching(w.holdings, targets, t);
    }
  }

  lemma FinalizedSettles(w: World, held: int, e: EffectId, facts: Facts, id: Identity)
    requires WorldOk(w) && Holds(w, held, id) && Finalizes(w, e) && e.key.FlowKey?
    ensures Settles(w, held, FinalizeStep(e, facts), id)
  {
    hide Finalize, Book, TaskTargets, InFlight, Finalizes, FinalAmount, TargetDelta;
    var w' := Finalize(w, e, facts);
    Landed(w, e, facts, id);
    if Flying(w', id) { var k :| InFlight(w', k, id); assert Flying(w, id); }
    if Flying(w, id) && !Flying(w', id) {
      var k :| InFlight(w, k, id);
      assert k == e.key;
    }
  }

  lemma {:induction false} AllMatching(h: Holdings, targets: seq<Target>, t: Target)
    requires MatchingPrefix(h, targets) == |targets| && t in targets
    ensures Matches(h, t)
  {
    if targets[0] != t { AllMatching(h, targets[1..], t); }
  }

  // ---------- confirmations ----------

  lemma ConfirmSettles(w: World, held: int, e: EffectId, hash: Payload, given: Option<Action>, historical: bool,
                       facts: Facts, ambient: Ambient, id: Identity)
    requires WorldOk(w) && id.broker != FUTU_BROKER && Holds(w, held, id)
    ensures Settles(w, held, ConfirmStep(e, hash, given, historical, facts, ambient), id)
  {
    hide ConfirmLatest, TaskTargets, WroteExactly, Settles, Flying, LastApplied, Evolves, AppliesNothing, Good, WorldOk,
         OnlyChain;
    var (w', v) := Confirm(w, e, hash, given, historical, facts, ambient);
    if e.key.FlowKey? && v.Compensating? {
      FailedSettles(w, held, e, hash, given, historical, facts, ambient, id);
    } else {
      ConfirmKeeps(w, e, hash, given, historical, facts, ambient);
      TasksKept(w, e, hash, given, historical, facts, ambient);
      if e.key.FlowKey? && Applies(v) {
        AppliedSettles(w, held, e, hash, given, historical, facts, ambient, id);
      } else {
        ConfirmElsewhere(w, e, hash, given, historical, facts, ambient, id);
        OneChainQuiet(w, w', e.key);
        QuietStep(w, held, ConfirmStep(e, hash, given, historical, facts, ambient), id);
      }
    }
  }

  lemma TasksKept(w: World, e: EffectId, hash: Payload, given: Option<Action>, historical: bool, facts: Facts,
                  ambient: Ambient)
    requires WorldOk(w)
    requires e.key.FlowKey? ==> !Confirm(w, e, hash, given, historical, facts, ambient).1.Compensating?
    ensures forall k: Key :: k.FlowKey? ==>
              TaskTargets(ChainAt(Confirm(w, e, hash, given, historical, facts, ambient).0, k))
                  == TaskTargets(ChainAt(w, k))
  {
    hide ConfirmLatest, TaskTargets;
    var w' := Confirm(w, e, hash, given, historical, facts, ambient).0;
    ConfirmKeeps(w, e, hash, given, historical, facts, ambient);
    if IsLatest(ChainAt(w, e.key), e.version) { ConfirmTask(w, e, hash, given, historical, facts, ambient); }
    forall k: Key | k.FlowKey? ensures TaskTargets(ChainAt(w', k)) == TaskTargets(ChainAt(w, k)) {
      if k != e.key { assert ChainAt(w', k) == ChainAt(w, k); }
    }
  }

  lemma AppliedSettles(w: World, held: int, e: EffectId, hash: Payload, given: Option<Action>, historical: bool,
                       facts: Facts, ambient: Ambient, id: Identity)
    requires WorldOk(w) && id.broker != FUTU_BROKER && Holds(w, held, id) && e.key.FlowKey?
    requires Applies(Confirm(w, e, hash, given, historical, facts, ambient).1)
    ensures Settles(w, held, ConfirmStep(e, hash, given, historical, facts, ambient), id)
  {
    hide Confirm, TaskTargets, Book, Quantity, Flying;
    TasksKept(w, e, hash, given, historical, facts, ambient);
    AppliedQuantity(w, e, hash, given, historical, facts, ambient, id);
    AppliedBook(w, e, hash, given, historical, facts, ambient, id);
    SameFlights(w, Confirm(w, e, hash, given, historical, facts, ambient).0, id);
  }

  /**
   A failed write takes off: its value without the event is what the holding was, unless it was declared to
   include it.
   */
  lemma FailedSettles(w: World, held: int, e: EffectId, hash: Payload, given: Option<Action>, historical: bool,
                      facts: Facts, ambient: Ambient, id: Identity)
    requires WorldOk(w) && id.broker != FUTU_BROKER && Holds(w, held, id) && e.key.FlowKey?
    requires Confirm(w, e, hash, given, historical, facts, ambient).1.Compensating?
    ensures Settles(w, held, ConfirmStep(e, hash, given, historical, facts, ambient), id)
  {
    hide Confirm, Book, TaskTargets, TargetIdentities, FlightValue, TargetDelta, Quantity, Flying;
    FailedFlights(w, e, hash, given, historical, facts, ambient, id);
    FailedValue(w, e, hash, given, historical, facts, ambient, id);
  }

  /** What is in flight after a write failed. */
  lemma FailedFlights(w: World, e: EffectId, hash: Payload, given: Option<Action>, historical: bool, facts: Facts,
                      ambient: Ambient, id: Identity)
    requires WorldOk(w) && e.key.FlowKey? && Confirm(w, e, hash, given, historical, facts, ambient).1.Compensating?
    ensures Flying(Confirm(w, e, hash, given, historical, facts, ambient).0, id)
            <==> Flying(w, id) || id in TargetIdentities(hash.targets)
  {
    hide Confirm, TaskTargets;
    var w' := Confirm(w, e, hash, given, historical, facts, ambient).0;
    FailedTasks(w, e, hash, given, historical, facts, ambient);
    forall k
      ensures InFlight(w', k, id) <==> InFlight(w, k, id) || (k == e.key && id in TargetIdentities(hash.targets))
    {
    }
    if id in TargetIdentities(hash.targets) { assert InFlight(w', e.key, id); }
    if Flying(w', id) { var k :| InFlight(w', k, id); }
    if Flying(w, id) { var k :| InFlight(w, k, id); assert InFlight(w', k, id); }
  }

  /** Its value, and the holdings and books it leaves elsewhere. */
  lemma FailedValue(w: World, e: EffectId, hash: Payload, given: Option<Action>, historical: bool, facts: Facts,
                    ambient: Ambient, id: Identity)
    requires WorldOk(w) && id.broker != FUTU_BROKER && e.key.FlowKey?
    requires Confirm(w, e, hash, given, historical, facts, ambient).1.Compensating?
    ensures var w' := Confirm(w, e, hash, given, historical, facts, ambient).0;
            && Book(w', id) == Book(w, id)
            && (id in TargetIdentities(hash.targets) ==>
                  FlightValue(hash.targets, id)
                  == Quantity(w, id) - if hash.action == Some(AlreadyReflected) then TargetDelta(hash.targets, id)
                      else 0)
            && (id !in TargetIdentities(hash.targets) ==>
                  Quantity(w', id) == Amount(Obs(ambient.reread, id)) && TargetDelta(hash.targets, id) == 0)
            && (id in TargetIdentities(hash.targets) ==> Amount(Obs(ambient.reread, id)) == Quantity(w, id))
  {
    hide Confirm, Book, PendingTask, DistinctTargets, PrefixWritten;
    CompensatingState(w, e, hash, given, historical, facts, ambient);
    WrittenTargets(w, e, hash, given, historical, facts, ambient);
    TargetDeltaAt(hash.targets, id);
    if id in TargetIdentities(hash.targets) {
      var t :| t in hash.targets && t.identity == id;
      FinalAmountAt(hash.targets, id, t);
    } else {
      var (w', v) := Confirm(w, e, hash, given, historical, facts, ambient);
      PrefixElsewhere(ambient.reread, w'.holdings, hash.targets, v.confirmed, id);
    }
  }

  lemma PrefixElsewhere(h: Holdings, h': Holdings, targets: seq<Target>, n: nat, id: Identity)
    requires PrefixWritten(h, h', targets, n) && id !in TargetIdentities(targets)
    ensures Obs(h', id) == Obs(h, id)
  {
  }

  lemma FailedTasks(w: World, e: EffectId, hash: Payload, given: Option<Action>, historical: bool, facts: Facts,
                    ambient: Ambient)
    requires WorldOk(w) && Confirm(w, e, hash, given, historical, facts, ambient).1.Compensating?
    ensures var w' := Confirm(w, e, hash, given, historical, facts, ambient).0;
            && TaskTargets(ChainAt(w, e.key)) == [] && TaskTargets(ChainAt(w', e.key)) == hash.targets
            && forall k :: k != e.key ==> ChainAt(w', k) == ChainAt(w, k)
  {
    hide ConfirmLatest, TaskTargets;
    ConfirmKeeps(w, e, hash, given, historical, facts, ambient);
    ConfirmTask(w, e, hash, given, historical, facts, ambient);
  }

  // ---------- the theorem ----------

  lemma StepSettles(w: World, held: int, step: Step, id: Identity)
    requires WorldOk(w) && WorldPlaced(w) && id.broker != FUTU_BROKER && Holds(w, held, id)
    ensures Settles(w, held, step, id) && Holds(Next(w, step), NextHeld(w, held, step, id), id)
  {
    hide CommitScan, Preview, Confirm, RunTask, Finalize, WorldPlaced, WorldOk, Flying, Settles;
    match step {
      case EditLedger(_) => QuietStep(w, held, step, id);
      case EditHolding(i, now) => EditSettles(w, held, i, now, id);
      case ScanStep(rows, scope, facts) => ScanSettles(w, held, rows, scope, facts, id);
      case PreviewStep(e, given, historical, facts) => PreviewSettles(w, held, e, given, historical, facts, id);
      case ConfirmStep(e, hash, given, historical, facts, ambient) =>
        ConfirmSettles(w, held, e, hash, given, historical, facts, ambient, id);
      case CompensateStep(e, outcomes) => CompensationSettles(w, held, e, outcomes, id);
      case FinalizeStep(e, facts) => FinalizeSettles(w, held, e, facts, id);
    }
  }

  /** What is held, what arrived and what was lost over a run. */
  datatype Account = Account(held: int, arrived: int, lost: int)

  ghost function RunAccount(w: World, held: int, steps: seq<Step>, id: Identity): Account
    decreases |steps|
  {
    if steps == [] then Account(held, 0, 0)
    else
      var rest := RunAccount(Next(w, steps[0]), NextHeld(w, held, steps[0], id), steps[1..], id);
      Account(rest.held, Arrives(w, steps[0], id) + rest.arrived, Lost(w, held, steps[0], id) + rest.lost)
  }

  /**
   Conservation through failed and overlapping writes, over every run. For a non-Futu identity what is held
   moves by the change of all last applied amounts that sit there, plus what arrived from outside while
   nothing was in flight, less what overlapping writes lost. When nothing is in flight at the end, what is
   held is the holding itself, however often writes to it failed and were compensated in between.
   */
  lemma {:induction false} RunSettles(w: World, held: int, steps: seq<Step>, id: Identity)
    requires WorldOk(w) && WorldPlaced(w) && id.broker != FUTU_BROKER && Holds(w, held, id)
    ensures var account := RunAccount(w, held, steps, id);
            && account.held - held == Book(Run(w, steps), id) - Book(w, id) + account.arrived - account.lost
            && (!Flying(Run(w, steps), id) ==> account.held == Quantity(Run(w, steps), id))
    decreases |steps|
  {
    hide Next, WorldOk, WorldPlaced, Arrives, Lost, NextHeld, Book, Flying;
    if steps != [] {
      StepSettles(w, held, steps[0], id);
      NextKeeps(w, steps[0], FlowKey(""));
      NextPlaced(w, steps[0]);
      RunSettles(Next(w, steps[0]), NextHeld(w, held, steps[0], id), steps[1..], id);
    }
  }

  /** From an empty store nothing is in flight and nothing is booked. */
  lemma RunSettlesFromEmptyStore(w: World, steps: seq<Step>, id: Identity)
    requires w.store.chains == map[] && id.broker != FUTU_BROKER
    ensures var account := RunAccount(w, Quantity(w, id), steps, id);
            !Flying(Run(w, steps), id) ==>
              Quantity(Run(w, steps), id) == Quantity(w, id) + Book(Run(w, steps), id) + account.arrived - account.lost
  {
    hide Run, RunAccount;
    EmptyStorePlaced(w);
    RunSettles(w, Quantity(w, id), steps, id);
    assert Worths(w.store.chains, id) == map[];
  }

  // ---------- when nothing is lost ----------

  /**
   The condition to check before a confirmation. An event that is applied, as a delta or as already in the
   holding, keeps conservation at `id` exactly when nothing is in flight there, or its delta there is zero.
   */
  lemma OverlappingConfirmationLoses(w: World, held: int, step: Step, id: Identity)
    requires WorldOk(w) && WorldPlaced(w) && id.broker != FUTU_BROKER && Holds(w, held, id)
    requires AppliesNow(w, step)
    ensures NextHeld(w, held, step, id) - Book(Next(w, step), id) == held - Book(w, id) + Arrives(w, step, id)
            <==> !Flying(w, id) || TargetDelta(step.hash.targets, id) == 0
  {
    hide Next, WorldOk, WorldPlaced, NextHeld, Book, Flying, AppliesNow, Finalizes, InFlight, TargetDelta;
    StepSettles(w, held, step, id);
    AppliesWrites(w, step);
  }

  lemma AppliesWrites(w: World, step: Step)
    requires AppliesNow(w, step)
    ensures step.ConfirmStep? && Writes(w, step)
  {
  }

  /** No second write to `id` is confirmed while one is in flight. */
  ghost predicate Orderly(w: World, step: Step, id: Identity) {
    Writes(w, step) && id in TargetIdentities(step.hash.targets) ==> !Flying(w, id)
  }

  ghost predicate OrderlyRun(w: World, steps: seq<Step>, id: Identity)
    decreases |steps|
  {
    steps == [] || (Orderly(w, steps[0], id) && OrderlyRun(Next(w, steps[0]), steps[1..], id))
  }

  /** At most one write is in flight at `id`, and what is held is its value without its event. */
  ghost predicate Sole(w: World, held: int, id: Identity) {
    && Holds(w, held, id)
    && (forall k :: InFlight(w, k, id) ==> held == FlightValue(TaskTargets(ChainAt(w, k)), id))
    && (forall k, l :: InFlight(w, k, id) && InFlight(w, l, id) ==> k == l)
  }

  /** A write of the record takes off: its confirmation fails. */
  ghost predicate TakesOff(w: World, step: Step, key: Key) {
    step.ConfirmStep? && Writes(w, step) && !AppliesNow(w, step) && step.id.key == key
  }

  /** The recorded targets of a record after a step. */
  ghost function TasksAfter(w: World, step: Step, key: Key): seq<Target> {
    if TakesOff(w, step, key) then step.hash.targets
    else if step.FinalizeStep? && step.id.key == key && Finalizes(w, step.id) then []
    else TaskTargets(ChainAt(w, key))
  }

  lemma StepTasks(w: World, step: Step, key: Key)
    requires WorldOk(w) && key.FlowKey?
    ensures TaskTargets(ChainAt(Next(w, step), key)) == TasksAfter(w, step, key)
  {
    hide CommitScan, PreviewLatest, ConfirmLatest, RunTask, Finalize, TaskTargets, WorldOk, Finalizes;
    match step {
      case EditLedger(_) =>
      case EditHolding(_, _) =>
      case ScanStep(rows, scope, facts) => ScanTask(w, rows, scope, facts, key);
      case PreviewStep(e, given, historical, facts) =>
        PreviewQuiet(w, e, given, historical, facts);
        if IsLatest(ChainAt(w, e.key), e.version) { PreviewTask(w, e, given, historical, facts); }
        if key != e.key { assert ChainAt(Next(w, step), key) == ChainAt(w, key); }
      case ConfirmStep(e, hash, given, historical, facts, ambient) =>
        ConfirmStepTasks(w, e, hash, given, historical, facts, ambient, key);
      case CompensateStep(e, outcomes) =>
        RunTaskKeeps(w, e, outcomes);
        RunTaskTask(w, e, outcomes);
        if key != e.key { assert ChainAt(Next(w, step), key) == ChainAt(w, key); }
      case FinalizeStep(e, facts) =>
        FinalizeKeeps(w, e, facts);
        if Finalizes(w, e) { FinalizeTask(w, e, facts); }
        if key != e.key { assert ChainAt(Next(w, step), key) == ChainAt(w, key); }
    }
  }

  lemma ConfirmStepTasks(w: World, e: EffectId, hash: Payload, given: Option<Action>, historical: bool, facts: Facts,
                         ambient: Ambient, key: Key)
    requires WorldOk(w) && key.FlowKey?
    ensures var (w', v) := Confirm(w, e, hash, given, historical, facts, ambient);
            TaskTargets(ChainAt(w', key)) == if v.Compensating? && e.key == key then hash.targets
                else TaskTargets(ChainAt(w, key))
  {
    hide ConfirmLatest, TaskTargets, WorldOk;
    var (w', v) := Confirm(w, e, hash, given, historical, facts, ambient);
    if v.Compensating? {
      FailedTasks(w, e, hash, given, historical, facts, ambient);
    } else {
      TasksKept(w, e, hash, given, historical, facts, ambient);
    }
  }

  /** What can be in flight after an orderly step: what was before, or the one write that takes off. */
  lemma FlightsAfter(w: World, held: int, step: Step, id: Identity, key: Key)
    requires WorldOk(w) && Sole(w, held, id) && Orderly(w, step, id) && InFlight(Next(w, step), key, id)
    ensures TaskTargets(ChainAt(Next(w, step), key)) == TasksAfter(w, step, key)
    ensures if TakesOff(w, step, key) then !Flying(w, id)
            else InFlight(w, key, id) && TasksAfter(w, step, key) == TaskTargets(ChainAt(w, key)) && !Lands(w, step, id)
  {
    hide Next, TaskTargets, FlightValue, WorldOk, Quantity, Finalizes, TargetIdentities, Writes, AppliesNow;
    StepTasks(w, step, key);
    NoTargets();
  }

  /** An orderly step loses nothing, and keeps at most one write in flight. */
  lemma OrderlyStepLosesNothing(w: World, held: int, step: Step, id: Identity)
    requires WorldOk(w) && Sole(w, held, id) && Orderly(w, step, id)
    ensures Lost(w, held, step, id) == 0 && Sole(Next(w, step), NextHeld(w, held, step, id), id)
  {
    OrderlyStepIsSole(w, held, step, id);
    hide Next, TaskTargets, FlightValue, TargetDelta, WorldOk, Quantity, Finalizes, TargetIdentities, Writes,
        AppliesNow, NextHeld;
    AppliesNowWrites(w, step);
    if AppliesNow(w, step) && Flying(w, id) { UntouchedDelta(w, step, id); }
  }

  lemma OrderlyStepIsSole(w: World, held: int, step: Step, id: Identity)
    requires WorldOk(w) && Sole(w, held, id) && Orderly(w, step, id)
    ensures Sole(Next(w, step), NextHeld(w, held, step, id), id)
  {
    hide Next, TaskTargets, FlightValue, WorldOk, Quantity, Finalizes, TargetIdentities, Writes, AppliesNow,
        InFlight, Lands, Orderly;
    var w', held' := Next(w, step), NextHeld(w, held, step, id);
    forall k | InFlight(w', k, id)
      ensures held' == FlightValue(TaskTargets(ChainAt(w', k)), id)
      ensures forall l :: InFlight(w', l, id) ==> k == l
    {
      FlightsAfter(w, held, step, id, k);
      assert Flying(w', id);
      forall l | InFlight(w', l, id) ensures k == l {
        FlightsAfter(w, held, step, id, l);
        if InFlight(w, k, id) { assert Flying(w, id); }
        if InFlight(w, l, id) { assert Flying(w, id); }
      }
      if !TakesOff(w, step, k) { assert Flying(w, id); }
    }
  }

  lemma AppliesNowWrites(w: World, step: Step)
    ensures AppliesNow(w, step) ==> Writes(w, step) && step.ConfirmStep?
  {
  }

  lemma NoTargets()
    ensures TargetIdentities([]) == {}
  {
  }

  lemma UntouchedDelta(w: World, step: Step, id: Identity)
    requires WorldOk(w) && AppliesNow(w, step) && id !in TargetIdentities(step.hash.targets)
    ensures TargetDelta(step.hash.targets, id) == 0
  {
    hide Confirm;
    WrittenTargets(w, step.id, step.hash, step.given, step.historical, step.facts, step.ambient);
    TargetDeltaAt(step.hash.targets, id);
  }

  /** So a run in which no second write is confirmed while one is in flight loses nothing. */
  lemma {:induction false} OrderlyRunLosesNothing(w: World, held: int, steps: seq<Step>, id: Identity)
    requires WorldOk(w) && Sole(w, held, id) && OrderlyRun(w, steps, id)
    ensures RunAccount(w, held, steps, id).lost == 0
    decreases |steps|
  {
    hide Next, WorldOk, Sole, Orderly, Lost, NextHeld, Arrives;
    if steps != [] {
      OrderlyStepLosesNothing(w, held, steps[0], id);
      NextKeeps(w, steps[0], FlowKey(""));
      OrderlyRunLosesNothing(Next(w, steps[0]), NextHeld(w, held, steps[0], id), steps[1..], id);
    }
  }
}
