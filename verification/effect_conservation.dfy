/** Conservation: over any run the holdings follow the applied versions, the edits, and nothing else. */
module EffectConservation {
  import opened EffectModel
  import opened Optional
  import opened EffectOperations
  import opened EffectScan
  import opened EffectPreview
  import opened EffectConfirm
  import opened EffectInvariants
  import opened EffectConfirmLaws
  import opened EffectRuns
  import opened Totals

  /** What each ledger record's last applied version holds at `id`. */
  ghost function Worths(chains: Chains, id: Identity): map<Key, int> {
    map k | k in chains && k.FlowKey? :: Worth(LastApplied(chains[k]), id)
  }

  /** The sum over all records of the last applied amounts that sit at `id`. */
  ghost function Book(w: World, id: Identity): int { Total(Worths(w.store.chains, id)) }

  function Quantity(w: World, id: Identity): int { Amount(Obs(w.holdings, id)) }

  lemma BookSame(w: World, w': World, id: Identity)
    requires forall k: Key :: k.FlowKey? ==> LastApplied(ChainAt(w', k)) == LastApplied(ChainAt(w, k))
    ensures Book(w', id) == Book(w, id)
  {
    var m, n := Worths(w.store.chains, id), Worths(w'.store.chains, id);
    forall k | k in m ensures k in n ==> m[k] == n[k] {
      assert LastApplied(ChainAt(w', k)) == LastApplied(ChainAt(w, k));
    }
    forall k | k in m && k !in n ensures m[k] == 0 {
      assert LastApplied(ChainAt(w', k)) == LastApplied(ChainAt(w, k));
    }
    forall k | k in n && k !in m ensures n[k] == 0 {
      assert LastApplied(ChainAt(w', k)) == LastApplied(ChainAt(w, k));
    }
    TotalSame(m, n);
  }

  /** One record changes what it holds. */
  lemma BookMoves(w: World, w': World, key: Key, id: Identity)
    requires key.FlowKey? && OnlyChain(w, w', key) && key in w.store.chains && key in w'.store.chains
    ensures Book(w', id) == Book(w, id) - Worth(LastApplied(ChainAt(w, key)), id)
            + Worth(LastApplied(ChainAt(w', key)), id)
  {
    var m, n := Worths(w.store.chains, id), Worths(w'.store.chains, id);
    forall k ensures k in n <==> k in m[key := n[key]] {
      if k != key { assert k in w'.store.chains <==> k in w.store.chains; }
    }
    forall k | k in n && k != key ensures n[k] == m[k] {
      assert ChainAt(w', k) == ChainAt(w, k);
    }
    assert n == m[key := n[key]];
    TotalUpdate(m, key, n[key]);
  }

  lemma {:induction false} TargetDeltaAt(targets: seq<Target>, id: Identity)
    requires DistinctTargets(targets)
    ensures id !in TargetIdentities(targets) ==> TargetDelta(targets, id) == 0
    ensures forall t :: t in targets && t.identity == id ==> TargetDelta(targets, id) == t.delta
  {
    if targets != [] {
      var rest := targets[1..];
      TargetDeltaAt(rest, id);
      assert forall t :: t in targets <==> t == targets[0] || t in rest;
      assert id in TargetIdentities(rest) ==> id in TargetIdentities(targets);
      if targets[0].identity == id {
        assert id !in TargetIdentities(rest);
      }
    }
  }

  /** What others changed at `id` between the two reads of a confirmation, where it took over the second one. */
  ghost function BetweenReads(w: World, step: Step, id: Identity): int
    requires step.ConfirmStep?
  {
    var (w', v) := Confirm(w, step.id, step.hash, step.given, step.historical, step.facts, step.ambient);
    if Wrote(v) || w'.holdings == step.ambient.reread then Amount(Obs(step.ambient.reread, id)) - Quantity(w, id) else 0
  }

  /** Amounts that reach `id` from outside: manual edits, and events declared to be in the holding already. */
  ghost function Outside(w: World, step: Step, id: Identity): int {
    match step
    case EditHolding(i, now) => if i == id then Amount(now) - Quantity(w, id) else 0
    case ConfirmStep(e, hash, given, historical, facts, ambient) =>
      BetweenReads(w, step, id)
      - if e.key.FlowKey? && hash.action == Some(AlreadyReflected)
           && Applies(Confirm(w, e, hash, given, historical, facts, ambient).1)
        then TargetDelta(hash.targets, id) else 0
    case _ => 0
  }

  /** Steps the law covers at `id`: it is not a target of a failed write or of a compensation. */
  ghost predicate Covered(w: World, step: Step, id: Identity) {
    match step
    case ConfirmStep(e, hash, given, historical, facts, ambient) =>
      Confirm(w, e, hash, given, historical, facts, ambient).1.Compensating? ==>
        id !in TargetIdentities(hash.targets)
    case CompensateStep(e, _) => NotInTask(w, e, id)
    case FinalizeStep(e, _) => NotInTask(w, e, id)
    case _ => true
  }

  ghost predicate NotInTask(w: World, e: EffectId, id: Identity) {
    var task := PendingTask(ChainAt(w, e.key));
    task.Some? ==> id !in TargetIdentities(task.value.targets)
  }

  /** Holding minus book: what conservation keeps. */
  ghost function Gap(w: World, id: Identity): int { Quantity(w, id) - Book(w, id) }

  lemma ScanConserves(w: World, rows: seq<LedgerRow>, scope: Option<string>, facts: Facts, id: Identity)
    requires WorldOk(w)
    ensures Gap(Scan(w, rows, scope, facts), id) == Gap(w, id)
  {
    var w' := Scan(w, rows, scope, facts);
    forall k: Key | k.FlowKey? ensures LastApplied(ChainAt(w', k)) == LastApplied(ChainAt(w, k)) {
      CommitScanKeeps(w.store, rows, InScope(w.holdings, scope), scope, facts, k);
    }
    BookSame(w, w', id);
  }

  lemma QuietConserves(w: World, w': World, key: Key, id: Identity)
    requires OnlyChain(w, w', key) && LastApplied(ChainAt(w', key)) == LastApplied(ChainAt(w, key))
    ensures Gap(w', id) == Gap(w, id) + Quantity(w', id) - Quantity(w, id)
  {
    forall k: Key | k.FlowKey? ensures LastApplied(ChainAt(w', k)) == LastApplied(ChainAt(w, k)) {
      if k != key { assert ChainAt(w', k) == ChainAt(w, k); }
    }
    BookSame(w, w', id);
  }

  /** An external change of a Futu identity never touches another identity. */
  lemma DriftTargets(w: World, e: EffectId, hash: Payload, given: Option<Action>, historical: bool, facts: Facts,
                     ambient: Ambient, id: Identity)
    requires WorldOk(w) && e.key.DriftKey? && id.broker != FUTU_BROKER
    requires Wrote(Confirm(w, e, hash, given, historical, facts, ambient).1)
    ensures id !in TargetIdentities(hash.targets)
  {
    hide ConfirmLatest, Refresh, WroteExactly, EffectAccounts;
    ConfirmWritesThePreview(w, e, hash, given, historical, facts, ambient);
    var chain := ChainAt(w, e.key);
    var latest := chain[|chain| - 1];
    assert Good(e.key, chain) && RowOk(e.key, latest);
    forall t | t in hash.targets ensures t.identity == e.key.identity {
    }
  }

  /** Writing a list of fresh targets moves a non-Futu holding by its delta, or not at all. */
  lemma WrittenMoves(h: Holdings, h': Holdings, targets: seq<Target>, action: Option<Action>, id: Identity)
    requires DistinctTargets(targets) && FreshTargets(targets, action, h) && id.broker != FUTU_BROKER
    requires PrefixWritten(h, h', targets, |targets|)
    ensures Amount(Obs(h', id)) - Amount(Obs(h, id)) == if action == Some(AlreadyReflected) then 0
            else TargetDelta(targets, id)
  {
    TargetDeltaAt(targets, id);
    if id in TargetIdentities(targets) {
      var i :| 0 <= i < |targets| && targets[i].identity == id;
      assert targets[i] in targets;
      assert Matches(h', targets[i]);
    }
  }

  /** The targets of a ledger confirmation that wrote. */
  lemma WrittenTargets(w: World, e: EffectId, hash: Payload, given: Option<Action>, historical: bool, facts: Facts,
                       ambient: Ambient)
    requires WorldOk(w) && e.key.FlowKey?
    requires Wrote(Confirm(w, e, hash, given, historical, facts, ambient).1)
    ensures DistinctTargets(hash.targets) && FreshTargets(hash.targets, hash.action, w.holdings)
            && FreshTargets(hash.targets, hash.action, ambient.reread)
    ensures ChainAt(w, e.key) != [] && Booked(ChainAt(w, e.key), hash.targets)
  {
    var chain := ChainAt(w, e.key);
    ConfirmWritesThePreview(w, e, hash, given, historical, facts, ambient);
    assert Good(e.key, chain) && RowOk(e.key, chain[|chain| - 1]);
    FlowPreviewTargets(w.store, e, chain[|chain| - 1], PreviousApplied(chain), given, historical, w.holdings,
                       facts.quotes);
  }

  /** An applied ledger version moves the holding by the delta it books, or books what was there. */
  lemma AppliedQuantity(w: World, e: EffectId, hash: Payload, given: Option<Action>, historical: bool, facts: Facts,
                        ambient: Ambient, id: Identity)
    requires WorldOk(w) && e.key.FlowKey? && id.broker != FUTU_BROKER
    requires Applies(Confirm(w, e, hash, given, historical, facts, ambient).1)
    ensures Quantity(Confirm(w, e, hash, given, historical, facts, ambient).0, id) - Amount(Obs(ambient.reread, id))
            == if hash.action == Some(AlreadyReflected) then 0 else TargetDelta(hash.targets, id)
  {
    WrittenTargets(w, e, hash, given, historical, facts, ambient);
    ConfirmWritesThePreview(w, e, hash, given, historical, facts, ambient);
    WrittenMoves(ambient.reread, Confirm(w, e, hash, given, historical, facts, ambient).0.holdings, hash.targets,
                 hash.action, id);
  }

  lemma AppliedBook(w: World, e: EffectId, hash: Payload, given: Option<Action>, historical: bool, facts: Facts,
                    ambient: Ambient, id: Identity)
    requires WorldOk(w) && e.key.FlowKey?
    requires Applies(Confirm(w, e, hash, given, historical, facts, ambient).1)
    ensures Book(Confirm(w, e, hash, given, historical, facts, ambient).0, id) - Book(w, id)
            == TargetDelta(hash.targets, id)
  {
    var w' := Confirm(w, e, hash, given, historical, facts, ambient).0;
    WrittenTargets(w, e, hash, given, historical, facts, ambient);
    ConfirmKeeps(w, e, hash, given, historical, facts, ambient);
    assert ChainAt(w', e.key) != [];
    BookMoves(w, w', e.key, id);
  }

  lemma ConfirmConserves(w: World, e: EffectId, hash: Payload, given: Option<Action>, historical: bool, facts: Facts,
                         ambient: Ambient, id: Identity)
    requires WorldOk(w) && id.broker != FUTU_BROKER
    requires Covered(w, ConfirmStep(e, hash, given, historical, facts, ambient), id)
    ensures Gap(Confirm(w, e, hash, given, historical, facts, ambient).0, id)
            == Gap(w, id) + Outside(w, ConfirmStep(e, hash, given, historical, facts, ambient), id)
  {
    hide Confirm, Book, Quantity, LastApplied, Evolves, Good, WorldOk, TargetDelta, TargetIdentities;
    var (w', v) := Confirm(w, e, hash, given, historical, facts, ambient);
    ConfirmKeeps(w, e, hash, given, historical, facts, ambient);
    if e.key.FlowKey? && Applies(v) {
      AppliedQuantity(w, e, hash, given, historical, facts, ambient, id);
      AppliedBook(w, e, hash, given, historical, facts, ambient, id);
    } else {
      ConfirmElsewhere(w, e, hash, given, historical, facts, ambient, id);
      if e.key.FlowKey? {
        QuietConserves(w, w', e.key, id);
      } else {
        forall k: Key | k.FlowKey? ensures LastApplied(ChainAt(w', k)) == LastApplied(ChainAt(w, k)) {
          assert k != e.key;
        }
        BookSame(w, w', id);
      }
    }
  }

  /** An identity that is not a target, or that a confirmation does not write, keeps the holding that was read. */
  lemma ConfirmElsewhere(w: World, e: EffectId, hash: Payload, given: Option<Action>, historical: bool, facts: Facts,
                         ambient: Ambient, id: Identity)
    requires WorldOk(w) && id.broker != FUTU_BROKER
    requires var v := Confirm(w, e, hash, given, historical, facts, ambient).1;
             Wrote(v) && e.key.FlowKey? ==> id !in TargetIdentities(hash.targets)
    ensures Quantity(Confirm(w, e, hash, given, historical, facts, ambient).0, id) - Quantity(w, id)
            == BetweenReads(w, ConfirmStep(e, hash, given, historical, facts, ambient), id)
  {
    if IsLatest(ChainAt(w, e.key), e.version) {
      ConfirmWritesThePreview(w, e, hash, given, historical, facts, ambient);
      if Wrote(Confirm(w, e, hash, given, historical, facts, ambient).1) && e.key.DriftKey? {
        DriftTargets(w, e, hash, given, historical, facts, ambient, id);
      }
    }
  }

  lemma CompensationConserves(w: World, e: EffectId, outcomes: seq<Outcome>, id: Identity)
    requires WorldOk(w) && NotInTask(w, e, id)
    ensures Gap(RunTask(w, e, outcomes), id) == Gap(w, id)
  {
    var chain := ChainAt(w, e.key);
    var task := PendingTask(chain);
    RunTaskKeeps(w, e, outcomes);
    if task.Some? {
      assert Good(e.key, chain) && RowOk(e.key, chain[|chain| - 1]);
      RetryTargetsPrefix(w.holdings, task.value.targets, outcomes);
    }
    QuietConserves(w, RunTask(w, e, outcomes), e.key, id);
  }

  /** A finalized ledger version books what its targets moved. */
  lemma FinalizeBooks(w: World, e: EffectId, facts: Facts, id: Identity)
    requires WorldOk(w) && e.key.FlowKey? && Finalizes(w, e)
    ensures Book(Finalize(w, e, facts), id) == Book(w, id)
            + TargetDelta(PendingTask(ChainAt(w, e.key)).value.targets, id)
  {
    hide Finalize;
    var w' := Finalize(w, e, facts);
    FinalizeKeeps(w, e, facts);
    assert Good(e.key, ChainAt(w, e.key));
    assert ChainAt(w', e.key) != [];
    BookMoves(w, w', e.key, id);
  }

  lemma FinalizeConserves(w: World, e: EffectId, facts: Facts, id: Identity)
    requires WorldOk(w) && NotInTask(w, e, id)
    ensures Gap(Finalize(w, e, facts), id) == Gap(w, id)
  {
    hide Finalize, LastApplied, Evolves;
    var w' := Finalize(w, e, facts);
    FinalizeKeeps(w, e, facts);
    if Finalizes(w, e) && e.key.FlowKey? {
      var chain := ChainAt(w, e.key);
      assert Good(e.key, chain) && RowOk(e.key, chain[|chain| - 1]);
      TargetDeltaAt(PendingTask(chain).value.targets, id);
      FinalizeBooks(w, e, facts, id);
    } else {
      forall k: Key | k.FlowKey? ensures LastApplied(ChainAt(w', k)) == LastApplied(ChainAt(w, k)) {
        if k != e.key { assert ChainAt(w', k) == ChainAt(w, k); }
      }
      BookSame(w, w', id);
    }
  }

  /** One step changes holding minus book by exactly what came from outside. */
  lemma StepConserves(w: World, step: Step, id: Identity)
    requires WorldOk(w) && id.broker != FUTU_BROKER && Covered(w, step, id)
    ensures Gap(Next(w, step), id) == Gap(w, id) + Outside(w, step, id)
  {
    match step {
      case EditLedger(_) => BookSame(w, Next(w, step), id);
      case EditHolding(_, _) => BookSame(w, Next(w, step), id);
      case ScanStep(rows, scope, facts) => ScanConserves(w, rows, scope, facts, id);
      case PreviewStep(e, given, historical, facts) =>
        PreviewQuiet(w, e, given, historical, facts);
        QuietConserves(w, Next(w, step), e.key, id);
      case ConfirmStep(e, hash, given, historical, facts, ambient) =>
        ConfirmConserves(w, e, hash, given, historical, facts, ambient, id);
      case CompensateStep(e, outcomes) => CompensationConserves(w, e, outcomes, id);
      case FinalizeStep(e, facts) => FinalizeConserves(w, e, facts, id);
    }
  }

  ghost function OutsideSum(w: World, steps: seq<Step>, id: Identity): int
    decreases |steps|
  {
    if steps == [] then 0 else Outside(w, steps[0], id) + OutsideSum(Next(w, steps[0]), steps[1..], id)
  }

  ghost predicate CoveredRun(w: World, steps: seq<Step>, id: Identity)
    decreases |steps|
  {
    steps == [] || (Covered(w, steps[0], id) && CoveredRun(Next(w, steps[0]), steps[1..], id))
  }

  /**
   Conservation over runs. For every non-Futu identity, whatever edits to amount, account, broker or
   currency, deletions, scans, previews and confirmations happened in between: the holding moved by
   the change of the sum, over all records, of the last applied amounts that sit there, plus the
   manual edits, minus the events declared to be in the holding already.
   */
  lemma {:induction false} RunConserves(w: World, steps: seq<Step>, id: Identity)
    requires WorldOk(w) && id.broker != FUTU_BROKER && CoveredRun(w, steps, id)
    ensures Quantity(Run(w, steps), id) - Quantity(w, id)
            == Book(Run(w, steps), id) - Book(w, id) + OutsideSum(w, steps, id)
    decreases |steps|
  {
    if steps != [] {
      StepConserves(w, steps[0], id);
      NextKeeps(w, steps[0], FlowKey(""));
      RunConserves(Next(w, steps[0]), steps[1..], id);
    }
  }

  /**
   From an empty store, and with events only applied as deltas and no other writer: each non-Futu
   holding is its initial value plus, over all records, the signed amount of the record's last applied
   version when it sits there.
   */
  lemma RunFromEmptyStore(w: World, steps: seq<Step>, id: Identity)
    requires w.store.chains == map[] && id.broker != FUTU_BROKER && CoveredRun(w, steps, id)
    requires OutsideSum(w, steps, id) == 0
    ensures Quantity(Run(w, steps), id) == Quantity(w, id) + Total(Worths(Run(w, steps).store.chains, id))
  {
    hide CoveredRun, OutsideSum, Run;
    RunConserves(w, steps, id);
    assert Worths(w.store.chains, id) == map[];
  }

  // ---------- compensation completes what a confirmation began ----------

  lemma {:induction false} AllMatch(h: Holdings, targets: seq<Target>)
    requires forall i :: 0 <= i < |targets| ==> Matches(h, targets[i])
    ensures MatchingPrefix(h, targets) == |targets|
  {
    if targets != [] {
      assert Matches(h, targets[0]);
      AllMatch(h, targets[1..]);
    }
  }

  /** A retry whose task resolves leaves every recorded target in place, and nothing else moved. */
  lemma RetryReaches(w: World, e: EffectId, targets: seq<Target>, outcomes: seq<Outcome>)
    requires WorldOk(w) && IsLatest(ChainAt(w, e.key), e.version)
    requires PendingTask(ChainAt(w, e.key)) == Some(Task(targets, false))
    requires PendingTask(ChainAt(RunTask(w, e, outcomes), e.key)) == Some(Task(targets, true))
    ensures var w' := RunTask(w, e, outcomes);
            && PrefixWritten(w.holdings, w'.holdings, targets, |targets|)
            && w'.store.prints == w.store.prints && Finalizes(w', e)
  {
    var chain := ChainAt(w, e.key);
    var w' := RunTask(w, e, outcomes);
    assert Good(e.key, chain) && RowOk(e.key, chain[|chain| - 1]);
    RetryTargetsPrefix(w.holdings, targets, outcomes);
    var written := RetryTargets(w.holdings, targets, outcomes);
    assert w'.holdings == written.holdings;
    assert written.confirmed == |targets|;
    AllMatch(w'.holdings, targets);
  }

  /**
   A failed confirmation followed by a retry that resolves its task ends where an uninterrupted
   confirmation would have: every previewed target is in place, no other holding moved, the
   baselines are the holdings read back, and holding minus book changed as for a success.
   */
  lemma CompensationCompletes(w: World, e: EffectId, hash: Payload, given: Option<Action>, historical: bool,
                              facts: Facts, ambient: Ambient,
                              outcomes: seq<Outcome>, later: Facts, w1: World, w2: World, w3: World, id: Identity)
    requires WorldOk(w) && e.key.FlowKey?
    requires Confirm(w, e, hash, given, historical, facts, ambient).1.Compensating?
    requires w1 == Confirm(w, e, hash, given, historical, facts, ambient).0
    requires w2 == RunTask(w1, e, outcomes) && PendingTask(ChainAt(w2, e.key)) == Some(Task(hash.targets, true))
    requires w3 == Finalize(w2, e, later)
    ensures forall t :: t in hash.targets ==> Matches(w3.holdings, t)
    ensures id !in TargetIdentities(hash.targets) ==> Obs(w3.holdings, id) == Obs(ambient.reread, id)
    ensures w3.store.prints == ConfirmPrints(w.store.prints, hash.targets, w3.holdings)
    ensures id.broker != FUTU_BROKER ==>
              Gap(w3, id) == Gap(w, id) + BetweenReads(w, ConfirmStep(e, hash, given, historical, facts, ambient), id)
                  - if hash.action == Some(AlreadyReflected) then TargetDelta(hash.targets, id) else 0
  {
    CompensatingState(w, e, hash, given, historical, facts, ambient);
    WrittenTargets(w, e, hash, given, historical, facts, ambient);
    var n := Confirm(w, e, hash, given, historical, facts, ambient).1.confirmed;
    RetryCompletes(ambient.reread, w1, e, hash.targets, n, outcomes, later);
    if id.broker != FUTU_BROKER {
      WrittenMoves(ambient.reread, w3.holdings, hash.targets, hash.action, id);
      CompensationBook(w1, w2, w3, e, outcomes, later, hash.targets, id);
    }
  }

  /** From a pending compensation to its end, seen from the holdings `h` before the first attempt. */
  lemma RetryCompletes(h: Holdings, w1: World, e: EffectId, targets: seq<Target>, n: nat, outcomes: seq<Outcome>,
                       later: Facts)
    requires WorldOk(w1) && IsLatest(ChainAt(w1, e.key), e.version)
    requires PendingTask(ChainAt(w1, e.key)) == Some(Task(targets, false))
    requires PrefixWritten(h, w1.holdings, targets, n)
    requires PendingTask(ChainAt(RunTask(w1, e, outcomes), e.key)) == Some(Task(targets, true))
    ensures var w2 := RunTask(w1, e, outcomes);
            var w3 := Finalize(w2, e, later);
            && Finalizes(w2, e) && PrefixWritten(h, w3.holdings, targets, |targets|)
            && (forall t :: t in targets ==> Matches(w3.holdings, t))
            && w3.store.prints == ConfirmPrints(w1.store.prints, targets, w3.holdings)
  {
    var w2 := RunTask(w1, e, outcomes);
    var w3 := Finalize(w2, e, later);
    RetryReaches(w1, e, targets, outcomes);
    assert targets[..|targets|] == targets;
    assert w3.holdings == w2.holdings;
    TwoPrefixes(h, w1.holdings, w3.holdings, targets, n);
    forall t | t in targets ensures Matches(w3.holdings, t) {
      var i :| 0 <= i < |targets| && targets[i] == t;
    }
  }

  lemma CompensatingState(w: World, e: EffectId, hash: Payload, given: Option<Action>, historical: bool,
                          facts: Facts, ambient: Ambient)
    requires WorldOk(w) && e.key.FlowKey?
    requires Confirm(w, e, hash, given, historical, facts, ambient).1.Compensating?
    ensures var (w1, v) := Confirm(w, e, hash, given, historical, facts, ambient);
            && WorldOk(w1) && IsLatest(ChainAt(w1, e.key), e.version) && w1.store.prints == w.store.prints
            && PendingTask(ChainAt(w1, e.key)) == Some(Task(hash.targets, false))
            && PrefixWritten(ambient.reread, w1.holdings, hash.targets, v.confirmed)
            && (forall id :: Book(w1, id) == Book(w, id))
  {
    var w1 := Confirm(w, e, hash, given, historical, facts, ambient).0;
    ConfirmWritesThePreview(w, e, hash, given, historical, facts, ambient);
    ConfirmKeeps(w, e, hash, given, historical, facts, ambient);
    forall id ensures Book(w1, id) == Book(w, id) {
      forall k: Key | k.FlowKey? ensures LastApplied(ChainAt(w1, k)) == LastApplied(ChainAt(w, k)) {
        if k != e.key { assert ChainAt(w1, k) == ChainAt(w, k); }
      }
      BookSame(w, w1, id);
    }
  }

  lemma TwoPrefixes(h: Holdings, h1: Holdings, h2: Holdings, targets: seq<Target>, n: nat)
    requires PrefixWritten(h, h1, targets, n) && PrefixWritten(h1, h2, targets, |targets|)
    ensures PrefixWritten(h, h2, targets, |targets|)
  {
  }

  lemma CompensationBook(w1: World, w2: World, w3: World, e: EffectId, outcomes: seq<Outcome>, later: Facts,
                         targets: seq<Target>, id: Identity)
    requires WorldOk(w1) && e.key.FlowKey? && w2 == RunTask(w1, e, outcomes) && w3 == Finalize(w2, e, later)
    requires Finalizes(w2, e) && PendingTask(ChainAt(w2, e.key)) == Some(Task(targets, true))
    ensures Book(w3, id) == Book(w1, id) + TargetDelta(targets, id)
  {
    hide RunTask, Finalize, LastApplied;
    RunTaskKeeps(w1, e, outcomes);
    forall k: Key | k.FlowKey? ensures LastApplied(ChainAt(w2, k)) == LastApplied(ChainAt(w1, k)) {
      if k != e.key { assert ChainAt(w2, k) == ChainAt(w1, k); }
    }
    BookSame(w1, w2, id);
    FinalizeBooks(w2, e, later, id);
  }
}
