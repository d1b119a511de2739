/** An applied event that is moved to another identity: from its preview to both holdings. */
module EffectTransfers {
  import opened EffectModel
  import opened Optional
  import opened EffectOperations
  import opened EffectScan
  import opened EffectPreview
  import opened EffectDetection
  import opened EffectConfirm
  import opened EffectInvariants
  import opened EffectOrder
  import opened EffectWrites
  import opened EffectVerdicts

  /** A found move outside Futu that waits for the operator: `left` was applied, the ledger has `moved`. */
  ghost predicate Waiting(w: World, key: Key, left: LedgerRow, moved: LedgerRow, a: int, b: int) {
    && WorldOk(w) && Manual(left) && Manual(moved) && Place(left) != Place(moved)
    && key == RowKey(moved) && FindRow(w.ledger, moved.flow.recordId) == Some(moved)
    && WaitsAs(ChainAt(w, key), Flow(left.flow), Flow(moved.flow))
    && Baseline(w.store, Place(left)) == Some(a) && Baseline(w.store, Place(moved)) == Some(b)
  }

  predicate WaitsAs(chain: Chain, applied: Source, now: Source) {
    && chain != [] && PreviousApplied(chain) == Some(applied)
    && chain[|chain| - 1].source == now && chain[|chain| - 1].mode == Apply
    && chain[|chain| - 1].state in {Pending, Blocked, Previewed, Stale}
  }

  function Held(w: World, id: Identity): int { Amount(Obs(w.holdings, id)) }

  /** Nobody has touched either holding, or the operator has put the whole move into both. */
  predicate Untouched(w: World, left: LedgerRow, moved: LedgerRow, a: int, b: int)
    requires Flow(left.flow).Completed() && Flow(moved.flow).Completed()
  {
    Held(w, Place(left)) == a && Held(w, Place(moved)) == b
  }

  predicate PutIn(w: World, left: LedgerRow, moved: LedgerRow, a: int, b: int)
    requires Flow(left.flow).Completed() && Flow(moved.flow).Completed()
  {
    Held(w, Place(left)) == a - Event(left) && Held(w, Place(moved)) == b + Event(moved)
  }

  /** The version after the preview finds it, whatever the preview answers. */
  lemma WaitingId(w: World, key: Key, left: LedgerRow, moved: LedgerRow, a: int, b: int, facts: Facts)
    requires Waiting(w, key, left, moved, a, b)
    ensures var chain := ChainAt(w, key);
            var id := EffectId(key, chain[|chain| - 1].version);
            && IsLatest(chain, id.version) && Refresh(key, chain, w.ledger, facts) == (chain, false)
            && Recomputed(w, id, chain, None, false, facts)
               == FlowPreview(w.store, id, chain[|chain| - 1], Some(Flow(left.flow)), None, false, w.holdings,
                              facts.quotes)
  {
    hide FlowPreview, WorldOk;
    var chain := ChainAt(w, key);
    StillInLedger(key, chain, w.ledger, facts);
    PreviewableExactly(w.store, EffectId(key, chain[|chain| - 1].version), chain[|chain| - 1],
                       PreviousApplied(chain), None,
                       false, w.holdings, facts.quotes);
  }

  /** Two identities that disagree: the preview is refused, the version is blocked, and nothing is written. */
  lemma HalfDoneMoveIsRefused(w: World, key: Key, left: LedgerRow, moved: LedgerRow, a: int, b: int, facts: Facts)
    requires Waiting(w, key, left, moved, a, b)
    requires || (Held(w, Place(left)) == a && Held(w, Place(moved)) == b + Event(moved))
             || (Held(w, Place(left)) == a - Event(left) && Held(w, Place(moved)) == b)
    ensures var chain := ChainAt(w, key);
            var (w', p) := Preview(w, EffectId(key, chain[|chain| - 1].version), None, false, facts);
            && p == None && w'.holdings == w.holdings && w'.store.prints == w.store.prints
            && ChainAt(w', key) == SetLatest(chain, chain[|chain| - 1].(state := Blocked))
  {
    hide FlowPreview, Detect, Refresh, BuildPreview, WorldOk, Baseline, Operations;
    var chain := ChainAt(w, key);
    var id := EffectId(key, chain[|chain| - 1].version);
    WaitingId(w, key, left, moved, a, b, facts);
    MoveDetection(w.store, w.holdings, Flow(left.flow), Flow(moved.flow));
    MoveOperations(Flow(left.flow), Flow(moved.flow));
    var ops := Operations(Some(Flow(left.flow)), Flow(moved.flow)).value;
    assert ops[0] in ops && ops[0].source.Broker() != FUTU_BROKER;
    FlowPreviewExactly(w.store, id, chain[|chain| - 1], Some(Flow(left.flow)), None, false, w.holdings, facts.quotes,
                       Detect(w.store, ops, w.holdings));
    PreviewExactly(w, id, None, false, facts);
  }

  /** Otherwise the preview succeeds, with one target for each identity. */
  lemma MovePreviews(w: World, key: Key, left: LedgerRow, moved: LedgerRow, a: int, b: int, facts: Facts)
    requires Waiting(w, key, left, moved, a, b) && (Untouched(w, left, moved, a, b) || PutIn(w, left, moved, a, b))
    requires a - Event(left) >= 0 && b + Event(moved) >= 0
    ensures var chain := ChainAt(w, key);
            var p := Preview(w, EffectId(key, chain[|chain| - 1].version), None, false, facts).1;
            && p.Some? && p.value.mode == Apply && p.value.source == Flow(moved.flow) && |p.value.targets| == 2
            && (exists t :: t in p.value.targets && t.identity == Place(left) && t.amount == a - Event(left))
            && (exists t :: t in p.value.targets && t.identity == Place(moved) && t.amount == b + Event(moved))
  {
    hide FlowPreview, Detect, Refresh, BuildPreview, WorldOk, Baseline, Operations;
    var chain := ChainAt(w, key);
    var id := EffectId(key, chain[|chain| - 1].version);
    WaitingId(w, key, left, moved, a, b, facts);
    MoveDetection(w.store, w.holdings, Flow(left.flow), Flow(moved.flow));
    MoveOperations(Flow(left.flow), Flow(moved.flow));
    var ops := Operations(Some(Flow(left.flow)), Flow(moved.flow)).value;
    var action := Detect(w.store, ops, w.holdings);
    assert ops[0] in ops && ops[1] in ops && ops[0].source.Broker() != FUTU_BROKER;
    assert action == if PutIn(w, left, moved, a, b) then Some(AlreadyReflected) else Some(ApplyDelta);
    FlowPreviewExactly(w.store, id, chain[|chain| - 1], Some(Flow(left.flow)), None, false, w.holdings, facts.quotes,
                       action);
    PreviewExactly(w, id, None, false, facts);
  }

  /**
   A move, from its preview to the holdings. Whether nobody has touched the two holdings or the operator has moved the
   amount by hand in both, the preview and the confirmation of its hash, on days of their own, end with the old
   amount out of the holding the event left and the new one in the holding it entered; both are the confirmed
   baselines, the version is applied, and no other holding or baseline has changed.
   */
  lemma MoveEnds(w: World, key: Key, left: LedgerRow, moved: LedgerRow, a: int, b: int, facts: Facts, later: Facts,
                 r1: string, r2: string, other: Identity)
    requires Waiting(w, key, left, moved, a, b) && (Untouched(w, left, moved, a, b) || PutIn(w, left, moved, a, b))
    requires a - Event(left) >= 0 && b + Event(moved) >= 0
    requires later.quotes == facts.quotes && NavIsFinal(moved, later)
    requires other != Place(left) && other != Place(moved)
    ensures var chain := ChainAt(w, key);
            var id := EffectId(key, chain[|chain| - 1].version);
            var (w1, p) := Preview(w, id, None, false, facts);
            && p.Some?
            && var (w2, v) := Confirm(w1, id, p.value, None, false, later,
                                      Ambient(w1.holdings, [Done(r1), Done(r2)], w1.ledger));
               && v == AppliedNow && |ChainAt(w2, key)| == |chain| && ChainAt(w2, key)[|chain| - 1].state == Applied
               && Place(left) in w2.holdings && w2.holdings[Place(left)].quantity == a - Event(left)
               && Place(moved) in w2.holdings && w2.holdings[Place(moved)].quantity == b + Event(moved)
               && ConfirmedOf(w2.store.prints, Place(left)) == Some(Obs(w2.holdings, Place(left)))
               && ConfirmedOf(w2.store.prints, Place(moved)) == Some(Obs(w2.holdings, Place(moved)))
               && Obs(w2.holdings, other) == Obs(w.holdings, other)
               && ConfirmedOf(w2.store.prints, other) == ConfirmedOf(w.store.prints, other)
  {
    hide Refresh, BuildPreview, WorldOk, Baseline, Preview, Confirm, WriteTargets, ConfirmPrints;
    var chain := ChainAt(w, key);
    var id := EffectId(key, chain[|chain| - 1].version);
    MovePreviews(w, key, left, moved, a, b, facts);
    var (w1, p) := Preview(w, id, None, false, facts);
    var outcomes := [Done(r1), Done(r2)];
    var ambient := Ambient(w1.holdings, outcomes, w1.ledger);
    PreviewLeaves(w, id, None, false, facts);
    WaitingOk(w, key, left, moved, a, b);
    ConfirmFollowsPreview(w, id, None, false, facts, later, ambient);
    TwoTargets(p.value.targets, Place(left), a - Event(left), Place(moved), b + Event(moved));
    WritesExactly(w.holdings, p.value.targets, outcomes);
    var r := WriteTargets(w.holdings, p.value.targets, outcomes);
    assert r.confirmed == 2;
    WritesElsewhere(w.holdings, p.value.targets, outcomes, other);
    PrintsExactly(w.store.prints, p.value.targets, r.holdings, other);
    PrintsExactly(w.store.prints, p.value.targets, r.holdings, Place(left));
    PrintsExactly(w.store.prints, p.value.targets, r.holdings, Place(moved));
    VerdictMeans(w1, id, p.value, None, false, later, ambient);
    StillInLedger(key, ChainAt(w1, key), w1.ledger, later);
  }

  lemma WaitingOk(w: World, key: Key, left: LedgerRow, moved: LedgerRow, a: int, b: int)
    requires Waiting(w, key, left, moved, a, b)
    ensures WorldOk(w)
  {
  }

  lemma TwoTargets(targets: seq<Target>, a: Identity, x: int, b: Identity, y: int)
    requires |targets| == 2 && a != b
    requires exists t :: t in targets && t.identity == a && t.amount == x
    requires exists t :: t in targets && t.identity == b && t.amount == y
    ensures DistinctTargets(targets) && TargetIdentities(targets) == {a, b}
    ensures (targets[0].identity == a && targets[0].amount == x && targets[1].identity == b && targets[1].amount == y)
            || (targets[1].identity == a && targets[1].amount == x && targets[0].identity == b
                && targets[0].amount == y)
  {
  }
}
