/** What detection answers for the identities a version touches, and exactly which ledger previews succeed. */
module EffectDetection {
  import opened EffectModel
  import opened Optional
  import opened EffectOperations
  import opened EffectScan
  import opened EffectPreview

  // ---------- the baseline an event is compared with ----------

  /** A holding that never drifted is compared with what was last confirmed of it, if anything was. */
  lemma BaselineIsTheConfirmed(s: Store, id: Identity)
    requires DriftKey(id) !in s.chains || s.chains[DriftKey(id)] == []
    ensures id !in s.prints || s.prints[id].confirmed.None? ==> Baseline(s, id) == None
    ensures id in s.prints && s.prints[id].confirmed.Some? ==>
              Baseline(s, id) == Some(Amount(s.prints[id].confirmed.value))
  {
  }

  /**
   A holding whose newest external change knew the amount confirmed before it is compared with that amount, also once
   the change itself is confirmed; one that knew none is compared with what is confirmed now.
   */
  lemma BaselineIsFromBefore(s: Store, id: Identity, now: Observation, day: int, before: Option<int>)
    requires DriftKey(id) in s.chains && s.chains[DriftKey(id)] != []
    requires s.chains[DriftKey(id)][|s.chains[DriftKey(id)]| - 1].source == Drift(id, now, day, before)
    ensures before.Some? ==> Baseline(s, id) == before
    ensures before.None? && id in s.prints && s.prints[id].confirmed.Some? ==>
              Baseline(s, id) == Some(Amount(s.prints[id].confirmed.value))
    ensures before.None? && (id !in s.prints || s.prints[id].confirmed.None?) ==> Baseline(s, id) == None
  {
  }

  /**
   A scan that finds a holding outside Futu edited, with no ledger effect to explain it, confirms the edited
   holding and keeps the amount from before the edit as the one events are compared with.
   */
  lemma EditedHoldingKeepsBaseline(s: Store, id: Identity, cash: Holdings, today: int, before: Observation)
    requires id.broker != FUTU_BROKER && id in s.prints && s.prints[id].confirmed == Some(before)
    requires Obs(cash, id) != before && id !in OwnedIdentities(s.chains) && NetAt(s.chains, id).None?
    requires var chain := ChainOf(s.chains, DriftKey(id));
             chain == [] || (chain[|chain| - 1].state != CompensationPending && chain[|chain| - 1].source.Drift?)
    ensures var t := ReconcileAll(s, {id}, cash, today);
            && t.prints[id] == Fingerprint(Some(Obs(cash, id)), Obs(cash, id))
            && Baseline(t, id) == Some(Amount(before))
  {
    hide NetAt, OwnedIdentities;
    var t := ReconcileAll(s, {id}, cash, today);
    var r := ReconcileAt(s, cash, today, id);
    assert r.chain != [] && t.chains[DriftKey(id)] == r.chain && t.prints[id] == r.mark;
  }

  // ---------- detection over several identities ----------

  ghost predicate Touches(ops: seq<Operation>, id: Identity) { exists op :: op in ops && op.source.At() == Some(id) }

  /** The holding is the identity's baseline plus the event. */
  ghost predicate Reflected(s: Store, ops: seq<Operation>, h: Holdings, id: Identity) {
    Touches(ops, id) && Baseline(s, id).Some? && Amount(Obs(h, id)) == Baseline(s, id).value + DeltaAt(ops, id)
  }

  /** The holding is the baseline, and the event would move it. */
  ghost predicate Missing(s: Store, ops: seq<Operation>, h: Holdings, id: Identity) {
    Touches(ops, id) && Baseline(s, id).Some? && Amount(Obs(h, id)) == Baseline(s, id).value && DeltaAt(ops, id) != 0
  }

  ghost predicate AllKnown(s: Store, ops: seq<Operation>) { forall id :: Touches(ops, id) ==> Baseline(s, id).Some? }

  lemma PlacesAreTouched(ops: seq<Operation>, id: Identity)
    ensures id in Places(ops) <==> Touches(ops, id)
  {
  }

  /**
   Detection over any number of identities: already_reflected exactly when every touched identity has a
   baseline, some one holds its baseline plus its delta, and none still holds its baseline; apply_delta exactly
   the other way round; and a refusal in every other case, above all when two identities disagree.
   */
  lemma DetectionOfSeveral(s: Store, ops: seq<Operation>, h: Holdings)
    ensures Detect(s, ops, h) == Some(AlreadyReflected) <==>
              AllKnown(s, ops) && (exists id :: Reflected(s, ops, h, id)) && !exists id :: Missing(s, ops, h, id)
    ensures Detect(s, ops, h) == Some(ApplyDelta) <==>
              AllKnown(s, ops) && (exists id :: Missing(s, ops, h, id)) && !exists id :: Reflected(s, ops, h, id)
    ensures Detect(s, ops, h) in {None, Some(AlreadyReflected), Some(ApplyDelta)}
  {
    hide Baseline, DeltaAt, Places, Touches;
    forall id ensures id in Places(ops) <==> Touches(ops, id) { PlacesAreTouched(ops, id); }
    if AllKnown(s, ops) {
      forall id
        ensures id in Places(ops) && DecideAt(s, ops, h, id) == Some(AlreadyReflected) <==> Reflected(s, ops, h, id)
        ensures id in Places(ops) && DecideAt(s, ops, h, id) == Some(ApplyDelta) <==> Missing(s, ops, h, id)
      {
      }
    } else {
      var id :| Touches(ops, id) && Baseline(s, id).None?;
      assert id in Places(ops);
    }
  }

  lemma TwoOperations(a: Operation, b: Operation)
    ensures forall id :: DeltaAt([a, b], id) == (if a.source.At() == Some(id) then a.delta else 0)
                                                + (if b.source.At() == Some(id) then b.delta else 0)
    ensures forall id :: Touches([a, b], id) <==> a.source.At() == Some(id) || b.source.At() == Some(id)
  {
    assert [a, b][1..] == [b] && [b][1..] == [];
    assert [a, b][0] == a && [a, b][1] == b;
    forall id ensures DeltaAt([a, b], id) == (if a.source.At() == Some(id) then a.delta else 0)
                                             + (if b.source.At() == Some(id) then b.delta else 0)
    {
      assert DeltaAt([b], id) == (if b.source.At() == Some(id) then b.delta else 0) + DeltaAt([], id);
    }
  }

  /** The two operations of a move: the amount goes out where the event was and comes in where it is. */
  lemma MoveOperations(previous: Source, current: Source)
    requires previous.At().Some? && current.At().Some? && previous.At() != current.At()
    requires previous.Signed().Some? && current.Signed().Some?
    requires previous.Signed().value != 0 && current.Signed().value != 0
    ensures Operations(Some(previous), current)
            == Some([Operation(previous, -previous.Signed().value), Operation(current, current.Signed().value)])
  {
    var out, into := Operation(previous, -previous.Signed().value), Operation(current, current.Signed().value);
    assert !SamePlace(previous, current);
    assert WithoutZero(out) + WithoutZero(into) == [out, into];
  }

  /**
   A move, by amounts alone: `a` and `b` are the baselines of the identity it leaves and of the one it enters, and
   `x` and `y` the amounts applied before and now.
   */
  lemma MoveDetection(s: Store, h: Holdings, previous: Source, current: Source)
    requires previous.At().Some? && current.At().Some? && previous.At() != current.At()
    requires previous.Signed().Some? && current.Signed().Some?
    requires previous.Signed().value != 0 && current.Signed().value != 0
    ensures Operations(Some(previous), current).Some?
    ensures var found := Detect(s, Operations(Some(previous), current).value, h);
            var (x, y) := (previous.Signed().value, current.Signed().value);
            var (a, b) := (Baseline(s, previous.At().value), Baseline(s, current.At().value));
            var (left, entered) := (Amount(Obs(h, previous.At().value)), Amount(Obs(h, current.At().value)));
            if a.None? || b.None? then found == None
            else
              && found in {None, Some(AlreadyReflected), Some(ApplyDelta)}
              && (found == Some(AlreadyReflected) <==>
                    (left == a.value - x || entered == b.value + y) && left != a.value && entered != b.value)
              && (found == Some(ApplyDelta) <==>
                    (left == a.value || entered == b.value) && left != a.value - x && entered != b.value + y)
  {
    hide Detect, Baseline, Touches, DeltaAt;
    var out, into := Operation(previous, -previous.Signed().value), Operation(current, current.Signed().value);
    MoveOperations(previous, current);
    TwoOperations(out, into);
    DetectionOfSeveral(s, [out, into], h);
    var ops, p, c := [out, into], previous.At().value, current.At().value;
    assert Touches(ops, p) && Touches(ops, c);
    assert forall id :: Touches(ops, id) ==> id == p || id == c;
    assert Reflected(s, ops, h, p) || !Reflected(s, ops, h, p);
    assert Reflected(s, ops, h, c) || !Reflected(s, ops, h, c);
    assert Missing(s, ops, h, p) || !Missing(s, ops, h, p);
    assert Missing(s, ops, h, c) || !Missing(s, ops, h, c);
  }

  /** A version has one operation unless it moves; an operation of a move is never of amount zero. */
  lemma OperationsOfAMove(previous: Option<Source>, current: Source)
    requires Operations(previous, current).Some?
    ensures var ops := Operations(previous, current).value;
            if previous.None? || SamePlace(previous.value, current) then |ops| == 1 && ops[0].source == current
            else |ops| <= 2 && forall op :: op in ops ==> op.delta != 0
  {
  }

  // ---------- which previews succeed ----------

  predicate Declared(given: Option<Action>) { given in {Some(ApplyDelta), Some(AlreadyReflected)} }

  /** The action of a preview: a declared one, else the detected one where something is outside Futu. */
  ghost predicate RunsWith(s: Store, ops: seq<Operation>, given: Option<Action>, h: Holdings, action: Option<Action>) {
    if Declared(given) then action == given
    else if exists op :: op in ops && op.source.Broker() != FUTU_BROKER then action == Detect(s, ops, h)
    else action == given
  }

  /** An operation has a target: it names an identity, Futu quotes it, and elsewhere it leaves no negative amount. */
  predicate HasTarget(op: Operation, action: Option<Action>, h: Holdings, quotes: map<Identity, Quote>) {
    && op.source.Cash().Some? && op.source.Account() != "" && op.source.Broker() != ""
    && var id := Identity(op.source.Cash().value, op.source.Account(), op.source.Broker());
       if op.source.Broker() == FUTU_BROKER then id in quotes
       else action == Some(AlreadyReflected) || Amount(Obs(h, id)) + op.delta >= 0
  }

  /** And this is it. */
  ghost predicate IsTargetOf(t: Target, op: Operation, action: Option<Action>, h: Holdings,
                             quotes: map<Identity, Quote>) {
    && op.source.Cash() == Some(t.identity.currency) && op.source.Account() == t.identity.account
    && op.source.Broker() == t.identity.broker && t.identity.account != "" && t.identity.broker != ""
    && t.before == Obs(h, t.identity) && t.delta == op.delta
    && (if t.identity.broker == FUTU_BROKER then
          t.identity in quotes && t.amount == quotes[t.identity].amount && t.origin == FutuCash
          && t.quote == Some(quotes[t.identity])
        else if action == Some(AlreadyReflected) then
          t.amount == Amount(t.before) && t.origin == ManualCurrent && t.quote == None
        else t.amount == Amount(t.before) + op.delta >= 0 && t.origin == Estimated && t.quote == None)
  }

  lemma TargetExactly(op: Operation, action: Option<Action>, h: Holdings, quotes: map<Identity, Quote>)
    ensures var t := FlowTarget(op, action, h, quotes);
            && (t.Some? <==> HasTarget(op, action, h, quotes))
            && (t.Some? ==> IsTargetOf(t.value, op, action, h, quotes))
  {
  }

  lemma {:induction false} TargetsExactly(ops: seq<Operation>, action: Option<Action>, h: Holdings,
                                          quotes: map<Identity, Quote>)
    ensures var ts := FlowTargets(ops, action, h, quotes);
            && (ts.Some? <==> forall op :: op in ops ==> HasTarget(op, action, h, quotes))
            && (ts.Some? ==> |ts.value| == |ops|
                             && forall i :: 0 <= i < |ops| ==> IsTargetOf(ts.value[i], ops[i], action, h, quotes))
  {
    hide FlowTarget, HasTarget, IsTargetOf;
    if ops != [] {
      TargetExactly(ops[0], action, h, quotes);
      TargetsExactly(ops[1..], action, h, quotes);
      assert forall op :: op in ops <==> op == ops[0] || op in ops[1..];
      var ts := FlowTargets(ops, action, h, quotes);
      if ts.Some? {
        forall i | 0 <= i < |ops| ensures IsTargetOf(ts.value[i], ops[i], action, h, quotes) {
          if i > 0 { assert ops[i] == ops[1..][i - 1] && ts.value[i] == ts.value[1..][i - 1]; }
        }
      }
    }
  }

  lemma AtMostTwoOperations(previous: Option<Source>, current: Source)
    requires Operations(previous, current).Some?
    ensures |Operations(previous, current).value| <= 2
  {
  }

  /** The first difference decides, and the end of a text comes before any character. */
  predicate LessAt(a: string, b: string, k: nat) {
    k <= |a| && k < |b| && a[..k] == b[..k] && (k < |a| ==> a[k] < b[k])
  }

  lemma {:induction false} LessIsLexical(a: string, b: string)
    ensures Less(a, b) <==> exists k: nat :: LessAt(a, b, k)
  {
    if a != [] && b != [] && a[0] == b[0] {
      LessIsLexical(a[1..], b[1..]);
      if Less(a, b) {
        var k: nat :| LessAt(a[1..], b[1..], k);
        assert a[..k + 1] == [a[0]] + a[1..][..k] && b[..k + 1] == [b[0]] + b[1..][..k];
        assert LessAt(a, b, k + 1);
      }
      if exists k: nat :: LessAt(a, b, k) {
        var k: nat :| LessAt(a, b, k);
        assert k > 0;
        assert a[1..][..k - 1] == a[..k][1..] && b[1..][..k - 1] == b[..k][1..];
        assert LessAt(a[1..], b[1..], k - 1);
      }
    } else if b != [] {
      if a == [] || a[0] < b[0] { assert LessAt(a, b, 0); }
      if exists k: nat :: LessAt(a, b, k) {
        var k: nat :| LessAt(a, b, k);
        if k > 0 { assert a[..k][0] == b[..k][0]; }
      }
    }
  }

  /** By account, then broker, then currency. */
  predicate Before(a: Identity, b: Identity) {
    if a.account != b.account then Less(a.account, b.account)
    else if a.broker != b.broker then Less(a.broker, b.broker)
    else Less(CurrencyText(Some(a.currency)), CurrencyText(Some(b.currency)))
  }

  lemma {:induction false} LessIsTotal(a: string, b: string)
    ensures !(Less(a, b) && Less(b, a)) && (a != b ==> Less(a, b) || Less(b, a)) && !Less(a, a)
  {
    if a != [] && b != [] && a[0] == b[0] {
      LessIsTotal(a[1..], b[1..]);
      assert a == [a[0]] + a[1..] && b == [b[0]] + b[1..];
    }
    if a != [] { LessIsTotal(a[1..], a[1..]); }
  }

  /**
   Exactly which ledger previews succeed, and with what. There is at least one operation; outside Futu an action is
   declared or detected; and every operation names an identity, is quoted in Futu, and leaves no negative amount
   elsewhere. Then each operation has its target, in the order of account, broker and currency.
   */
  lemma FlowPreviewExactly(s: Store, id: EffectId, e: Effect, previous: Option<Source>, given: Option<Action>,
                           historical: bool, h: Holdings, quotes: map<Identity, Quote>, action: Option<Action>)
    requires Operations(previous, e.source).Some? ==>
               RunsWith(s, Operations(previous, e.source).value, given, h, action)
    ensures var ops := Operations(previous, e.source);
            var p := FlowPreview(s, id, e, previous, given, historical, h, quotes);
            && (p.Some? <==>
                  && ops.Some? && ops.value != []
                  && (forall op :: op in ops.value ==> HasTarget(op, action, h, quotes))
                  && ((exists op :: op in ops.value && op.source.Broker() != FUTU_BROKER) ==> action.Some?))
            && (p.Some? ==>
                  && p.value.id == id && p.value.source == e.source && p.value.mode == Apply
                  && p.value.historical == historical && p.value.action == action
                  && |p.value.befores| == |p.value.targets| == |ops.value|
                  && (forall i :: 0 <= i < |p.value.targets| ==> p.value.befores[i] == p.value.targets[i].before)
                  && (forall op :: op in ops.value ==>
                        exists t :: t in p.value.targets && IsTargetOf(t, op, action, h, quotes)))
  {
    hide Operations, Detect, FlowTargets, HasTarget, IsTargetOf;
    var ops := Operations(previous, e.source);
    if ops.Some? {
      AtMostTwoOperations(previous, e.source);
      InOrderKeeps(ops.value);
      ChosenRuns(s, ops.value, given, h);
      TargetsExactly(InOrder(ops.value), action, h, quotes);
      var ts := FlowTargets(InOrder(ops.value), action, h, quotes);
      if ts.Some? {
        forall op | op in ops.value ensures exists t :: t in ts.value && IsTargetOf(t, op, action, h, quotes) {
          var i :| 0 <= i < |InOrder(ops.value)| && InOrder(ops.value)[i] == op;
          assert ts.value[i] in ts.value;
        }
      }
    }
  }

  lemma ChosenRuns(s: Store, ops: seq<Operation>, given: Option<Action>, h: Holdings)
    ensures RunsWith(s, ops, given, h, ChosenAction(s, ops, given, h))
    ensures HasNonFutu(ops) <==> exists op :: op in ops && op.source.Broker() != FUTU_BROKER
  {
    if exists op :: op in ops && op.source.Broker() != FUTU_BROKER {
      var op :| op in ops && op.source.Broker() != FUTU_BROKER;
      var i :| 0 <= i < |ops| && ops[i] == op;
      assert HasNonFutu(ops);
    }
  }

  /** The targets come in the order of account, broker and currency. */
  lemma TargetsInOrder(s: Store, id: EffectId, e: Effect, previous: Option<Source>, given: Option<Action>,
                       historical: bool, h: Holdings, quotes: map<Identity, Quote>, i: nat, j: nat)
    requires FlowPreview(s, id, e, previous, given, historical, h, quotes).Some?
    requires i < j < |FlowPreview(s, id, e, previous, given, historical, h, quotes).value.targets|
    ensures var ts := FlowPreview(s, id, e, previous, given, historical, h, quotes).value.targets;
            Before(ts[i].identity, ts[j].identity)
  {
    hide Detect, FlowTargets, Less;
    var ops := Operations(previous, e.source).value;
    AtMostTwoOperations(previous, e.source);
    var p := FlowPreview(s, id, e, previous, given, historical, h, quotes).value;
    TargetsExactly(InOrder(ops), p.action, h, quotes);
    OperationsDistinct(previous, e.source, 0, 1);
    var a, b := p.targets[0].identity, p.targets[1].identity;
    assert a != b;
    LessIsTotal(a.account, b.account);
    LessIsTotal(a.broker, b.broker);
    CurrencyTexts(a.currency, b.currency);
    LessIsTotal(CurrencyText(Some(a.currency)), CurrencyText(Some(b.currency)));
  }

  lemma CurrencyTexts(a: Currency, b: Currency)
    ensures CurrencyText(Some(a)) == CurrencyText(Some(b)) <==> a == b
  {
    assert "CNY"[0] == 'C' && "USD"[0] == 'U' && "HKD"[0] == 'H';
  }

  /** No preview of a ledger version makes a target outside Futu negative, unless the holding is that already. */
  lemma NoNegativeTargets(s: Store, id: EffectId, e: Effect, previous: Option<Source>, given: Option<Action>,
                          historical: bool, h: Holdings, quotes: map<Identity, Quote>, t: Target)
    requires FlowPreview(s, id, e, previous, given, historical, h, quotes).Some?
    requires t in FlowPreview(s, id, e, previous, given, historical, h, quotes).value.targets
    requires t.identity.broker != FUTU_BROKER
    ensures t.amount >= 0 || t.amount == Amount(Obs(h, t.identity))
  {
    hide Detect, FlowTargets, Operations;
    var ops := Operations(previous, e.source).value;
    var p := FlowPreview(s, id, e, previous, given, historical, h, quotes).value;
    TargetsExactly(InOrder(ops), p.action, h, quotes);
  }

  /**
   A preview of an external change. Futu is put at its quote. Elsewhere accepting it writes nothing, restoring it
   targets the amount from before, and anything else is refused.
   */
  lemma DriftPreviewExactly(id: EffectId, e: Effect, given: Option<Action>, historical: bool, h: Holdings,
                            quotes: map<Identity, Quote>)
    requires e.source.Drift? && e.source.identity.account != "" && e.source.identity.broker != ""
    ensures var (at, p) := (e.source.identity, DriftPreview(id, e, given, historical, h, quotes));
            && (p.Some? ==> p.value.id == id && p.value.source == e.source && p.value.befores == [Obs(h, at)])
            && (p.Some? && p.value.mode == Apply ==>
                  |p.value.targets| == 1 && p.value.targets[0].identity == at
                      && p.value.targets[0].before == Obs(h, at))
            && (if at.broker == FUTU_BROKER then
                  (p.Some? <==> at in quotes)
                  && (p.Some? ==> p.value.mode == Apply && p.value.targets[0].amount == quotes[at].amount)
                else if given == Some(AcceptCurrent) then p.Some? && p.value.mode == Keep && p.value.targets == []
                else if given == Some(Restore) then
                  (p.Some? <==> e.source.lastConfirmed.Some?)
                  && (p.Some? ==> p.value.mode == Apply && Some(p.value.targets[0].amount) == e.source.lastConfirmed)
                else p == None)
  {
  }
}
