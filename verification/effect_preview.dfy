/** Reflection detection and the preview of absolute targets. */
module EffectPreview {
  import opened EffectModel
  import opened Optional
  import opened EffectOperations

  datatype Action = ApplyDelta | AlreadyReflected | AcceptCurrent | Restore

  /** The hashed payload of a preview; mode Keep is record_only. */
  datatype Payload = Payload(id: EffectId, source: Source, mode: Mode, historical: bool, action: Option<Action>,
                             befores: seq<Observation>, targets: seq<Target>)

  // ---------- order of the operations ----------

  predicate Less(a: string, b: string) {
    if b == "" then false
    else if a == "" then true
    else if a[0] == b[0] then Less(a[1..], b[1..])
    else a[0] < b[0]
  }

  function CurrencyText(c: Option<Currency>): string {
    match c
    case None => ""
    case Some(CNY) => "CNY"
    case Some(USD) => "USD"
    case Some(HKD) => "HKD"
  }

  /** The order of _source_identity: account, broker, currency. */
  predicate PlaceLess(a: Source, b: Source) {
    if a.Account() != b.Account() then Less(a.Account(), b.Account())
    else if a.Broker() != b.Broker() then Less(a.Broker(), b.Broker())
    else Less(CurrencyText(a.Cash()), CurrencyText(b.Cash()))
  }

  /** A version has at most two operations; the sort is stable. */
  function InOrder(ops: seq<Operation>): seq<Operation> {
    if |ops| == 2 && PlaceLess(ops[1].source, ops[0].source) then [ops[1], ops[0]] else ops
  }

  // ---------- reflection detection ----------

  /** The last recorded external change keeps the amount from before it; otherwise the fingerprint. */
  function Baseline(s: Store, id: Identity): Option<int> {
    var external := Latest(ChainOf(s.chains, DriftKey(id)));
    if external.Some? && external.value.source.Drift? && external.value.source.lastConfirmed.Some?
    then external.value.source.lastConfirmed
    else if id in s.prints && s.prints[id].confirmed.Some? then Some(Amount(s.prints[id].confirmed.value))
    else None
  }

  function Places(ops: seq<Operation>): set<Identity> {
    set op | op in ops && op.source.At().Some? :: op.source.At().value
  }

  function Decide(baseline: int, current: int, delta: int): Option<Action> {
    if current == baseline + delta then Some(AlreadyReflected)
    else if current == baseline then Some(ApplyDelta)
    else None
  }

  function DecideAt(s: Store, ops: seq<Operation>, h: Holdings, id: Identity): Option<Action> {
    if Baseline(s, id).None? then None
    else Decide(Baseline(s, id).value, Amount(Obs(h, id)), DeltaAt(ops, id))
  }

  /** _detect_reflection_action: every identity has a baseline, and those that decide agree. */
  function Detect(s: Store, ops: seq<Operation>, h: Holdings): Option<Action> {
    var ids := Places(ops);
    if exists id | id in ids :: Baseline(s, id).None? then None
    else
      var reflected := exists id | id in ids :: DecideAt(s, ops, h, id) == Some(AlreadyReflected);
      var missing := exists id | id in ids :: DecideAt(s, ops, h, id) == Some(ApplyDelta);
      if reflected && !missing then Some(AlreadyReflected)
      else if missing && !reflected then Some(ApplyDelta)
      else None
  }

  // ---------- targets ----------

  predicate NamesPlace(source: Source) {
    source.At().Some? && source.Account() != "" && source.Broker() != ""
  }

  /** One absolute target of a ledger effect; None where building it raises. */
  function FlowTarget(op: Operation, action: Option<Action>, h: Holdings,
                      quotes: map<Identity, Quote>): Option<Target> {
    if !NamesPlace(op.source) then None
    else
      var id := op.source.At().value;
      var before := Obs(h, id);
      if id.broker == FUTU_BROKER then
        if id in quotes then Some(Target(id, before, quotes[id].amount, op.delta, FutuCash, Some(quotes[id]))) else None
      else if action == Some(AlreadyReflected) then
        Some(Target(id, before, Amount(before), op.delta, ManualCurrent, None))
      else if Amount(before) + op.delta < 0 then None
      else Some(Target(id, before, Amount(before) + op.delta, op.delta, Estimated, None))
  }

  function FlowTargets(ops: seq<Operation>, action: Option<Action>, h: Holdings,
                       quotes: map<Identity, Quote>): Option<seq<Target>> {
    if ops == [] then Some([])
    else
      var first := FlowTarget(ops[0], action, h, quotes);
      var rest := FlowTargets(ops[1..], action, h, quotes);
      if first.None? || rest.None? then None else Some([first.value] + rest.value)
  }

  function Befores(targets: seq<Target>): seq<Observation> {
    seq(|targets|, i requires 0 <= i < |targets| => targets[i].before)
  }

  predicate HasNonFutu(ops: seq<Operation>) {
    exists i | 0 <= i < |ops| :: ops[i].source.Broker() != FUTU_BROKER
  }

  /** The action a ledger preview runs with: the given one, or the detected one. */
  function ChosenAction(s: Store, ops: seq<Operation>, given: Option<Action>, h: Holdings): Option<Action> {
    if HasNonFutu(ops) && given != Some(ApplyDelta) && given != Some(AlreadyReflected) then Detect(s, ops, h) else given
  }

  function FlowPreview(s: Store, id: EffectId, e: Effect, previous: Option<Source>, given: Option<Action>,
                       historical: bool, h: Holdings, quotes: map<Identity, Quote>): Option<Payload>
  {
    var ops := Operations(previous, e.source);
    if ops.None? then None
    else
      var action := ChosenAction(s, ops.value, given, h);
      var targets := FlowTargets(InOrder(ops.value), action, h, quotes);
      if HasNonFutu(ops.value) && action.None? then None
      else if targets.None? || targets.value == [] then None
      else Some(Payload(id, e.source, Apply, historical, action, Befores(targets.value), targets.value))
  }

  function DriftPreview(id: EffectId, e: Effect, given: Option<Action>, historical: bool,
                        h: Holdings, quotes: map<Identity, Quote>): Option<Payload>
    requires e.source.Drift?
  {
    var place := e.source.identity;
    var before := Obs(h, place);
    if !NamesPlace(e.source) then None
    else if place.broker == FUTU_BROKER then
      if place in quotes then
        Some(Payload(id, e.source, Apply, historical, given, [before],
                     [Target(place, before, quotes[place].amount, 0, FutuCash, Some(quotes[place]))]))
      else None
    else if given == Some(AcceptCurrent) then Some(Payload(id, e.source, Keep, false, given, [before], []))
    else if given == Some(Restore) && e.source.lastConfirmed.Some? then
      Some(Payload(id, e.source, Apply, historical, given, [before],
                   [Target(place, before, e.source.lastConfirmed.value, 0, ConfirmedBaseline, None)]))
    else None
  }

  /** _build_preview of the newest version `e` of a chain; None where it raises. */
  function BuildPreview(s: Store, id: EffectId, e: Effect, previous: Option<Source>, given: Option<Action>,
                        historical: bool, h: Holdings, quotes: map<Identity, Quote>): Option<Payload>
  {
    if e.state !in {Pending, Blocked, Previewed, Stale} then None
    else if e.mode == Keep && !historical then Some(Payload(id, e.source, Keep, false, None, [], []))
    else if e.source.Drift? then DriftPreview(id, e, given, historical, h, quotes)
    else FlowPreview(s, id, e, previous, given, historical, h, quotes)
  }

  // ---------- laws ----------

  lemma PreviewableState(s: Store, id: EffectId, e: Effect, previous: Option<Source>, given: Option<Action>,
                         historical: bool, h: Holdings, quotes: map<Identity, Quote>)
    requires BuildPreview(s, id, e, previous, given, historical, h, quotes).Some?
    ensures e.state in {Pending, Blocked, Previewed, Stale}
  {
  }

  /** What the deltas of a list of targets add up to at one identity. */
  function TargetDelta(targets: seq<Target>, id: Identity): int {
    if targets == [] then 0
    else (if targets[0].identity == id then targets[0].delta else 0) + TargetDelta(targets[1..], id)
  }

  /** `ts` lists the target of each operation. */
  ghost predicate TargetsOf(ops: seq<Operation>, ts: seq<Target>, action: Option<Action>, h: Holdings,
                            quotes: map<Identity, Quote>) {
    |ts| == |ops| && forall i :: 0 <= i < |ts| ==> Some(ts[i]) == FlowTarget(ops[i], action, h, quotes)
  }

  lemma {:induction false} FlowTargetsShape(ops: seq<Operation>, action: Option<Action>, h: Holdings,
                                            quotes: map<Identity, Quote>)
    requires FlowTargets(ops, action, h, quotes).Some?
    ensures TargetsOf(ops, FlowTargets(ops, action, h, quotes).value, action, h, quotes)
    ensures forall id :: TargetDelta(FlowTargets(ops, action, h, quotes).value, id) == DeltaAt(ops, id)
  {
    if ops != [] {
      var ts := FlowTargets(ops, action, h, quotes).value;
      FlowTargetsShape(ops[1..], action, h, quotes);
      assert ts[1..] == FlowTargets(ops[1..], action, h, quotes).value;
      forall i | 0 <= i < |ts| ensures Some(ts[i]) == FlowTarget(ops[i], action, h, quotes) {
        if i > 0 { assert ts[i] == ts[1..][i - 1] && ops[i] == ops[1..][i - 1]; }
      }
    }
  }

  lemma {:induction false} InOrderKeeps(ops: seq<Operation>)
    requires |ops| <= 2
    ensures |InOrder(ops)| == |ops| && forall id :: DeltaAt(InOrder(ops), id) == DeltaAt(ops, id)
    ensures forall op :: op in InOrder(ops) <==> op in ops
  {
    if |ops| == 2 {
      assert ops == [ops[0], ops[1]];
      assert [ops[0], ops[1]][1..] == [ops[1]] && [ops[1], ops[0]][1..] == [ops[0]];
      assert [ops[1]][1..] == [] && [ops[0]][1..] == [];
    }
  }

  ghost predicate DistinctTargets(targets: seq<Target>) {
    forall i, j :: 0 <= i < j < |targets| ==> targets[i].identity != targets[j].identity
  }

  /** Each target carries the fresh holding; a non-Futu one adds the event to it, or keeps it. */
  ghost predicate FreshTargets(targets: seq<Target>, action: Option<Action>, h: Holdings) {
    forall t :: t in targets ==>
      && t.before == Obs(h, t.identity)
      && (t.identity.broker != FUTU_BROKER ==>
            t.amount == Amount(t.before) + if action == Some(AlreadyReflected) then 0 else t.delta)
  }

  lemma TargetsAreFresh(ops: seq<Operation>, ts: seq<Target>, action: Option<Action>, h: Holdings,
                        quotes: map<Identity, Quote>)
    requires TargetsOf(ops, ts, action, h, quotes)
    ensures FreshTargets(ts, action, h)
    ensures forall i :: 0 <= i < |ts| ==> ops[i].source.At() == Some(ts[i].identity)
  {
  }

  lemma {:induction false} TargetsAreDistinct(previous: Option<Source>, current: Source, ts: seq<Target>,
                           action: Option<Action>, h: Holdings, quotes: map<Identity, Quote>)
    requires Operations(previous, current).Some?
    requires TargetsOf(InOrder(Operations(previous, current).value), ts, action, h, quotes)
    ensures DistinctTargets(ts)
  {
    var ops := Operations(previous, current).value;
    TargetsAreFresh(InOrder(ops), ts, action, h, quotes);
    if |ops| == 2 { OperationsDistinct(previous, current, 0, 1); }
  }

  /** A ledger preview with a non-Futu target always runs with one of the two declared actions. */
  lemma NonFutuIsDecided(s: Store, ops: seq<Operation>, given: Option<Action>, h: Holdings)
    requires HasNonFutu(ops) && ChosenAction(s, ops, given, h).Some?
    ensures ChosenAction(s, ops, given, h) in {Some(ApplyDelta), Some(AlreadyReflected)}
  {
  }

  /**
   What a successful ledger preview promises: it is bound to the version's source; no identity is
   targeted twice; every target starts from the fresh holding and, outside Futu, is the holding
   plus the event or the holding itself; and the deltas are exactly the change of what the last
   applied version holds to what this one holds.
   */
  lemma {:induction false} FlowPreviewTargets(s: Store, id: EffectId, e: Effect, previous: Option<Source>,
                                              given: Option<Action>,
                           historical: bool, h: Holdings, quotes: map<Identity, Quote>)
    requires !e.source.Drift? && !(e.mode == Keep && !historical)
    requires BuildPreview(s, id, e, previous, given, historical, h, quotes).Some?
    ensures var p := BuildPreview(s, id, e, previous, given, historical, h, quotes).value;
            && p.id == id && p.source == e.source && p.mode == Apply && p.targets != []
            && DistinctTargets(p.targets) && FreshTargets(p.targets, p.action, h)
            && (forall t :: t in p.targets && t.identity.broker != FUTU_BROKER ==>
                  p.action in {Some(ApplyDelta), Some(AlreadyReflected)})
            && (forall at :: TargetDelta(p.targets, at) == Worth(Some(e.source), at) - Worth(previous, at))
  {
    hide FlowTarget, Detect, FreshTargets, DistinctTargets, Worth;
    var ops := Operations(previous, e.source).value;
    var p := BuildPreview(s, id, e, previous, given, historical, h, quotes).value;
    FlowTargetsShape(InOrder(ops), p.action, h, quotes);
    InOrderKeeps(ops);
    TargetsAreFresh(InOrder(ops), p.targets, p.action, h, quotes);
    TargetsAreDistinct(previous, e.source, p.targets, p.action, h, quotes);
    forall at ensures TargetDelta(p.targets, at) == Worth(Some(e.source), at) - Worth(previous, at) {
      OperationsAreTheChange(previous, e.source, at);
    }
    forall t | t in p.targets && t.identity.broker != FUTU_BROKER
      ensures p.action in {Some(ApplyDelta), Some(AlreadyReflected)}
    {
      var i :| 0 <= i < |p.targets| && p.targets[i] == t;
      assert InOrder(ops)[i] in ops;
      NonFutuIsDecided(s, ops, given, h);
    }
  }

  /**
   Detection at one identity is exact: already_reflected exactly when the holding is the chosen
   baseline plus the event, otherwise apply_delta exactly when it is the baseline, else a refusal.
   */
  lemma DetectionIsExact(s: Store, h: Holdings, op: Operation)
    requires op.source.At().Some?
    ensures var at := op.source.At().value;
            var found := Detect(s, [op], h);
            var current := Amount(Obs(h, at));
            match Baseline(s, at)
            case None => found.None?
            case Some(b) =>
              && (found == Some(AlreadyReflected) <==> current == b + op.delta)
              && (found == Some(ApplyDelta) <==> current == b && op.delta != 0)
              && (found.None? <==> current != b + op.delta && current != b)
  {
    var at := op.source.At().value;
    assert Places([op]) == {at} by {
      assert op in [op];
    }
    assert [op][1..] == [];
    assert DeltaAt([op], at) == op.delta;
  }

  /**
   Whenever a preview succeeds on the detected action at one non-Futu identity, its target is the
   chosen baseline plus the event, whichever way the operator and the scanner got there.
   */
  lemma DetectedTargetIsBaselinePlusEvent(s: Store, id: EffectId, e: Effect, previous: Option<Source>,
                                          given: Option<Action>,
                                          historical: bool, h: Holdings, quotes: map<Identity, Quote>, op: Operation)
    requires given !in {Some(ApplyDelta), Some(AlreadyReflected)}
    requires Operations(previous, e.source) == Some([op])
    requires op.source.At().Some? && op.source.Broker() != FUTU_BROKER
    requires FlowPreview(s, id, e, previous, given, historical, h, quotes).Some?
    ensures var at := op.source.At().value;
            var p := FlowPreview(s, id, e, previous, given, historical, h, quotes).value;
            && Baseline(s, at).Some? && |p.targets| == 1 && p.targets[0].identity == at
            && p.targets[0].amount == Baseline(s, at).value + op.delta
  {
    var p := FlowPreview(s, id, e, previous, given, historical, h, quotes).value;
    assert HasNonFutu([op]) by { assert [op][0].source.Broker() != FUTU_BROKER; }
    DetectionIsExact(s, h, op);
    FlowTargetsShape([op], p.action, h, quotes);
    assert Some(p.targets[0]) == FlowTarget(op, p.action, h, quotes);
  }

  /** Every Futu target is the authoritative cash of its own identity, whatever event or drift led to it. */
  lemma FutuTargetsAreQuoted(s: Store, id: EffectId, e: Effect, previous: Option<Source>, given: Option<Action>,
                             historical: bool, h: Holdings, quotes: map<Identity, Quote>, t: Target)
    requires BuildPreview(s, id, e, previous, given, historical, h, quotes).Some?
    requires t in BuildPreview(s, id, e, previous, given, historical, h, quotes).value.targets
             && t.identity.broker == FUTU_BROKER
    ensures t.identity in quotes && t.amount == quotes[t.identity].amount
    ensures t.origin == FutuCash && t.quote == Some(quotes[t.identity]) && t.before == Obs(h, t.identity)
  {
    if !e.source.Drift? {
      hide Detect, Operations, FlowTarget, FlowTargets, InOrder, DeltaAt;
      var ops := InOrder(Operations(previous, e.source).value);
      var p := BuildPreview(s, id, e, previous, given, historical, h, quotes).value;
      FlowTargetsShape(ops, p.action, h, quotes);
      FutuFlowTarget(ops, p.targets, p.action, h, quotes, t);
    }
  }

  lemma FutuFlowTarget(ops: seq<Operation>, ts: seq<Target>, action: Option<Action>, h: Holdings,
                       quotes: map<Identity, Quote>, t: Target)
    requires TargetsOf(ops, ts, action, h, quotes) && t in ts && t.identity.broker == FUTU_BROKER
    ensures t.identity in quotes && t.amount == quotes[t.identity].amount
    ensures t.origin == FutuCash && t.quote == Some(quotes[t.identity]) && t.before == Obs(h, t.identity)
  {
    var i :| 0 <= i < |ts| && ts[i] == t;
    assert Some(t) == FlowTarget(ops[i], action, h, quotes);
  }
}
