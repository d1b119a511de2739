/**
 The entities of the cash-flow effect workflow and the rules of one version chain.

 Money is in integer cents. A hash of a payload is modelled by the payload itself, so two
 hashes are equal exactly when the hashed payloads are.
 */
module EffectModel {

  import opened Optional

  /** The currencies that have a CASH asset. */
  datatype Currency = CNY | USD | HKD

  /** One cash holding: asset (by currency), account and broker. */
  datatype Identity = Identity(currency: Currency, account: string, broker: string)

  const FUTU_BROKER := "富途"

  datatype Holding = Holding(recordId: string, quantity: int)

  /** What a fresh read of one identity returns. */
  type Observation = Option<Holding>

  type Holdings = map<Identity, Holding>

  function Obs(h: Holdings, id: Identity): Observation {
    if id in h then Some(h[id]) else None
  }

  function Amount(o: Observation): int {
    if o.Some? then o.value.quantity else 0
  }

  /** One row of the external ledger. `sound` is the verdict of the checks on `detail`. */
  datatype FlowRecord = FlowRecord(recordId: string, date: Option<int>, account: string, broker: string,
                                   currency: Option<Currency>, amount: Option<int>, sound: bool, detail: string)

  /** The source facts one effect version is bound to. */
  datatype Source =
    | Flow(flow: FlowRecord)
      /** The ledger row vanished; `flow` is what had been seen of it. */
    | Deletion(flow: FlowRecord)
      /** A holding moved away from its confirmed baseline. */
    | Drift(identity: Identity, observed: Observation, day: int, lastConfirmed: Option<int>)
  {
    function RecordId(): string { if Drift? then "" else flow.recordId }

    function Account(): string { if Drift? then identity.account else flow.account }

    function Broker(): string { if Drift? then identity.broker else flow.broker }

    function Cash(): Option<Currency> { if Drift? then Some(identity.currency) else flow.currency }

    function Date(): Option<int> { if Drift? then Some(day) else flow.date }

    /** The signed amount; None is a raw amount that is not a finite decimal. */
    function Signed(): Option<int> { if Flow? then flow.amount else Some(0) }

    /** The cash identity the source names, when its currency is supported. */
    function At(): Option<Identity> {
      if this.Cash().Some? then Some(Identity(this.Cash().value, this.Account(), this.Broker())) else None
    }

    /** The row passes the completed-facts contract. */
    predicate Completed() {
      && Flow? && flow.sound && flow.recordId != "" && flow.date.Some? && flow.account != "" && flow.broker != ""
      && flow.currency.Some? && flow.amount.Some? && flow.amount.value != 0
    }
  }

  /** What a scan reads of one row: the raw account text and the normalised facts. */
  datatype LedgerRow = LedgerRow(rawAccount: string, flow: FlowRecord)

  datatype State =
    | Scheduled | Pending | Blocked | Previewed | Stale | Applying | CompensationPending
    | Applied | RecordOnly | Superseded
  {
    predicate Terminal() { Applied? || RecordOnly? }

    predicate Unresolved() { !Terminal() && !Superseded? }
  }

  datatype Mode = Apply | Keep

  /** The pair (effect_kind, record_id). */
  datatype Key = FlowKey(recordId: string) | DriftKey(identity: Identity)

  datatype EffectId = EffectId(key: Key, version: nat)

  /** An authoritative Futu cash amount with the profile evidence that goes into the hash. */
  datatype Quote = Quote(amount: int, profile: string)

  datatype Origin = FutuCash | ConfirmedBaseline | ManualCurrent | Estimated

  /** One absolute holding target of a preview. */
  datatype Target = Target(identity: Identity, before: Observation, amount: int, delta: int,
                           origin: Origin, quote: Option<Quote>)

  datatype Task = Task(targets: seq<Target>, resolved: bool)

  /** One row of the effects table; `deferred` are its source_change_deferred events. */
  datatype Effect = Effect(version: nat, source: Source, state: State, mode: Mode,
                           targets: seq<Target>, deferred: seq<Source>, task: Option<Task>)

  type Chain = seq<Effect>
  type Chains = map<Key, Chain>

  /** What is recorded about one holding; amounts and hashes are read off the observation. */
  datatype Fingerprint = Fingerprint(confirmed: Option<Observation>, observed: Observation)
  type Prints = map<Identity, Fingerprint>

  datatype Store = Store(chains: Chains, prints: Prints)

  function ChainOf(chains: Chains, key: Key): Chain {
    if key in chains then chains[key] else []
  }

  function Put(chains: Chains, key: Key, chain: Chain): Chains {
    if chain == [] then chains else chains[key := chain]
  }

  function Latest(chain: Chain): Option<Effect> {
    if chain == [] then None else Some(chain[|chain| - 1])
  }

  function SetLatest(chain: Chain, e: Effect): Chain
    requires chain != []
  {
    chain[|chain| - 1 := e]
  }

  /**
   create_version: the newest version is returned when its source hash is the same; otherwise
   a version one higher is inserted, and an unresolved predecessor becomes superseded.
   */
  function AddVersion(chain: Chain, source: Source, state: State, mode: Mode): Chain {
    var latest := Latest(chain);
    if latest.Some? && latest.value.source == source then chain
    else
      var older := if latest.Some? && latest.value.state.Unresolved()
                   then SetLatest(chain, latest.value.(state := Superseded)) else chain;
      var version := if latest.Some? then latest.value.version + 1 else 1;
      older + [Effect(version, source, state, mode, [], [], None)]
  }

  /** The newest version that was applied; get_previous_applied asks it of the versions before one. */
  function LastApplied(chain: Chain): Option<Source> {
    if chain == [] then None
    else if chain[|chain| - 1].state == Applied then Some(chain[|chain| - 1].source)
    else LastApplied(chain[..|chain| - 1])
  }

  function PreviousApplied(chain: Chain): Option<Source> {
    if chain == [] then None else LastApplied(chain[..|chain| - 1])
  }

  /** _defer_source_change: remember a new source once while compensation owns the version. */
  function Defer(chain: Chain, source: Source): Chain
    requires chain != []
  {
    var e := chain[|chain| - 1];
    if source in e.deferred then chain else SetLatest(chain, e.(deferred := e.deferred + [source]))
  }

  /** Versions are 1..n, neighbours differ in source, and only the newest may be unresolved. */
  ghost predicate ChainOk(chain: Chain) {
    && (forall i :: 0 <= i < |chain| ==> chain[i].version == i + 1)
    && (forall i, j :: 0 <= i < j < |chain| && j == i + 1 ==> chain[i].source != chain[j].source)
    && (forall i :: 0 <= i < |chain| - 1 ==> !chain[i].state.Unresolved())
    && (chain != [] ==> chain[|chain| - 1].state != Superseded)
  }

  /**
   What one step may do to a chain: versions are never removed and keep their source and mode;
   superseded never changes; for ledger effects applied and record_only never change either;
   and only the newest version can become applied.
   */
  ghost predicate Evolves(key: Key, a: Chain, b: Chain) {
    && |a| <= |b|
    && (forall i :: 0 <= i < |a| ==>
          b[i].version == a[i].version && b[i].source == a[i].source && b[i].mode == a[i].mode)
    && (forall i :: 0 <= i < |a| && a[i].state == Superseded ==> b[i].state == Superseded)
    && (key.FlowKey? ==> forall i :: 0 <= i < |a| && a[i].state.Terminal() ==> b[i].state == a[i].state)
    && (forall i :: 0 <= i < |b| && b[i].state == Applied && !(i < |a| && a[i].state == Applied) ==> i == |a| - 1)
  }

  /** The row an insertion adds, and what it leaves of the older rows. */
  lemma {:induction false} AddVersionShape(chain: Chain, source: Source, state: State, mode: Mode)
    requires chain == [] || chain[|chain| - 1].source != source
    ensures var next := AddVersion(chain, source, state, mode);
            && |next| == |chain| + 1
            && next[|chain|].source == source && next[|chain|].state == state && next[|chain|].mode == mode
            && next[|chain|].version == (if chain == [] then 1 else chain[|chain| - 1].version + 1)
            && (forall i :: 0 <= i < |chain| - 1 ==> next[i] == chain[i])
            && (chain != [] ==>
                  next[|chain| - 1] == if chain[|chain| - 1].state.Unresolved()
                                       then chain[|chain| - 1].(state := Superseded) else chain[|chain| - 1])
  {
  }

  lemma {:induction false} AddVersionKeepsApplied(chain: Chain, source: Source, state: State, mode: Mode)
    requires state != Applied
    ensures LastApplied(AddVersion(chain, source, state, mode)) == LastApplied(chain)
  {
    var next := AddVersion(chain, source, state, mode);
    if next != chain {
      AddVersionShape(chain, source, state, mode);
      var older := next[..|chain|];
      assert LastApplied(next) == LastApplied(older);
      if chain != [] {
        assert older[..|chain| - 1] == chain[..|chain| - 1];
      }
    }
  }

  lemma {:induction false} AddVersionOk(chain: Chain, source: Source, state: State, mode: Mode)
    requires ChainOk(chain) && state != Superseded
    ensures ChainOk(AddVersion(chain, source, state, mode))
  {
    if chain == [] || chain[|chain| - 1].source != source {
      AddVersionShape(chain, source, state, mode);
      var next := AddVersion(chain, source, state, mode);
      forall i, j | 0 <= i < j < |next| && j == i + 1 ensures next[i].source != next[j].source {
        assert i < |chain| && next[i].source == chain[i].source;
      }
    }
  }

  lemma {:induction false} AddVersionEvolves(key: Key, chain: Chain, source: Source, state: State, mode: Mode)
    requires ChainOk(chain) && state != Applied
    ensures Evolves(key, chain, AddVersion(chain, source, state, mode))
  {
    if chain == [] || chain[|chain| - 1].source != source {
      AddVersionShape(chain, source, state, mode);
    }
  }

  lemma AddVersionAppliesNothing(chain: Chain, source: Source, state: State, mode: Mode)
    requires state != Applied
    ensures AppliesNothing(chain, AddVersion(chain, source, state, mode))
  {
    if chain == [] || chain[|chain| - 1].source != source {
      AddVersionShape(chain, source, state, mode);
    }
  }

  lemma {:induction false} AddVersionKeeps(key: Key, chain: Chain, source: Source, state: State, mode: Mode)
    requires ChainOk(chain) && state != Superseded && state != Applied
    ensures ChainOk(AddVersion(chain, source, state, mode))
    ensures Evolves(key, chain, AddVersion(chain, source, state, mode))
    ensures LastApplied(AddVersion(chain, source, state, mode)) == LastApplied(chain)
    ensures Latest(AddVersion(chain, source, state, mode)).value.source == source
  {
    AddVersionKeepsApplied(chain, source, state, mode);
    AddVersionOk(chain, source, state, mode);
    AddVersionEvolves(key, chain, source, state, mode);
    if chain == [] || chain[|chain| - 1].source != source {
      AddVersionShape(chain, source, state, mode);
    }
  }

  /** Rewriting the newest row in place; the state may not leave an absorbing one. */
  lemma {:induction false} SetLatestKeeps(key: Key, chain: Chain, e: Effect)
    requires ChainOk(chain) && chain != []
    requires e.version == chain[|chain| - 1].version && e.source == chain[|chain| - 1].source
    requires e.mode == chain[|chain| - 1].mode
    requires e.state != Superseded
    requires key.FlowKey? && chain[|chain| - 1].state.Terminal() ==> e.state == chain[|chain| - 1].state
    ensures ChainOk(SetLatest(chain, e)) && Evolves(key, chain, SetLatest(chain, e))
    ensures PreviousApplied(SetLatest(chain, e)) == PreviousApplied(chain)
    ensures (e.state == Applied <==> chain[|chain| - 1].state == Applied) ==>
              LastApplied(SetLatest(chain, e)) == LastApplied(chain)
  {
    assert SetLatest(chain, e)[..|chain| - 1] == chain[..|chain| - 1];
  }

  lemma {:induction false} DeferKeeps(key: Key, chain: Chain, source: Source)
    requires ChainOk(chain) && chain != []
    ensures ChainOk(Defer(chain, source)) && Evolves(key, chain, Defer(chain, source))
    ensures LastApplied(Defer(chain, source)) == LastApplied(chain)
    ensures Defer(Defer(chain, source), source) == Defer(chain, source)
  {
    var e := chain[|chain| - 1];
    if source !in e.deferred {
      SetLatestKeeps(key, chain, e.(deferred := e.deferred + [source]));
      assert SetLatest(chain, e.(deferred := e.deferred + [source]))[..|chain| - 1] == chain[..|chain| - 1];
    }
  }

  /** Two changes in a row; the second may apply what was the newest version before both. */
  lemma {:induction false} EvolvesThen(key: Key, a: Chain, b: Chain, c: Chain)
    requires Evolves(key, a, b) && Evolves(key, b, c)
    requires forall i :: 0 <= i < |c| && c[i].state == Applied && !(i < |b| && b[i].state == Applied) ==> i == |a| - 1
    ensures Evolves(key, a, c)
  {
    forall i | 0 <= i < |a|
      ensures c[i].version == a[i].version && c[i].source == a[i].source
              && c[i].mode == a[i].mode
    {
      assert b[i].version == a[i].version;
    }
  }

  /** A change that applies no version. */
  ghost predicate AppliesNothing(a: Chain, b: Chain) {
    forall i :: 0 <= i < |b| && b[i].state == Applied ==> i < |a| && a[i].state == Applied
  }
}
