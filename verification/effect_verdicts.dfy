/** What the source check, a preview and a confirmation leave of a version, for every answer they can give. */
module EffectVerdicts {
  import opened EffectModel
  import opened Optional
  import opened EffectOperations
  import opened EffectScan
  import opened EffectPreview
  import opened EffectConfirm
  import opened EffectInvariants
  import opened EffectConfirmLaws
  import opened EffectMoves
  import opened EffectOrder
  import opened EffectDetection
  import opened EffectDiscovery

  // ---------- the source check ----------

  /** The first row of the record, if it is listed. */
  lemma {:induction false} FindRowIsFirst(ledger: seq<LedgerRow>, recordId: string)
    ensures match FindRow(ledger, recordId)
            case None => forall i :: 0 <= i < |ledger| ==> ledger[i].flow.recordId != recordId
            case Some(row) => exists n :: 0 <= n < |ledger| && ledger[n] == row && row.flow.recordId == recordId
                                          && forall i :: 0 <= i < n ==> ledger[i].flow.recordId != recordId
  {
    if ledger != [] && ledger[0].flow.recordId != recordId {
      FindRowIsFirst(ledger[1..], recordId);
      match FindRow(ledger, recordId) {
        case None =>
          forall i | 0 <= i < |ledger| ensures ledger[i].flow.recordId != recordId {
            if i > 0 { assert ledger[1..][i - 1] == ledger[i]; }
          }
        case Some(row) =>
          var n :| 0 <= n < |ledger[1..]| && ledger[1..][n] == row && row.flow.recordId == recordId
                   && forall i :: 0 <= i < n ==> ledger[1..][i].flow.recordId != recordId;
          forall i | 0 <= i < n + 1 ensures ledger[i].flow.recordId != recordId {
            if i > 0 { assert ledger[1..][i - 1] == ledger[i]; }
          }
          assert ledger[n + 1] == row;
      }
    }
  }

  /** The source the ledger has now for the newest version: its first row, or that the row vanished. */
  function LedgerSource(recordId: string, e: Effect, ledger: seq<LedgerRow>): Source
    requires !e.source.Drift?
  {
    var row := FindRow(ledger, recordId);
    if row.Some? then Flow(row.value.flow) else Deletion(e.source.flow)
  }

  /**
   The source check. A version whose source is what the ledger has is left alone. Otherwise the source is remembered in
   compensation; else it becomes a new version: a row as a scan would discover it, a vanished row as a deletion, to be
   applied exactly when the version was applied.
   */
  lemma RefreshExactly(key: Key, chain: Chain, ledger: seq<LedgerRow>, facts: Facts, state: State, mode: Mode)
    requires key.FlowKey? && chain != [] && !chain[|chain| - 1].source.Drift? && chain[|chain| - 1].state != Applying
    requires var row := FindRow(ledger, key.recordId); row.Some? ==> DiscoveredAs(row.value.flow, facts, state, mode)
    ensures var e := chain[|chain| - 1];
            var source := LedgerSource(key.recordId, e, ledger);
            var (next, moved) := Refresh(key, chain, ledger, facts);
            if source == e.source then next == chain && !moved
            else if e.state == CompensationPending then Remembers(chain, next, source) && !moved
            else
              && moved
              && if source.Flow? then Inserts(chain, next, source, state, mode)
                 else Inserts(chain, next, source, Pending,
                               if e.state == Applied && e.mode == Apply then Apply else Keep)
  {
    hide LastApplied;
    var e := chain[|chain| - 1];
    var source := LedgerSource(key.recordId, e, ledger);
    var row := FindRow(ledger, key.recordId);
    if row.Some? { DesiredExactly(row.value.flow, facts); }
    if source != e.source {
      AddVersionInserts(chain, source, state, mode);
      AddVersionInserts(chain, source, Pending, if e.state == Applied && e.mode == Apply then Apply else Keep);
    }
  }

  /** A row that vanishes while its event is confirmed is taken back at every identity where it was applied. */
  lemma RefreshTakesBack(key: Key, chain: Chain, ledger: seq<LedgerRow>, facts: Facts)
    requires key.FlowKey? && chain != [] && chain[|chain| - 1].source.Flow? && chain[|chain| - 1].state == Applied
    requires chain[|chain| - 1].mode == Apply && chain[|chain| - 1].source.Signed().Some?
    requires forall i :: 0 <= i < |ledger| ==> ledger[i].flow.recordId != key.recordId
    ensures var latest := chain[|chain| - 1];
            var next := Refresh(key, chain, ledger, facts).0;
            && Inserts(chain, next, Deletion(latest.source.flow), Pending, Apply)
            && var ops := Operations(PreviousApplied(next), next[|chain|].source);
               ops.Some? && forall at :: DeltaAt(ops.value, at) == -Worth(Some(latest.source), at)
  {
    hide OnlyDeferred;
    FindRowIsFirst(ledger, key.recordId);
    RefreshExactly(key, chain, ledger, facts, Blocked, Apply);
    var next := Refresh(key, chain, ledger, facts).0;
    assert next[..|chain|] == chain;
    assert PreviousApplied(next) == Some(chain[|chain| - 1].source);
    var deletion := Deletion(chain[|chain| - 1].source.flow);
    var source := chain[|chain| - 1].source;
    assert Operations(Some(source), deletion).Some?;
    var ops := Operations(Some(source), deletion).value;
    forall at ensures DeltaAt(ops, at) == -Worth(Some(source), at) {
      OperationsAreTheChange(Some(source), deletion, at);
    }
  }

  /** Nothing that is not a ledger version is checked. */
  lemma RefreshOfDrift(key: Key, chain: Chain, ledger: seq<LedgerRow>, facts: Facts)
    requires chain != [] && (key.DriftKey? || chain[|chain| - 1].source.Drift?)
    ensures Refresh(key, chain, ledger, facts) == (chain, false)
  {
  }

  // ---------- previews ----------

  /**
   What a preview leaves. A version that is not the newest, or whose source has changed, gives no preview; a preview
   that fails blocks the version where it could have been previewed; one that succeeds stores its targets on it.
   */
  lemma PreviewExactly(w: World, id: EffectId, given: Option<Action>, historical: bool, facts: Facts)
    ensures var (w', p) := Preview(w, id, given, historical, facts);
            var chain := ChainAt(w, id.key);
            && w'.holdings == w.holdings && w'.ledger == w.ledger && w'.store.prints == w.store.prints
            && (forall k :: k != id.key ==> ChainAt(w', k) == ChainAt(w, k))
            && (if !IsLatest(chain, id.version) then p == None && ChainAt(w', id.key) == chain
                else
                  var (current, moved) := Refresh(id.key, chain, w.ledger, facts);
                  && current != []
                  && var e := current[|current| - 1];
                     var found := Recomputed(w, id, current, given, historical, facts);
                     if moved then p == None && ChainAt(w', id.key) == current
                     else if found.Some? then
                       p == found
                       && ChainAt(w', id.key) == SetLatest(current,
                                                           e.(state := Previewed, targets := found.value.targets))
                     else
                       p == None
                       && ChainAt(w', id.key) == if e.state in {Pending, Previewed, Stale, Blocked}
                                                 then SetLatest(current, e.(state := Blocked)) else current)
  {
    hide BuildPreview, LastApplied;
    var chain := ChainAt(w, id.key);
    if IsLatest(chain, id.version) { RefreshNotEmpty(id.key, chain, w.ledger, facts); }
  }

  lemma RefreshNotEmpty(key: Key, chain: Chain, ledger: seq<LedgerRow>, facts: Facts)
    requires chain != []
    ensures Refresh(key, chain, ledger, facts).0 != []
  {
  }

  /** Only waiting versions give a preview; that of a record-only one is empty unless asked otherwise. */
  lemma PreviewableExactly(s: Store, id: EffectId, e: Effect, previous: Option<Source>, given: Option<Action>,
                           historical: bool, h: Holdings, quotes: map<Identity, Quote>)
    ensures var p := BuildPreview(s, id, e, previous, given, historical, h, quotes);
            && (p.Some? ==> e.state in {Pending, Blocked, Previewed, Stale})
            && (e.state in {Pending, Blocked, Previewed, Stale} && e.mode == Keep && !historical ==>
                  p == Some(Payload(id, e.source, Keep, false, None, [], [])))
            && (e.state in {Pending, Blocked, Previewed, Stale} && (e.mode == Apply || historical) ==>
                  p == if e.source.Drift? then DriftPreview(id, e, given, historical, h, quotes)
                       else FlowPreview(s, id, e, previous, given, historical, h, quotes))
  {
  }

  // ---------- what each verdict means ----------

  /** Everything a confirmation has to find before it writes a holding. */
  ghost predicate Guards(w: World, id: EffectId, hash: Payload, given: Option<Action>, historical: bool, facts: Facts,
                         reread: Holdings)
  {
    var chain := ChainAt(w, id.key);
    && IsLatest(chain, id.version) && chain[|chain| - 1].state == Previewed && hash.mode == Apply
    && Recomputed(w, id, chain, given, historical, facts) == Some(hash)
    && (id.key.FlowKey? && !chain[|chain| - 1].source.Drift? ==>
          LedgerSource(id.key.recordId, chain[|chain| - 1], w.ledger) == chain[|chain| - 1].source)
    && (id.key.FlowKey? ==>
          var source := chain[|chain| - 1].source;
          source.Date().Some? && (source.Account(), source.Date().value) in facts.navFinal)
    && (forall t :: t in hash.targets ==> Obs(reread, t.identity) == t.before)
    && (forall t :: t in hash.targets ==> t.identity.account in EffectAccounts(id.key, chain, w.ledger))
  }

  /** A holding is written only behind all the guards. */
  lemma WritesOnlyGuarded(w: World, id: EffectId, hash: Payload, given: Option<Action>, historical: bool, facts: Facts,
                          ambient: Ambient)
    requires Wrote(Confirm(w, id, hash, given, historical, facts, ambient).1)
    ensures Guards(w, id, hash, given, historical, facts, ambient.reread)
  {
    hide ConfirmLatest, BuildPreview, EffectAccounts, WroteExactly;
    ConfirmWritesThePreview(w, id, hash, given, historical, facts, ambient);
  }

  /** What a confirmation leaves of the chain under each verdict; `current` is the chain after the source check. */
  ghost predicate Means(key: Key, chain: Chain, current: Chain, next: Chain, v: Verdict, hash: Payload,
                        later: seq<LedgerRow>)
    requires chain != [] && current != []
  {
    var e := current[|current| - 1];
    match v
    case SourceMoved => |next| == |chain| + 1 && next == current
    case StaleHash => next == SetLatest(current, e.(state := Stale))
    case Kept => next == SetLatest(current, e.(state := RecordOnly)) && e.state == Previewed
    case Compensating(n) =>
      n < |hash.targets| && e.state == Previewed
      && next == SetLatest(current, e.(state := CompensationPending, task := Some(Task(hash.targets, false))))
    case AppliedNow =>
      e.state == Previewed && next == SetLatest(current, e.(state := Applied))
      && (key.FlowKey? && !e.source.Drift? ==> LedgerSource(key.recordId, e, later) == e.source)
    case AppliedThenMoved =>
      e.state == Previewed && |next| == |current| + 1 && next[..|current|] == SetLatest(current, e.(state := Applied))
      && key.FlowKey? && !e.source.Drift? && LedgerSource(key.recordId, e, later) != e.source
      && next[|current|].source == LedgerSource(key.recordId, e, later)
    case Refused => next == current
  }

  lemma RefreshMoved(key: Key, chain: Chain, ledger: seq<LedgerRow>, facts: Facts)
    requires chain != []
    ensures var (next, moved) := Refresh(key, chain, ledger, facts);
            var e := chain[|chain| - 1];
            && (moved ==> |next| == |chain| + 1)
            && (moved ==> key.FlowKey? && !e.source.Drift? && LedgerSource(key.recordId, e, ledger) != e.source
                          && next[|chain|].source == LedgerSource(key.recordId, e, ledger))
            && (moved && !e.state.Unresolved() ==> next[..|chain|] == chain)
            && (!moved && e.state != CompensationPending ==>
                  && next == chain
                  && (key.FlowKey? && !e.source.Drift? ==> LedgerSource(key.recordId, e, ledger) == e.source))
  {
    hide LastApplied;
    var e := chain[|chain| - 1];
    if key.FlowKey? && !e.source.Drift? {
      var (source, state, mode) := CurrentSource(key, e, ledger, facts);
      if source != e.source {
        AddVersionShape(chain, source, state, mode);
        var next := AddVersion(chain, source, state, mode);
        if !e.state.Unresolved() { assert next[..|chain|] == chain; }
      }
    }
  }

  /** The verdicts of the part of a confirmation that follows the hash. */
  lemma CurrentMeans(stay: Commit, key: Key, p: Payload, locked: set<string>, facts: Facts, ambient: Ambient)
    requires stay.chain != [] && stay.verdict.Refused?
    ensures var c := ConfirmCurrent(stay, key, p, locked, facts, ambient);
            && !c.verdict.SourceMoved? && !c.verdict.StaleHash?
            && Means(key, stay.chain, stay.chain, c.chain, c.verdict, p, ambient.laterLedger)
  {
    hide WriteTargets, ConfirmPrints, LastApplied, Refresh;
    var e := stay.chain[|stay.chain| - 1];
    RefreshMoved(key, SetLatest(stay.chain, e.(state := Applied)), ambient.laterLedger, facts);
  }

  /**
   The answers of a confirmation mean what they say. Kept is record_only; compensating keeps all targets in a task;
   applied is applied, with the ledger read last still agreeing or with its correction as the next version; a stale
   hash makes the version stale, a moved source has a correction as its newest version, and a refusal leaves the
   version as it was.
   */
  lemma VerdictMeans(w: World, id: EffectId, hash: Payload, given: Option<Action>, historical: bool, facts: Facts,
                     ambient: Ambient)
    requires IsLatest(ChainAt(w, id.key), id.version)
    ensures var (w', v) := Confirm(w, id, hash, given, historical, facts, ambient);
            var chain := ChainAt(w, id.key);
            var current := Refresh(id.key, chain, w.ledger, facts).0;
            && current != [] && Means(id.key, chain, current, ChainAt(w', id.key), v, hash, ambient.laterLedger)
            && (forall k :: k != id.key ==> ChainAt(w', k) == ChainAt(w, k))
  {
    hide BuildPreview, ConfirmCurrent, EffectAccounts, LastApplied, Refresh;
    var chain := ChainAt(w, id.key);
    RefreshMoved(id.key, chain, w.ledger, facts);
    RefreshNotEmpty(id.key, chain, w.ledger, facts);
    var (current, moved) := Refresh(id.key, chain, w.ledger, facts);
    var stay := Commit(current, w.store.prints, w.ledger, w.holdings, Refused);
    CurrentMeans(stay, id.key, hash, EffectAccounts(id.key, chain, w.ledger), facts, ambient);
  }

  /**
   Which answer a confirmation of the newest version gives. It says that the source moved exactly when the source check
   corrected the version, that the hash is stale exactly when a preview made now differs from it, and kept exactly for
   the hash of a record-only preview; it writes exactly when every guard holds; in every other case it refuses.
   */
  lemma WhichVerdict(w: World, id: EffectId, hash: Payload, given: Option<Action>, historical: bool, facts: Facts,
                     ambient: Ambient)
    requires IsLatest(ChainAt(w, id.key), id.version)
    ensures var v := Confirm(w, id, hash, given, historical, facts, ambient).1;
            var (current, moved) := Refresh(id.key, ChainAt(w, id.key), w.ledger, facts);
            && current != []
            && var now := Recomputed(w, id, current, given, historical, facts);
               && (v.SourceMoved? <==> moved)
               && (v.StaleHash? <==> !moved && now.Some? && now.value != hash)
               && (v.Kept? <==> !moved && now == Some(hash) && hash.mode == Keep
                                && current[|current| - 1].state == Previewed)
               && (Wrote(v) <==> Guards(w, id, hash, given, historical, facts, ambient.reread))
  {
    hide BuildPreview, EffectAccounts, LastApplied, Refresh, WriteTargets, ConfirmPrints;
    var chain := ChainAt(w, id.key);
    RefreshMoved(id.key, chain, w.ledger, facts);
    RefreshNotEmpty(id.key, chain, w.ledger, facts);
    var (current, moved) := Refresh(id.key, chain, w.ledger, facts);
    var stay := Commit(current, w.store.prints, w.ledger, w.holdings, Refused);
    var c := ConfirmCurrent(stay, id.key, hash, EffectAccounts(id.key, chain, w.ledger), facts, ambient);
    CurrentMeans(stay, id.key, hash, EffectAccounts(id.key, chain, w.ledger), facts, ambient);
    if InLedger(id.key, chain[|chain| - 1], w.ledger) { StillInLedger(id.key, chain, w.ledger, facts); }
    if Wrote(Confirm(w, id, hash, given, historical, facts, ambient).1) {
      WritesOnlyGuarded(w, id, hash, given, historical, facts, ambient);
    }
  }

  /** A confirmation of a version that is not the newest changes nothing. */
  lemma OldVersionsRefused(w: World, id: EffectId, hash: Payload, given: Option<Action>, historical: bool, facts: Facts,
                           ambient: Ambient)
    requires !IsLatest(ChainAt(w, id.key), id.version)
    ensures Confirm(w, id, hash, given, historical, facts, ambient) == (w, Refused)
  {
  }

  // ---------- a preview and its confirmation ----------

  /** The ledger has this source for the version. */
  predicate InLedger(key: Key, e: Effect, ledger: seq<LedgerRow>) {
    key.FlowKey? && !e.source.Drift? ==> LedgerSource(key.recordId, e, ledger) == e.source
  }

  lemma StillInLedger(key: Key, chain: Chain, ledger: seq<LedgerRow>, facts: Facts)
    requires chain != [] && InLedger(key, chain[|chain| - 1], ledger)
    ensures Refresh(key, chain, ledger, facts) == (chain, false)
  {
  }

  /** The world right after a preview that succeeded. */
  lemma PreviewLeaves(w: World, id: EffectId, given: Option<Action>, historical: bool, facts: Facts)
    requires Preview(w, id, given, historical, facts).1.Some?
    ensures var (w1, p) := Preview(w, id, given, historical, facts);
            var before, chain := ChainAt(w, id.key), ChainAt(w1, id.key);
            && IsLatest(before, id.version) && before[|before| - 1].state in {Pending, Blocked, Previewed, Stale}
            && chain == SetLatest(before, before[|before| - 1].(state := Previewed, targets := p.value.targets))
            && Recomputed(w, id, before, given, historical, facts) == p
            && InLedger(id.key, chain[|chain| - 1], w1.ledger)
            && w1 == w.(store := w.store.(chains := w1.store.chains))
            && (forall k :: k != id.key ==> ChainAt(w1, k) == ChainAt(w, k))
  {
    hide BuildPreview, LastApplied, Refresh;
    PreviewExactly(w, id, given, historical, facts);
    var chain := ChainAt(w, id.key);
    RefreshMoved(id.key, chain, w.ledger, facts);
    var current := Refresh(id.key, chain, w.ledger, facts).0;
    PayloadSource(w.store, id, current[|current| - 1], PreviousApplied(current), given, historical, w.holdings,
                  facts.quotes);
    RefreshState(id.key, chain, w.ledger, facts);
  }

  lemma RefreshState(key: Key, chain: Chain, ledger: seq<LedgerRow>, facts: Facts)
    requires chain != [] && !Refresh(key, chain, ledger, facts).1
    ensures var next := Refresh(key, chain, ledger, facts).0;
            next != [] && next[|next| - 1].state == chain[|chain| - 1].state
  {
  }

  lemma PayloadSource(s: Store, id: EffectId, e: Effect, previous: Option<Source>, given: Option<Action>,
                      historical: bool, h: Holdings, quotes: map<Identity, Quote>)
    requires BuildPreview(s, id, e, previous, given, historical, h, quotes).Some?
    ensures BuildPreview(s, id, e, previous, given, historical, h, quotes).value.source == e.source
    ensures e.state in {Pending, Blocked, Previewed, Stale}
  {
  }

  /** Every target names an account. */
  lemma TargetsName(s: Store, id: EffectId, e: Effect, previous: Option<Source>, given: Option<Action>,
                    historical: bool, h: Holdings, quotes: map<Identity, Quote>, t: Target)
    requires BuildPreview(s, id, e, previous, given, historical, h, quotes).Some?
    requires t in BuildPreview(s, id, e, previous, given, historical, h, quotes).value.targets
    ensures t.identity.account != ""
  {
    hide Detect, Operations, FlowTargets;
    var p := BuildPreview(s, id, e, previous, given, historical, h, quotes).value;
    if !e.source.Drift? && !(e.mode == Keep && !historical) {
      TargetsExactly(InOrder(Operations(previous, e.source).value), p.action, h, quotes);
    }
  }

  /** The accounts of a stored preview are locked when it is confirmed. */
  lemma StoredAreLocked(key: Key, chain: Chain, ledger: seq<LedgerRow>)
    requires chain != []
    ensures forall t :: t in chain[|chain| - 1].targets && t.identity.account != "" ==>
              t.identity.account in EffectAccounts(key, chain, ledger)
  {
  }

  /** Right after a preview, the same preview is computed again. */
  lemma PreviewedAgain(w: World, id: EffectId, given: Option<Action>, historical: bool, facts: Facts, later: Facts)
    requires WorldOk(w) && Preview(w, id, given, historical, facts).1.Some? && later.quotes == facts.quotes
    ensures var (w1, p) := Preview(w, id, given, historical, facts);
            ChainAt(w1, id.key) != [] && Recomputed(w1, id, ChainAt(w1, id.key), given, historical, later) == p
  {
    hide FlowPreview, LastApplied, Preview, Baseline, TaskBooked, ChainOk;
    PreviewLeaves(w, id, given, historical, facts);
    var (w1, p) := Preview(w, id, given, historical, facts);
    var before, chain := ChainAt(w, id.key), ChainAt(w1, id.key);
    assert chain[..|chain| - 1] == before[..|before| - 1];
    var e, e' := before[|before| - 1], chain[|chain| - 1];
    assert Good(id.key, before) && RowOk(id.key, e);
    if !e.source.Drift? {
      SameBaselines(w, w1);
      SamePreview(w.store, w1.store, id, e, e', PreviousApplied(before), given, historical, w.holdings, facts.quotes);
    }
  }

  lemma SameBaselines(w: World, w1: World)
    requires w1.store.prints == w.store.prints
    requires forall k: Key :: k.DriftKey? ==> ChainAt(w1, k) == ChainAt(w, k)
    ensures forall at :: Baseline(w1.store, at) == Baseline(w.store, at)
  {
    forall at ensures Baseline(w1.store, at) == Baseline(w.store, at) {
      assert ChainAt(w1, DriftKey(at)) == ChainAt(w, DriftKey(at));
    }
  }

  /** A ledger version may be written: the NAV before it is final. */
  predicate NavFinal(key: Key, source: Source, facts: Facts) {
    key.FlowKey? ==> source.Date().Some? && (source.Account(), source.Date().value) in facts.navFinal
  }

  /** What confirming a current hash does, for each mode of the payload. */
  lemma CurrentExactly(stay: Commit, key: Key, p: Payload, locked: set<string>, facts: Facts, ambient: Ambient)
    requires stay.chain != [] && stay.chain[|stay.chain| - 1].state == State.Previewed && stay.verdict == Refused
    requires forall t :: t in p.targets ==> t.identity.account in locked
    requires forall t :: t in p.targets ==> Obs(ambient.reread, t.identity) == t.before
    ensures var c := ConfirmCurrent(stay, key, p, locked, facts, ambient);
            var e := stay.chain[|stay.chain| - 1];
            var r := WriteTargets(ambient.reread, p.targets, ambient.outcomes);
            if p.mode == Keep then
              c == ConfirmKept(stay, ambient.reread)
            else if !NavFinal(key, e.source, facts) then c == stay
            else if r.confirmed < |p.targets| then
              c == Commit(SetLatest(stay.chain, e.(state := CompensationPending, task := Some(Task(p.targets, false)))),
                          stay.prints, stay.ledger, r.holdings, Compensating(r.confirmed))
            else
              && c.holdings == r.holdings && c.prints == ConfirmPrints(stay.prints, p.targets, r.holdings)
              && c.ledger == ambient.laterLedger
              && c.verdict == if InLedger(key, e, ambient.laterLedger) then AppliedNow else AppliedThenMoved
  {
    hide WriteTargets, ConfirmPrints, LastApplied, Refresh;
    var applied := SetLatest(stay.chain, stay.chain[|stay.chain| - 1].(state := Applied));
    RefreshMoved(key, applied, ambient.laterLedger, facts);
  }

  /**
   A confirmation right after its preview does what was previewed. With nothing to write it is kept as record_only, and
   an external change confirms its baseline at the second read; before a final NAV it is refused and changes nothing;
   otherwise the targets are written in order up to the first write that fails. If none fails the version is applied and
   every baseline of a target is what was read back; if one fails, all targets go into a compensation and no baseline
   moves.
   */
  lemma ConfirmFollowsPreview(w: World, id: EffectId, given: Option<Action>, historical: bool, facts: Facts,
                              later: Facts, ambient: Ambient)
    requires WorldOk(w) && Preview(w, id, given, historical, facts).1.Some? && later.quotes == facts.quotes
    requires ambient.reread == w.holdings
    ensures var (w1, p) := Preview(w, id, given, historical, facts);
            var (w2, v) := Confirm(w1, id, p.value, given, historical, later, ambient);
            var chain := ChainAt(w1, id.key);
            var r := WriteTargets(w.holdings, p.value.targets, ambient.outcomes);
            && chain != []
            && var e := chain[|chain| - 1];
               if p.value.mode == Keep then
                 && v == Kept && ChainAt(w2, id.key) == SetLatest(chain, e.(state := RecordOnly))
                 && w2.holdings == w.holdings && w2.ledger == w.ledger
                 && (forall at :: at in w2.store.prints || at in w.store.prints ==>
                       if e.source.Drift? && at == e.source.identity then
                         at in w2.store.prints
                         && w2.store.prints[at] == Fingerprint(Some(Obs(w.holdings, at)), Obs(w.holdings, at))
                       else at in w2.store.prints && at in w.store.prints && w2.store.prints[at] == w.store.prints[at])
               else if !NavFinal(id.key, e.source, later) then
                 v == Refused && ChainAt(w2, id.key) == chain && w2.holdings == w.holdings
                 && w2.store.prints == w.store.prints
               else
                 && w2.holdings == r.holdings
                 && (r.confirmed < |p.value.targets| ==>
                       && v == Compensating(r.confirmed) && w2.store.prints == w.store.prints
                       && PendingTask(ChainAt(w2, id.key)) == Some(Task(p.value.targets, false)))
                 && (r.confirmed >= |p.value.targets| ==>
                       && v == (if InLedger(id.key, e, ambient.laterLedger) then AppliedNow else AppliedThenMoved)
                       && w2.store.prints == ConfirmPrints(w.store.prints, p.value.targets, r.holdings))
  {
    hide BuildPreview, WriteTargets, ConfirmPrints, LastApplied, Refresh, Preview, ConfirmCurrent, EffectAccounts,
        WorldOk;
    PreviewLeaves(w, id, given, historical, facts);
    PreviewedAgain(w, id, given, historical, facts, later);
    var (w1, p) := Preview(w, id, given, historical, facts);
    var chain := ChainAt(w1, id.key);
    StillInLedger(id.key, chain, w1.ledger, later);
    StoredAreLocked(id.key, chain, w1.ledger);
    PreviewIsFresh(w, id, given, historical, facts);
    var stay := Commit(chain, w1.store.prints, w1.ledger, w1.holdings, Refused);
    var locked := EffectAccounts(id.key, chain, w1.ledger);
    CurrentExactly(stay, id.key, p.value, locked, later, ambient);
    assert ConfirmLatest(w1, id, p.value, given, historical, later, ambient)
        == ConfirmCurrent(stay, id.key, p.value, locked, later, ambient);
  }

  /** The targets of a preview start from the holdings it read, and name their accounts. */
  lemma PreviewIsFresh(w: World, id: EffectId, given: Option<Action>, historical: bool, facts: Facts)
    requires Preview(w, id, given, historical, facts).1.Some?
    ensures forall t :: t in Preview(w, id, given, historical, facts).1.value.targets ==>
              t.before == Obs(w.holdings, t.identity) && t.identity.account != ""
  {
    hide BuildPreview, LastApplied, Preview, Refresh;
    PreviewLeaves(w, id, given, historical, facts);
    var p := Preview(w, id, given, historical, facts).1.value;
    var before := ChainAt(w, id.key);
    forall t | t in p.targets ensures t.before == Obs(w.holdings, t.identity) && t.identity.account != "" {
      TargetsName(w.store, id, before[|before| - 1], PreviousApplied(before), given, historical, w.holdings,
                  facts.quotes, t);
      TargetsStart(w.store, id, before[|before| - 1], PreviousApplied(before), given, historical, w.holdings,
                   facts.quotes, t);
    }
  }

  lemma TargetsStart(s: Store, id: EffectId, e: Effect, previous: Option<Source>, given: Option<Action>,
                     historical: bool, h: Holdings, quotes: map<Identity, Quote>, t: Target)
    requires BuildPreview(s, id, e, previous, given, historical, h, quotes).Some?
    requires t in BuildPreview(s, id, e, previous, given, historical, h, quotes).value.targets
    ensures t.before == Obs(h, t.identity)
  {
    hide Detect, Operations, FlowTargets;
    var p := BuildPreview(s, id, e, previous, given, historical, h, quotes).value;
    if !e.source.Drift? && !(e.mode == Keep && !historical) {
      TargetsExactly(InOrder(Operations(previous, e.source).value), p.action, h, quotes);
    }
  }
}
