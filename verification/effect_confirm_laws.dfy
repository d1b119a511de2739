/** Laws of confirmation and compensation. */
module EffectConfirmLaws {
  import opened EffectModel
  import opened Optional
  import opened EffectOperations
  import opened EffectScan
  import opened EffectPreview
  import opened EffectConfirm
  import opened EffectInvariants

  // ---------- the chain after a confirmation ----------

  lemma PreviewTargetsDistinct(s: Store, id: EffectId, e: Effect, previous: Option<Source>, given: Option<Action>,
                               historical: bool, h: Holdings, quotes: map<Identity, Quote>)
    requires BuildPreview(s, id, e, previous, given, historical, h, quotes).Some?
    ensures var p := BuildPreview(s, id, e, previous, given, historical, h, quotes).value;
            && e.state in {Pending, Blocked, Previewed, Stale}
            && DistinctTargets(p.targets) && p.source == e.source && (p.mode == Keep ==> p.targets == [])
            && (!e.source.Drift? && p.mode == Apply ==>
                  (forall at :: TargetDelta(p.targets, at) == Worth(Some(e.source), at) - Worth(previous, at)))
  {
    if !e.source.Drift? && !(e.mode == Keep && !historical) {
      FlowPreviewTargets(s, id, e, previous, given, historical, h, quotes);
    }
  }

  predicate Applies(v: Verdict) { v.AppliedNow? || v.AppliedThenMoved? }

  /** What a confirmation may do to the chain. */
  ghost predicate ChainAfter(key: Key, before: Chain, c: Commit) {
    && c.chain != [] && Good(key, c.chain) && Evolves(key, before, c.chain)
    && (!Applies(c.verdict) ==> AppliesNothing(before, c.chain) && LastApplied(c.chain) == LastApplied(before))
    && (Applies(c.verdict) ==> before != [] && LastApplied(c.chain) == Some(before[|before| - 1].source)
                               && c.chain[|before| - 1].state == Applied
                               && LastApplied(before) == PreviousApplied(before))
  }

  lemma ConfirmKeptChain(key: Key, before: Chain, stay: Commit, reread: Holdings)
    requires stay.chain != [] && Quiet(key, before, stay.chain)
    requires stay.chain[|stay.chain| - 1].state in {Pending, Previewed, Stale, Blocked}
    ensures ChainAfter(key, before, ConfirmKept(stay, reread))
  {
    hide LastApplied, Refresh, Worth, TargetDelta, Evolves;
    var e := stay.chain[|stay.chain| - 1];
    assert RowOk(key, e);
    if e.state == Previewed {
      SetLatestQuiet(key, stay.chain, e.(state := RecordOnly));
      QuietThen(key, before, stay.chain, SetLatest(stay.chain, e.(state := RecordOnly)));
    }
  }

  lemma RefreshKeepsApplied(key: Key, chain: Chain, ledger: seq<LedgerRow>, facts: Facts)
    requires chain != [] && chain[|chain| - 1].state == Applied
    ensures var last := Refresh(key, chain, ledger, facts).0; |chain| <= |last| && last[|chain| - 1].state == Applied
  {
    var e := chain[|chain| - 1];
    if key.FlowKey? && !e.source.Drift? {
      var (source, state, mode) := CurrentSource(key, e, ledger, facts);
      if source != e.source { AddVersionShape(chain, source, state, mode); }
    }
  }

  lemma AppliedChain(key: Key, before: Chain, chain: Chain, ledger: seq<LedgerRow>, facts: Facts)
    requires chain != [] && |chain| == |before| && Quiet(key, before, chain)
    requires before[|before| - 1].state == chain[|chain| - 1].state == Previewed
    ensures var applied := SetLatest(chain, chain[|chain| - 1].(state := Applied));
            var last := Refresh(key, applied, ledger, facts).0;
            && last != [] && Good(key, last) && Evolves(key, before, last)
            && LastApplied(last) == Some(before[|before| - 1].source) && LastApplied(before) == PreviousApplied(before)
            && last[|before| - 1].state == Applied
  {
    hide Refresh, Worth, TargetDelta;
    var e := chain[|chain| - 1];
    assert RowOk(key, e);
    var applied := SetLatest(chain, e.(state := Applied));
    SetLatestKeeps(key, chain, e.(state := Applied));
    forall i | 0 <= i < |applied| ensures RowOk(key, applied[i]) {
      if i < |chain| - 1 { assert RowOk(key, chain[i]); }
    }
    RefreshQuiet(key, applied, ledger, facts);
    RefreshKeepsApplied(key, applied, ledger, facts);
    EvolvesThen(key, before, chain, applied);
    EvolvesThen(key, before, applied, Refresh(key, applied, ledger, facts).0);
  }

  lemma ConfirmWriteChain(key: Key, before: Chain, stay: Commit, p: Payload, facts: Facts, ambient: Ambient)
    requires stay.chain != [] && |stay.chain| == |before| && Quiet(key, before, stay.chain)
    requires before[|before| - 1].state == stay.chain[|stay.chain| - 1].state
    requires stay.verdict.Refused? && DistinctTargets(p.targets) && (key.FlowKey? ==> Booked(stay.chain, p.targets))
    ensures ChainAfter(key, before, ConfirmWrite(stay, key, p, facts, ambient))
  {
    hide WriteTargets, Refresh, LastApplied, ConfirmPrints, Worth, TargetDelta, WithChain;
    var chain := stay.chain;
    var e := chain[|chain| - 1];
    if StillFresh(ambient.reread, p.targets) && e.state == Previewed {
      var written := WriteTargets(ambient.reread, p.targets, ambient.outcomes);
      assert RowOk(key, e);
      if written.confirmed < |p.targets| {
        var failed := e.(state := CompensationPending, task := Some(Task(p.targets, false)));
        assert SetLatest(chain, failed)[..|chain| - 1] == chain[..|chain| - 1];
        assert key.FlowKey? ==> Booked(SetLatest(chain, failed), p.targets);
        SetLatestQuiet(key, chain, failed);
        QuietThen(key, before, chain, SetLatest(chain, failed));
      } else {
        AppliedChain(key, before, chain, ambient.laterLedger, facts);
      }
    }
  }

  lemma ConfirmCurrentChain(key: Key, before: Chain, stay: Commit, p: Payload, locked: set<string>, facts: Facts,
                            ambient: Ambient)
    requires stay.chain != [] && |stay.chain| == |before| && Quiet(key, before, stay.chain)
    requires before[|before| - 1].state == stay.chain[|stay.chain| - 1].state
    requires before[|before| - 1].state in {Pending, Previewed, Stale, Blocked}
    requires stay.verdict.Refused? && DistinctTargets(p.targets)
    requires key.FlowKey? && p.mode == Apply ==> Booked(stay.chain, p.targets)
    ensures ChainAfter(key, before, ConfirmCurrent(stay, key, p, locked, facts, ambient))
  {
    hide ConfirmKept, ConfirmWrite, Good, Evolves, LastApplied;
    ConfirmKeptChain(key, before, stay, ambient.reread);
    if p.mode == Apply {
      ConfirmWriteChain(key, before, stay, p, facts, ambient);
    }
  }

  lemma ConfirmChain(w: World, id: EffectId, hash: Payload, given: Option<Action>, historical: bool,
                     facts: Facts, ambient: Ambient)
    requires WorldOk(w) && ChainAt(w, id.key) != []
    ensures ChainAfter(id.key, ChainAt(w, id.key), ConfirmLatest(w, id, hash, given, historical, facts, ambient))
  {
    hide Refresh, ConfirmCurrent, EffectAccounts, LastApplied, BuildPreview, Worth, TargetDelta, Evolves, ChainOk;
    var before := ChainAt(w, id.key);
    RefreshQuiet(id.key, before, w.ledger, facts);
    var (current, moved) := Refresh(id.key, before, w.ledger, facts);
    if !moved {
      var e := current[|current| - 1];
      var p := Recomputed(w, id, current, given, historical, facts);
      if p.Some? {
        PreviewTargetsDistinct(w.store, id, e, PreviousApplied(current), given, historical, w.holdings, facts.quotes);
        if p.value == hash {
          assert RowOk(id.key, e);
          assert id.key.FlowKey? && hash.mode == Apply ==> Booked(current, hash.targets);
          ConfirmCurrentChain(id.key, before, Commit(current, w.store.prints, w.ledger, w.holdings, Refused), hash,
                              EffectAccounts(id.key, before, w.ledger), facts, ambient);
        } else {
          PreviewedQuiet(id.key, current, Stale, e.targets);
          QuietThen(id.key, before, current, SetLatest(current, e.(state := Stale)));
        }
      }
    }
  }

  /** A confirmation changes one chain, and that chain legally. */
  lemma ConfirmKeeps(w: World, id: EffectId, hash: Payload, given: Option<Action>, historical: bool,
                     facts: Facts, ambient: Ambient)
    requires WorldOk(w)
    ensures var (w', v) := Confirm(w, id, hash, given, historical, facts, ambient);
            && WorldOk(w') && OnlyChain(w, w', id.key)
            && Good(id.key, ChainAt(w', id.key)) && Evolves(id.key, ChainAt(w, id.key), ChainAt(w', id.key))
            && (!Applies(v) ==> LastApplied(ChainAt(w', id.key)) == LastApplied(ChainAt(w, id.key)))
            && (Applies(v) ==>
                  var chain := ChainAt(w, id.key);
                  && IsLatest(chain, id.version)
                  && LastApplied(ChainAt(w', id.key)) == Some(chain[|chain| - 1].source)
                  && LastApplied(chain) == PreviousApplied(chain)
                  && ChainAt(w', id.key)[|chain| - 1].state == Applied)
  {
    GoodEmpty(id.key);
    QuietRefl(id.key, ChainAt(w, id.key));
    if IsLatest(ChainAt(w, id.key), id.version) {
      ConfirmChain(w, id, hash, given, historical, facts, ambient);
      var c := ConfirmLatest(w, id, hash, given, historical, facts, ambient);
      WithChainOk(w, Confirm(w, id, hash, given, historical, facts, ambient).0, id.key, c.chain);
    }
  }

  // ---------- the holdings after a confirmation ----------

  /** The verdicts under which a target was written. */
  predicate Wrote(v: Verdict) { Applies(v) || v.Compensating? }

  /**
   The state in which a confirmation is allowed to write: the newest version is previewed, the
   ledger still has its source, the recomputed payload is the confirmed hash, the preceding NAV is
   final for a ledger effect, and a second fresh read gives every recorded before value.
   */
  ghost predicate MayWrite(w: World, id: EffectId, hash: Payload, given: Option<Action>, historical: bool,
                           facts: Facts, reread: Holdings)
  {
    var chain := ChainAt(w, id.key);
    && IsLatest(chain, id.version)
    && !Refresh(id.key, chain, w.ledger, facts).1
    && chain[|chain| - 1].state == Previewed
    && Recomputed(w, id, chain, given, historical, facts) == Some(hash)
    && hash.mode == Apply
    && (id.key.FlowKey? ==> PrecedingNavFinal(chain[|chain| - 1].source, facts))
    && StillFresh(reread, hash.targets)
    && (forall t :: t in hash.targets ==> t.identity.account in EffectAccounts(id.key, chain, w.ledger))
  }

  /** Outside compensation, a source check that finds nothing leaves the chain as it is. */
  lemma RefreshSame(key: Key, chain: Chain, ledger: seq<LedgerRow>, facts: Facts)
    requires chain != [] && !Refresh(key, chain, ledger, facts).1
    requires chain[|chain| - 1].state != CompensationPending
    ensures Refresh(key, chain, ledger, facts).0 == chain
  {
  }

  /** What a confirmation with outcome `c` did to holdings and baselines, starting from `stay`. */
  ghost predicate WroteExactly(stay: Commit, p: Payload, reread: Holdings, c: Commit) {
    && (Wrote(c.verdict) ==>
          PrefixWritten(reread, c.holdings, p.targets,
                        if c.verdict.Compensating? then c.verdict.confirmed else |p.targets|))
    && (!Wrote(c.verdict) ==> c.holdings == stay.holdings || c.holdings == reread)
    && (Applies(c.verdict) ==> c.prints == ConfirmPrints(stay.prints, p.targets, c.holdings))
    && (c.verdict.Compensating? ==>
          && c.verdict.confirmed < |p.targets| && c.prints == stay.prints
          && c.chain != [] && |c.chain| == |stay.chain|
          && c.chain[|c.chain| - 1].version == stay.chain[|stay.chain| - 1].version
          && c.chain[|c.chain| - 1].state == CompensationPending
          && c.chain[|c.chain| - 1].targets == stay.chain[|stay.chain| - 1].targets
          && c.chain[|c.chain| - 1].task == Some(Task(p.targets, false)))
  }

  lemma ConfirmWriteExactly(stay: Commit, key: Key, p: Payload, facts: Facts, ambient: Ambient)
    requires stay.chain != [] && stay.verdict.Refused? && DistinctTargets(p.targets)
    ensures var c := ConfirmWrite(stay, key, p, facts, ambient);
            && WroteExactly(stay, p, ambient.reread, c)
            && (Wrote(c.verdict) ==>
                StillFresh(ambient.reread, p.targets) && stay.chain[|stay.chain| - 1].state == Previewed)
  {
    hide Refresh, WriteTargets, PrefixWritten, ConfirmPrints;
    WriteTargetsPrefix(ambient.reread, p.targets, ambient.outcomes);
  }

  lemma ConfirmCurrentExactly(stay: Commit, key: Key, p: Payload, locked: set<string>, facts: Facts, ambient: Ambient)
    requires stay.chain != [] && stay.verdict.Refused? && DistinctTargets(p.targets)
    ensures var c := ConfirmCurrent(stay, key, p, locked, facts, ambient);
            && WroteExactly(stay, p, ambient.reread, c)
            && (Wrote(c.verdict) ==>
                  && StillFresh(ambient.reread, p.targets) && stay.chain[|stay.chain| - 1].state == Previewed
                  && p.mode == Apply && (forall t :: t in p.targets ==> t.identity.account in locked)
                  && (key.FlowKey? ==> PrecedingNavFinal(stay.chain[|stay.chain| - 1].source, facts)))
  {
    hide ConfirmWrite;
    ConfirmWriteExactly(stay, key, p, facts, ambient);
  }

  /**
   Confirm writes exactly what was previewed. A holding is written only in a state that allows it.
   On success every target reads back as previewed, its baseline is the holding read back, and no
   other holding or baseline moved. On a failure the version is compensation_pending with every
   target recorded, exactly the confirmed prefix reads back, no baseline moved, and only the target
   that failed can differ beyond it. Otherwise no holding was written.
   */
  lemma ConfirmWritesThePreview(w: World, id: EffectId, hash: Payload, given: Option<Action>, historical: bool,
                                facts: Facts, ambient: Ambient)
    requires ChainAt(w, id.key) != []
    ensures var c := ConfirmLatest(w, id, hash, given, historical, facts, ambient);
            && WroteExactly(Commit(ChainAt(w, id.key), w.store.prints, w.ledger, w.holdings, Refused), hash,
                            ambient.reread, c)
            && (Wrote(c.verdict) && IsLatest(ChainAt(w, id.key), id.version) ==>
                  MayWrite(w, id, hash, given, historical, facts, ambient.reread))
  {
    hide ConfirmCurrent, EffectAccounts, BuildPreview, PrefixWritten, ConfirmPrints;
    var chain := ChainAt(w, id.key);
    var (current, moved) := Refresh(id.key, chain, w.ledger, facts);
    if !moved && current != [] {
      var stay := Commit(current, w.store.prints, w.ledger, w.holdings, Refused);
      var p := Recomputed(w, id, current, given, historical, facts);
      if p == Some(hash) {
        PreviewTargetsDistinct(w.store, id, current[|current| - 1], PreviousApplied(current), given, historical,
                               w.holdings, facts.quotes);
        assert current[|current| - 1].state == chain[|chain| - 1].state;
        RefreshSame(id.key, chain, w.ledger, facts);
        ConfirmCurrentExactly(stay, id.key, hash, EffectAccounts(id.key, chain, w.ledger), facts, ambient);
      }
    }
  }

  // ---------- which rows reach a preview ----------

  /**
   Of the complete rows of the ledger, only those on or after the cutover, not in the future and behind
   a final NAV are ever previewed for writing when they are first discovered.
   */
  lemma OnlyDueRowsArePreviewed(w: World, row: LedgerRow, scope: Option<string>, seen: Facts, given: Option<Action>,
                                facts: Facts)
    requires Flow(row.flow).Completed() && !OutOfScope([], row, scope)
    requires ChainAt(w, RowKey(row)) == ScanRow([], row, scope, seen).0
    ensures var p := Preview(w, EffectId(RowKey(row), 1), given, false, facts).1;
            p.Some? && p.value.mode == Apply ==>
              seen.cutover <= row.flow.date.value <= seen.today && PrecedingNavFinal(Flow(row.flow), seen)
  {
    hide FlowPreview, Operations;
    var chain := ChainAt(w, RowKey(row));
    assert |chain| == 1;
    var e := chain[0];
    assert (e.state, e.mode) == Desired(Flow(row.flow), seen);
  }
}
