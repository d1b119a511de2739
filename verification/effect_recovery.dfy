/** A confirmation whose write fails, recovered by retries, ends where the uninterrupted one would have. */
module EffectRecovery {
  import opened EffectModel
  import opened Optional
  import opened EffectOperations
  import opened EffectScan
  import opened EffectPreview
  import opened EffectConfirm
  import opened EffectOrder

  /** The version after its write failed, with its compensation resolved or not. */
  function FailedVersion(row: LedgerRow, p: Payload, resolved: bool): Effect {
    PreviewedVersion(row, p).(state := CompensationPending, task := Some(Task(p.targets, resolved)))
  }

  /** A failed write that a retry accepts: the holding is as it was before, or it is the target after all. */
  predicate Accepts(t: Target, after: Observation) {
    after == t.before || (after.Some? && after.value.quantity == t.amount)
  }

  // ---------- the confirmation that fails ----------

  lemma FailSingle(stay: Commit, row: LedgerRow, p: Payload, locked: set<string>, facts: Facts, ambient: Ambient,
                   after: Observation)
    requires |stay.chain| == 1 && stay.chain[0] == PreviewedVersion(row, p)
    requires Manual(row) && NavIsFinal(row, facts) && p.mode == Apply && |p.targets| == 1
             && p.targets[0].identity == Place(row)
    requires Place(row).account in locked && p.targets[0].before == Obs(ambient.reread, Place(row))
    requires ambient.outcomes == [Failed(after)]
    ensures ConfirmCurrent(stay, RowKey(row), p, locked, facts, ambient)
            == Commit([FailedVersion(row, p, false)], stay.prints, stay.ledger,
                      Set(ambient.reread, Place(row), after), Compensating(0))
  {
    assert p.targets == [p.targets[0]];
    assert StillFresh(ambient.reread, p.targets);
    assert WriteTargets(ambient.reread, p.targets, ambient.outcomes)
           == Written(Set(ambient.reread, Place(row), after), 0);
    assert SetLatest(stay.chain, FailedVersion(row, p, false)) == [FailedVersion(row, p, false)];
  }

  /** The world after the failed confirmation of a discovered event. */
  lemma DiscoveredFails(w: World, row: LedgerRow, b: int, facts: Facts, later: Facts, p: Payload, w1: World,
                        after: Observation)
    requires Discovered(w, row, b) && Manual(row) && NavIsFinal(row, later) && b + Event(row) >= 0
    requires FlowPreview(w.store, FirstId(row), FirstVersion(row), None, None, false, w.holdings, facts.quotes)
             == Some(p)
    requires w1 == WithChain(w, RowKey(row), [PreviewedVersion(row, p)])
    ensures Confirm(w1, FirstId(row), p, None, false, later, Ambient(w.holdings, [Failed(after)], w.ledger))
            == (WithChain(w1.(holdings := Set(w.holdings, Place(row), after)), RowKey(row),
                          [FailedVersion(row, p, false)]), Compensating(0))
  {
    hide FlowPreview, ConfirmCurrent, Operations, Refresh;
    var e := PreviewedVersion(row, p);
    var ambient := Ambient(w.holdings, [Failed(after)], w.ledger);
    DiscoveredPreview(w, row, b, FirstVersion(row), facts);
    StillPreviewed(w, row, b, facts, later, p, w1);
    StillCurrent(row, e, w1.ledger, later);
    var stay := Commit([e], w1.store.prints, w1.ledger, w1.holdings, Refused);
    var locked := EffectAccounts(RowKey(row), [e], w1.ledger);
    FailSingle(stay, row, p, locked, later, ambient, after);
    assert ConfirmLatest(w1, FirstId(row), p, None, false, later, ambient)
        == ConfirmCurrent(stay, RowKey(row), p, locked, later, ambient);
  }

  // ---------- the retries ----------

  /** The one target of a pending compensation, with a holding the next retry accepts. */
  ghost predicate Failing(w: World, row: LedgerRow, p: Payload, amount: int) {
    && Manual(row) && ChainAt(w, RowKey(row)) == [FailedVersion(row, p, false)]
    && FindRow(w.ledger, row.flow.recordId) == Some(row)
    && |p.targets| == 1 && p.targets[0].identity == Place(row) && p.targets[0].amount == amount
    && Accepts(p.targets[0], Obs(w.holdings, Place(row)))
  }

  /** One retry of a single target. */
  lemma RetrySingle(h: Holdings, t: Target, outcome: Outcome)
    requires Accepts(t, Obs(h, t.identity))
    ensures RetryTargets(h, [t], [outcome])
            == if Matches(h, t) then Written(h, 1)
               else if outcome.Done? then Written(WriteOne(h, t, outcome.newRecordId), 1)
               else Written(Set(h, t.identity, outcome.after), 0)
  {
    assert [t][1..] == [] && [outcome][1..] == [];
    assert RetryTargets(h, [], [outcome]) == Written(h, 0);
    if outcome.Done? {
      assert RetryTargets(WriteOne(h, t, outcome.newRecordId), [], [])
             == Written(WriteOne(h, t, outcome.newRecordId), 0);
    }
  }

  /** The rest of the world is the same. */
  ghost predicate OnlyAt(w: World, w': World, row: LedgerRow)
    requires Flow(row.flow).Completed()
  {
    w'.ledger == w.ledger && forall id :: id != Place(row) ==> Obs(w'.holdings, id) == Obs(w.holdings, id)
  }

  lemma RunTaskSingle(w: World, row: LedgerRow, p: Payload, amount: int, outcome: Outcome)
    requires Failing(w, row, p, amount)
    ensures var t := p.targets[0];
            var w' := RunTask(w, FirstId(row), [outcome]);
            && OnlyAt(w, w', row)
            && (Matches(w.holdings, t) || outcome.Done? ==>
                  ChainAt(w', RowKey(row)) == [FailedVersion(row, p, true)] && Matches(w'.holdings, t))
            && (!Matches(w.holdings, t) && outcome.Failed? ==>
                  ChainAt(w', RowKey(row)) == [FailedVersion(row, p, false)]
                      && Obs(w'.holdings, Place(row)) == outcome.after)
  {
    assert p.targets == [p.targets[0]];
    RetrySingle(w.holdings, p.targets[0], outcome);
    var written := RetryTargets(w.holdings, p.targets, [outcome]);
    var e := FailedVersion(row, p, written.confirmed == 1);
    assert SetLatest([FailedVersion(row, p, false)], e) == [e];
  }

  lemma FinalizeEnds(w: World, row: LedgerRow, p: Payload, amount: int, facts: Facts)
    requires ChainAt(w, RowKey(row)) == [FailedVersion(row, p, true)] && Manual(row)
    requires FindRow(w.ledger, row.flow.recordId) == Some(row)
    requires |p.targets| == 1 && p.targets[0].identity == Place(row) && p.targets[0].amount == amount
    requires Matches(w.holdings, p.targets[0])
    ensures var w' := Finalize(w, FirstId(row), facts);
            EndsAt(w', row, amount) && w'.holdings == w.holdings && w'.ledger == w.ledger
                && |ChainAt(w', RowKey(row))| == 1
  {
    hide Refresh;
    var e := FailedVersion(row, p, true).(state := Applied);
    assert p.targets == [p.targets[0]] && p.targets[..1] == p.targets && p.targets[1..] == [];
    assert MatchingPrefix(w.holdings, p.targets) == 1;
    assert SetLatest([FailedVersion(row, p, true)], e) == [e];
    StillCurrent(row, e, w.ledger, facts);
    assert p.targets[0] in p.targets;
  }

  /** The version is applied, and a further retry leaves it so. */
  ghost predicate Ended(w: World, row: LedgerRow, amount: int) {
    Manual(row) && EndsAt(w, row, amount) && |ChainAt(w, RowKey(row))| == 1
  }

  lemma RetryKeepsEnded(w: World, row: LedgerRow, amount: int, outcomes: seq<Outcome>, facts: Facts)
    requires Ended(w, row, amount)
    ensures Retry(w, FirstId(row), outcomes, facts) == w
  {
  }

  /** A retry that fails again leaves the compensation pending, or finds that the write had landed. */
  lemma RetryFails(w: World, row: LedgerRow, p: Payload, amount: int, after: Observation, facts: Facts)
    requires Failing(w, row, p, amount) && Accepts(p.targets[0], after)
    ensures var w' := Retry(w, FirstId(row), [Failed(after)], facts);
            OnlyAt(w, w', row) && (Failing(w', row, p, amount) || Ended(w', row, amount))
  {
    hide RunTask, Finalize, EndsAt;
    RunTaskSingle(w, row, p, amount, Failed(after));
    var w1 := RunTask(w, FirstId(row), [Failed(after)]);
    if Matches(w.holdings, p.targets[0]) {
      FinalizeEnds(w1, row, p, amount, facts);
    } else {
      NotResolved(w1, row, p, facts);
    }
  }

  lemma NotResolved(w: World, row: LedgerRow, p: Payload, facts: Facts)
    requires ChainAt(w, RowKey(row)) == [FailedVersion(row, p, false)]
    ensures Finalize(w, FirstId(row), facts) == w
  {
  }

  lemma RetrySucceeds(w: World, row: LedgerRow, p: Payload, amount: int, newRecordId: string, facts: Facts)
    requires Failing(w, row, p, amount)
    ensures var w' := Retry(w, FirstId(row), [Done(newRecordId)], facts); OnlyAt(w, w', row) && Ended(w', row, amount)
  {
    hide RunTask, Finalize, EndsAt;
    RunTaskSingle(w, row, p, amount, Done(newRecordId));
    FinalizeEnds(RunTask(w, FirstId(row), [Done(newRecordId)]), row, p, amount, facts);
  }

  /** One retry after another, each leaving the holding as `afters` says, and then one whose write succeeds. */
  function RetryUntilDone(w: World, id: EffectId, afters: seq<Observation>, facts: Facts, newRecordId: string): World
    decreases |afters|
  {
    if afters == [] then Retry(w, id, [Done(newRecordId)], facts)
    else RetryUntilDone(Retry(w, id, [Failed(afters[0])], facts), id, afters[1..], facts, newRecordId)
  }

  lemma {:induction false} RetriesEnd(w: World, row: LedgerRow, p: Payload, amount: int, afters: seq<Observation>,
                                      facts: Facts,
                                      newRecordId: string)
    requires |p.targets| == 1 && forall i :: 0 <= i < |afters| ==> Accepts(p.targets[0], afters[i])
    requires Failing(w, row, p, amount) || Ended(w, row, amount)
    ensures var w' := RetryUntilDone(w, FirstId(row), afters, facts, newRecordId);
              OnlyAt(w, w', row) && Ended(w', row, amount)
    decreases |afters|
  {
    hide Retry, Failing, Ended;
    if afters == [] {
      if Failing(w, row, p, amount) {
        RetrySucceeds(w, row, p, amount, newRecordId, facts);
      } else {
        RetryKeepsEnded(w, row, amount, [Done(newRecordId)], facts);
      }
    } else {
      if Failing(w, row, p, amount) {
        RetryFails(w, row, p, amount, afters[0], facts);
      } else {
        RetryKeepsEnded(w, row, amount, [Failed(afters[0])], facts);
      }
      RetriesEnd(Retry(w, FirstId(row), [Failed(afters[0])], facts), row, p, amount, afters[1..], facts, newRecordId);
    }
  }

  // ---------- the theorem ----------

  /** Preview, a confirmation whose write fails leaving `after`, and retries until one writes. */
  function PreviewFailRetry(w: World, row: LedgerRow, f1: Facts, f2: Facts, f3: Facts, after: Observation,
                            afters: seq<Observation>, newRecordId: string): (World, Verdict)
  {
    var id := FirstId(row);
    var (w1, p) := Preview(w, id, None, false, f1);
    if p.None? then (w1, Refused)
    else
      var (w2, v) := Confirm(w1, id, p.value, None, false, f2, Ambient(w1.holdings, [Failed(after)], w1.ledger));
      (RetryUntilDone(w2, id, afters, f3, newRecordId), v)
  }

  /** The holding is as before the write, or the write had landed: it is the baseline plus the event. */
  predicate Recoverable(w: World, row: LedgerRow, b: int, after: Observation)
    requires Flow(row.flow).Completed()
  {
    after == Obs(w.holdings, Place(row)) || (after.Some? && after.value.quantity == b + Event(row))
  }

  /**
   Order and failure together: a discovered event whose confirmed write fails is pending compensation.
   However many retries fail as well, each leaving the holding as it was or with the write landed, the
   next one whose write succeeds ends with the holding and its confirmed baseline at the baseline plus the
   event, as a confirmation that did not fail, and no other holding moved.
   */
  lemma RecoveryEnds(w: World, row: LedgerRow, b: int, f1: Facts, f2: Facts, f3: Facts, after: Observation,
                     afters: seq<Observation>, newRecordId: string)
    requires Discovered(w, row, b) && Manual(row) && NavIsFinal(row, f2) && b + Event(row) >= 0
    requires Recoverable(w, row, b, after) && forall i :: 0 <= i < |afters| ==> Recoverable(w, row, b, afters[i])
    ensures var (w', v) := PreviewFailRetry(w, row, f1, f2, f3, after, afters, newRecordId);
            v == Compensating(0) && EndsAt(w', row, b + Event(row)) && OnlyAt(w, w', row)
  {
    hide FlowPreview, Confirm, Preview, RetryUntilDone, Discovered, Operations, EndsAt;
    DiscoveredPreview(w, row, b, FirstVersion(row), f1);
    var p := FlowPreview(w.store, FirstId(row), FirstVersion(row), None, None, false, w.holdings, f1.quotes).value;
    DiscoveredPreviewed(w, row, b, f1, p);
    var w1 := WithChain(w, RowKey(row), [PreviewedVersion(row, p)]);
    DiscoveredFails(w, row, b, f1, f2, p, w1, after);
    var w2 := WithChain(w1.(holdings := Set(w.holdings, Place(row), after)), RowKey(row),
                        [FailedVersion(row, p, false)]);
    LedgerStill(w, row, b);
    assert Obs(w2.holdings, Place(row)) == after;
    assert Failing(w2, row, p, b + Event(row));
    RetriesEnd(w2, row, p, b + Event(row), afters, f3, newRecordId);
  }

  lemma LedgerStill(w: World, row: LedgerRow, b: int)
    requires Discovered(w, row, b)
    ensures FindRow(w.ledger, row.flow.recordId) == Some(row)
  {
  }
}
