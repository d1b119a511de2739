/** The operator's half of the service: preview, confirm, and the retry of a compensation. */
module EffectService {
  import opened EffectModel
  import opened Optional
  import opened EffectScan
  import opened EffectPreview
  import opened EffectConfirm
  import opened EffectConfirmLaws
  import opened EffectRuns
  import opened EffectStore
  import opened EffectGate
  import opened EffectInvariants

  /** One more target of a loop that confirms fingerprints. */
  lemma ConfirmPrintsStep(prints: Prints, targets: seq<Target>, h: Holdings, i: nat)
    requires i < |targets|
    ensures var o := Obs(h, targets[i].identity);
            ConfirmPrints(prints, targets[..i + 1], h)
            == ConfirmPrints(prints, targets[..i], h)[targets[i].identity := Fingerprint(Some(o), o)]
  {
    assert targets[..i + 1] == targets[..i] + [targets[i]];
  }

  class CashFlowEffectService {
    const store: CashFlowEffectStore
    var ledger: seq<LedgerRow>
    var holdings: Holdings

    constructor (store: CashFlowEffectStore, ledger: seq<LedgerRow>, holdings: Holdings)
      ensures this.store == store && this.ledger == ledger && this.holdings == holdings
    {
      this.store, this.ledger, this.holdings := store, ledger, holdings;
    }

    ghost function Now(): World
      reads this, store
    {
      World(store.View(), ledger, holdings)
    }

    /** _current_cash_flow_source on the newest version of a record. */
    method RefreshSource(key: Key, facts: Facts) returns (moved: bool)
      requires ChainOf(store.chains, key) != []
      modifies store`chains
      ensures (ChainOf(store.chains, key), moved) == Refresh(key, ChainOf(old(store.chains), key), ledger, facts)
      ensures ChainOf(store.chains, key) != [] && store.chains == old(store.chains)[key := ChainOf(store.chains, key)]
    {
      var chain := ChainOf(store.chains, key);
      var e := chain[|chain| - 1];
      if !key.FlowKey? || e.source.Drift? {
        return false;
      }
      var (source, state, mode) := CurrentSource(key, e, ledger, facts);
      if source == e.source {
        return false;
      }
      if e.state == CompensationPending {
        var _ := store.DeferSourceChange(key, source);
        return false;
      }
      var _ := store.CreateVersion(key, source, state, mode);
      moved := true;
    }

    /** preview. */
    method Preview(id: EffectId, given: Option<Action>, historical: bool, facts: Facts) returns (p: Option<Payload>)
      modifies store`chains
      ensures (Now(), p) == EffectConfirm.Preview(old(Now()), id, given, historical, facts)
    {
      hide Refresh, BuildPreview;
      var chain := ChainOf(store.chains, id.key);
      if !IsLatest(chain, id.version) {
        return None;
      }
      // A source check changes no external change and no baseline, so detection may read them here.
      var baselines := store.View();
      RefreshNotEmpty(id.key, chain, ledger, facts);
      var moved := RefreshSource(id.key, facts);
      if moved {
        return None;
      }
      var current := ChainOf(store.chains, id.key);
      var e := current[|current| - 1];
      var previous := store.GetPreviousApplied(id.key);
      p := BuildPreview(baselines, id, e, previous, given, historical, holdings, facts.quotes);
      if p.Some? {
        PreviewTargetsDistinct(baselines, id, e, previous, given, historical, holdings, facts.quotes);
        var _ := store.UpdateEffect(id.key, {Pending, State.Blocked, Previewed, Stale},
                                    e.(state := Previewed, targets := p.value.targets));
      } else {
        var _ := store.UpdateEffect(id.key, {Pending, Previewed, Stale, State.Blocked}, e.(state := State.Blocked));
      }
      ghost var latest := PreviewLatest(old(Now()), id, given, historical, facts);
      assert Recomputed(old(Now()), id, current, given, historical, facts) == p;
      assert latest.1 == p;
      assert latest.0 == ChainOf(store.chains, id.key);
      assert store.chains == Put(old(store.chains), id.key, latest.0);
    }

    /** replace_holding, unless the holding already is the target. */
    method WriteTarget(t: Target, newRecordId: string)
      modifies this`holdings
      ensures holdings == WriteOne(old(holdings), t, newRecordId)
    {
      if !Matches(holdings, t) {
        var recordId := if t.identity in holdings then holdings[t.identity].recordId else newRecordId;
        holdings := holdings[t.identity := Holding(recordId, t.amount)];
      }
    }

    /** The write loop of a confirmation: each target is written unless it matches, then read back. */
    method WriteAll(targets: seq<Target>, outcomes: seq<Outcome>) returns (confirmed: nat)
      modifies this`holdings
      ensures Written(holdings, confirmed) == WriteTargets(old(holdings), targets, outcomes)
    {
      hide WriteOne;
      confirmed := 0;
      assert targets[0..] == targets && outcomes[0..] == outcomes;
      while confirmed < |targets| && confirmed < |outcomes|
        invariant confirmed <= |targets| && confirmed <= |outcomes|
        invariant var rest := WriteTargets(holdings, targets[confirmed..], outcomes[confirmed..]);
                  WriteTargets(old(holdings), targets, outcomes) == Written(rest.holdings, rest.confirmed + confirmed)
      {
        var t := targets[confirmed];
        assert targets[confirmed..][1..] == targets[confirmed + 1..]
               && outcomes[confirmed..][1..] == outcomes[confirmed + 1..];
        match outcomes[confirmed] {
          case Failed(after) =>
            holdings := Set(holdings, t.identity, after);
            return;
          case Done(newRecordId) =>
            WriteTarget(t, newRecordId);
        }
        confirmed := confirmed + 1;
      }
    }

    /** confirm_fingerprint for every target, with the holding read back. */
    method ConfirmBaselines(targets: seq<Target>)
      modifies store`prints
      ensures store.prints == ConfirmPrints(old(store.prints), targets, holdings)
    {
      ghost var before := store.prints;
      assert ConfirmPrints(before, targets[..0], holdings) == before;
      for i := 0 to |targets|
        invariant store.prints == ConfirmPrints(before, targets[..i], holdings)
      {
        ConfirmPrintsStep(before, targets, holdings, i);
        store.ConfirmFingerprint(targets[i].identity, Obs(holdings, targets[i].identity));
      }
      assert targets[..|targets|] == targets;
    }

    /** The apply branch, from the second holding read on; `stay` is what the confirmation has so far. */
    method WriteConfirmed(id: EffectId, p: Payload, facts: Facts, ambient: Ambient) returns (v: Verdict)
      requires ChainOf(store.chains, id.key) != []
      modifies this, store
      ensures var stay := Commit(ChainOf(old(store.chains), id.key), old(store.prints), old(ledger), old(holdings),
                                 Refused);
              Commit(ChainOf(store.chains, id.key), store.prints, ledger, holdings, v)
              == ConfirmWrite(stay, id.key, p, facts, ambient)
      ensures ChainOf(store.chains, id.key) != [] && store.chains
              == old(store.chains)[id.key := ChainOf(store.chains, id.key)]
    {
      hide Refresh, WriteTargets, ConfirmPrints;
      var chain := ChainOf(store.chains, id.key);
      var e := chain[|chain| - 1];
      holdings := ambient.reread;
      if !StillFresh(holdings, p.targets) {
        return Refused;
      }
      var begun := store.UpdateEffect(id.key, {Previewed}, e.(state := Applying));
      if !begun {
        return Refused;
      }
      var confirmed := WriteAll(p.targets, ambient.outcomes);
      if confirmed < |p.targets| {
        var _ := store.UpdateEffect(id.key, {Applying},
                                    e.(state := CompensationPending, task := Some(Task(p.targets, false))));
        assert ChainOf(store.chains, id.key) == SetLatest(chain,
                                                          e.(state := CompensationPending,
                                                             task := Some(Task(p.targets, false))));
        return Compensating(confirmed);
      }
      ConfirmBaselines(p.targets);
      var _ := store.UpdateEffect(id.key, {Applying}, e.(state := Applied));
      assert ChainOf(store.chains, id.key) == SetLatest(chain, e.(state := Applied));
      ledger := ambient.laterLedger;
      var moved := RefreshSource(id.key, facts);
      v := if moved then AppliedThenMoved else AppliedNow;
    }

    /** The record_only branch. */
    method KeepConfirmed(id: EffectId, reread: Holdings) returns (v: Verdict)
      requires ChainOf(store.chains, id.key) != []
      modifies this, store
      ensures var stay := Commit(ChainOf(old(store.chains), id.key), old(store.prints), old(ledger), old(holdings),
                                 Refused);
              Commit(ChainOf(store.chains, id.key), store.prints, ledger, holdings, v) == ConfirmKept(stay, reread)
      ensures ChainOf(store.chains, id.key) != [] && store.chains
              == old(store.chains)[id.key := ChainOf(store.chains, id.key)]
    {
      var chain := ChainOf(store.chains, id.key);
      var e := chain[|chain| - 1];
      holdings := reread;
      if e.source.Drift? {
        store.ConfirmFingerprint(e.source.identity, Obs(holdings, e.source.identity));
      }
      var done := store.UpdateEffect(id.key, {Previewed}, e.(state := RecordOnly));
      v := if done then Kept else Refused;
    }

    /** _confirm_under_locks. */
    method Confirm(id: EffectId, hash: Payload, given: Option<Action>, historical: bool, facts: Facts, ambient: Ambient)
      returns (v: Verdict)
      modifies this, store
      ensures (Now(), v) == EffectConfirm.Confirm(old(Now()), id, hash, given, historical, facts, ambient)
    {
      hide Refresh, BuildPreview, ConfirmWrite, ConfirmKept, EffectAccounts;
      var chain := ChainOf(store.chains, id.key);
      if !IsLatest(chain, id.version) {
        return Refused;
      }
      ghost var w := Now();
      ghost var commit := ConfirmLatest(w, id, hash, given, historical, facts, ambient);
      var locked := EffectAccounts(id.key, chain, ledger);
      var baselines := store.View();
      RefreshNotEmpty(id.key, chain, ledger, facts);
      var moved := RefreshSource(id.key, facts);
      var current := ChainOf(store.chains, id.key);
      if moved {
        assert commit.chain == current && store.chains == Put(w.store.chains, id.key, current);
        return SourceMoved;
      }
      var previous := store.GetPreviousApplied(id.key);
      var p := BuildPreview(baselines, id, current[|current| - 1], previous, given, historical, holdings, facts.quotes);
      assert p == Recomputed(w, id, current, given, historical, facts);
      if p.None? {
        assert commit.chain == current && store.chains == Put(w.store.chains, id.key, current);
        return Refused;
      }
      if p.value != hash {
        PreviewTargetsDistinct(baselines, id, current[|current| - 1], previous, given, historical, holdings,
                               facts.quotes);
        var _ := store.UpdateEffect(id.key, {Previewed, Pending, State.Blocked, Stale},
                                    current[|current| - 1].(state := Stale));
        assert commit.chain == ChainOf(store.chains, id.key);
        assert store.chains == Put(w.store.chains, id.key, commit.chain);
        return StaleHash;
      }
      v := ConfirmHash(id, hash, locked, facts, ambient);
      assert commit == Commit(ChainOf(store.chains, id.key), store.prints, ledger, holdings, v);
      assert store.chains == Put(w.store.chains, id.key, commit.chain);
    }

    /** The confirmation of a hash that is current. */
    method ConfirmHash(id: EffectId, p: Payload, locked: set<string>, facts: Facts,
                       ambient: Ambient) returns (v: Verdict)
      requires ChainOf(store.chains, id.key) != []
      modifies this, store
      ensures var stay := Commit(ChainOf(old(store.chains), id.key), old(store.prints), old(ledger), old(holdings),
                                 Refused);
              Commit(ChainOf(store.chains, id.key), store.prints, ledger, holdings, v)
              == ConfirmCurrent(stay, id.key, p, locked, facts, ambient)
      ensures ChainOf(store.chains, id.key) != [] && store.chains
              == old(store.chains)[id.key := ChainOf(store.chains, id.key)]
    {
      hide ConfirmWrite, ConfirmKept;
      var chain := ChainOf(store.chains, id.key);
      if id.key.FlowKey? && p.mode == Apply && !PrecedingNavFinal(chain[|chain| - 1].source, facts) {
        return Refused;
      }
      if p.mode == Keep {
        v := KeepConfirmed(id, ambient.reread);
        return;
      }
      if exists t | t in p.targets :: t.identity.account !in locked {
        return Refused;
      }
      v := WriteConfirmed(id, p, facts, ambient);
    }

    /** compensation.retry over the task of the newest version. */
    method RunTask(id: EffectId, outcomes: seq<Outcome>) returns (success: bool)
      modifies this`holdings, store`chains
      ensures Now() == EffectConfirm.RunTask(old(Now()), id, outcomes)
      ensures success <==> var chain := ChainOf(store.chains, id.key);
                           IsLatest(chain, id.version) && PendingTask(chain).Some? && PendingTask(chain).value.resolved
    {
      hide RetryTargets;
      var chain := ChainOf(store.chains, id.key);
      var task := PendingTask(chain);
      if !IsLatest(chain, id.version) || task.None? {
        return false;
      }
      if task.value.resolved {
        return true;
      }
      var confirmed := RetryAll(task.value.targets, outcomes);
      success := confirmed == |task.value.targets|;
      var _ := store.UpdateEffect(id.key, {CompensationPending},
                                  chain[|chain| - 1].(task := Some(task.value.(resolved := success))));
    }

    /** The loop of compensation.retry: match, write from the recorded state, or stop in conflict. */
    method RetryAll(targets: seq<Target>, outcomes: seq<Outcome>) returns (confirmed: nat)
      modifies this`holdings
      ensures Written(holdings, confirmed) == RetryTargets(old(holdings), targets, outcomes)
    {
      hide WriteOne;
      confirmed := 0;
      var used := 0;
      assert targets[0..] == targets && outcomes[0..] == outcomes;
      while confirmed < |targets|
        invariant confirmed <= |targets| && 0 <= used <= |outcomes|
        invariant var rest := RetryTargets(holdings, targets[confirmed..], outcomes[used..]);
                  RetryTargets(old(holdings), targets, outcomes) == Written(rest.holdings, rest.confirmed + confirmed)
      {
        var t := targets[confirmed];
        assert targets[confirmed..][1..] == targets[confirmed + 1..];
        if !Matches(holdings, t) {
          if Obs(holdings, t.identity) != t.before || used == |outcomes| {
            return;
          }
          assert outcomes[used..][1..] == outcomes[used + 1..];
          match outcomes[used] {
            case Failed(after) =>
              holdings := Set(holdings, t.identity, after);
              return;
            case Done(newRecordId) =>
              WriteTarget(t, newRecordId);
          }
          used := used + 1;
        }
        confirmed := confirmed + 1;
      }
    }

    /** _finalize_compensation_if_resolved, and the source check after a success. */
    method Finalize(id: EffectId, facts: Facts) returns (applied: bool)
      modifies store
      ensures Now() == EffectConfirm.Finalize(old(Now()), id, facts)
      ensures applied <==> Finalizes(old(Now()), id)
    {
      hide Refresh, ConfirmPrints;
      var chain := ChainOf(store.chains, id.key);
      var task := PendingTask(chain);
      if !IsLatest(chain, id.version) || task.None? || !task.value.resolved {
        return false;
      }
      var targets := task.value.targets;
      var n := MatchingPrefix(holdings, targets);
      ConfirmBaselines(targets[..n]);
      if n < |targets| {
        return false;
      }
      var _ := store.UpdateEffect(id.key, {CompensationPending}, chain[|chain| - 1].(state := Applied));
      var done := ChainOf(store.chains, id.key);
      RefreshNotEmpty(id.key, done, ledger, facts);
      var _ := RefreshSource(id.key, facts);
      applied := true;
    }

    /** retry: the compensation task, then its finalization. */
    method Retry(id: EffectId, outcomes: seq<Outcome>, facts: Facts) returns (applied: bool)
      modifies this`holdings, store
      ensures Now() == EffectConfirm.Retry(old(Now()), id, outcomes, facts)
    {
      hide EffectConfirm.RunTask, ConfirmPrints, Refresh, MatchingPrefix;
      var success := RunTask(id, outcomes);
      if !success {
        return false;
      }
      applied := Finalize(id, facts);
    }

    /** nav_gate: scan the account, then look for a blocker among the newest versions that touch it. */
    method NavGate(account: string, navDate: int, facts: Facts) returns (passes: bool)
      requires StoreOk(store.View())
      modifies store
      ensures Now() == Scan(old(Now()), ledger, Some(account), facts)
      ensures passes <==> GatePasses(old(Now()), account, navDate, facts)
    {
      hide EffectScan.CommitScan, EffectAccounts, Blocks, StoreOk;
      var scanner := new CashFlowScanner(store);
      var _, _, _, _ := scanner.Commit(ledger, InScope(holdings, Some(account)), Some(account), facts);
      assert Now() == Scan(old(Now()), ledger, Some(account), facts);
      ghost var blockers := Blockers(Now(), account, navDate);
      var rest := store.chains.Keys;
      passes := true;
      while rest != {}
        invariant rest <= store.chains.Keys
        invariant passes <==> blockers <= rest
        decreases rest
      {
        var key :| key in rest;
        var chain := store.chains[key];
        var blocks := chain != [] && account in EffectAccounts(key, chain, ledger)
            && Blocks(chain[|chain| - 1], navDate);
        assert blocks <==> key in blockers;
        if blocks { passes := false; }
        rest := rest - {key};
      }
    }

    lemma RefreshNotEmpty(key: Key, chain: Chain, ledger: seq<LedgerRow>, facts: Facts)
      requires chain != []
      ensures Refresh(key, chain, ledger, facts).0 != []
    {
    }
  }
}
