/** Exactly what the write loop of a confirmation and the retry of a compensation do to each holding. */
module EffectWrites {
  import opened EffectModel
  import opened Optional
  import opened EffectScan
  import opened EffectPreview
  import opened EffectConfirm
  import opened EffectInvariants
  import opened EffectRuns

  /** The holding a successful write leaves: the old record, or a new one, with the recorded amount. */
  predicate WrittenAs(h: Holdings, h': Holdings, t: Target, newRecordId: string) {
    && t.identity in h' && h'[t.identity].quantity == t.amount
    && h'[t.identity].recordId == if t.identity in h then h[t.identity].recordId else newRecordId
  }

  /** One write, seen from every identity. */
  lemma OneWrite(h: Holdings, t: Target, newRecordId: string)
    ensures WrittenAs(h, WriteOne(h, t, newRecordId), t, newRecordId)
    ensures forall id :: id != t.identity ==> Obs(WriteOne(h, t, newRecordId), id) == Obs(h, id)
  {
  }

  lemma {:induction false} WritesElsewhere(h: Holdings, targets: seq<Target>, outcomes: seq<Outcome>, id: Identity)
    requires id !in TargetIdentities(targets)
    ensures Obs(WriteTargets(h, targets, outcomes).holdings, id) == Obs(h, id)
    decreases |targets|
  {
    if targets != [] {
      assert targets[0] in targets && forall t :: t in targets[1..] ==> t in targets;
      if outcomes != [] && outcomes[0].Done? {
        WritesElsewhere(WriteOne(h, targets[0], outcomes[0].newRecordId), targets[1..], outcomes[1..], id);
      }
    }
  }

  /** How far a loop that ends at the first failure gets. */
  predicate StopsAt(outcomes: seq<Outcome>, n: nat, k: nat) {
    && k <= n && k <= |outcomes| && (forall i :: 0 <= i < k ==> outcomes[i].Done?)
    && (k == n || k == |outcomes| || outcomes[k].Failed?)
  }

  /**
   The write loop writes the targets in order up to the first outcome that is not a success: each of them keeps its
   record or gets the new one, the one that failed is as the storage left it, and no other holding is touched.
   */
  lemma {:induction false} WritesExactly(h: Holdings, targets: seq<Target>, outcomes: seq<Outcome>)
    requires DistinctTargets(targets)
    ensures var r := WriteTargets(h, targets, outcomes);
            && StopsAt(outcomes, |targets|, r.confirmed)
            && (forall i :: 0 <= i < r.confirmed ==> WrittenAs(h, r.holdings, targets[i], outcomes[i].newRecordId))
            && (r.confirmed < |targets| && r.confirmed < |outcomes| ==>
                  Obs(r.holdings, targets[r.confirmed].identity) == outcomes[r.confirmed].after)
            && (r.confirmed < |targets| && r.confirmed == |outcomes| ==>
                  Obs(r.holdings, targets[r.confirmed].identity) == Obs(h, targets[r.confirmed].identity))
            && (forall i :: r.confirmed < i < |targets| ==>
                  Obs(r.holdings, targets[i].identity) == Obs(h, targets[i].identity))
    decreases |targets|
  {
    hide WriteOne;
    var r := WriteTargets(h, targets, outcomes);
    if targets != [] && outcomes != [] && outcomes[0].Done? {
      var h1, rest := WriteOne(h, targets[0], outcomes[0].newRecordId), targets[1..];
      OneWrite(h, targets[0], outcomes[0].newRecordId);
      assert DistinctTargets(rest);
      assert targets[0].identity !in TargetIdentities(rest);
      WritesExactly(h1, rest, outcomes[1..]);
      WritesElsewhere(h1, rest, outcomes[1..], targets[0].identity);
      forall i | 0 <= i < r.confirmed ensures WrittenAs(h, r.holdings, targets[i], outcomes[i].newRecordId) {
        if i == 0 {
          assert Obs(r.holdings, targets[0].identity) == Obs(h1, targets[0].identity);
        } else {
          assert rest[i - 1] == targets[i] && outcomes[1..][i - 1] == outcomes[i];
          assert targets[i].identity != targets[0].identity
                 && Obs(h1, targets[i].identity) == Obs(h, targets[i].identity);
          assert WrittenAs(h1, r.holdings, rest[i - 1], outcomes[1..][i - 1].newRecordId);
        }
      }
      forall i | r.confirmed < i < |targets|
        ensures Obs(r.holdings, targets[i].identity) == Obs(h, targets[i].identity)
      {
        assert rest[i - 1] == targets[i];
      }
    }
  }

  // ---------- retries ----------

  /** The holding is neither as recorded before the write nor as the write was to leave it. */
  predicate Conflicts(h: Holdings, t: Target) { !Matches(h, t) && Obs(h, t.identity) != t.before }

  lemma {:induction false} RetryElsewhere(h: Holdings, targets: seq<Target>, outcomes: seq<Outcome>, id: Identity)
    requires id !in TargetIdentities(targets)
    ensures Obs(RetryTargets(h, targets, outcomes).holdings, id) == Obs(h, id)
    decreases |targets|
  {
    if targets != [] {
      assert targets[0] in targets && forall t :: t in targets[1..] ==> t in targets;
      if Matches(h, targets[0]) {
        RetryElsewhere(h, targets[1..], outcomes, id);
      } else if outcomes != [] && outcomes[0].Done? {
        RetryElsewhere(WriteOne(h, targets[0], outcomes[0].newRecordId), targets[1..], outcomes[1..], id);
      }
    }
  }

  lemma SameElsewhere(h: Holdings, h1: Holdings, t: Target)
    requires Obs(h1, t.identity) == Obs(h, t.identity)
    ensures Matches(h1, t) == Matches(h, t) && Conflicts(h1, t) == Conflicts(h, t)
  {
  }

  /**
   A retry stops at a conflict: the holding of a target in conflict is left as it is, the target is not confirmed,
   and no target after it is written.
   */
  lemma {:induction false} RetryStopsAtConflict(h: Holdings, targets: seq<Target>, outcomes: seq<Outcome>, i: nat)
    requires DistinctTargets(targets) && i < |targets| && Conflicts(h, targets[i])
    ensures var r := RetryTargets(h, targets, outcomes);
            && r.confirmed <= i
            && forall j :: i <= j < |targets| ==>
                 Obs(r.holdings, targets[j].identity) == Obs(h, targets[j].identity)
    decreases |targets|
  {
    hide WriteOne;
    var rest, r := targets[1..], RetryTargets(h, targets, outcomes);
    assert DistinctTargets(rest);
    if i > 0 {
      assert rest[i - 1] == targets[i];
      assert forall j :: i <= j < |targets| ==> rest[j - 1] == targets[j];
      assert forall j :: i <= j < |targets| ==> targets[j].identity != targets[0].identity;
      if Matches(h, targets[0]) {
        RetryStopsAtConflict(h, rest, outcomes, i - 1);
      } else if outcomes != [] && outcomes[0].Done? {
        OneWrite(h, targets[0], outcomes[0].newRecordId);
        var h1 := WriteOne(h, targets[0], outcomes[0].newRecordId);
        SameElsewhere(h, h1, targets[i]);
        RetryStopsAtConflict(h1, rest, outcomes[1..], i - 1);
      }
    }
  }

  /** A retry leaves what is in place already alone, record included. */
  lemma {:induction false} RetryKeepsMatches(h: Holdings, targets: seq<Target>, outcomes: seq<Outcome>, i: nat)
    requires DistinctTargets(targets) && i < |targets| && Matches(h, targets[i])
    ensures Obs(RetryTargets(h, targets, outcomes).holdings, targets[i].identity) == Obs(h, targets[i].identity)
    decreases |targets|
  {
    hide WriteOne;
    var rest := targets[1..];
    assert DistinctTargets(rest);
    if i == 0 {
      assert targets[0].identity !in TargetIdentities(rest);
      RetryElsewhere(h, rest, outcomes, targets[0].identity);
    } else {
      assert rest[i - 1] == targets[i] && targets[i].identity != targets[0].identity;
      if Matches(h, targets[0]) {
        RetryKeepsMatches(h, rest, outcomes, i - 1);
      } else if outcomes != [] && outcomes[0].Done? {
        OneWrite(h, targets[0], outcomes[0].newRecordId);
        var h1 := WriteOne(h, targets[0], outcomes[0].newRecordId);
        SameElsewhere(h, h1, targets[i]);
        RetryKeepsMatches(h1, rest, outcomes[1..], i - 1);
      }
    }
  }

  /** And confirms it without writing: targets in place at the front need no answer of the storage. */
  lemma {:induction false} RetryConfirmsMatches(h: Holdings, targets: seq<Target>, outcomes: seq<Outcome>, n: nat)
    requires n <= |targets| && forall i :: 0 <= i < n ==> Matches(h, targets[i])
    ensures var r := RetryTargets(h, targets, outcomes);
            r.confirmed >= n && (n == |targets| ==> r == Written(h, n))
    decreases n
  {
    if n > 0 {
      assert Matches(h, targets[0]);
      RetryConfirmsMatches(h, targets[1..], outcomes, n - 1);
    }
  }

  /** Without a conflict, a retry whose writes all succeed confirms every target. */
  lemma {:induction false} RetryConfirmsAll(h: Holdings, targets: seq<Target>, outcomes: seq<Outcome>)
    requires DistinctTargets(targets) && forall i :: 0 <= i < |targets| ==> !Conflicts(h, targets[i])
    requires |targets| <= |outcomes| && forall i :: 0 <= i < |outcomes| ==> outcomes[i].Done?
    ensures RetryTargets(h, targets, outcomes).confirmed == |targets|
    decreases |targets|
  {
    hide WriteOne;
    if targets != [] {
      var rest := targets[1..];
      assert DistinctTargets(rest);
      if Matches(h, targets[0]) {
        RetryConfirmsAll(h, rest, outcomes);
      } else {
        assert !Conflicts(h, targets[0]);
        OneWrite(h, targets[0], outcomes[0].newRecordId);
        var h1 := WriteOne(h, targets[0], outcomes[0].newRecordId);
        forall i | 0 <= i < |rest| ensures !Conflicts(h1, rest[i]) {
          assert rest[i] == targets[i + 1];
          SameElsewhere(h, h1, rest[i]);
        }
        RetryConfirmsAll(h1, rest, outcomes[1..]);
      }
    }
  }

  /** What a retry can have made of a holding: left it, put it at the target, or got what a failed write left. */
  predicate RetryMade(h: Holdings, h': Holdings, t: Target, outcomes: seq<Outcome>) {
    || Obs(h', t.identity) == Obs(h, t.identity)
    || (exists o :: o in outcomes && o.Done? && WrittenAs(h, h', t, o.newRecordId))
    || (exists o :: o in outcomes && o.Failed? && Obs(h', t.identity) == o.after)
  }

  /** A retry writes nothing but recorded targets whose holding is as recorded before. */
  lemma {:induction false} RetryWritesOnlyTargets(h: Holdings, targets: seq<Target>, outcomes: seq<Outcome>, i: nat)
    requires DistinctTargets(targets) && i < |targets|
    ensures RetryMade(h, RetryTargets(h, targets, outcomes).holdings, targets[i], outcomes)
    decreases |targets|
  {
    hide WriteOne;
    var rest, r := targets[1..], RetryTargets(h, targets, outcomes);
    assert DistinctTargets(rest);
    if i == 0 {
      assert targets[0].identity !in TargetIdentities(rest);
      if Matches(h, targets[0]) {
        RetryElsewhere(h, rest, outcomes, targets[0].identity);
      } else if outcomes != [] && outcomes[0].Done? {
        OneWrite(h, targets[0], outcomes[0].newRecordId);
        RetryElsewhere(WriteOne(h, targets[0], outcomes[0].newRecordId), rest, outcomes[1..], targets[0].identity);
        assert outcomes[0] in outcomes;
      }
    } else {
      assert rest[i - 1] == targets[i] && targets[i].identity != targets[0].identity;
      if Matches(h, targets[0]) {
        RetryWritesOnlyTargets(h, rest, outcomes, i - 1);
      } else if outcomes != [] && outcomes[0].Done? {
        OneWrite(h, targets[0], outcomes[0].newRecordId);
        var h1 := WriteOne(h, targets[0], outcomes[0].newRecordId);
        RetryWritesOnlyTargets(h1, rest, outcomes[1..], i - 1);
        assert forall o :: o in outcomes[1..] ==> o in outcomes;
      }
    }
  }

  // ---------- one retry of a pending compensation ----------

  /**
   A hand edit survives a retry. While one recorded target is neither as before nor in place, a retry of the
   compensation leaves its holding and those of all later targets as they are, and the task unresolved.
   */
  lemma RetryRefusesHandEdits(w: World, id: EffectId, outcomes: seq<Outcome>, i: nat)
    requires WorldOk(w) && IsLatest(ChainAt(w, id.key), id.version)
    requires var task := PendingTask(ChainAt(w, id.key));
             && task.Some? && !task.value.resolved
             && i < |task.value.targets| && Conflicts(w.holdings, task.value.targets[i])
    ensures var w' := RunTask(w, id, outcomes);
            var targets := PendingTask(ChainAt(w, id.key)).value.targets;
            && PendingTask(ChainAt(w', id.key)) == Some(Task(targets, false))
            && (forall j :: i <= j < |targets| ==>
                  Obs(w'.holdings, targets[j].identity) == Obs(w.holdings, targets[j].identity))
  {
    hide RetryTargets, TaskBooked, ChainOk;
    var chain := ChainAt(w, id.key);
    assert Good(id.key, chain) && RowOk(id.key, chain[|chain| - 1]);
    RetryStopsAtConflict(w.holdings, PendingTask(chain).value.targets, outcomes, i);
  }

  /** And without such an edit, a retry whose writes all succeed resolves the task with every target in place. */
  lemma RetryResolves(w: World, id: EffectId, outcomes: seq<Outcome>)
    requires WorldOk(w) && IsLatest(ChainAt(w, id.key), id.version)
    requires var task := PendingTask(ChainAt(w, id.key));
             && task.Some? && !task.value.resolved
             && (forall i :: 0 <= i < |task.value.targets| ==> !Conflicts(w.holdings, task.value.targets[i]))
             && |task.value.targets| <= |outcomes|
    requires forall i :: 0 <= i < |outcomes| ==> outcomes[i].Done?
    ensures var w' := RunTask(w, id, outcomes);
            var targets := PendingTask(ChainAt(w, id.key)).value.targets;
            && PendingTask(ChainAt(w', id.key)) == Some(Task(targets, true))
            && (forall i :: 0 <= i < |targets| ==> Matches(w'.holdings, targets[i]))
  {
    hide RetryTargets, TaskBooked, ChainOk, Matches;
    var chain := ChainAt(w, id.key);
    var targets := PendingTask(chain).value.targets;
    assert Good(id.key, chain) && RowOk(id.key, chain[|chain| - 1]);
    RetryConfirmsAll(w.holdings, targets, outcomes);
    RetryTargetsPrefix(w.holdings, targets, outcomes);
  }

  /** A retry changes no holding that is not a recorded target, nor one that is in place. */
  lemma RetryTouchesOnlyTargets(w: World, id: EffectId, outcomes: seq<Outcome>, at: Identity)
    requires WorldOk(w)
    requires var task := PendingTask(ChainAt(w, id.key));
             task.None? || at !in TargetIdentities(task.value.targets)
             || exists t :: t in task.value.targets && t.identity == at && Matches(w.holdings, t)
    ensures Obs(RunTask(w, id, outcomes).holdings, at) == Obs(w.holdings, at)
  {
    hide RetryTargets, TaskBooked, ChainOk;
    var chain := ChainAt(w, id.key);
    var task := PendingTask(chain);
    if task.Some? {
      assert Good(id.key, chain) && RowOk(id.key, chain[|chain| - 1]);
      if at !in TargetIdentities(task.value.targets) {
        RetryElsewhere(w.holdings, task.value.targets, outcomes, at);
      } else {
        var t :| t in task.value.targets && t.identity == at && Matches(w.holdings, t);
        var i :| 0 <= i < |task.value.targets| && task.value.targets[i] == t;
        RetryKeepsMatches(w.holdings, task.value.targets, outcomes, i);
      }
    }
  }

  // ---------- finalization ----------

  /** How many targets read back, from the front. */
  predicate ReadBack(h: Holdings, targets: seq<Target>, n: nat) {
    && n <= |targets| && (forall i :: 0 <= i < n ==> targets[i].identity in h
                                                     && h[targets[i].identity].quantity == targets[i].amount)
    && (n < |targets| ==> !(targets[n].identity in h && h[targets[n].identity].quantity == targets[n].amount))
  }

  lemma {:induction false} MatchingPrefixExactly(h: Holdings, targets: seq<Target>)
    ensures ReadBack(h, targets, MatchingPrefix(h, targets))
  {
    if targets != [] && Matches(h, targets[0]) {
      MatchingPrefixExactly(h, targets[1..]);
      var n := MatchingPrefix(h, targets);
      forall i | 0 <= i < n ensures Matches(h, targets[i]) {
        if i > 0 { assert targets[1..][i - 1] == targets[i]; }
      }
    }
  }

  /** The baselines after confirming targets: each is the holding that was read back. */
  lemma PrintsExactly(prints: Prints, targets: seq<Target>, h: Holdings, at: Identity)
    ensures var prints' := ConfirmPrints(prints, targets, h);
            && (at in TargetIdentities(targets) ==>
                  at in prints' && prints'[at] == Fingerprint(Some(Obs(h, at)), Obs(h, at)))
            && (at !in TargetIdentities(targets) ==>
                  (at in prints' <==> at in prints) && (at in prints ==> prints'[at] == prints[at]))
  {
  }

  /**
   A finalization confirms the baselines of the targets that read back, up to the first that does not; it applies
   the version exactly when the task is resolved and all do, and writes no holding.
   */
  lemma FinalizeExactly(w: World, id: EffectId, facts: Facts, n: nat, at: Identity)
    requires WorldOk(w) && IsLatest(ChainAt(w, id.key), id.version)
    requires var task := PendingTask(ChainAt(w, id.key));
             task.Some? && task.value.resolved && ReadBack(w.holdings, task.value.targets, n)
    ensures var w' := Finalize(w, id, facts);
            var chain := ChainAt(w, id.key);
            var targets := PendingTask(chain).value.targets;
            && w'.holdings == w.holdings
            && (if at in TargetIdentities(targets[..n]) then
                  at in w'.store.prints
                  && w'.store.prints[at] == Fingerprint(Some(Obs(w.holdings, at)), Obs(w.holdings, at))
                else
                  (at in w'.store.prints <==> at in w.store.prints)
                  && (at in w.store.prints ==> w'.store.prints[at] == w.store.prints[at]))
            && (n < |targets| ==> ChainAt(w', id.key) == chain)
            && (n == |targets| ==>
                |ChainAt(w', id.key)| >= |chain| && ChainAt(w', id.key)[|chain| - 1].state == Applied)
  {
    hide Refresh, Matches, ConfirmPrints, LastApplied, TaskBooked, ChainOk;
    var chain := ChainAt(w, id.key);
    var targets := PendingTask(chain).value.targets;
    MatchingPrefixExactly(w.holdings, targets);
    OneReadBack(w.holdings, targets, n, MatchingPrefix(w.holdings, targets));
    PrintsExactly(w.store.prints, targets[..n], w.holdings, at);
    if n == |targets| {
      FinalizeKeeps(w, id, facts);
      AppliedStays(id.key, SetLatest(chain, chain[|chain| - 1].(state := Applied)), w.ledger, facts);
    }
  }

  lemma OneReadBack(h: Holdings, targets: seq<Target>, m: nat, n: nat)
    requires ReadBack(h, targets, m) && ReadBack(h, targets, n)
    ensures m == n
  {
  }

  lemma AppliedStays(key: Key, chain: Chain, ledger: seq<LedgerRow>, facts: Facts)
    requires chain != [] && chain[|chain| - 1].state == Applied
    ensures var next := Refresh(key, chain, ledger, facts).0;
            |next| >= |chain| && next[|chain| - 1].state == Applied
  {
  }

  /** A finalization of anything else changes nothing. */
  lemma FinalizeNothing(w: World, id: EffectId, facts: Facts)
    requires !IsLatest(ChainAt(w, id.key), id.version) || PendingTask(ChainAt(w, id.key)).None?
             || !PendingTask(ChainAt(w, id.key)).value.resolved
    ensures Finalize(w, id, facts) == w
  {
  }
}
