/** One more element of each scanner loop, as seen by the step functions. */
module EffectScanLoops {
  import opened EffectModel
  import opened Optional
  import opened EffectScan
  import opened EffectScanLaws
  import opened Totals

  lemma SeenStep(rows: seq<LedgerRow>, i: nat)
    requires i < |rows|
    ensures SeenRecords(rows[..i + 1]) == SeenRecords(rows[..i]) + if rows[i].flow.recordId == "" then {}
            else {rows[i].flow.recordId}
  {
    var a, b := rows[..i], rows[..i + 1];
    forall r | r in SeenRecords(a) ensures r in SeenRecords(b) {
      var j :| 0 <= j < |a| && a[j].flow.recordId == r && r != "";
      assert b[j] == a[j];
    }
    forall r | r in SeenRecords(b) ensures r in SeenRecords(a) || r == rows[i].flow.recordId {
      var j :| 0 <= j < |b| && b[j].flow.recordId == r && r != "";
      if j < i { assert a[j] == b[j]; }
    }
    if rows[i].flow.recordId != "" { assert b[i] == rows[i]; }
  }

  lemma SeenNothing(rows: seq<LedgerRow>)
    ensures SeenRecords(rows[..0]) == {}
  {
  }

  /** One more record swept. */
  lemma SweepStep(chains: Chains, done: set<Key>, key: Key, seen: set<string>, scope: Option<string>)
    requires key in chains && chains[key] != []
    ensures SweepMissing(chains, done + {key}, seen, scope)
            == SweepMissing(chains, done, seen, scope)[key := if IsMissing(key, seen) then ScanMissing(chains[key],
                scope) else chains[key]]
    ensures key !in done ==>
              key in SweepMissing(chains, done, seen, scope)
              && SweepMissing(chains, done, seen, scope)[key] == chains[key]
    ensures Vanished(chains, seen, scope) * (done + {key})
            == Vanished(chains, seen, scope) * done + if IsMissing(key, seen)
                && ScanMissing(chains[key], scope) != chains[key] then {key} else {}
  {
  }

  lemma SweepEnds(chains: Chains, seen: set<string>, scope: Option<string>)
    ensures SweepMissing(chains, {}, seen, scope) == chains
    ensures Vanished(chains, seen, scope) * {} == {}
    ensures Vanished(chains, seen, scope) * chains.Keys == Vanished(chains, seen, scope)
  {
  }

  /** The nets over the records in `done`. */
  ghost function ActiveOver(chains: Chains, done: set<Key>, id: Identity): map<Key, int> {
    map k | k in chains && k in done && ActiveAt(k, chains[k]) == Some(id) :: ActiveDelta(chains[k])
  }

  /** What `nets` says about one identity is right for the records in `done`. */
  ghost predicate NetIs(chains: Chains, done: set<Key>, nets: map<Identity, int>, id: Identity) {
    && (id in nets <==> exists k | k in done && k in chains :: ActiveAt(k, chains[k]) == Some(id))
    && (id in nets ==> nets[id] == Total(ActiveOver(chains, done, id)))
  }

  ghost predicate NetsAre(chains: Chains, done: set<Key>, nets: map<Identity, int>) {
    forall id :: NetIs(chains, done, nets, id)
  }

  function Credit(nets: map<Identity, int>, at: Option<Identity>, delta: int): map<Identity, int> {
    if at.None? then nets else nets[at.value := (if at.value in nets then nets[at.value] else 0) + delta]
  }

  lemma NetsStepAt(chains: Chains, done: set<Key>, nets: map<Identity, int>, key: Key, id: Identity)
    requires NetIs(chains, done, nets, id) && key in chains && key !in done
    requires ActiveAt(key, chains[key]).Some? ==> chains[key] != []
    ensures NetIs(chains, done + {key}, Credit(nets, ActiveAt(key, chains[key]),
                                               if chains[key] == [] then 0 else ActiveDelta(chains[key])), id)
  {
    hide ActiveDelta;
    var before, after := ActiveOver(chains, done, id), ActiveOver(chains, done + {key}, id);
    if ActiveAt(key, chains[key]) == Some(id) {
      assert after == before[key := ActiveDelta(chains[key])];
      TotalUpdate(before, key, ActiveDelta(chains[key]));
      assert id !in nets ==> before == map[];
      assert key in done + {key};
    } else {
      assert after == before;
      if k :| k in done && k in chains && ActiveAt(k, chains[k]) == Some(id) { assert k in done + {key}; }
    }
  }

  lemma NetsStep(chains: Chains, done: set<Key>, nets: map<Identity, int>, key: Key)
    requires NetsAre(chains, done, nets) && key in chains && key !in done
    ensures NetsAre(chains, done + {key}, Credit(nets, ActiveAt(key, chains[key]),
                                                 if chains[key] == [] then 0 else ActiveDelta(chains[key])))
  {
    hide NetIs, Credit, ActiveDelta;
    var next := Credit(nets, ActiveAt(key, chains[key]), if chains[key] == [] then 0 else ActiveDelta(chains[key]));
    forall id ensures NetIs(chains, done + {key}, next, id) {
      NetsStepAt(chains, done, nets, key, id);
    }
  }

  lemma NetsStart(chains: Chains)
    ensures NetsAre(chains, {}, map[])
  {
  }

  lemma NetsEnd(chains: Chains, nets: map<Identity, int>)
    requires NetsAre(chains, chains.Keys, nets)
    ensures forall id :: NetAt(chains, id) == if id in nets then Some(nets[id]) else None
  {
    forall id ensures NetAt(chains, id) == if id in nets then Some(nets[id]) else None {
      assert NetIs(chains, chains.Keys, nets, id);
      assert ActiveOver(chains, chains.Keys, id) == ActiveDeltas(chains, id);
    }
  }

  /** Before its turn, an identity's record and baseline are as at the start of the loop. */
  lemma ReconcileBefore(s: Store, done: set<Identity>, cash: Holdings, today: int, id: Identity)
    requires id !in done
    ensures var t := ReconcileAll(s, done, cash, today);
            ChainOf(t.chains, DriftKey(id)) == ChainOf(s.chains, DriftKey(id))
                && ConfirmedOf(t.prints, id) == ConfirmedOf(s.prints, id)
  {
    ReconcileAllChain(s, done, cash, today, DriftKey(id));
  }

  lemma ReconcileStepChains(s: Store, done: set<Identity>, cash: Holdings, today: int, id: Identity)
    requires id !in done
    requires forall k :: k in s.chains ==> s.chains[k] != []
    ensures ReconcileAll(s, done + {id}, cash, today).chains
            == Put(ReconcileAll(s, done, cash, today).chains, DriftKey(id), ReconcileAt(s, cash, today, id).chain)
  {
    hide ReconcileAt;
    var r := ReconcileAt(s, cash, today, id);
    var a, b := DriftKeys(s, done, cash, today), DriftKeys(s, done + {id}, cash, today);
    assert b == a + if r.chain != [] then {DriftKey(id)} else {};
    ReconcileNonEmpty(s, cash, today, id);
  }

  lemma MovedStep(s: Store, done: set<Identity>, cash: Holdings, today: int, id: Identity)
    ensures Moved(s, done + {id}, cash, today)
            == Moved(s, done, cash, today) + if ReconcileAt(s, cash, today, id).changed then {id} else {}
  {
    hide ReconcileAt;
  }

  lemma ReconcileStep(s: Store, done: set<Identity>, cash: Holdings, today: int, id: Identity)
    requires id !in done
    requires forall k :: k in s.chains ==> s.chains[k] != []
    ensures var t := ReconcileAll(s, done, cash, today);
            var r := ReconcileAt(s, cash, today, id);
            ReconcileAll(s, done + {id}, cash, today) == Store(Put(t.chains, DriftKey(id), r.chain),
                                                               t.prints[id := r.mark])
  {
    hide ReconcileAt, DriftKeys;
    ReconcileStepChains(s, done, cash, today, id);
    assert ReconcileAll(s, done + {id}, cash, today).prints
        == ReconcileAll(s, done, cash, today).prints[id := ReconcileAt(s, cash, today, id).mark];
  }

  lemma ReconcileNone(s: Store, cash: Holdings, today: int)
    ensures ReconcileAll(s, {}, cash, today) == s && Moved(s, {}, cash, today) == {}
  {
    assert ReconcileAll(s, {}, cash, today).chains == s.chains;
    assert ReconcileAll(s, {}, cash, today).prints == s.prints;
  }
}
