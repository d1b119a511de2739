/**
 The delayed-write protocol shared by the four caches of local_cache.py, for entries of any type. The class is
 the price cache; the other three upsert and delete entries that never expire.
 Every locked section is one step. A timer is pending until it fires or is cancelled; once fired its
 callback waits for the lock, and a later cancel no longer stops it.
 */
module WriteBehind {
  import opened Optional

  const FLUSH_MAX_DIRTY_COUNT := 10

  datatype Entry<V> = Entry(payload: V, expires: Option<int>)

  type Items<V> = map<string, Entry<V>>

  datatype Cache<V> = Cache(items: Items<V>, file: Items<V>, dirtyCount: nat, dirty: bool, timer: Option<nat>,
                         pending: set<nat>, waiting: set<nat>, timers: nat, shutdown: bool)
  {
    predicate TimerAlive() { timer.Some? && timer.value in pending + waiting }
  }

  predicate Expired<V>(e: Entry<V>, now: int) { e.expires.Some? && e.expires.value < now }

  // ---------- what each locked section does; `ok` says whether the file could be written ----------

  function Saved<V>(c: Cache<V>, ok: bool): Cache<V> {
    if ok then c.(file := c.items, dirtyCount := 0, dirty := false) else c
  }

  function Scheduled<V>(c: Cache<V>): Cache<V> {
    if c.shutdown || c.TimerAlive() then c
    else c.(timer := Some(c.timers), pending := c.pending + {c.timers}, timers := c.timers + 1)
  }

  /** After a change of `items`. */
  function Changed<V>(c: Cache<V>, items: Items<V>, flush: bool, ok: bool): Cache<V> {
    var d := c.(items := items, dirtyCount := c.dirtyCount + 1, dirty := true);
    if flush || d.dirtyCount >= FLUSH_MAX_DIRTY_COUNT then Saved(d, ok) else Scheduled(d)
  }

  function Put<V>(c: Cache<V>, key: string, e: Entry<V>, flush: bool, ok: bool): Cache<V> {
    Changed(c, c.items[key := e], flush, ok)
  }

  function Deleted<V>(c: Cache<V>, key: string, flush: bool, ok: bool): Cache<V> {
    if key in c.items then Changed(c, c.items - {key}, flush, ok) else c
  }

  function Got<V>(c: Cache<V>, key: string, now: int, allowExpired: bool, ok: bool): Cache<V> {
    if key in c.items && Expired(c.items[key], now) && !allowExpired then Deleted(c, key, true, ok) else c
  }

  function ExpiredKeys<V>(items: Items<V>, now: int): set<string> { set k | k in items && Expired(items[k], now) }

  function Swept<V>(c: Cache<V>, now: int, ok: bool): Cache<V> {
    var gone := ExpiredKeys(c.items, now);
    if gone == {} then c
    else Saved(c.(items := c.items - gone, dirtyCount := c.dirtyCount + |gone|, dirty := true), ok)
  }

  function Fired<V>(c: Cache<V>, t: nat): Cache<V> {
    if t in c.pending then c.(pending := c.pending - {t}, waiting := c.waiting + {t}) else c
  }

  function CalledBack<V>(c: Cache<V>, t: nat, ok: bool): Cache<V> {
    if t !in c.waiting then c
    else (if c.dirty then Saved(c, ok) else c).(timer := None, waiting := c.waiting - {t})
  }

  function Flushed<V>(c: Cache<V>, ok: bool): Cache<V> {
    var d := if c.dirty then Saved(c, ok) else c;
    if d.TimerAlive() then d.(timer := None, pending := d.pending - {d.timer.value}) else d
  }

  // ---------- the class ----------

  class LocalPriceCache {
    var items: Items<int>
    var file: Items<int>
    var dirtyCount: nat
    var dirty: bool
    var timer: Option<nat>
    var pending: set<nat>
    var waiting: set<nat>
    var timers: nat
    var shutdown: bool

    function State(): Cache<int>
      reads this
    {
      Cache(items, file, dirtyCount, dirty, timer, pending, waiting, timers, shutdown)
    }

    /** Loading the file. */
    constructor (file: Items<int>)
      ensures State() == Loaded(file)
    {
      this.items, this.file := file, file;
      dirtyCount, dirty, timer, pending, waiting, timers, shutdown := 0, false, None, {}, {}, 0, false;
    }

    method SaveUnlocked(ok: bool)
      modifies this
      ensures State() == Saved(old(State()), ok)
    {
      if ok {
        file := items;
        dirtyCount := 0;
        dirty := false;
      }
    }

    method ScheduleFlush()
      modifies this
      ensures State() == Scheduled(old(State()))
    {
      if shutdown {
        return;
      }
      if timer.None? || timer.value !in pending + waiting {
        timer := Some(timers);
        pending := pending + {timers};
        timers := timers + 1;
      }
    }

    method Save(key: string, e: Entry<int>, flush: bool, ok: bool)
      modifies this
      ensures State() == Put(old(State()), key, e, flush, ok)
    {
      items := items[key := e];
      dirtyCount := dirtyCount + 1;
      dirty := true;
      if flush || dirtyCount >= FLUSH_MAX_DIRTY_COUNT {
        SaveUnlocked(ok);
      } else {
        ScheduleFlush();
      }
    }

    method Delete(key: string, flush: bool, ok: bool)
      modifies this
      ensures State() == Deleted(old(State()), key, flush, ok)
    {
      if key in items {
        items := items - {key};
        dirtyCount := dirtyCount + 1;
        dirty := true;
        if flush || dirtyCount >= FLUSH_MAX_DIRTY_COUNT {
          SaveUnlocked(ok);
        } else {
          ScheduleFlush();
        }
      }
    }

    /** An expired entry is dropped, or served up to `maxStale` seconds after its expiry when allowed. */
    method Get(key: string, now: int, allowExpired: bool, maxStale: int, ok: bool) returns (e: Option<Entry<int>>)
      modifies this
      ensures State() == Got(old(State()), key, now, allowExpired, ok)
      ensures e.Some? ==> key in items && e.value == items[key]
      ensures e.Some? <==> key in old(items)
                           && var expires := old(items)[key].expires;
                              expires.None? || now <= expires.value
                              || (allowExpired && 0 < now - expires.value <= maxStale)
      ensures items == if key in old(items) && old(items)[key].expires.Some? && old(items)[key].expires.value < now
                          && !allowExpired then old(items) - {key} else old(items)
    {
      if key !in items {
        return None;
      }
      var data := items[key];
      if data.expires.Some? && data.expires.value < now {
        if !allowExpired {
          Delete(key, true, ok);
          return None;
        }
        var age := now - data.expires.value;
        if maxStale <= 0 || age > maxStale {
          return None;
        }
      }
      e := Some(data);
    }

    /** The scan of get_all: the live entries and the expired keys. */
    method Split(now: int) returns (live: Items<int>, expired: set<string>)
      ensures expired == ExpiredKeys(items, now) && live == items - expired
      ensures forall k :: k in live <==> k in items && (items[k].expires.None? || now <= items[k].expires.value)
    {
      live := map[];
      expired := {};
      var left := items.Keys;
      while left != {}
        invariant left <= items.Keys
        invariant forall k :: k in expired <==> k in items && k !in left && Expired(items[k], now)
        invariant forall k :: k in live <==> k in items && k !in left && !Expired(items[k], now)
        invariant forall k :: k in live ==> live[k] == items[k]
        decreases left
      {
        var key :| key in left;
        left := left - {key};
        if items[key].expires.Some? && items[key].expires.value < now {
          expired := expired + {key};
        } else {
          live := live[key := items[key]];
        }
      }
    }

    /** get_all: the live entries; expired ones are removed in one batch that is saved at once. */
    method GetAll(now: int, ok: bool) returns (live: Items<int>)
      modifies this
      ensures State() == Swept(old(State()), now, ok)
      ensures live == items
      ensures forall k :: k in live <==>
                k in old(items) && (old(items)[k].expires.None? || now <= old(items)[k].expires.value)
      ensures forall k :: k in live ==> live[k] == old(items)[k]
    {
      hide ExpiredKeys;
      var expired;
      live, expired := Split(now);
      var ids := expired;
      while ids != {}
        invariant ids <= expired && items == old(items) - (expired - ids)
        invariant State() == old(State()).(items := items)
        decreases ids
      {
        var key :| key in ids;
        items := items - {key};
        ids := ids - {key};
      }
      assert items == old(items) - expired;
      if expired != {} {
        dirtyCount := dirtyCount + |expired|;
        dirty := true;
        SaveUnlocked(ok);
      }
    }

    /** _flush_delayed, entered by the waiting callback of timer `t`. */
    method FlushDelayed(t: nat, ok: bool)
      requires t in waiting
      modifies this
      ensures State() == CalledBack(old(State()), t, ok)
    {
      if dirty {
        SaveUnlocked(ok);
      }
      timer := None;
      waiting := waiting - {t};
    }

    method Flush(ok: bool)
      modifies this
      ensures State() == Flushed(old(State()), ok)
    {
      if dirty {
        SaveUnlocked(ok);
      }
      if timer.Some? && timer.value in pending + waiting {
        pending := pending - {timer.value};
        timer := None;
      }
    }

    /** close, when no other thread takes the lock between its two steps. */
    method Close(ok: bool)
      modifies this
      ensures State() == Flushed(old(State()).(shutdown := true), ok)
    {
      shutdown := true;
      Flush(ok);
    }
  }

  // ---------- runs ----------

  datatype Step<V> =
    | SaveStep(key: string, e: Entry<V>, flush: bool, ok: bool)
    | DeleteStep(key: string, flush: bool, ok: bool)
    | GetStep(key: string, now: int, allowExpired: bool, ok: bool)
    | GetAllStep(now: int, ok: bool)
    | FireStep(t: nat)
    | CallbackStep(t: nat, ok: bool)
    | FlushStep(ok: bool)
    | ShutdownStep

  function Loaded<V>(file: Items<V>): Cache<V> { Cache(file, file, 0, false, None, {}, {}, 0, false) }

  function Next<V>(c: Cache<V>, s: Step<V>): Cache<V> {
    match s
    case SaveStep(key, e, flush, ok) => Put(c, key, e, flush, ok)
    case DeleteStep(key, flush, ok) => Deleted(c, key, flush, ok)
    case GetStep(key, now, allow, ok) => Got(c, key, now, allow, ok)
    case GetAllStep(now, ok) => Swept(c, now, ok)
    case FireStep(t) => Fired(c, t)
    case CallbackStep(t, ok) => CalledBack(c, t, ok)
    case FlushStep(ok) => Flushed(c, ok)
    case ShutdownStep => c.(shutdown := true)
  }

  function Run<V>(c: Cache<V>, steps: seq<Step<V>>): Cache<V> {
    if steps == [] then c else Next(Run(c, steps[..|steps| - 1]), steps[|steps| - 1])
  }

  // ---------- the history of single changes ----------

  datatype Change<V> = Set(key: string, e: Entry<V>) | Remove(key: string)

  function Made<V>(items: Items<V>, change: Change<V>): Items<V> {
    match change
    case Set(key, e) => items[key := e]
    case Remove(key) => items - {key}
  }

  function Replay<V>(items: Items<V>, log: seq<Change<V>>): Items<V> {
    if log == [] then items
    else Made(Replay(items, log[..|log| - 1]), log[|log| - 1])
  }

  /** The removals of a batch, one by one. */
  ghost function Removals<V>(keys: set<string>): seq<Change<V>> {
    if keys == {} then []
    else
      var key :| key in keys;
      Removals(keys - {key}) + [Remove(key)]
  }

  /** The changes one step makes to the cached items. */
  ghost function Changes<V>(c: Cache<V>, s: Step<V>): seq<Change<V>> {
    match s
    case SaveStep(key, e, _, _) => [Set(key, e)]
    case DeleteStep(key, _, _) => if key in c.items then [Remove(key)] else []
    case GetStep(key, now, allow, _) =>
          if key in c.items && Expired(c.items[key], now) && !allow then [Remove(key)] else []
    case GetAllStep(now, _) => Removals(ExpiredKeys(c.items, now))
    case _ => []
  }

  ghost function Log<V>(c: Cache<V>, steps: seq<Step<V>>): seq<Change<V>> {
    if steps == [] then []
    else
      var front := steps[..|steps| - 1];
      Log(c, front) + Changes(Run(c, front), steps[|steps| - 1])
  }

  lemma {:induction false} ReplayConcat<V>(items: Items<V>, a: seq<Change<V>>, b: seq<Change<V>>)
    ensures Replay(items, a + b) == Replay(Replay(items, a), b)
  {
    if b == [] {
      assert a + b == a;
    } else {
      ReplayConcat(items, a, b[..|b| - 1]);
      assert (a + b)[..|a + b| - 1] == a + b[..|b| - 1];
    }
  }

  lemma {:induction false} ReplayRemovals<V>(items: Items<V>, keys: set<string>)
    ensures |Removals<V>(keys)| == |keys| && Replay(items, Removals<V>(keys)) == items - keys
  {
    hide Replay;
    if keys == {} {
      ReplayNone(items);
    } else {
      var key :| key in keys && Removals<V>(keys) == Removals<V>(keys - {key}) + [Remove(key)];
      ReplayRemovals(items, keys - {key});
      ReplayConcat(items, Removals<V>(keys - {key}), [Remove(key)]);
      ReplayOne(items - (keys - {key}), Remove(key));
      assert items - (keys - {key}) - {key} == items - keys;
    }
  }

  lemma ReplayNone<V>(items: Items<V>)
    ensures Replay(items, []) == items
  {
  }

  lemma ReplayOne<V>(items: Items<V>, change: Change<V>)
    ensures Replay(items, [change]) == Made(items, change)
  {
    assert [change][..0] == [];
  }

  /** The items follow the history; the file holds all of it but the last `dirtyCount` changes. */
  ghost predicate Tracks<V>(c: Cache<V>, first: Items<V>, log: seq<Change<V>>) {
    && c.items == Replay(first, log)
    && c.dirtyCount <= |log| && c.file == Replay(first, log[..|log| - c.dirtyCount])
    && (c.dirty <==> c.dirtyCount > 0)
    && (c.timer.Some? ==> c.TimerAlive())
  }

  /** Dirty data has a pending timer or a waiting callback that will write it, and there is little of it. */
  predicate Guarded<V>(c: Cache<V>) {
    c.dirtyCount < FLUSH_MAX_DIRTY_COUNT && (c.dirty ==> c.pending + c.waiting != {})
  }

  predicate Succeeds<V>(s: Step<V>) { !s.FireStep? && !s.ShutdownStep? ==> s.ok }

  lemma StepReplays<V>(c: Cache<V>, s: Step<V>)
    ensures Next(c, s).items == Replay(c.items, Changes(c, s))
    ensures var d := Next(c, s);
            || (d.file == c.file && d.dirtyCount == c.dirtyCount + |Changes(c, s)|)
            || (d.file == d.items && d.dirtyCount == 0)
  {
    match s
    case SaveStep(key, e, _, _) => ReplayOne(c.items, Set(key, e));
    case DeleteStep(key, _, _) => ReplayOne(c.items, Remove(key));
    case GetStep(key, _, _, _) => ReplayOne(c.items, Remove(key));
    case GetAllStep(now, _) => ReplayRemovals(c.items, ExpiredKeys(c.items, now));
    case _ =>
  }

  lemma StepTracks<V>(c: Cache<V>, s: Step<V>, first: Items<V>, log: seq<Change<V>>)
    requires Tracks(c, first, log)
    ensures Tracks(Next(c, s), first, log + Changes(c, s))
  {
    hide Next, Changes, Replay;
    var d, more := Next(c, s), Changes(c, s);
    StepReplays(c, s);
    ReplayConcat(first, log, more);
    if d.dirtyCount == 0 {
      assert (log + more)[..|log + more|] == log + more;
    } else {
      assert (log + more)[..|log + more| - d.dirtyCount] == log[..|log| - c.dirtyCount];
    }
    StepTimers(c, s);
  }

  lemma StepTimers<V>(c: Cache<V>, s: Step<V>)
    requires (c.dirty <==> c.dirtyCount > 0) && (c.timer.Some? ==> c.TimerAlive())
    ensures var d := Next(c, s); (d.dirty <==> d.dirtyCount > 0) && (d.timer.Some? ==> d.TimerAlive())
  {
    hide Expired;
    if s.GetAllStep? && ExpiredKeys(c.items, s.now) != {} {
      assert |ExpiredKeys(c.items, s.now)| > 0;
    }
  }

  lemma StepGuards<V>(c: Cache<V>, s: Step<V>)
    requires (c.dirty <==> c.dirtyCount > 0) && Guarded(c) && Succeeds(s) && !Next(c, s).shutdown
    ensures Guarded(Next(c, s))
  {
    hide Expired, ExpiredKeys;
  }

  /**
   Whatever the interleaving of operations, firings, late callbacks and flushes, and whichever saves
   fail: the cached items are the loaded ones with all changes made, and the file has all of them but
   the last `dirtyCount`. With saves succeeding and before close, dirty data always has a pending timer
   or a waiting callback and fewer than ten changes are outstanding.
   */
  lemma {:induction false} RunIsSafe<V>(first: Items<V>, steps: seq<Step<V>>)
    ensures Tracks(Run(Loaded(first), steps), first, Log(Loaded(first), steps))
    ensures (forall s :: s in steps ==> Succeeds(s)) && !Run(Loaded(first), steps).shutdown ==>
              Guarded(Run(Loaded(first), steps))
  {
    hide Tracks, Guarded, Succeeds, Next, Changes;
    var c := Run(Loaded(first), steps);
    if steps == [] {
      assert Tracks(c, first, []) && Guarded(c) by { LoadedIsSafe(first); }
    } else {
      var front, last := steps[..|steps| - 1], steps[|steps| - 1];
      RunIsSafe(first, front);
      var before := Run(Loaded(first), front);
      StepTracks(before, last, first, Log(Loaded(first), front));
      if (forall s :: s in steps ==> Succeeds(s)) && !c.shutdown {
        assert Succeeds(last) && forall s :: s in front ==> Succeeds(s);
        ShutdownStays(before, last);
        TracksDirty(before, first, Log(Loaded(first), front));
        StepGuards(before, last);
      }
    }
  }

  lemma LoadedIsSafe<V>(first: Items<V>)
    ensures Tracks(Loaded(first), first, []) && Guarded(Loaded(first))
  {
  }

  lemma ShutdownStays<V>(c: Cache<V>, s: Step<V>)
    ensures c.shutdown ==> Next(c, s).shutdown
  {
    hide Expired, ExpiredKeys;
  }

  lemma TracksDirty<V>(c: Cache<V>, first: Items<V>, log: seq<Change<V>>)
    requires Tracks(c, first, log)
    ensures c.dirty <==> c.dirtyCount > 0
  {
  }

  lemma RunOneMore<V>(c: Cache<V>, steps: seq<Step<V>>, last: Step<V>)
    ensures Run(c, steps + [last]) == Next(Run(c, steps), last)
  {
    assert (steps + [last])[..|steps + [last]| - 1] == steps;
  }

  /** After a flush that could write, and after any callback that could, the file equals the cache. */
  lemma FlushedMeansSaved<V>(first: Items<V>, steps: seq<Step<V>>, last: Step<V>)
    requires last == FlushStep(true) || (last.CallbackStep? && last.ok && last.t in Run(Loaded(first), steps).waiting)
    ensures var c := Run(Loaded(first), steps + [last]); c.file == c.items && !c.dirty
  {
    hide Run, Log, Replay, Guarded, Succeeds, Loaded;
    RunIsSafe(first, steps);
    RunOneMore(Loaded(first), steps, last);
    var log := Log(Loaded(first), steps);
    assert log[..|log|] == log;
  }

  /** How many items a step changes. */
  function ChangeCount<V>(c: Cache<V>, s: Step<V>): nat {
    match s
    case SaveStep(_, _, _, _) => 1
    case DeleteStep(key, _, _) => if key in c.items then 1 else 0
    case GetStep(key, now, allow, _) => if key in c.items && Expired(c.items[key], now) && !allow then 1 else 0
    case GetAllStep(now, _) => |ExpiredKeys(c.items, now)|
    case _ => 0
  }

  /** A changing step that saves at once: it was told to, an entry expired, or there are ten changes. */
  predicate SavesNow<V>(c: Cache<V>, s: Step<V>) {
    || s.GetStep? || s.GetAllStep?
    || ((s.SaveStep? || s.DeleteStep?) && (s.flush || c.dirtyCount + 1 >= FLUSH_MAX_DIRTY_COUNT))
  }

  /** What loses the guarantee, read off the state before the step and whether the file can be written. */
  predicate LosesGuard<V>(c: Cache<V>, s: Step<V>) {
    var nobody := c.pending + c.waiting == {};
    if ChangeCount(c, s) > 0 then
      if SavesNow(c, s) then !s.ok && (c.dirtyCount + ChangeCount(c, s) >= FLUSH_MAX_DIRTY_COUNT || nobody)
      else c.shutdown && nobody
    else if s.FlushStep? then
      c.dirty && !s.ok && c.TimerAlive() && c.waiting == {} && c.pending == {c.timer.value}
    else
      s.CallbackStep? && c.dirty && !s.ok && c.waiting == {s.t} && c.pending == {}
  }

  /**
   Exactly when a step leaves dirty data that no timer and no callback will write, or ten changes
   outstanding: an immediate save fails with the tenth change or with nobody left to write; a delayed
   write finds the cache closed and nobody left to write; a failing flush cancels the last timer; or the
   last callback fails. A failing flush or callback loses nothing while another one is still to come.
   */
  lemma GuardLost<V>(c: Cache<V>, s: Step<V>)
    requires (c.dirty <==> c.dirtyCount > 0) && Guarded(c)
    ensures Guarded(Next(c, s)) <==> !LosesGuard(c, s)
  {
    hide Expired, ExpiredKeys;
    if s.GetAllStep? && ExpiredKeys(c.items, s.now) != {} { assert |ExpiredKeys(c.items, s.now)| > 0; }
    if s.CallbackStep? && s.t in c.waiting {
      assert c.pending + (c.waiting - {s.t}) == {} <==> c.waiting == {s.t} && c.pending == {};
    }
  }

  /**
   A change of an entry, in full. With a flush, or as the tenth change, it is written at once, and a failed write keeps
   it dirty and starts no timer; any other change leaves the file alone and starts one timer, unless one is alive or the
   cache is closed.
   */
  lemma ChangeExactly<V>(c: Cache<V>, s: Step<V>)
    requires s.SaveStep? || (s.DeleteStep? && s.key in c.items)
    ensures var d := Next(c, s);
            var atOnce := s.flush || c.dirtyCount >= 9;
            && d.items == (if s.SaveStep? then c.items[s.key := s.e] else c.items - {s.key})
            && d.waiting == c.waiting && d.shutdown == c.shutdown
            && (if atOnce && s.ok then d.file == d.items && !d.dirty && d.dirtyCount == 0
                else d.file == c.file && d.dirty && d.dirtyCount == c.dirtyCount + 1)
            && if !atOnce && !c.shutdown && (c.timer.None? || c.timer.value !in c.pending + c.waiting)
               then d.timer == Some(c.timers) && d.pending == c.pending + {c.timers} && d.timers == c.timers + 1
               else d.timer == c.timer && d.pending == c.pending && d.timers == c.timers
  {
  }

  /** No other step starts a timer, and only a sweep or a read of an expired entry changes an entry besides. */
  lemma OtherSteps<V>(c: Cache<V>, s: Step<V>)
    requires !s.SaveStep? && !s.GetStep? && (s.DeleteStep? ==> s.key !in c.items)
    ensures Next(c, s).timers == c.timers
    ensures Next(c, s).items == if s.GetAllStep? then map k | k in c.items && !Expired(c.items[k], s.now) :: c.items[k]
                                else c.items
  {
    if s.GetAllStep? {
      var kept := map k | k in c.items && !Expired(c.items[k], s.now) :: c.items[k];
      assert c.items - ExpiredKeys(c.items, s.now) == kept;
    }
  }

  /** A flush that fails while a fired timer's callback waits for the lock: the callback still writes. */
  lemma LateCallbackStillWrites<V>(first: Items<V>, key: string, e: Entry<V>)
    ensures var run := [SaveStep(key, e, false, true), FireStep(0), FlushStep(false)];
            var c := Run(Loaded(first), run);
            && c.dirty && c.waiting == {0} && Guarded(c)
            && Run(Loaded(first), run + [CallbackStep(0, true)]).file == first[key := e]
  {
    var save, fire, flush := SaveStep(key, e, false, true), FireStep(0), FlushStep(false);
    var c0 := Loaded(first);
    RunOneMore(c0, [], save);
    RunOneMore(c0, [save], fire);
    RunOneMore(c0, [save, fire], flush);
    RunOneMore(c0, [save, fire, flush], CallbackStep(0, true));
    assert [] + [save] == [save] && [save] + [fire] == [save, fire] && [save, fire] + [flush] == [save, fire, flush];
    var c1 := Next(c0, save);
    assert c1 == Cache(first[key := e], first, 1, true, Some(0), {0}, {}, 1, false);
    var c2 := Next(c1, fire);
    assert c2 == c1.(pending := {}, waiting := {0});
    assert Next(c2, flush) == c2.(timer := None);
  }
}
