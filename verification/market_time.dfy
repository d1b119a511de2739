/** The CN and HK trading calendar of market_time.py, in Shanghai wall-clock time. */
module MarketTime {

  /** A Shanghai datetime; `day` counts days from a Monday, `micro` is the time within the minute. */
  datatype Instant = Instant(day: int, hour: int, minute: int, micro: int)
  {
    predicate Valid() { 0 <= hour < 24 && 0 <= minute < 60 && 0 <= micro < 60_000_000 }

    /** Microseconds on one axis; instants compare by it. */
    function Micros(): int { ((day * 24 + hour) * 60 + minute) * 60_000_000 + micro }

    function Weekday(): int { day % 7 }

    /** hour * 100 + minute. */
    function TimeValue(): int { hour * 100 + minute }
  }

  datatype Market = CN | HK
  {
    /** The last open minute before and after lunch. */
    function Noon(): int { if CN? then 1130 else 1200 }

    function Close(): int { if CN? then 1500 else 1600 }
  }

  /** is_cn_market_open and is_hk_market_open: closing minutes are open to their end. */
  predicate IsOpen(m: Market, t: Instant) {
    t.Weekday() < 5 && (930 <= t.TimeValue() <= m.Noon() || 1300 <= t.TimeValue() <= m.Close())
  }

  function At(day: int, hour: int, minute: int): Instant { Instant(day, hour, minute, 0) }

  /** The open the seconds are counted to, outside trading hours. */
  function NextOpen(m: Market, now: Instant): Instant {
    if now.Weekday() >= 5 then At(now.day + 7 - now.Weekday(), 9, 30)
    else if now.TimeValue() < 930 then At(now.day, 9, 30)
    else if now.TimeValue() >= m.Close() then At(now.day + (if now.Weekday() == 4 then 3 else 1), 9, 30)
    else At(now.day, 13, 0)
  }

  /** _seconds_until_next_cn_open and _seconds_until_next_hk_open; int() truncates the microseconds. */
  function SecondsUntilNextOpen(m: Market, now: Instant): int {
    if now.Weekday() < 5 && 930 <= now.TimeValue() < m.Close() && !(m.Noon() <= now.TimeValue() < 1300) then 600
    else (NextOpen(m, now).Micros() - now.Micros()) / 1_000_000
  }

  /** `o` is the first open instant after the closed instant `now`. */
  ghost predicate FirstOpenAfter(m: Market, now: Instant, o: Instant) {
    && o.Valid() && IsOpen(m, o) && now.Micros() < o.Micros()
    && forall x: Instant :: x.Valid() && now.Micros() <= x.Micros() < o.Micros() ==> !IsOpen(m, x)
  }

  /** An instant between two others of the same or adjacent days. */
  lemma DayOrder(a: Instant, b: Instant)
    requires a.Valid() && b.Valid() && a.Micros() <= b.Micros()
    ensures a.day <= b.day
    ensures a.day == b.day ==> a.TimeValue() <= b.TimeValue()
    ensures a.day == b.day && a.TimeValue() == b.TimeValue() ==> a.micro <= b.micro
  {
  }

  /** From any closed instant, NextOpen is the first open instant after it. */
  lemma NextOpenIsFirst(m: Market, now: Instant)
    requires now.Valid() && !IsOpen(m, now)
    ensures FirstOpenAfter(m, now, NextOpen(m, now))
  {
    var o := NextOpen(m, now);
    forall x: Instant | x.Valid() && now.Micros() <= x.Micros() < o.Micros() ensures !IsOpen(m, x) {
      DayOrder(now, x);
      DayOrder(x, o);
    }
  }

  /**
   For a closed instant, now plus the returned seconds is the first open instant after now, up to
   the truncated second, and the market is closed throughout before it.
   */
  lemma SecondsReachTheOpen(m: Market, now: Instant)
    requires now.Valid() && !IsOpen(m, now)
    ensures FirstOpenAfter(m, now, NextOpen(m, now))
    ensures var reached := now.Micros() + SecondsUntilNextOpen(m, now) * 1_000_000;
            reached <= NextOpen(m, now).Micros() < reached + 1_000_000
  {
    NextOpenIsFirst(m, now);
  }

  /** Nothing open in (start, end]. */
  ghost predicate QuietBetween(m: Market, start: Instant, end: Instant) {
    forall x: Instant :: x.Valid() && start.Micros() < x.Micros() <= end.Micros() ==> !IsOpen(m, x)
  }

  function OpenTime(k: int): (int, int) { if k % 2 == 0 then (9, 30) else (13, 0) }

  /** The k-th probe of the scan: 9:30 and 13:00 of each day from the first one on. */
  function Probe(day: int, k: int): Instant { At(day + k / 2, OpenTime(k).0, OpenTime(k).1) }

  /** The first open after a closed instant is one of the first eight probes. */
  lemma FirstOpenIsProbe(m: Market, now: Instant) returns (k: nat)
    requires now.Valid() && !IsOpen(m, now)
    ensures k < 8 && Probe(now.day, k) == NextOpen(m, now)
  {
    var o := NextOpen(m, now);
    k := 2 * (o.day - now.day) + if o.hour == 9 then 0 else 1;
  }

  /**
   has_market_session_between for CN and HK. It answers true exactly when the window is not empty and
   either the market is open at its start or some instant in (start, end] is open; so a false answer
   means there is none, and the bound of 45 days is never what decides.
   */
  method HasMarketSessionBetween(m: Market, start: Instant, end: Instant) returns (r: bool)
    requires start.Valid() && end.Valid()
    ensures r <==> start.Micros() < end.Micros() && (IsOpen(m, start) || !QuietBetween(m, start, end))
    ensures !r ==> QuietBetween(m, start, end)
    ensures start.Micros() < end.Micros() && !IsOpen(m, start) ==> (r <==> NextOpen(m, start).Micros() <= end.Micros())
  {
    hide QuietBetween, FirstOpenAfter, NextOpen;
    if end.Micros() <= start.Micros() {
      NothingBetween(m, start, end);
      return false;
    }
    if IsOpen(m, start) {
      return true;
    }
    NextOpenIsFirst(m, start);
    ghost var o := NextOpen(m, start);
    ghost var found := FirstOpenIsProbe(m, start);
    if o.Micros() <= end.Micros() { OpenWithin(m, start, end, o); }
    for k := 0 to 90
      invariant k <= found
    {
      var probe := Probe(start.day, k);
      ProbesGrow(start.day, k, found);
      if probe.Micros() > end.Micros() {
        QuietUntil(m, start, end, o);
        return false;
      }
      if probe.Micros() > start.Micros() && IsOpen(m, probe) {
        FirstIsLeast(m, start, o, probe);
        return true;
      }
    }
    r := true;
  }

  lemma ProbesGrow(day: int, k: int, l: int)
    requires 0 <= k <= l
    ensures Probe(day, k).Micros() <= Probe(day, l).Micros()
  {
  }

  lemma NothingBetween(m: Market, start: Instant, end: Instant)
    requires end.Micros() <= start.Micros()
    ensures QuietBetween(m, start, end)
  {
  }

  lemma OpenWithin(m: Market, start: Instant, end: Instant, o: Instant)
    requires FirstOpenAfter(m, start, o) && o.Micros() <= end.Micros()
    ensures !QuietBetween(m, start, end)
  {
  }

  lemma QuietUntil(m: Market, start: Instant, end: Instant, o: Instant)
    requires FirstOpenAfter(m, start, o) && end.Micros() < o.Micros()
    ensures QuietBetween(m, start, end)
  {
  }

  lemma FirstIsLeast(m: Market, start: Instant, o: Instant, x: Instant)
    requires FirstOpenAfter(m, start, o) && x.Valid() && IsOpen(m, x) && start.Micros() < x.Micros()
    ensures o.Micros() <= x.Micros()
  {
  }

  /** get_cache_ttl for CN and HK. */
  function CacheTtl(m: Market, now: Instant): int {
    if IsOpen(m, now) then 1800 else SecondsUntilNextOpen(m, now)
  }

  /** While it is open a price is cached for half an hour, and the wait for the next open is given as ten minutes. */
  lemma OpenTtl(m: Market, now: Instant)
    requires now.Valid() && IsOpen(m, now)
    ensures CacheTtl(m, now) == 30 * 60
    ensures SecondsUntilNextOpen(m, now) == 10 * 60 || now.TimeValue() == m.Noon() || now.TimeValue() == m.Close()
  {
  }

  /** A price cached while the market is closed never outlives the close: no open instant precedes its expiry. */
  lemma ClosedTtlEndsBeforeOpen(m: Market, now: Instant, x: Instant)
    requires now.Valid() && !IsOpen(m, now) && x.Valid() && IsOpen(m, x) && now.Micros() < x.Micros()
    ensures 0 <= CacheTtl(m, now) && now.Micros() + CacheTtl(m, now) * 1_000_000 <= x.Micros()
  {
    SecondsReachTheOpen(m, now);
    FirstIsLeast(m, now, NextOpen(m, now), x);
  }

  /** Microseconds since midnight. */
  function TimeOfDay(t: Instant): int { (t.hour * 60 + t.minute) * 60_000_000 + t.micro }

  function Clock(hour: int, minute: int): int { (hour * 60 + minute) * 60_000_000 }

  /** The sessions as documented, to the instant: 9:30-11:30 and 13:00-15:00, in HK 9:30-12:00 and 13:00-16:00. */
  predicate InDocumentedSession(m: Market, t: Instant) {
    t.day % 7 < 5
    && (|| Clock(9, 30) <= TimeOfDay(t) <= (if m.CN? then Clock(11, 30) else Clock(12, 0))
        || Clock(13, 0) <= TimeOfDay(t) <= (if m.CN? then Clock(15, 0) else Clock(16, 0)))
  }

  /**
   The minute test keeps a market open longer than documented exactly inside the two closing minutes,
   up to 11:31 and 15:01 for CN, 12:01 and 16:01 for HK; it never closes one early.
   */
  lemma ClosingMinutesAreOpen(m: Market, t: Instant)
    requires t.Valid()
    ensures InDocumentedSession(m, t) ==> IsOpen(m, t)
    ensures IsOpen(m, t) && !InDocumentedSession(m, t)
            <==> t.Weekday() < 5 && t.micro > 0 && (t.TimeValue() == m.Noon() || t.TimeValue() == m.Close())
    ensures IsOpen(CN, Instant(0, 15, 0, 59_999_999)) && !InDocumentedSession(CN, Instant(0, 15, 0, 59_999_999))
  {
    var noon, close := m.Noon(), m.Close();
    assert t.TimeValue() <= noon <==> t.hour < noon / 100 || (t.hour == noon / 100 && t.minute <= noon % 100);
    assert t.TimeValue() <= close <==> t.hour < close / 100 || (t.hour == close / 100 && t.minute <= close % 100);
  }
}
