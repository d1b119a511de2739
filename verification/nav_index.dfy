/**
 The NAV index of local_cache.py: rows by date, and the month-end, year-end, inception and last rows
 derived from them. Date texts are compared as Python compares strings; how a text is parsed into a
 month is a parameter, so the results hold for any parser.
 */
module NavIndex {
  import opened Optional

  datatype Month = Month(year: int, month: int)

  type Parser = string -> Option<Month>

  datatype Row = Row(date: string, nav: int, updatedAt: string)

  datatype Payload = Payload(history: seq<Row>, monthEnd: map<Month, Row>, yearEnd: map<int, Row>,
                             inception: Option<Row>, last: Option<Row>, count: nat, updatedAt: Option<string>)

  const NOTHING := Payload([], map[], map[], None, None, 0, None)

  // ---------- the order of date texts ----------

  predicate Less(a: string, b: string) {
    b != [] && (a == [] || a[0] < b[0] || (a[0] == b[0] && Less(a[1..], b[1..])))
  }

  lemma {:induction false} LessTransitive(a: string, b: string, c: string)
    requires Less(a, b) && Less(b, c)
    ensures Less(a, c)
  {
    if a != [] && a[0] == b[0] == c[0] { LessTransitive(a[1..], b[1..], c[1..]); }
  }

  lemma {:induction false} LessTotal(a: string, b: string)
    ensures !Less(a, a)
    ensures a == b || Less(a, b) || Less(b, a)
    ensures !(Less(a, b) && Less(b, a))
  {
    if a != [] { LessTotal(a[1..], a[1..]); }
    if a != [] && b != [] && a[0] == b[0] {
      LessTotal(a[1..], b[1..]);
      assert a == [a[0]] + a[1..] && b == [b[0]] + b[1..];
    }
  }

  /** The first difference decides, and the end of a text comes before any character. */
  predicate LessAt(a: string, b: string, k: nat) {
    k <= |a| && k < |b| && a[..k] == b[..k] && (k < |a| ==> a[k] < b[k])
  }

  /** Texts compare as Python compares them. */
  lemma {:induction false} LessIsLexical(a: string, b: string)
    ensures Less(a, b) <==> exists k: nat :: LessAt(a, b, k)
  {
    if a != [] && b != [] && a[0] == b[0] {
      LessIsLexical(a[1..], b[1..]);
      if Less(a, b) {
        var k: nat :| LessAt(a[1..], b[1..], k);
        assert a[..k + 1] == [a[0]] + a[1..][..k] && b[..k + 1] == [b[0]] + b[1..][..k];
        assert LessAt(a, b, k + 1);
      }
      if exists k: nat :: LessAt(a, b, k) {
        var k: nat :| LessAt(a, b, k);
        assert k > 0;
        assert a[1..][..k - 1] == a[..k][1..] && b[1..][..k - 1] == b[..k][1..];
        assert LessAt(a[1..], b[1..], k - 1);
      }
    } else if b != [] {
      if a == [] || a[0] < b[0] { assert LessAt(a, b, 0); }
      forall k: nat | LessAt(a, b, k) ensures k == 0 {}
    }
  }

  ghost predicate Strict(rows: seq<Row>) {
    forall i, j :: 0 <= i < j < |rows| ==> Less(rows[i].date, rows[j].date)
  }

  // ---------- a dictionary from date to row, in insertion order ----------

  function Put(dict: seq<Row>, r: Row): seq<Row> {
    if dict == [] then [r]
    else if dict[0].date == r.date then [r] + dict[1..]
    else [dict[0]] + Put(dict[1..], r)
  }

  /** All rows that have a date, put in order. */
  function PutAll(dict: seq<Row>, rows: seq<Row>): seq<Row> {
    if rows == [] then dict
    else
      var r := rows[|rows| - 1];
      var before := PutAll(dict, rows[..|rows| - 1]);
      if r.date == "" then before else Put(before, r)
  }

  /** sorted(..., key=date): stable insertion. */
  function Insert(r: Row, rows: seq<Row>): seq<Row> {
    if rows == [] then [r]
    else if Less(r.date, rows[0].date) then [r] + rows
    else [rows[0]] + Insert(r, rows[1..])
  }

  function SortRows(rows: seq<Row>): seq<Row> {
    if rows == [] then [] else Insert(rows[|rows| - 1], SortRows(rows[..|rows| - 1]))
  }

  // ---------- the derived rows ----------

  function MonthEnds(parse: Parser, rows: seq<Row>): map<Month, Row> {
    if rows == [] then map[]
    else
      var before, r := MonthEnds(parse, rows[..|rows| - 1]), rows[|rows| - 1];
      if parse(r.date).Some? then before[parse(r.date).value := r] else before
  }

  function YearEnds(parse: Parser, rows: seq<Row>): map<int, Row> {
    if rows == [] then map[]
    else
      var before, r := YearEnds(parse, rows[..|rows| - 1]), rows[|rows| - 1];
      if parse(r.date).Some? then before[parse(r.date).value.year := r] else before
  }

  /** The payload whose derived rows belong to the sorted history. */
  function Rebuilt(parse: Parser, rows: seq<Row>): Payload {
    var h := SortRows(rows);
    Payload(h, MonthEnds(parse, h), YearEnds(parse, h),
            if h == [] then None else Some(h[0]),
            if h == [] then None else Some(h[|h| - 1]), |h|,
            if h == [] then None else Some(h[|h| - 1].updatedAt))
  }

  /** LocalNavIndexCache.upsert_nav_records. */
  function Upserted(parse: Parser, p: Payload, records: seq<Row>): Payload {
    if records == [] then p else Rebuilt(parse, PutAll([], p.history + records))
  }

  /** _MemoryAccountCache.upsert_nav_records: the derived rows are left as they were. */
  function UpsertedInMemory(p: Payload, records: seq<Row>): Payload {
    var h := SortRows(PutAll([], p.history + records));
    p.(history := h, count := |h|)
  }

  class LocalNavIndexCache {
    const parse: Parser
    var accounts: map<string, Payload>

    constructor (parse: Parser, accounts: map<string, Payload>)
      ensures this.parse == parse && this.accounts == accounts
    {
      this.parse, this.accounts := parse, accounts;
    }

    function Account(account: string): Payload
      reads this
    {
      if account in accounts then accounts[account] else NOTHING
    }

    method Rebuild(rows: seq<Row>) returns (p: Payload)
      ensures p == Rebuilt(parse, rows)
    {
      var h := SortRows(rows);
      var monthEnd: map<Month, Row> := map[];
      var yearEnd: map<int, Row> := map[];
      for i := 0 to |h|
        invariant monthEnd == MonthEnds(parse, h[..i]) && yearEnd == YearEnds(parse, h[..i])
      {
        assert h[..i + 1][..i] == h[..i];
        var d := parse(h[i].date);
        if d.Some? {
          monthEnd := monthEnd[d.value := h[i]];
          yearEnd := yearEnd[d.value.year := h[i]];
        }
      }
      assert h[..|h|] == h;
      if h == [] {
        p := Payload(h, monthEnd, yearEnd, None, None, 0, None);
      } else {
        var last := h[|h| - 1];
        p := Payload(h, monthEnd, yearEnd, Some(h[0]), Some(last), |h|, Some(last.updatedAt));
      }
    }

    method UpsertNavRecords(account: string, records: seq<Row>)
      modifies this
      ensures Account(account) == Upserted(parse, old(Account(account)), records)
      ensures forall a :: a != account ==> Account(a) == old(Account(a))
    {
      if records == [] {
        return;
      }
      var navs := Account(account).history;
      var byDate: seq<Row> := [];
      for i := 0 to |navs|
        invariant byDate == PutAll([], navs[..i])
      {
        assert navs[..i + 1][..i] == navs[..i];
        if navs[i].date != "" { byDate := Put(byDate, navs[i]); }
      }
      assert navs[..|navs|] == navs && navs + records[..0] == navs;
      for i := 0 to |records|
        invariant byDate == PutAll([], navs + records[..i])
      {
        assert (navs + records[..i + 1])[..|navs| + i] == navs + records[..i];
        if records[i].date != "" { byDate := Put(byDate, records[i]); }
      }
      assert records[..|records|] == records;
      var rebuilt := Rebuild(byDate);
      accounts := accounts[account := rebuilt];
    }
  }

  // ---------- last writer wins ----------

  /** A scan from the end for the row of a date. */
  function Lookup(rows: seq<Row>, date: string): Option<Row> {
    if rows == [] then None
    else if rows[|rows| - 1].date == date then Some(rows[|rows| - 1])
    else Lookup(rows[..|rows| - 1], date)
  }

  /** At most one row a date. */
  ghost predicate Distinct(rows: seq<Row>) {
    forall i, j :: 0 <= i < j < |rows| ==> rows[i].date != rows[j].date
  }

  lemma {:induction false} LookupMember(rows: seq<Row>, date: string)
    ensures Lookup(rows, date).Some? ==> Lookup(rows, date).value in rows && Lookup(rows, date).value.date == date
    ensures Lookup(rows, date).None? ==> forall r :: r in rows ==> r.date != date
  {
    if rows != [] { LookupMember(rows[..|rows| - 1], date); }
  }

  lemma LookupDistinct(rows: seq<Row>, r: Row)
    requires Distinct(rows) && r in rows
    ensures Lookup(rows, r.date) == Some(r)
  {
    LookupMember(rows, r.date);
  }

  lemma {:induction false} PutMembers(dict: seq<Row>, r: Row)
    requires Distinct(dict)
    ensures Distinct(Put(dict, r))
    ensures forall x :: x in Put(dict, r) <==> x == r || (x in dict && x.date != r.date)
  {
    if dict != [] && dict[0].date != r.date {
      PutMembers(dict[1..], r);
      var rest := Put(dict[1..], r);
      assert forall i :: 0 <= i < |rest| ==> rest[i] in rest;
      assert forall i :: 0 < i < |dict| ==> dict[i] in dict[1..];
    }
  }

  /** The dictionary holds, for each date, the last row written. */
  lemma {:induction false} PutAllLookup(rows: seq<Row>)
    ensures Distinct(PutAll([], rows))
    ensures forall x :: x in PutAll([], rows) <==> x.date != "" && Lookup(rows, x.date) == Some(x)
  {
    if rows != [] {
      var front, r := rows[..|rows| - 1], rows[|rows| - 1];
      PutAllLookup(front);
      if r.date != "" { PutMembers(PutAll([], front), r); }
    }
  }

  lemma {:induction false} InsertStrict(r: Row, rows: seq<Row>)
    requires Strict(rows) && forall x :: x in rows ==> x.date != r.date
    ensures Strict(Insert(r, rows))
    ensures forall x :: x in Insert(r, rows) <==> x == r || x in rows
  {
    if rows != [] {
      LessTotal(r.date, rows[0].date);
      if Less(r.date, rows[0].date) {
        forall i | 0 < i < |rows| ensures Less(r.date, rows[i].date) {
          LessTransitive(r.date, rows[0].date, rows[i].date);
        }
      } else {
        assert rows[0] in rows;
        assert forall x :: x in rows[1..] ==> x in rows;
        InsertStrict(r, rows[1..]);
        var rest := Insert(r, rows[1..]);
        forall i | 0 <= i < |rest| ensures Less(rows[0].date, rest[i].date) {
          assert rest[i] in rest;
          if rest[i] != r { var k :| 0 <= k < |rows[1..]| && rows[1..][k] == rest[i]; assert rows[k + 1] == rest[i]; }
        }
        assert rows == [rows[0]] + rows[1..];
      }
    }
  }

  lemma {:induction false} SortStrict(rows: seq<Row>)
    requires Distinct(rows)
    ensures Strict(SortRows(rows))
    ensures forall x :: x in SortRows(rows) <==> x in rows
  {
    if rows != [] {
      var front := rows[..|rows| - 1];
      SortStrict(front);
      InsertStrict(rows[|rows| - 1], SortRows(front));
      assert rows == front + [rows[|rows| - 1]];
    }
  }

  lemma StrictDistinct(rows: seq<Row>)
    requires Strict(rows)
    ensures Distinct(rows)
  {
    forall i, j | 0 <= i < j < |rows| ensures rows[i].date != rows[j].date { LessTotal(rows[i].date, rows[i].date); }
  }

  /** A strictly sorted history is determined by its rows. */
  lemma {:induction false} StrictUnique(a: seq<Row>, b: seq<Row>)
    requires Strict(a) && Strict(b) && forall x :: x in a <==> x in b
    ensures a == b
  {
    HasMember(a);
    HasMember(b);
    if a != [] && b != [] {
      assert a[0] in b && b[0] in a;
      SameFirst(a, b);
      forall x ensures x in a[1..] <==> x in b[1..] {
        AfterFirst(a, x);
        AfterFirst(b, x);
      }
      StrictUnique(a[1..], b[1..]);
      assert a == [a[0]] + a[1..] && b == [b[0]] + b[1..];
    }
  }

  lemma HasMember(rows: seq<Row>)
    ensures rows != [] ==> exists x :: x in rows
  {
    if rows != [] { assert rows[0] in rows; }
  }

  lemma SameFirst(a: seq<Row>, b: seq<Row>)
    requires a != [] && b != [] && Strict(a) && Strict(b) && a[0] in b && b[0] in a
    ensures a[0] == b[0]
  {
    LessTotal(a[0].date, b[0].date);
  }

  lemma AfterFirst(a: seq<Row>, x: Row)
    requires a != [] && Strict(a)
    ensures x in a[1..] <==> x in a && x != a[0]
  {
    StrictDistinct(a);
    assert a == [a[0]] + a[1..];
  }

  /**
   The history after an upsert: strictly sorted by date, and for every date the last row written for it,
   among the records first and then the earlier rows.
   */
  lemma UpsertedHistory(parse: Parser, p: Payload, records: seq<Row>)
    requires records != []
    ensures Strict(Upserted(parse, p, records).history)
    ensures forall x :: x in Upserted(parse, p, records).history <==>
              x.date != "" && Lookup(p.history + records, x.date) == Some(x)
  {
    PutAllLookup(p.history + records);
    SortStrict(PutAll([], p.history + records));
  }

  lemma {:induction false} LookupConcat(a: seq<Row>, b: seq<Row>, date: string)
    ensures Lookup(a + b, date) == if Lookup(b, date).Some? then Lookup(b, date) else Lookup(a, date)
  {
    if b == [] {
      assert a + b == a;
    } else {
      assert (a + b)[..|a + b| - 1] == a + b[..|b| - 1];
      LookupConcat(a, b[..|b| - 1], date);
    }
  }

  /** Looking up a date in the history after an upsert. */
  lemma UpsertedLookup(parse: Parser, p: Payload, records: seq<Row>, date: string)
    requires records != []
    ensures Lookup(Upserted(parse, p, records).history, date) == if date == "" then None
            else Lookup(p.history + records, date)
  {
    UpsertedHistory(parse, p, records);
    var h := Upserted(parse, p, records).history;
    StrictDistinct(h);
    LookupMember(h, date);
    LookupMember(p.history + records, date);
    var r := Lookup(p.history + records, date);
    if date != "" && r.Some? { LookupDistinct(h, r.value); }
  }

  // ---------- the derived rows equal a scan ----------

  /** A scan from the end for the last row of a month. */
  function LastInMonth(parse: Parser, rows: seq<Row>, m: Month): Option<Row> {
    if rows == [] then None
    else if parse(rows[|rows| - 1].date) == Some(m) then Some(rows[|rows| - 1])
    else LastInMonth(parse, rows[..|rows| - 1], m)
  }

  function LastInYear(parse: Parser, rows: seq<Row>, year: int): Option<Row> {
    if rows == [] then None
    else
      var d := parse(rows[|rows| - 1].date);
      if d.Some? && d.value.year == year then Some(rows[|rows| - 1]) else LastInYear(parse, rows[..|rows| - 1], year)
  }

  lemma {:induction false} EndsAreLast(parse: Parser, rows: seq<Row>, m: Month)
    ensures LastInMonth(parse, rows, m) == if m in MonthEnds(parse, rows) then Some(MonthEnds(parse, rows)[m]) else None
    ensures LastInYear(parse, rows, m.year) == if m.year in YearEnds(parse,
                                                                     rows) then Some(YearEnds(parse, rows)[m.year])
                                                                     else None
  {
    if rows != [] { EndsAreLast(parse, rows[..|rows| - 1], m); }
  }

  lemma {:induction false} LastInYearIsLatest(parse: Parser, rows: seq<Row>, year: int)
    requires Strict(rows)
    ensures match LastInYear(parse, rows, year)
            case None => forall r :: r in rows ==> !InYear(parse, r, year)
            case Some(l) => l in rows && InYear(parse, l, year)
                            && forall r :: r in rows && InYear(parse, r, year) ==> r == l || Less(r.date, l.date)
  {
    if rows != [] {
      var front := rows[..|rows| - 1];
      LastInYearIsLatest(parse, front, year);
      assert forall r :: r in rows <==> r in front || r == rows[|rows| - 1];
    }
  }

  predicate InYear(parse: Parser, r: Row, year: int) {
    parse(r.date).Some? && parse(r.date).value.year == year
  }

  lemma {:induction false} LastInMonthIsLatest(parse: Parser, rows: seq<Row>, m: Month)
    requires Strict(rows)
    ensures match LastInMonth(parse, rows, m)
            case None => forall r :: r in rows ==> parse(r.date) != Some(m)
            case Some(l) => l in rows && parse(l.date) == Some(m)
                            && forall r :: r in rows && parse(r.date) == Some(m) ==> r == l || Less(r.date, l.date)
  {
    if rows != [] {
      var front := rows[..|rows| - 1];
      LastInMonthIsLatest(parse, front, m);
      assert forall r :: r in rows <==> r in front || r == rows[|rows| - 1];
    }
  }

  ghost predicate IsLatest(l: Row, rows: set<Row>) {
    l in rows && forall r :: r in rows ==> r == l || Less(r.date, l.date)
  }

  ghost predicate IsEarliest(e: Row, rows: set<Row>) {
    e in rows && forall r :: r in rows ==> r == e || Less(e.date, r.date)
  }

  /**
   Every row the index derives is what a search of all rows ever written finds: the month-end row is
   the latest of its month, the year-end row the latest of its year, the inception row the earliest and
   the last row the latest of all, whose time stamp the payload takes over.
   */
  lemma IndexRefinesSearch(parse: Parser, p: Payload, records: seq<Row>, m: Month)
    requires records != []
    ensures var q := Upserted(parse, p, records);
            && (m in q.monthEnd <==> exists r :: r in q.history && parse(r.date) == Some(m))
            && (m in q.monthEnd ==> IsLatest(q.monthEnd[m], set r | r in q.history && parse(r.date) == Some(m)))
            && (m.year in q.yearEnd <==> exists r :: r in q.history && InYear(parse, r, m.year))
            && (m.year in q.yearEnd ==> IsLatest(q.yearEnd[m.year], set r | r in q.history && InYear(parse, r, m.year)))
            && q.updatedAt == (if q.last.Some? then Some(q.last.value.updatedAt) else None)
            && (q.history == [] <==> q.inception.None?) && (q.history == [] <==> q.last.None?) && q.count == |q.history|
            && (q.history != [] ==> IsLatest(q.last.value, set r | r in q.history))
            && (q.history != [] ==> IsEarliest(q.inception.value, set r | r in q.history))
  {
    var h := Upserted(parse, p, records).history;
    UpsertedHistory(parse, p, records);
    hide Less, SortRows, PutAll;
    EndsAreLast(parse, h, m);
    LastInMonthIsLatest(parse, h, m);
    LastInYearIsLatest(parse, h, m.year);
  }

  // ---------- upserts compose ----------

  lemma SameLookupsSameIndex(parse: Parser, p: Payload, a: seq<Row>, q: Payload, b: seq<Row>)
    requires a != [] && b != [] && forall d :: d != "" ==> Lookup(p.history + a, d) == Lookup(q.history + b, d)
    ensures Upserted(parse, p, a) == Upserted(parse, q, b)
  {
    UpsertedHistory(parse, p, a);
    UpsertedHistory(parse, q, b);
    StrictUnique(Upserted(parse, p, a).history, Upserted(parse, q, b).history);
  }

  /** Upserting a and then b is upserting a followed by b, and upserting twice is upserting once. */
  lemma UpsertsCompose(parse: Parser, p: Payload, a: seq<Row>, b: seq<Row>)
    ensures Upserted(parse, Upserted(parse, p, a), b) == Upserted(parse, p, a + b)
    ensures Upserted(parse, Upserted(parse, p, a), a) == Upserted(parse, p, a)
  {
    var q := Upserted(parse, p, a);
    if a == [] {
      assert a + b == b;
    } else {
      forall d | d != ""
        ensures Lookup(q.history + b, d) == Lookup(p.history + (a + b), d)
        ensures Lookup(q.history + a, d) == Lookup(p.history + a, d)
      {
        UpsertedLookup(parse, p, a, d);
        LookupConcat(q.history, b, d);
        LookupConcat(q.history, a, d);
        LookupConcat(p.history + a, b, d);
        LookupConcat(p.history, a, d);
        assert p.history + a + b == p.history + (a + b);
      }
      SameLookupsSameIndex(parse, q, a, p, a);
      if b == [] {
        assert a + b == a;
      } else {
        SameLookupsSameIndex(parse, q, b, p, a + b);
      }
    }
  }

  /** Any sequence of upserts from nothing is one upsert of all their rows. */
  function UpsertedAll(parse: Parser, batches: seq<seq<Row>>): Payload {
    if batches == [] then NOTHING
    else Upserted(parse, UpsertedAll(parse, batches[..|batches| - 1]), batches[|batches| - 1])
  }

  function Flattened(batches: seq<seq<Row>>): seq<Row> {
    if batches == [] then [] else Flattened(batches[..|batches| - 1]) + batches[|batches| - 1]
  }

  lemma {:induction false} RunIsOneUpsert(parse: Parser, batches: seq<seq<Row>>)
    ensures UpsertedAll(parse, batches) == Upserted(parse, NOTHING, Flattened(batches))
  {
    if batches != [] {
      RunIsOneUpsert(parse, batches[..|batches| - 1]);
      UpsertsCompose(parse, NOTHING, Flattened(batches[..|batches| - 1]), batches[|batches| - 1]);
    }
  }

  // ---------- the in-memory twin ----------

  /** A payload as the file-backed index leaves it: its rows are sorted and the derived rows are theirs. */
  ghost predicate Belongs(parse: Parser, p: Payload) {
    Strict(p.history) && (forall r :: r in p.history ==> r.date != "") && p == Rebuilt(parse, p.history)
  }

  /** Every upsert leaves such a payload. */
  lemma UpsertedBelongs(parse: Parser, p: Payload, records: seq<Row>)
    requires records != []
    ensures Belongs(parse, Upserted(parse, p, records)) && Belongs(parse, NOTHING)
  {
    UpsertedHistory(parse, p, records);
    var h := Upserted(parse, p, records).history;
    StrictDistinct(h);
    SortStrict(h);
    StrictUnique(SortRows(h), h);
  }

  /** The row an upsert writes for its date: the last one of the batch. */
  predicate Writes(records: seq<Row>, r: Row) { r.date != "" && Lookup(records, r.date) == Some(r) }

  /** A row that is there already, or lies strictly between the first and last rows and before its month's last one. */
  predicate Inside(parse: Parser, p: Payload, r: Row) {
    || r in p.history
    || (&& p.inception.Some? && Less(p.inception.value.date, r.date)
        && p.last.Some? && Less(r.date, p.last.value.date)
        && var m := parse(r.date);
           m.Some? ==> m.value in p.monthEnd && Less(r.date, p.monthEnd[m.value].date))
  }

  lemma RebuiltKeeps(parse: Parser, p: Payload)
    requires Belongs(parse, p)
    ensures SortRows(p.history) == p.history
  {
  }

  /** The rows after an upsert: those written, and the earlier ones of other dates. */
  lemma UpsertedMembers(parse: Parser, p: Payload, records: seq<Row>, x: Row)
    requires Belongs(parse, p) && records != []
    ensures x in Upserted(parse, p, records).history
            <==> Writes(records, x) || (x in p.history && Lookup(records, x.date).None?)
  {
    UpsertedHistory(parse, p, records);
    LookupConcat(p.history, records, x.date);
    StrictDistinct(p.history);
    if x in p.history { LookupDistinct(p.history, x); }
    LookupMember(p.history, x.date);
  }

  /** The derived rows of a payload that belongs to its history. */
  lemma DerivedRows(parse: Parser, p: Payload)
    requires Belongs(parse, p)
    ensures p.history != [] ==> p.inception == Some(p.history[0]) && p.last == Some(p.history[|p.history| - 1])
    ensures p.history == [] ==> p.inception.None? && p.last.None?
    ensures forall m :: LastInMonth(parse, p.history, m) == if m in p.monthEnd then Some(p.monthEnd[m]) else None
  {
    RebuiltKeeps(parse, p);
    forall m ensures LastInMonth(parse, p.history, m) == if m in p.monthEnd then Some(p.monthEnd[m]) else None {
      EndsAreLast(parse, p.history, m);
    }
  }

  /** If every written row lies inside, the last row of a month stays. */
  lemma MonthStays(parse: Parser, p: Payload, records: seq<Row>, m: Month)
    requires Belongs(parse, p) && records != [] && forall r :: Writes(records, r) ==> Inside(parse, p, r)
    ensures LastInMonth(parse, Upserted(parse, p, records).history, m) == LastInMonth(parse, p.history, m)
  {
    hide Rebuilt, Belongs, Less, PutAll, SortRows;
    var h, h' := p.history, Upserted(parse, p, records).history;
    UpsertedHistory(parse, p, records);
    DerivedRows(parse, p);
    assert Strict(h) by { BelongsStrict(parse, p); }
    LastInMonthIsLatest(parse, h, m);
    LastInMonthIsLatest(parse, h', m);
    forall x ensures x in h' <==> Writes(records, x) || (x in h && Lookup(records, x.date).None?) {
      UpsertedMembers(parse, p, records, x);
    }
    if LastInMonth(parse, h, m).Some? {
      var l := LastInMonth(parse, h, m).value;
      StaysIn(parse, p, records, l);
      var l' := LastInMonth(parse, h', m).value;
      LessTotal(l.date, l'.date);
      StrictDistinct(h');
      LookupDistinct(h', l);
      LookupDistinct(h', l');
    }
  }

  lemma BelongsStrict(parse: Parser, p: Payload)
    requires Belongs(parse, p)
    ensures Strict(p.history)
  {
  }

  /** The first, the last and a month's last row are not overwritten by rows that lie inside. */
  lemma StaysIn(parse: Parser, p: Payload, records: seq<Row>, l: Row)
    requires Belongs(parse, p) && records != [] && forall r :: Writes(records, r) ==> Inside(parse, p, r)
    requires l in p.history
    requires p.inception == Some(l) || p.last == Some(l)
             || (parse(l.date).Some? && parse(l.date).value in p.monthEnd && p.monthEnd[parse(l.date).value] == l)
    ensures l in Upserted(parse, p, records).history
  {
    hide Rebuilt, PutAll, SortRows;
    UpsertedMembers(parse, p, records, l);
    LookupMember(records, l.date);
    LessTotal(l.date, l.date);
    var r := Lookup(records, l.date);
    if r.Some? {
      assert Writes(records, r.value);
      assert r.value in p.history;
      StrictDistinct(p.history);
      LookupDistinct(p.history, l);
      LookupDistinct(p.history, r.value);
    }
  }

  /** The first and last rows stay as well. */
  lemma EndsStay(parse: Parser, p: Payload, records: seq<Row>)
    requires Belongs(parse, p) && records != [] && forall r :: Writes(records, r) ==> Inside(parse, p, r)
    ensures var h' := Upserted(parse, p, records).history;
            && (p.history == [] <==> h' == [])
            && (h' != [] ==> h'[0] == p.history[0] && h'[|h'| - 1] == p.history[|p.history| - 1])
  {
    hide Rebuilt, PutAll, SortRows;
    var h, h' := p.history, Upserted(parse, p, records).history;
    DerivedRows(parse, p);
    UpsertedHistory(parse, p, records);
    forall x ensures x in h' <==> Writes(records, x) || (x in h && Lookup(records, x.date).None?) {
      UpsertedMembers(parse, p, records, x);
    }
    if h == [] {
      HasMember(h');
    } else {
      StaysIn(parse, p, records, h[0]);
      StaysIn(parse, p, records, h[|h| - 1]);
      assert h'[0] in h' && h'[|h'| - 1] in h';
      SameEnds(h, h');
    }
  }

  lemma SameEnds(h: seq<Row>, h': seq<Row>)
    requires h != [] && Strict(h) && Strict(h') && h[0] in h' && h[|h| - 1] in h'
    requires h'[0] in h || Less(h[0].date, h'[0].date)
    requires h'[|h'| - 1] in h || Less(h'[|h'| - 1].date, h[|h| - 1].date)
    ensures h'[0] == h[0] && h'[|h'| - 1] == h[|h| - 1]
  {
    LessTotal(h[0].date, h'[0].date);
    LessTotal(h[|h| - 1].date, h'[|h'| - 1].date);
  }

  lemma {:induction false} SameMonthEnds(parse: Parser, a: seq<Row>, b: seq<Row>)
    requires forall m :: LastInMonth(parse, a, m) == LastInMonth(parse, b, m)
    ensures MonthEnds(parse, a) == MonthEnds(parse, b)
  {
    forall m ensures m in MonthEnds(parse, a) <==> m in MonthEnds(parse, b)
             ensures m in MonthEnds(parse, a) ==> MonthEnds(parse, a)[m] == MonthEnds(parse, b)[m]
    {
      EndsAreLast(parse, a, m);
      EndsAreLast(parse, b, m);
    }
  }

  /** The last row of a year is the last of one of its months, so it stays when they stay. */
  lemma SameYearEnds(parse: Parser, a: seq<Row>, b: seq<Row>)
    requires Strict(a) && Strict(b) && forall m :: LastInMonth(parse, a, m) == LastInMonth(parse, b, m)
    ensures YearEnds(parse, a) == YearEnds(parse, b)
  {
    forall y ensures y in YearEnds(parse, a) <==> y in YearEnds(parse, b)
             ensures y in YearEnds(parse, a) ==> YearEnds(parse, a)[y] == YearEnds(parse, b)[y]
    {
      EndsAreLast(parse, a, Month(y, 1));
      EndsAreLast(parse, b, Month(y, 1));
      YearFromMonths(parse, a, b, y);
      YearFromMonths(parse, b, a, y);
      LastInYearIsLatest(parse, a, y);
      LastInYearIsLatest(parse, b, y);
      if LastInYear(parse, a, y).Some? {
        LessTotal(LastInYear(parse, a, y).value.date, LastInYear(parse, b, y).value.date);
        StrictDistinct(a);
        LookupDistinct(a, LastInYear(parse, a, y).value);
        LookupDistinct(a, LastInYear(parse, b, y).value);
      }
    }
  }

  /** A year's last row of `a` is in `b` too. */
  lemma YearFromMonths(parse: Parser, a: seq<Row>, b: seq<Row>, year: int)
    requires Strict(a) && Strict(b) && forall m :: LastInMonth(parse, a, m) == LastInMonth(parse, b, m)
    ensures LastInYear(parse, a, year).Some? ==> LastInYear(parse, a, year).value in b
    ensures LastInYear(parse, a, year).Some? ==> LastInYear(parse, b, year).Some?
  {
    LastInYearIsLatest(parse, a, year);
    LastInYearIsLatest(parse, b, year);
    if LastInYear(parse, a, year).Some? {
      var l := LastInYear(parse, a, year).value;
      var m := parse(l.date).value;
      LastInMonthIsLatest(parse, a, m);
      LastInMonthIsLatest(parse, b, m);
      var k := LastInMonth(parse, a, m).value;
      LessTotal(l.date, k.date);
    }
  }

  /** Where the twins agree, every written row lies inside. */
  lemma AgreementIsInside(parse: Parser, p: Payload, records: seq<Row>, r: Row)
    requires Belongs(parse, p) && records != [] && UpsertedInMemory(p, records) == Upserted(parse, p, records)
    requires Writes(records, r)
    ensures Inside(parse, p, r)
  {
    hide Less, PutAll, SortRows;
    var q := Upserted(parse, p, records);
    UpsertedMembers(parse, p, records, r);
    var m := if parse(r.date).Some? then parse(r.date).value else Month(0, 0);
    IndexRefinesSearch(parse, p, records, m);
    DerivedRows(parse, p);
    LastInMonthIsLatest(parse, p.history, m);
    if r !in p.history {
      assert q.inception == p.inception && q.last == p.last && q.monthEnd == p.monthEnd;
      assert r in (set x | x in q.history);
      if parse(r.date).Some? { assert r in (set x | x in q.history && parse(x.date) == Some(m)); }
    }
  }

  /**
   The in-memory twin keeps the history and the count but not the derived rows. From a payload that
   belongs to its history the two implementations agree exactly when every row the upsert writes is there
   already, or lies strictly inside the history and before the last row of its month.
   */
  lemma TwinAgrees(parse: Parser, p: Payload, records: seq<Row>)
    requires Belongs(parse, p)
    ensures UpsertedInMemory(p, records) == Upserted(parse, p, records)
            <==> forall r :: Writes(records, r) ==> Inside(parse, p, r)
  {
    hide Belongs, Upserted, UpsertedInMemory, Inside, Writes, Lookup;
    if records == [] {
      NothingWritten(parse, p);
    } else {
      if forall r :: Writes(records, r) ==> Inside(parse, p, r) { InsideAgrees(parse, p, records); }
      if UpsertedInMemory(p, records) == Upserted(parse, p, records) {
        forall r | Writes(records, r) ensures Inside(parse, p, r) { AgreementIsInside(parse, p, records, r); }
      }
    }
  }

  lemma InsideAgrees(parse: Parser, p: Payload, records: seq<Row>)
    requires Belongs(parse, p) && records != [] && forall r :: Writes(records, r) ==> Inside(parse, p, r)
    ensures UpsertedInMemory(p, records) == Upserted(parse, p, records)
  {
    hide Less, PutAll, SortRows, Inside, Writes, Lookup, MonthEnds, YearEnds, LastInMonth;
    var h' := Upserted(parse, p, records).history;
    UpsertedHistory(parse, p, records);
    EndsStay(parse, p, records);
    forall m ensures LastInMonth(parse, h', m) == LastInMonth(parse, p.history, m) { MonthStays(parse, p, records, m); }
    SameMonthEnds(parse, h', p.history);
    SameYearEnds(parse, h', p.history);
    RebuiltKeeps(parse, p);
  }

  lemma NothingWritten(parse: Parser, p: Payload)
    requires Belongs(parse, p)
    ensures UpsertedInMemory(p, []) == p == Upserted(parse, p, [])
    ensures forall r :: !Writes([], r)
  {
    PutAllLookup(p.history);
    SortStrict(PutAll([], p.history));
    StrictDistinct(p.history);
    forall x ensures x in SortRows(PutAll([], p.history)) <==> x in p.history {
      LookupMember(p.history, x.date);
      if x in p.history { LookupDistinct(p.history, x); }
    }
    StrictUnique(SortRows(PutAll([], p.history)), p.history);
    assert p.history + [] == p.history;
    RebuiltKeeps(parse, p);
  }

  /** The first record of an account: the file-backed index has it as its last row, the in-memory twin has none. */
  lemma TwinDiffers(parse: Parser, r: Row)
    requires r.date != ""
    ensures Upserted(parse, NOTHING, [r]).last == Some(r) && UpsertedInMemory(NOTHING, [r]).last == None
  {
    hide Less, PutAll, SortRows, MonthEnds, YearEnds, Lookup;
    UpsertedBelongs(parse, NOTHING, [r]);
    UpsertedHistory(parse, NOTHING, [r]);
    var q := Upserted(parse, NOTHING, [r]);
    assert NOTHING.history + [r] == [r];
    SingleLookup(r);
    assert q.history != [] by { assert r in q.history; }
    assert q.history[|q.history| - 1] in q.history;
    assert q.last == Some(q.history[|q.history| - 1]);
  }

  lemma SingleLookup(r: Row)
    ensures forall x: Row :: Lookup([r], x.date) == Some(x) <==> x == r
  {
    assert [r][..0] == [];
    forall x: Row ensures Lookup([r], x.date) == Some(x) <==> x == r {
      assert Lookup([r], x.date) == if r.date == x.date then Some(r) else Lookup([], x.date);
    }
  }
}
