/**
 The chunked batch writes of feishu_client.py. The server is any function from the offset and content
 of a chunk to a response, so it may fail, answer malformed data, or permute a chunk.
 */
module FeishuBatch {
  import opened Optional

  const BATCH_SIZE := 500

  datatype Record = Record(id: string, fields: string)

  /** NotRecords: no list of records in the response. An item of the list that is not an object is None. */
  datatype Response = RequestFailed | NotRecords | Records(items: seq<Option<Record>>)

  type Server = (nat, seq<Record>) -> Response

  datatype Operation = Create | Update

  /** InvalidRequest: refused before anything is sent. Failed: FeishuBatchWriteError. */
  datatype Outcome = Done(results: seq<Record>) | InvalidRequest | Failed(offset: nat, confirmed: seq<Record>)

  predicate IsSpace(c: char) { c in {' ', '\t', '\n', '\r'} }

  function Strip(s: string): string {
    if s != "" && IsSpace(s[0]) then Strip(s[1..])
    else if s != "" && IsSpace(s[|s| - 1]) then Strip(s[..|s| - 1])
    else s
  }

  // ---------- what a chunk and its response must look like ----------

  function Ids(records: seq<Record>): (ids: seq<string>)
    ensures |ids| == |records|
  {
    seq(|records|, i requires 0 <= i < |records| => Strip(records[i].id))
  }

  ghost predicate Distinct(ids: seq<string>) { forall i, j :: 0 <= i < j < |ids| ==> ids[i] != ids[j] }

  ghost predicate ValidIds(records: seq<Record>) { "" !in Ids(records) && Distinct(Ids(records)) }

  function Min(a: int, b: int): int { if a <= b then a else b }

  /** records[k : k + BATCH_SIZE]. */
  function Chunk(records: seq<Record>, k: nat): seq<Record>
    requires k <= |records|
  {
    records[k..Min(k + BATCH_SIZE, |records|)]
  }

  predicate Normal(item: Option<Record>) { item.Some? && Strip(item.value.id) != "" }

  /** The normalized records of a response that has one proper record a request. */
  ghost predicate WellFormed(n: nat, response: Response) {
    response.Records? && |response.items| == n && forall i :: 0 <= i < n ==> Normal(response.items[i])
  }

  function Normalized(items: seq<Option<Record>>): (records: seq<Record>)
    requires forall i :: 0 <= i < |items| ==> Normal(items[i])
    ensures |records| == |items|
  {
    seq(|items|, i requires 0 <= i < |items| && Normal(items[i]) => Record(Strip(items[i].value.id),
                                                                           items[i].value.fields))
  }

  ghost predicate SameMembers(a: seq<string>, b: seq<string>) { forall x :: x in a <==> x in b }

  /** The response answers the chunk: well formed, and for an update the ids are those requested, in any order. */
  ghost predicate Answers(op: Operation, batch: seq<Record>, response: Response) {
    && WellFormed(|batch|, response)
    && (op.Update? ==> var ids := RecordIds(Normalized(response.items)); Distinct(ids) && SameMembers(ids, Ids(batch)))
  }

  function RecordIds(records: seq<Record>): (ids: seq<string>)
    ensures |ids| == |records|
  {
    seq(|records|, i requires 0 <= i < |records| => records[i].id)
  }

  /** Results for a chunk: a create keeps the server's order, an update the order of the requests. */
  ghost predicate ChunkResults(op: Operation, batch: seq<Record>, response: Response, results: seq<Record>) {
    && WellFormed(|batch|, response) && |results| == |batch|
    && (op.Create? ==> results == Normalized(response.items))
    && (op.Update? ==> forall j :: 0 <= j < |batch| ==>
                         results[j].id == Strip(batch[j].id) && results[j] in Normalized(response.items))
  }

  // ---------- the protocol ----------

  method DistinctNonEmpty(ids: seq<string>) returns (ok: bool)
    ensures ok <==> "" !in ids && Distinct(ids)
  {
    hide Seen, Distinct;
    var seen: set<string> := {};
    SeenNone(ids);
    for i := 0 to |ids|
      invariant Seen(ids, i, seen) && "" !in ids[..i]
    {
      if ids[i] == "" {
        return false;
      }
      SeenGrows(ids, i, seen);
      seen := seen + {ids[i]};
    }
    assert ids[..|ids|] == ids;
    SeenAll(ids, seen);
    ok := |seen| == |ids|;
  }

  /** `seen` is the set of the first i ids. */
  ghost predicate Seen(ids: seq<string>, i: nat, seen: set<string>) {
    i <= |ids| && seen == (set x | x in ids[..i]) && |seen| <= i && (|seen| == i <==> Distinct(ids[..i]))
  }

  lemma SeenNone(ids: seq<string>)
    ensures Seen(ids, 0, {})
  {
  }

  lemma SeenGrows(ids: seq<string>, i: nat, seen: set<string>)
    requires i < |ids| && Seen(ids, i, seen)
    ensures Seen(ids, i + 1, seen + {ids[i]})
  {
    var front, all := ids[..i], ids[..i + 1];
    assert all == front + [ids[i]];
    if ids[i] in seen {
      assert seen + {ids[i]} == seen;
      var j :| 0 <= j < i && front[j] == ids[i];
      assert all[j] == all[i];
    } else {
      assert forall j :: 0 <= j < i ==> all[j] == front[j] && front[j] in seen;
    }
  }

  lemma SeenAll(ids: seq<string>, seen: set<string>)
    requires Seen(ids, |ids|, seen)
    ensures forall x :: x in seen <==> x in ids
    ensures |seen| == |ids| <==> Distinct(ids)
  {
    assert ids[..|ids|] == ids;
  }

  /** _validate_batch_records after a successful request; None where it raises. */
  method ValidateBatchRecords(op: Operation, requested: seq<Record>,
                              response: Response) returns (results: Option<seq<Record>>)
    requires op.Update? ==> ValidIds(requested)
    ensures results.Some? <==> Answers(op, requested, response)
    ensures results.Some? ==> ChunkResults(op, requested, response, results.value)
  {
    if !response.Records? || |response.items| != |requested| {
      return None;
    }
    var raw := response.items;
    for i := 0 to |raw|
      invariant forall j :: 0 <= j < i ==> Normal(raw[j])
    {
      if raw[i].None? || Strip(raw[i].value.id) == "" {
        return None;
      }
    }
    var normalized := Normalized(raw);
    hide Normalized, Strip, Distinct, SameMembers;
    if op.Create? {
      return Some(normalized);
    }
    results := InRequestOrder(Ids(requested), normalized);
  }

  /** The records by id; as many as there are records exactly when no id repeats. */
  method ById(normalized: seq<Record>) returns (byId: map<string, Record>)
    ensures forall x :: x in byId <==> x in RecordIds(normalized)
    ensures forall x :: x in byId ==> byId[x].id == x && byId[x] in normalized
    ensures |byId| == |normalized| <==> Distinct(RecordIds(normalized))
  {
    hide Distinct, RecordIds, Seen;
    ghost var actual := RecordIds(normalized);
    ghost var seen: set<string> := {};
    byId := map[];
    SeenNone(actual);
    for i := 0 to |normalized|
      invariant Seen(actual, i, seen) && byId.Keys == seen
      invariant forall x :: x in byId ==> byId[x].id == x && byId[x] in normalized
    {
      var r := normalized[i];
      SeenGrows(actual, i, seen);
      IdAt(normalized, i);
      seen := seen + {r.id};
      byId := byId[r.id := r];
    }
    SeenAll(actual, seen);
    assert |byId| == |byId.Keys|;
  }

  lemma IdAt(records: seq<Record>, i: nat)
    requires i < |records|
    ensures RecordIds(records)[i] == records[i].id
  {
  }

  /** The part of the validation that puts an update's records in the order of the requests. */
  method InRequestOrder(expected: seq<string>, normalized: seq<Record>) returns (results: Option<seq<Record>>)
    requires |expected| == |normalized|
    ensures results.Some? <==> Distinct(RecordIds(normalized)) && SameMembers(RecordIds(normalized), expected)
    ensures results.Some? ==> |results.value| == |expected|
    ensures results.Some? ==> forall j :: 0 <= j < |expected| ==>
                                results.value[j].id == expected[j] && results.value[j] in normalized
  {
    hide Distinct, RecordIds;
    var byId := ById(normalized);
    if |byId| != |normalized| || byId.Keys != (set x | x in expected) {
      assert SameMembers(RecordIds(normalized), expected) ==> byId.Keys == (set x | x in expected);
      return None;
    }
    assert forall x :: x in expected <==> x in byId.Keys;
    var ordered: seq<Record> := [];
    for j := 0 to |expected|
      invariant |ordered| == j && forall i :: 0 <= i < j ==> ordered[i].id == expected[i] && ordered[i] in normalized
    {
      assert expected[j] in byId.Keys;
      ordered := ordered + [byId[expected[j]]];
    }
    results := Some(ordered);
  }

  lemma SameSets(a: seq<string>, b: seq<string>)
    ensures SameMembers(a, b) <==> (set x | x in a) == (set x | x in b)
  {
    var sa, sb := set x | x in a, set x | x in b;
    assert forall x :: x in a <==> x in sa;
    assert forall x :: x in b <==> x in sb;
  }

  /** A chunk starts at k. */
  ghost predicate Offset(k: int) { k % BATCH_SIZE == 0 }

  ghost predicate AllAnswered(op: Operation, server: Server, records: seq<Record>, n: nat)
    requires n <= |records|
  {
    forall k: nat :: k < n && Offset(k) ==> Answers(op, Chunk(records, k), server(k, Chunk(records, k)))
  }

  /** The results of the first n requests: chunk by chunk. */
  ghost predicate Results(op: Operation, server: Server, records: seq<Record>, n: nat, results: seq<Record>)
    requires n <= |records|
  {
    && |results| == n
    && forall k: nat :: k < n && Offset(k) ==>
         && k + |Chunk(records, k)| <= n
         && ChunkResults(op, Chunk(records, k), server(k, Chunk(records, k)), results[k..k + |Chunk(records, k)|])
  }

  lemma ChunkValid(records: seq<Record>, k: nat)
    requires ValidIds(records) && k <= |records|
    ensures ValidIds(Chunk(records, k))
  {
    var chunk := Chunk(records, k);
    forall i | 0 <= i < |chunk| ensures Ids(chunk)[i] == Ids(records)[k + i] && Ids(chunk)[i] != "" {
      assert Ids(records)[k + i] in Ids(records);
    }
  }

  lemma ResultsGrow(op: Operation, server: Server, records: seq<Record>, k: nat, results: seq<Record>,
                    more: seq<Record>)
    requires k < |records| && Offset(k) && Results(op, server, records, k, results)
    requires ChunkResults(op, Chunk(records, k), server(k, Chunk(records, k)), more)
    ensures Results(op, server, records, k + |Chunk(records, k)|, results + more)
  {
    hide ChunkResults;
    var n, all := k + |Chunk(records, k)|, results + more;
    assert |more| == |Chunk(records, k)| by { ChunkSize(op, Chunk(records, k), server(k, Chunk(records, k)), more); }
    forall j: nat | j < n && Offset(j)
      ensures j + |Chunk(records, j)| <= n && ChunkResults(op, Chunk(records, j), server(j, Chunk(records, j)),
                                                           all[j..j + |Chunk(records, j)|])
    {
      if j < k {
        assert all[j..j + |Chunk(records, j)|] == results[j..j + |Chunk(records, j)|];
      } else {
        assert j == k;
        assert all[j..j + |Chunk(records, j)|] == more;
      }
    }
  }

  lemma ChunkSize(op: Operation, batch: seq<Record>, response: Response, results: seq<Record>)
    requires ChunkResults(op, batch, response, results)
    ensures |results| == |batch|
  {
  }

  /** batch_create_records and batch_update_records. The first chunk that is not answered ends the batch. */
  method BatchRecords(op: Operation, server: Server, records: seq<Record>) returns (r: Outcome)
    ensures r.InvalidRequest? <==> op.Update? && !ValidIds(records)
    ensures r.Done? <==> (op.Update? ==> ValidIds(records)) && AllAnswered(op, server, records, |records|)
    ensures r.Done? ==> Results(op, server, records, |records|, r.results)
    ensures r.Failed? ==>
              && r.offset < |records| && Offset(r.offset)
              && !Answers(op, Chunk(records, r.offset), server(r.offset, Chunk(records, r.offset)))
              && AllAnswered(op, server, records, r.offset)
              && Results(op, server, records, r.offset, r.confirmed)
  {
    hide Answers, ChunkResults, Distinct;
    if op.Update? {
      var ok := DistinctNonEmpty(Ids(records));
      if !ok {
        return InvalidRequest;
      }
    }
    var results: seq<Record> := [];
    var i := 0;
    while i < |records|
      invariant 0 <= i <= |records| && (Offset(i) || i == |records|)
      invariant AllAnswered(op, server, records, i) && Results(op, server, records, i, results)
    {
      var batch := Chunk(records, i);
      if op.Update? { ChunkValid(records, i); }
      var confirmed := ValidateBatchRecords(op, batch, server(i, batch));
      if confirmed.None? {
        return Failed(i, results);
      }
      ResultsGrow(op, server, records, i, results, confirmed.value);
      results := results + confirmed.value;
      i := i + |batch|;
    }
    r := Done(results);
  }

  /** batch_delete_records: the number deleted, or the offset that failed with the ids deleted before it. */
  method BatchDelete(server: Server, ids: seq<Record>) returns (deleted: nat, failed: Option<nat>)
    ensures failed.None? ==> deleted == |ids|
    ensures failed.Some? ==> failed.value == deleted < |ids| && Offset(deleted) && !Deletes(server, ids, deleted)
    ensures forall k: nat :: k < deleted && Offset(k) ==> Deletes(server, ids, k)
  {
    hide Distinct, SameMembers, ReturnedIds, RecordIds;
    deleted := 0;
    while deleted < |ids|
      invariant deleted <= |ids| && (Offset(deleted) || deleted == |ids|)
      invariant forall k: nat :: k < deleted && Offset(k) ==> Deletes(server, ids, k)
    {
      var batch := Chunk(ids, deleted);
      var response := server(deleted, batch);
      if !response.Records? || |response.items| != |batch| {
        return deleted, Some(deleted);
      }
      var actual := ReturnedIds(response.items);
      var ok := SameSetOnce(actual, RecordIds(batch));
      if !ok {
        return deleted, Some(deleted);
      }
      deleted := deleted + |response.items|;
    }
    failed := None;
  }

  function ReturnedIds(items: seq<Option<Record>>): (ids: seq<string>)
    ensures |ids| == |items|
  {
    seq(|items|, i requires 0 <= i < |items| => if items[i].Some? then Strip(items[i].value.id) else "")
  }

  /** The chunk at `k` is deleted: every id of it is returned once. */
  ghost predicate Deletes(server: Server, ids: seq<Record>, k: nat)
    requires k <= |ids|
  {
    var batch := Chunk(ids, k);
    var response := server(k, batch);
    && response.Records? && |response.items| == |batch|
    && SameMembers(ReturnedIds(response.items), RecordIds(batch)) && Distinct(ReturnedIds(response.items))
  }

  /** set(a) == set(b) and len(set(a)) == len(b), for lists of one length. */
  method SameSetOnce(a: seq<string>, b: seq<string>) returns (ok: bool)
    requires |a| == |b|
    ensures ok <==> SameMembers(a, b) && Distinct(a)
  {
    hide Seen, Distinct;
    var seen: set<string> := {};
    SeenNone(a);
    for i := 0 to |a|
      invariant Seen(a, i, seen)
    {
      SeenGrows(a, i, seen);
      seen := seen + {a[i]};
    }
    SeenAll(a, seen);
    assert seen == set x | x in a;
    SameSets(a, b);
    ok := |seen| == |b| && seen == (set x | x in b);
  }

  // ---------- what the caller gets ----------

  /** Only blanks around a text are stripped, and none are left. */
  lemma {:induction false} StripExactly(s: string) returns (i: nat, j: nat)
    ensures i <= j <= |s| && Strip(s) == s[i..j]
    ensures forall k :: 0 <= k < i || j <= k < |s| ==> s[k] in {' ', '\t', '\n', '\r'}
    ensures i < j ==> s[i] !in {' ', '\t', '\n', '\r'} && s[j - 1] !in {' ', '\t', '\n', '\r'}
    decreases |s|
  {
    if s != "" && IsSpace(s[0]) {
      var a, b := StripExactly(s[1..]);
      i, j := a + 1, b + 1;
      assert forall k :: 0 < k < |s| ==> s[k] == s[1..][k - 1];
      assert s[1..][a..b] == s[i..j];
    } else if s != "" && IsSpace(s[|s| - 1]) {
      i, j := StripExactly(s[..|s| - 1]);
      assert s[..|s| - 1][i..j] == s[i..j];
    } else {
      i, j := 0, |s|;
      assert s[..] == s;
    }
  }

  /** A normalized record has its stripped id and the fields the server sent. */
  lemma NormalizedExactly(items: seq<Option<Record>>, i: nat)
    requires (forall j :: 0 <= j < |items| ==> Normal(items[j])) && i < |items|
    ensures Normalized(items)[i].fields == items[i].value.fields && Normalized(items)[i].id == Strip(items[i].value.id)
  {
  }

  /** After a successful update every position holds the record requested there, whatever the server's order. */
  lemma ResultAtEveryPosition(server: Server, records: seq<Record>, n: nat, results: seq<Record>, i: nat)
    requires n <= |records| && Results(Update, server, records, n, results) && i < n
    ensures results[i].id == Strip(records[i].id)
    ensures var k := i / BATCH_SIZE * BATCH_SIZE;
            var response := server(k, Chunk(records, k));
            WellFormed(|Chunk(records, k)|, response) && results[i] in Normalized(response.items)
  {
    hide Strip, Normalized, WellFormed;
    var k := i / BATCH_SIZE * BATCH_SIZE;
    var chunk := Chunk(records, k);
    assert Offset(k) && k <= i < k + |chunk|;
    var part := results[k..k + |chunk|];
    assert ChunkResults(Update, chunk, server(k, chunk), part);
    assert part[i - k] == results[i] && chunk[i - k] == records[i];
  }

  /** The results are determined by the requests and the server's answers. */
  lemma ResultsUnique(op: Operation, server: Server, records: seq<Record>, n: nat, a: seq<Record>, b: seq<Record>)
    requires n <= |records| && AllAnswered(op, server, records, n)
    requires Results(op, server, records, n, a) && Results(op, server, records, n, b)
    ensures a == b
  {
    forall i: nat | i < n ensures a[i] == b[i] {
      var k := i / BATCH_SIZE * BATCH_SIZE;
      var chunk := Chunk(records, k);
      assert Offset(k) && k <= i < k + |chunk|;
      ChunkUnique(op, chunk, server(k, chunk), a[k..k + |chunk|], b[k..k + |chunk|]);
      assert a[k..k + |chunk|][i - k] == a[i] && b[k..k + |chunk|][i - k] == b[i];
    }
  }

  lemma ChunkUnique(op: Operation, batch: seq<Record>, response: Response, a: seq<Record>, b: seq<Record>)
    requires Answers(op, batch, response) && ChunkResults(op, batch, response, a)
             && ChunkResults(op, batch, response, b)
    ensures a == b
  {
    if op.Update? {
      hide Strip;
      var all := Normalized(response.items);
      forall j | 0 <= j < |batch| ensures a[j] == b[j] {
        var x :| 0 <= x < |all| && all[x] == a[j];
        var y :| 0 <= y < |all| && all[y] == b[j];
        assert RecordIds(all)[x] == RecordIds(all)[y];
      }
    }
  }

  /**
   A failure at chunk offset k reports as confirmed exactly what a batch of the first k requests alone
   would have returned.
   */
  lemma ConfirmedIsThePrefix(op: Operation, server: Server, records: seq<Record>, k: nat, confirmed: seq<Record>)
    requires k <= |records| && Offset(k) && AllAnswered(op, server, records, k)
             && Results(op, server, records, k, confirmed)
    ensures AllAnswered(op, server, records[..k], k) && Results(op, server, records[..k], k, confirmed)
    ensures forall r :: Results(op, server, records[..k], k, r) ==> r == confirmed
  {
    hide Answers, ChunkResults;
    forall j: nat | j < k && Offset(j) ensures Chunk(records[..k], j) == Chunk(records, j) {
      assert j + BATCH_SIZE <= k;
    }
    forall r | Results(op, server, records[..k], k, r) ensures r == confirmed {
      ResultsUnique(op, server, records[..k], k, r, confirmed);
    }
  }
}
