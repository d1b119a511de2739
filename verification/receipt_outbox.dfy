/**
 The receipt outbox: the receipts table of cash_flow_effect_store.py and the dispatcher of
 cash_flow_effect_receipt_service.py. One dispatcher at a time holds the process lock; receipts may be
 enqueued at any moment, also between two sends of a dispatch.
 */
module ReceiptOutbox {

  datatype Status = Pending | Failed | Sent | Invalid

  datatype Receipt = Receipt(payload: string, status: Status, attempts: nat)

  /** How one send ends: delivered, failed but retryable, or not renderable. */
  datatype Answer = Delivered | Retryable | Unrenderable

  /** What reached the channel: one entry for every send. */
  datatype Send = Send(key: string, payload: string, answer: Answer)

  /** `order` lists the keys by creation; `batch` holds the keys the running dispatch has listed and not yet sent. */
  datatype Outbox = Outbox(receipts: map<string, Receipt>, order: seq<string>, batch: seq<string>, sends: seq<Send>)

  const EMPTY := Outbox(map[], [], [], [])

  function StatusAfter(a: Answer): Status {
    match a case Delivered => Sent case Retryable => Failed case Unrenderable => Invalid
  }

  predicate Open(r: Receipt) { r.status.Pending? || r.status.Failed? }

  /** INSERT OR IGNORE. */
  function Enqueued(o: Outbox, key: string, payload: string): Outbox {
    if key in o.receipts then o
    else o.(receipts := o.receipts[key := Receipt(payload, Pending, 0)], order := o.order + [key])
  }

  /** The open keys among `keys`, in their order. */
  function OpenKeys(receipts: map<string, Receipt>, keys: seq<string>): seq<string> {
    if keys == [] then []
    else
      var k := keys[|keys| - 1];
      OpenKeys(receipts, keys[..|keys| - 1]) + if k in receipts && Open(receipts[k]) then [k] else []
  }

  /** LIMIT n; a negative limit is none. */
  function Limited(keys: seq<string>, limit: int): seq<string> {
    if 0 <= limit < |keys| then keys[..limit] else keys
  }

  function Listed(o: Outbox, limit: int): seq<string> { Limited(OpenKeys(o.receipts, o.order), limit) }

  function Marked(r: Receipt, a: Answer): Receipt { r.(status := StatusAfter(a), attempts := r.attempts + 1) }

  /** The dispatch sends and marks the next receipt of its batch. */
  function SentNext(o: Outbox, a: Answer): Outbox {
    if o.batch == [] || o.batch[0] !in o.receipts then o
    else
      var k := o.batch[0];
      o.(receipts := o.receipts[k := Marked(o.receipts[k], a)], batch := o.batch[1..],
         sends := o.sends + [Send(k, o.receipts[k].payload, a)])
  }

  // ---------- the store and the dispatcher ----------

  class ReceiptStore {
    var receipts: map<string, Receipt>
    var order: seq<string>
    var sends: seq<Send>

    function State(batch: seq<string>): Outbox
      reads this
    {
      Outbox(receipts, order, batch, sends)
    }

    constructor ()
      ensures State([]) == EMPTY
    {
      receipts, order, sends := map[], [], [];
    }

    method EnqueueReceipt(key: string, payload: string) returns (inserted: bool)
      modifies this
      ensures State([]) == Enqueued(old(State([])), key, payload)
      ensures inserted <==> key !in old(receipts)
    {
      inserted := key !in receipts;
      if inserted {
        receipts := receipts[key := Receipt(payload, Pending, 0)];
        order := order + [key];
      }
    }

    method ListPendingReceipts(limit: int) returns (keys: seq<string>)
      ensures keys == Listed(State([]), limit)
    {
      keys := [];
      for i := 0 to |order|
        invariant keys == OpenKeys(receipts, order[..i])
      {
        assert order[..i + 1][..i] == order[..i];
        if order[i] in receipts && (receipts[order[i]].status.Pending? || receipts[order[i]].status.Failed?) {
          keys := keys + [order[i]];
        }
      }
      assert order[..|order|] == order;
      if 0 <= limit < |keys| { keys := keys[..limit]; }
    }

    /** mark_receipt: an unguarded update by key; false where it raises KeyError. */
    method MarkReceipt(key: string, success: bool, retryable: bool) returns (found: bool)
      modifies this`receipts
      ensures found <==> key in old(receipts)
      ensures receipts == if found then old(receipts)[key := Marked(old(receipts)[key],
                                                                    AnswerOf(success, retryable))] else old(receipts)
    {
      if key !in receipts {
        return false;
      }
      var r := receipts[key];
      var status := if success then Sent else if retryable then Failed else Invalid;
      receipts := receipts[key := r.(status := status, attempts := r.attempts + 1)];
      found := true;
    }

    /** One turn of the dispatch loop: the row is sent and then marked. */
    method SendRow(key: string, a: Answer, ghost rest: seq<string>)
      requires key in receipts
      modifies this`receipts, this`sends
      ensures State(rest) == SentNext(old(State([key] + rest)), a)
    {
      assert ([key] + rest)[1..] == rest;
      var payload := receipts[key].payload;
      sends := sends + [Send(key, payload, a)];
      var found := MarkReceipt(key, a.Delivered?, !a.Unrenderable?);
    }

    /** dispatch_pending, with the answer each send gets. */
    method DispatchPending(limit: int, answers: nat -> Answer) returns (sent: nat, failed: nat, invalid: nat)
      requires Valid(State([]))
      modifies this
      ensures State([]) == Dispatched(old(State([])), limit, answers)
      ensures var n := |Listed(old(State([])), limit)|;
              sent == CountOf(answers, n, Delivered) && invalid == CountOf(answers, n, Unrenderable)
              && failed == CountOf(answers, n, Retryable) + CountOf(answers, n, Unrenderable) && sent + failed == n
    {
      hide Valid, Listed, SentNext, Open, Enqueued;
      sent, failed, invalid := 0, 0, 0;
      var rows := ListPendingReceipts(limit);
      ghost var start := State(rows);
      BeginValid(State([]), limit);
      for i := 0 to |rows|
        invariant State(rows[i..]) == Sends(start, answers, i) && Valid(State(rows[i..]))
        invariant sent + failed == i
        invariant sent == CountOf(answers, i, Delivered) && invalid == CountOf(answers, i, Unrenderable)
        invariant failed == CountOf(answers, i, Retryable) + CountOf(answers, i, Unrenderable)
      {
        var a := answers(i);
        SendValid(State(rows[i..]), a);
        assert rows[i..] == [rows[i]] + rows[i + 1..];
        SendRow(rows[i], a, rows[i + 1..]);
        if a.Delivered? { sent := sent + 1; } else { failed := failed + 1; }
        if a.Unrenderable? { invalid := invalid + 1; }
      }
      assert rows[|rows|..] == [];
    }
  }

  function AnswerOf(success: bool, retryable: bool): Answer {
    if success then Delivered else if retryable then Retryable else Unrenderable
  }

  /** How many of the first n sends got this answer. */
  function CountOf(answers: nat -> Answer, n: nat, a: Answer): nat {
    if n == 0 then 0 else CountOf(answers, n - 1, a) + if answers(n - 1) == a then 1 else 0
  }

  /** n sends of a batch. */
  function Sends(o: Outbox, answers: nat -> Answer, n: nat): Outbox {
    if n == 0 then o else SentNext(Sends(o, answers, n - 1), answers(n - 1))
  }

  function Dispatched(o: Outbox, limit: int, answers: nat -> Answer): Outbox {
    Sends(o.(batch := Listed(o, limit)), answers, |Listed(o, limit)|)
  }

  // ---------- runs ----------

  datatype Step = Enqueue(key: string, payload: string) | Begin(limit: int) | SendNext(answer: Answer)

  /** A dispatch can only begin when no other one holds the lock. */
  function Next(o: Outbox, s: Step): Outbox {
    match s
    case Enqueue(key, payload) => Enqueued(o, key, payload)
    case Begin(limit) => if o.batch == [] then o.(batch := Listed(o, limit)) else o
    case SendNext(a) => SentNext(o, a)
  }

  function Run(o: Outbox, steps: seq<Step>): Outbox {
    if steps == [] then o else Next(Run(o, steps[..|steps| - 1]), steps[|steps| - 1])
  }

  /** The payload of the first enqueue of a key. */
  function FirstPayload(steps: seq<Step>, key: string): (bool, string) {
    if steps == [] then (false, "")
    else if steps[0].Enqueue? && steps[0].key == key then (true, steps[0].payload)
    else FirstPayload(steps[1..], key)
  }

  function SendsOf(sends: seq<Send>, key: string): nat {
    if sends == [] then 0 else SendsOf(sends[..|sends| - 1], key) + if sends[|sends| - 1].key == key then 1 else 0
  }

  function DeliveriesOf(sends: seq<Send>, key: string): nat {
    if sends == [] then 0
    else DeliveriesOf(sends[..|sends| - 1], key) + if sends[|sends| - 1].key == key
        && sends[|sends| - 1].answer.Delivered? then 1 else 0
  }

  /** The keys are listed once each, and the batch holds open receipts, once each. */
  ghost predicate Valid(o: Outbox) {
    && (forall i, j :: 0 <= i < j < |o.order| ==> o.order[i] != o.order[j])
    && (forall k :: k in o.order <==> k in o.receipts)
    && (forall i, j :: 0 <= i < j < |o.batch| ==> o.batch[i] != o.batch[j])
    && (forall i :: 0 <= i < |o.batch| ==> o.batch[i] in o.receipts && Open(o.receipts[o.batch[i]]))
  }

  /** The table agrees with what was sent. */
  ghost predicate Agrees(o: Outbox) {
    && (forall k :: k in o.receipts ==> o.receipts[k].attempts == SendsOf(o.sends, k))
    && (forall k :: k in o.receipts ==> DeliveriesOf(o.sends, k) == if o.receipts[k].status.Sent? then 1 else 0)
    && (forall k :: k !in o.receipts ==> SendsOf(o.sends, k) == 0 && DeliveriesOf(o.sends, k) == 0)
    && (forall s :: s in o.sends ==> s.key in o.receipts && s.payload == o.receipts[s.key].payload)
  }

  lemma {:induction false} OpenKeysDistinct(receipts: map<string, Receipt>, keys: seq<string>)
    requires forall i, j :: 0 <= i < j < |keys| ==> keys[i] != keys[j]
    ensures var open := OpenKeys(receipts, keys);
            && (forall i, j :: 0 <= i < j < |open| ==> open[i] != open[j])
            && (forall k :: k in open <==> k in keys && k in receipts && Open(receipts[k]))
  {
    if keys != [] {
      var front, last := keys[..|keys| - 1], keys[|keys| - 1];
      OpenKeysDistinct(receipts, front);
      assert forall k :: k in keys <==> k in front || k == last;
      assert last !in front;
    }
  }

  lemma BeginValid(o: Outbox, limit: int)
    requires Valid(o)
    ensures Valid(o.(batch := Listed(o, limit)))
  {
    OpenKeysDistinct(o.receipts, o.order);
    var open := OpenKeys(o.receipts, o.order);
    forall i | 0 <= i < |Listed(o, limit)| ensures Listed(o, limit)[i] in open { assert open[i] in open; }
  }

  lemma SendValid(o: Outbox, a: Answer)
    requires Valid(o)
    ensures Valid(SentNext(o, a))
    ensures o.batch != [] ==> o.batch[0] in o.receipts && Open(o.receipts[o.batch[0]])
  {
  }

  lemma StepValid(o: Outbox, s: Step)
    requires Valid(o)
    ensures Valid(Next(o, s))
  {
    match s
    case Enqueue(key, payload) =>
    case Begin(limit) => BeginValid(o, limit);
    case SendNext(a) => SendValid(o, a);
  }

  lemma StepAgrees(o: Outbox, s: Step)
    requires Valid(o) && Agrees(o)
    ensures Agrees(Next(o, s))
  {
    if s.SendNext? && o.batch != [] {
      var k, sends := o.batch[0], Next(o, s).sends;
      assert sends[..|sends| - 1] == o.sends;
    }
  }

  lemma {:induction false} FirstPayloadGrows(steps: seq<Step>, s: Step, key: string)
    ensures FirstPayload(steps + [s], key)
            == if FirstPayload(steps, key).0 then FirstPayload(steps, key)
               else if s.Enqueue? && s.key == key then (true, s.payload) else (false, "")
  {
    if steps == [] {
      assert steps + [s] == [s];
    } else {
      FirstPayloadGrows(steps[1..], s, key);
      assert (steps + [s])[1..] == steps[1..] + [s];
    }
  }

  /**
   Over every run of enqueues and dispatches: each key keeps the payload it was first enqueued with, and
   every send carries it; attempts count the sends; and a key is delivered at most once, exactly once when
   it is marked sent.
   */
  lemma {:induction false} OutboxRuns(steps: seq<Step>)
    ensures Valid(Run(EMPTY, steps)) && Agrees(Run(EMPTY, steps))
    ensures forall k :: k in Run(EMPTY, steps).receipts <==> FirstPayload(steps, k).0
    ensures forall k :: k in Run(EMPTY, steps).receipts ==>
              Run(EMPTY, steps).receipts[k].payload == FirstPayload(steps, k).1
  {
    hide Valid, Agrees;
    if steps == [] {
      EmptyAgrees();
    } else {
      var front, last := steps[..|steps| - 1], steps[|steps| - 1];
      OutboxRuns(front);
      StepValid(Run(EMPTY, front), last);
      StepAgrees(Run(EMPTY, front), last);
      assert steps == front + [last];
      forall k
        ensures k in Run(EMPTY, steps).receipts <==> FirstPayload(steps, k).0
        ensures k in Run(EMPTY, steps).receipts ==> Run(EMPTY, steps).receipts[k].payload == FirstPayload(steps, k).1
      {
        FirstPayloadGrows(front, last, k);
      }
    }
  }

  lemma EmptyAgrees()
    ensures Valid(EMPTY) && Agrees(EMPTY)
  {
  }

  /** Sent and invalid are absorbing, whatever follows: the whole receipt stays as it is and is not sent again. */
  lemma {:induction false} SettledStays(steps: seq<Step>, more: seq<Step>, key: string)
    requires key in Run(EMPTY, steps).receipts && !Open(Run(EMPTY, steps).receipts[key])
    ensures key in Run(EMPTY, steps + more).receipts
    ensures Run(EMPTY, steps + more).receipts[key] == Run(EMPTY, steps).receipts[key]
    ensures SendsOf(Run(EMPTY, steps + more).sends, key) == SendsOf(Run(EMPTY, steps).sends, key)
  {
    hide Valid, Agrees, Next, SendsOf, Open;
    if more == [] {
      assert steps + more == steps;
    } else {
      var front, last := more[..|more| - 1], more[|more| - 1];
      SettledStays(steps, front, key);
      OutboxRuns(steps + front);
      assert (steps + more)[..|steps + more| - 1] == steps + front;
      StepSettled(Run(EMPTY, steps + front), last, key);
    }
  }

  lemma StepSettled(o: Outbox, s: Step, key: string)
    requires Valid(o) && key in o.receipts && !Open(o.receipts[key])
    ensures key in Next(o, s).receipts && Next(o, s).receipts[key] == o.receipts[key]
    ensures SendsOf(Next(o, s).sends, key) == SendsOf(o.sends, key)
  {
    hide OpenKeys;
    if s.SendNext? && o.batch != [] {
      var sends := Next(o, s).sends;
      assert sends[..|sends| - 1] == o.sends;
    }
  }

  /** Delivered receipts are sent, failed ones are tried again, and those that cannot be rendered never are. */
  lemma MarkedExactly(r: Receipt, a: Answer)
    ensures var after := Marked(r, a);
            && after.payload == r.payload && after.attempts == r.attempts + 1
            && (a.Delivered? ==> after.status == Sent && !Open(after))
            && (a.Retryable? ==> after.status == Failed && Open(after))
            && (a.Unrenderable? ==> after.status == Invalid && !Open(after))
  {
  }

  /** One key was created before another. */
  ghost predicate Earlier(order: seq<string>, k: string, l: string) {
    exists a, b :: 0 <= a < b < |order| && order[a] == k && order[b] == l
  }

  lemma {:induction false} OpenKeysInOrder(receipts: map<string, Receipt>, keys: seq<string>, i: nat, j: nat)
    requires forall a, b :: 0 <= a < b < |keys| ==> keys[a] != keys[b]
    requires i < j < |OpenKeys(receipts, keys)|
    ensures Earlier(keys, OpenKeys(receipts, keys)[i], OpenKeys(receipts, keys)[j])
  {
    if keys != [] {
      var front, last := keys[..|keys| - 1], keys[|keys| - 1];
      var open := OpenKeys(receipts, front);
      OpenKeysDistinct(receipts, front);
      if j < |open| {
        OpenKeysInOrder(receipts, front, i, j);
        var a, b :| 0 <= a < b < |front| && front[a] == open[i] && front[b] == open[j];
        assert keys[a] == open[i] && keys[b] == open[j];
      } else {
        assert open[i] in open;
        var a :| 0 <= a < |front| && front[a] == open[i];
        assert keys[a] == open[i] && keys[|keys| - 1] == last;
      }
    }
  }

  /**
   What a dispatch lists: open receipts only, oldest first, none twice, all of them unless the limit cuts them, and
   then as many of the oldest as the limit allows.
   */
  lemma ListedExactly(o: Outbox, limit: int)
    requires Valid(o)
    ensures var listed := Listed(o, limit);
            && (forall k :: k in listed ==> k in o.receipts && o.receipts[k].status in {Pending, Failed})
            && (forall i, j :: 0 <= i < j < |listed| ==>
                  Earlier(o.order, listed[i], listed[j]))
            && (0 <= limit ==> |listed| <= limit)
            && (limit < 0 || |listed| < limit ==>
                  forall k :: k in o.receipts && o.receipts[k].status in {Pending, Failed} ==> k in listed)
            && (forall k, l :: l in listed && k in o.receipts && k !in listed
                               && o.receipts[k].status in {Pending, Failed} ==>
                  Earlier(o.order, l, k))
  {
    hide OpenKeys;
    var open, listed := OpenKeys(o.receipts, o.order), Listed(o, limit);
    OpenKeysDistinct(o.receipts, o.order);
    assert |listed| <= |open| && listed == open[..|listed|];
    forall i, j | 0 <= i < j < |listed|
      ensures Earlier(o.order, listed[i], listed[j])
    {
      assert listed[i] == open[i] && listed[j] == open[j];
      OpenKeysInOrder(o.receipts, o.order, i, j);
    }
    forall k, l | l in listed && k in open && k !in listed
      ensures Earlier(o.order, l, k)
    {
      var i :| 0 <= i < |listed| && listed[i] == l;
      var j :| 0 <= j < |open| && open[j] == k;
      assert j >= |listed| && open[i] == l;
      OpenKeysInOrder(o.receipts, o.order, i, j);
    }
  }

  /** A dispatch touches every receipt it lists exactly once, with its own answer, and no other. */
  lemma {:induction false} DispatchTouches(o: Outbox, answers: nat -> Answer, n: nat)
    requires Valid(o) && n <= |o.batch|
    ensures var d := Sends(o, answers, n);
            && Valid(d) && d.batch == o.batch[n..] && d.receipts.Keys == o.receipts.Keys && d.order == o.order
            && (forall i: nat :: i < n ==> d.receipts[o.batch[i]] == Marked(o.receipts[o.batch[i]], answers(i)))
            && (forall k :: k in o.receipts && k !in o.batch[..n] ==> d.receipts[k] == o.receipts[k])
  {
    hide Valid, SentNext, Open, Marked, OpenKeys;
    if n > 0 {
      DispatchTouches(o, answers, n - 1);
      var before := Sends(o, answers, n - 1);
      SendValid(before, answers(n - 1));
      SendTouches(before, answers(n - 1));
      BatchDistinct(o, n - 1);
      assert before.batch[0] == o.batch[n - 1] && before.batch[1..] == o.batch[n..];
      assert before.receipts[o.batch[n - 1]] == o.receipts[o.batch[n - 1]];
      assert o.batch[..n] == o.batch[..n - 1] + [o.batch[n - 1]];
    }
  }

  lemma SendTouches(o: Outbox, a: Answer)
    requires o.batch != [] && o.batch[0] in o.receipts
    ensures var d := SentNext(o, a);
            d.receipts == o.receipts[o.batch[0] := Marked(o.receipts[o.batch[0]], a)] && d.batch == o.batch[1..]
                && d.order == o.order
  {
  }

  lemma BatchDistinct(o: Outbox, n: nat)
    requires Valid(o) && n < |o.batch|
    ensures o.batch[n] !in o.batch[..n] && o.batch[n] in o.receipts
    ensures forall i :: 0 <= i < n ==> o.batch[i] != o.batch[n]
  {
  }

  /** A dispatch with no limit in which every send is delivered leaves nothing open. */
  lemma DispatchDrains(o: Outbox, limit: int, answers: nat -> Answer)
    requires Valid(o) && o.batch == [] && !(0 <= limit < |OpenKeys(o.receipts, o.order)|)
    requires forall i: nat :: answers(i).Delivered?
    ensures var d := Dispatched(o, limit, answers); Valid(d) && forall k :: k in d.receipts ==> !Open(d.receipts[k])
  {
    var begun := o.(batch := Listed(o, limit));
    BeginValid(o, limit);
    OpenKeysDistinct(o.receipts, o.order);
    hide Valid, SentNext, Sends, OpenKeys;
    DispatchTouches(begun, answers, |begun.batch|);
    var d := Dispatched(o, limit, answers);
    forall k | k in d.receipts ensures !Open(d.receipts[k]) {
      if k in begun.batch { var i :| 0 <= i < |begun.batch| && begun.batch[i] == k; }
      assert begun.batch[..|begun.batch|] == begun.batch;
    }
  }
}
