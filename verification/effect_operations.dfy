/** What a ledger version does to cash identities, relative to the version applied before it. */
module EffectOperations {
  import opened EffectModel
  import opened Optional

  datatype Operation = Operation(source: Source, delta: int)

  predicate SamePlace(a: Source, b: Source) {
    a.Account() == b.Account() && a.Broker() == b.Broker() && a.Cash() == b.Cash()
  }

  function WithoutZero(op: Operation): seq<Operation> {
    if op.delta == 0 then [] else [op]
  }

  /** _cash_flow_operations; None where reading an amount raises. */
  function Operations(previous: Option<Source>, current: Source): Option<seq<Operation>> {
    if current.Signed().None? then None
    else if previous.None? then Some([Operation(current, current.Signed().value)])
    else if previous.value.Signed().None? then None
    else
      var before, now := previous.value.Signed().value, current.Signed().value;
      if SamePlace(previous.value, current) then Some([Operation(current, now - before)])
      else Some(WithoutZero(Operation(previous.value, -before)) + WithoutZero(Operation(current, now)))
  }

  function DeltaSum(ops: seq<Operation>): int {
    if ops == [] then 0 else ops[0].delta + DeltaSum(ops[1..])
  }

  /** The part of the operations that falls on one identity. */
  function DeltaAt(ops: seq<Operation>, id: Identity): int {
    if ops == [] then 0
    else (if ops[0].source.At() == Some(id) then ops[0].delta else 0) + DeltaAt(ops[1..], id)
  }

  /** What an applied source holds at `id`: its signed amount when it sits there. */
  function Worth(source: Option<Source>, id: Identity): int {
    if source.Some? && source.value.At() == Some(id) && source.value.Signed().Some?
    then source.value.Signed().value else 0
  }

  /**
   The operations of a version are exactly the change from what the last applied version holds to
   what this one holds, at every identity: also when account, broker or currency were edited.
   */
  lemma {:induction false} OperationsAreTheChange(previous: Option<Source>, current: Source, id: Identity)
    requires Operations(previous, current).Some?
    ensures DeltaAt(Operations(previous, current).value, id) == Worth(Some(current), id) - Worth(previous, id)
  {
    var ops := Operations(previous, current).value;
    if previous.Some? && !SamePlace(previous.value, current) {
      var a := WithoutZero(Operation(previous.value, -previous.value.Signed().value));
      var b := WithoutZero(Operation(current, current.Signed().value));
      DeltaAtConcat(a, b, id);
    } else {
      assert ops[1..] == [];
    }
  }

  lemma {:induction false} DeltaAtConcat(a: seq<Operation>, b: seq<Operation>, id: Identity)
    ensures DeltaAt(a + b, id) == DeltaAt(a, id) + DeltaAt(b, id)
  {
    if a == [] {
      assert a + b == b;
    } else {
      DeltaAtConcat(a[1..], b, id);
      assert (a + b)[1..] == a[1..] + b;
    }
  }

  /** No identity is named by two operations of one version. */
  lemma OperationsDistinct(previous: Option<Source>, current: Source, i: nat, j: nat)
    requires Operations(previous, current).Some?
    requires i < j < |Operations(previous, current).value|
    ensures var ops := Operations(previous, current).value;
            ops[i].source.At().Some? ==> ops[i].source.At() != ops[j].source.At()
  {
  }
}
