/** Planned and executed deduction of CASH and MMF holdings (cash_service.py); quantities are measured in cents. */
module CashService {
  import opened Optional

  /** A holding's quantity; None when there is no such holding. */
  type Balance = Option<real>

  datatype Asset = Cash | Mmf

  /** How deduct_cash ends. Raised: a write was refused by the holdings repository. */
  datatype Outcome = Deducted | Refused | Raised

  /** quantize_money: to whole cents, halves away from zero. */
  function Quantize(x: real): int {
    if x >= 0.0 then (x + 0.5).Floor else -((-x + 0.5).Floor)
  }

  predicate WholeCents(b: Balance) { b.Some? ==> b.value == b.value.Floor as real }

  /** Not exactly half a cent away from a whole number of cents. */
  predicate NotHalfCent(x: real) { x - x.Floor as real != 0.5 }

  /** What a holding can give: nothing when it is missing or not positive. */
  function Usable(b: Balance): real { if b.Some? && b.value > 0.0 then b.value else 0.0 }

  function MinReal(a: real, b: real): real { if a <= b then a else b }

  /** CASH gives first, MMF gives the rest. */
  function FromCash(cash: Balance, amount: real): real { MinReal(Usable(cash), amount) }

  function FromMmf(cash: Balance, mmf: Balance, amount: real): real {
    MinReal(Usable(mmf), amount - FromCash(cash, amount))
  }

  predicate Enough(cash: Balance, mmf: Balance, amount: real) { Usable(cash) + Usable(mmf) >= amount }

  /** A balance after the plan's absolute target: subtract, then round. */
  function Planned(b: Balance, taken: real): Balance {
    if Usable(b) > 0.0 && taken > 0.0 then Some(Quantize(b.value - taken) as real) else b
  }

  /** A balance after the executed change: round, subtract, round. */
  function Executed(b: Balance, taken: real): Balance {
    if Usable(b) > 0.0 && taken > 0.0 then Some(Quantize(b.value - Quantize(taken) as real) as real) else b
  }

  /** The repository refuses to make a quantity negative. */
  predicate Overdraws(b: Balance, taken: real) {
    taken > 0.0 && Executed(b, taken).Some? && Executed(b, taken).value < 0.0
  }

  /** The targets of one holding. */
  function PlanOf(asset: Asset, b: Balance, taken: real): seq<(Asset, real)> {
    if Usable(b) > 0.0 && taken > 0.0 then [(asset, Quantize(b.value - taken) as real)] else []
  }

  /** The CASH and MMF holdings of one account and broker. */
  class CashLikeHoldings {
    var cash: Balance
    var mmf: Balance

    constructor (cash: Balance, mmf: Balance)
      ensures this.cash == cash && this.mmf == mmf
    {
      this.cash, this.mmf := cash, mmf;
    }

    /** update_holding_quantity on a present cash-like holding; false when it raises. */
    method Add(asset: Asset, change: int) returns (ok: bool)
      requires asset.Cash? ==> cash.Some?
      requires asset.Mmf? ==> mmf.Some?
      modifies this
      ensures ok <==> Quantize((if asset.Cash? then old(cash) else old(mmf)).value + change as real) >= 0
      ensures cash == if ok && asset.Cash? then Some(Quantize(old(cash).value + change as real) as real) else old(cash)
      ensures mmf == if ok && asset.Mmf? then Some(Quantize(old(mmf).value + change as real) as real) else old(mmf)
    {
      var quantity := Quantize((if asset.Cash? then cash else mmf).value + change as real);
      if quantity < 0 {
        return false;
      }
      if asset.Cash? { cash := Some(quantity as real); } else { mmf := Some(quantity as real); }
      ok := true;
    }

    /** plan_deduct_cash_targets: the absolute targets in order, or None where it raises. Nothing is written. */
    method Plan(amount: real) returns (targets: Option<seq<(Asset, real)>>)
      ensures targets.Some? <==> Enough(cash, mmf, amount)
      ensures targets.Some? ==> targets.value == PlanOf(Cash, cash, FromCash(cash, amount)) + PlanOf(Mmf, mmf,
              FromMmf(cash, mmf, amount))
    {
      var remaining := amount;
      var holdings := [(Cash, cash), (Mmf, mmf)];
      var total := 0.0;
      for i := 0 to |holdings|
        invariant total == (if i >= 1 then Usable(cash) else 0.0) + (if i == 2 then Usable(mmf) else 0.0)
      {
        if holdings[i].1.Some? && holdings[i].1.value > 0.0 { total := total + holdings[i].1.value; }
      }
      if total < remaining {
        return None;
      }
      var planned: seq<(Asset, real)> := [];
      for i := 0 to |holdings|
        invariant i == 0 ==> remaining == amount && planned == []
        invariant i == 1 ==> planned == PlanOf(Cash, cash, FromCash(cash, amount))
        invariant i == 1 ==> remaining == amount - (if amount > 0.0 then FromCash(cash, amount) else 0.0)
        invariant i == 2 ==>
                    planned == PlanOf(Cash, cash, FromCash(cash, amount)) + PlanOf(Mmf, mmf, FromMmf(cash, mmf, amount))
      {
        var (asset, balance) := holdings[i];
        if remaining > 0.0 && balance.Some? && balance.value > 0.0 {
          var deduction := MinReal(balance.value, remaining);
          planned := planned + [(asset, Quantize(balance.value - deduction) as real)];
          remaining := remaining - deduction;
        }
      }
      targets := Some(planned);
    }

    /** deduct_cash. Both balances are checked before anything is written. */
    method Deduct(amount: real) returns (outcome: Outcome)
      modifies this
      ensures outcome == Deduction(old(cash), old(mmf), amount).0
      ensures cash == Deduction(old(cash), old(mmf), amount).1
      ensures mmf == Deduction(old(cash), old(mmf), amount).2
    {
      hide Quantize;
      if amount <= 0.0 {
        return Deducted;
      }
      var remaining := amount;
      var available := 0.0;
      if cash.Some? && cash.value > 0.0 { available := available + cash.value; }
      if mmf.Some? && mmf.value > 0.0 { available := available + mmf.value; }
      if available < remaining {
        return Refused;
      }
      if cash.Some? && cash.value > 0.0 {
        var fromCash := MinReal(cash.value, remaining);
        var ok := Add(Cash, -Quantize(fromCash));
        if !ok {
          return Raised;
        }
        remaining := remaining - fromCash;
      }
      if remaining > 0.0 && mmf.Some? && mmf.value > 0.0 {
        var fromMmf := MinReal(mmf.value, remaining);
        var ok := Add(Mmf, -Quantize(fromMmf));
        if !ok {
          return Raised;
        }
        remaining := remaining - fromMmf;
      }
      outcome := Deducted;
    }
  }

  /** What an executed deduction does: its outcome, then CASH and MMF afterwards. */
  function Deduction(cash: Balance, mmf: Balance, amount: real): (Outcome, Balance, Balance) {
    var c, m := FromCash(cash, amount), FromMmf(cash, mmf, amount);
    if amount <= 0.0 then (Deducted, cash, mmf)
    else if !Enough(cash, mmf, amount) then (Refused, cash, mmf)
    else if Usable(cash) > 0.0 && Overdraws(cash, c) then (Raised, cash, mmf)
    else if Usable(mmf) > 0.0 && Overdraws(mmf, m) then (Raised, Executed(cash, c), mmf)
    else (Deducted, Executed(cash, c), Executed(mmf, m))
  }

  // ---------- rounding ----------

  lemma QuantizeWhole(n: int)
    ensures Quantize(n as real) == n
  {
  }

  /** To the nearest cent; a half cent goes away from zero. */
  lemma QuantizeIsNearest(x: real)
    ensures var error := Quantize(x) as real - x;
            -0.5 <= error <= 0.5 && (error == 0.5 ==> x > 0.0) && (error == -0.5 ==> x < 0.0)
  {
  }

  /**
   Planning subtracts and then rounds, execution rounds and then subtracts. For a balance of whole
   cents and a deduction it covers, the two agree exactly when the deduction is not a half cent.
   */
  lemma RoundingAgrees(q: real, taken: real)
    requires q == q.Floor as real && 0.0 < taken <= q
    ensures Quantize(q - taken) == Quantize(q - Quantize(taken) as real) <==> NotHalfCent(taken)
  {
    var n, k := q.Floor, taken.Floor;
    var f := taken - k as real;
    assert q - taken == (n - k) as real - f;
    QuantizeWhole(n - Quantize(taken));
    assert Quantize(taken) == if f < 0.5 then k else k + 1;
    assert Quantize(q - taken) == if f <= 0.5 then n - k else n - k - 1;
  }

  /**
   A deduction within the balance is refused by the repository exactly when it takes all of a balance ending
   in half a cent.
   */
  lemma OverdrawsOnlyHalfCents(b: Balance, taken: real)
    requires 0.0 < taken <= Usable(b)
    ensures Overdraws(b, taken) <==> taken == b.value && !NotHalfCent(b.value)
  {
    var k := taken.Floor;
    assert Quantize(taken) == if taken - k as real < 0.5 then k else k + 1;
    var rest := b.value - Quantize(taken) as real;
    assert rest >= -0.5;
    assert Overdraws(b, taken) <==> rest == -0.5;
  }

  // ---------- plan and execution ----------

  /** Writing the planned targets. */
  function Written(asset: Asset, targets: seq<(Asset, real)>, b: Balance): Balance {
    if targets == [] then b
    else Written(asset, targets[1..], if targets[0].0 == asset then Some(targets[0].1) else b)
  }

  lemma PlanWrites(cash: Balance, mmf: Balance, c: real, m: real)
    ensures var targets := PlanOf(Cash, cash, c) + PlanOf(Mmf, mmf, m);
            Written(Cash, targets, cash) == Planned(cash, c) && Written(Mmf, targets, mmf) == Planned(mmf, m)
  {
    var first, second := PlanOf(Cash, cash, c), PlanOf(Mmf, mmf, m);
    var targets := first + second;
    hide Quantize;
    WrittenPlan(Mmf, Cash, mmf, m, cash);
    WrittenPlan(Mmf, Mmf, mmf, m, mmf);
    if first != [] {
      assert targets[0] == first[0] && targets[1..] == second;
      WrittenPlan(Mmf, Cash, mmf, m, Some(first[0].1));
    } else {
      assert targets == second;
    }
  }

  lemma WrittenPlan(asset: Asset, read: Asset, b: Balance, taken: real, before: Balance)
    ensures Written(read, PlanOf(asset, b, taken), before)
            == if read == asset && Usable(b) > 0.0 && taken > 0.0 then Some(Quantize(b.value - taken) as real)
                else before
  {
    hide Quantize;
    var plan := PlanOf(asset, b, taken);
    if plan != [] {
      assert plan[1..] == [];
      assert Written(read, plan, before) == Written(read, [], if asset == read then Some(plan[0].1) else before);
    }
  }

  lemma ShiftByCents(x: real, c: real)
    requires c == c.Floor as real
    ensures NotHalfCent(x - c) <==> NotHalfCent(x)
  {
    assert (x - c).Floor == x.Floor - c.Floor;
  }

  /** One holding: what is taken is all it has, or a part of it. */
  lemma AgreeOn(b: Balance, amount: real)
    requires WholeCents(b) && amount > 0.0
    ensures var taken := MinReal(Usable(b), amount);
            && (taken < Usable(b) ==> (Planned(b, taken) == Executed(b, taken) <==> NotHalfCent(taken)))
            && (taken == Usable(b) ==> Planned(b, taken) == Executed(b, taken))
            && !Overdraws(b, taken)
  {
    var taken := MinReal(Usable(b), amount);
    if Usable(b) > 0.0 {
      RoundingAgrees(b.value, taken);
      OverdrawsOnlyHalfCents(b, taken);
    }
  }

  /**
   For balances of whole cents and a positive amount, plan and execution refuse in the same cases, the
   execution never raises, and writing the plan gives the executed balances exactly when the amount is
   not a half cent.
   */
  lemma PlanAgreesWithExecution(cash: Balance, mmf: Balance, amount: real)
    requires WholeCents(cash) && WholeCents(mmf) && amount > 0.0
    ensures Deduction(cash, mmf, amount).0 == if Enough(cash, mmf, amount) then Deducted else Refused
    ensures Enough(cash, mmf, amount) ==>
              var targets := PlanOf(Cash, cash, FromCash(cash, amount)) + PlanOf(Mmf, mmf, FromMmf(cash, mmf, amount));
              (Deduction(cash, mmf, amount) == (Deducted, Written(Cash, targets, cash), Written(Mmf, targets, mmf))
               <==> NotHalfCent(amount))
  {
    var c, m := FromCash(cash, amount), FromMmf(cash, mmf, amount);
    PlanWrites(cash, mmf, c, m);
    AgreeOn(cash, amount);
    if c < amount {
      AgreeOn(mmf, amount - c);
      ShiftByCents(amount, c);
    }
  }

  /**
   Any positive deduction that balances of whole cents cover: the total falls by exactly the amount rounded to
   cents, which is the amount exactly when that is whole cents; nothing usable goes negative; and MMF is touched
   only once positive CASH is drained to zero.
   */
  lemma DeductionConserves(cash: Balance, mmf: Balance, amount: real)
    requires WholeCents(cash) && WholeCents(mmf) && amount > 0.0 && Enough(cash, mmf, amount)
    ensures var (outcome, cash', mmf') := Deduction(cash, mmf, amount);
            var fall := Usable(cash) + Usable(mmf) - Usable(cash') - Usable(mmf');
            && outcome == Deducted
            && fall == Quantize(amount) as real && (fall == amount <==> WholeCents(Some(amount)))
            && (Usable(cash) == 0.0 ==> cash' == cash) && (Usable(mmf) == 0.0 ==> mmf' == mmf)
            && (Usable(cash) > 0.0 ==> cash'.value >= 0.0) && (Usable(mmf) > 0.0 ==> mmf'.value >= 0.0)
            && (mmf' != mmf ==> Usable(cash') == 0.0)
            && WholeCents(cash') && WholeCents(mmf')
  {
    hide Quantize, Planned, Overdraws, Executed, NotHalfCent, PlanOf, Written;
    PlanAgreesWithExecution(cash, mmf, amount);
    Takings(cash, mmf, amount);
    RoundsToItself(amount);
    hide WholeCents, FromCash, FromMmf, Usable;
    TakesRounded(cash, FromCash(cash, amount));
    TakesRounded(mmf, FromMmf(cash, mmf, amount));
  }

  lemma RoundsToItself(amount: real)
    ensures Quantize(amount) as real == amount <==> WholeCents(Some(amount))
  {
    hide Quantize;
    QuantizeWhole(amount.Floor);
    assert (Quantize(amount) as real).Floor == Quantize(amount);
  }

  lemma ShiftQuantize(x: real, n: int)
    requires 0.0 <= n as real <= x
    ensures Quantize(x - n as real) == Quantize(x) - n
  {
    assert (x - n as real + 0.5).Floor == (x + 0.5).Floor - n;
  }

  lemma Takings(cash: Balance, mmf: Balance, amount: real)
    requires WholeCents(cash) && WholeCents(mmf) && amount > 0.0 && Enough(cash, mmf, amount)
    ensures var c, m := FromCash(cash, amount), FromMmf(cash, mmf, amount);
            && 0.0 <= c <= Usable(cash) && 0.0 <= m <= Usable(mmf)
            && Quantize(c) + Quantize(m) == Quantize(amount)
            && (m > 0.0 ==> c == Usable(cash) && c == Quantize(c) as real)
  {
    var c := FromCash(cash, amount);
    QuantizeWhole(0);
    if c < amount {
      ShiftQuantize(amount, c.Floor);
      QuantizeWhole(c.Floor);
    }
  }

  lemma TakesRounded(b: Balance, taken: real)
    requires WholeCents(b) && 0.0 <= taken <= Usable(b)
    ensures Usable(Executed(b, taken)) == Usable(b) - Quantize(taken) as real && WholeCents(Executed(b, taken))
    ensures Usable(b) == 0.0 || taken == 0.0 ==> Executed(b, taken) == b
    ensures Usable(b) > 0.0 ==>
              Executed(b, taken).Some? && Executed(b, taken).value == b.value - Quantize(taken) as real
  {
    QuantizeWhole(0);
    if Usable(b) > 0.0 && taken > 0.0 {
      assert Quantize(taken) <= b.value.Floor;
      assert b.value - Quantize(taken) as real == (b.value.Floor - Quantize(taken)) as real;
      QuantizeWhole(b.value.Floor - Quantize(taken));
    }
  }

  /** Taking all of a balance leaves nothing, unless the balance ends in half a cent. */
  lemma TakesAll(b: Balance)
    requires Usable(b) > 0.0 && NotHalfCent(b.value)
    ensures Executed(b, b.value) == Some(0.0)
  {
    var f := b.value - b.value.Floor as real;
    assert Quantize(b.value) == if f < 0.5 then b.value.Floor else b.value.Floor + 1;
    var rest := b.value - Quantize(b.value) as real;
    assert -0.5 < rest < 0.5;
  }

  /**
   Exactly when an executed deduction raises, for any balances and any amount that they cover: it needs all
   of a CASH balance ending in half a cent, and then nothing is written; or, CASH having given what it has,
   all of an MMF balance ending in half a cent, and then it stops half way, with CASH drained and MMF as
   it was.
   */
  lemma HalfWrittenDeduction(cash: Balance, mmf: Balance, amount: real)
    ensures var cashRefuses := amount >= Usable(cash) && !NotHalfCent(Usable(cash));
            var mmfRefuses := amount == Usable(cash) + Usable(mmf) && !NotHalfCent(Usable(mmf));
            && (Deduction(cash, mmf, amount).0 == Raised <==> Enough(cash, mmf, amount) && (cashRefuses || mmfRefuses))
            && (Enough(cash, mmf, amount) && cashRefuses ==> Deduction(cash, mmf, amount) == (Raised, cash, mmf))
            && (!cashRefuses && mmfRefuses ==> Deduction(cash, mmf, amount)
                                               == (Raised, if Usable(cash) > 0.0 then Some(0.0) else cash, mmf))
  {
    hide Executed, Overdraws, NotHalfCent, Quantize;
    var c, m := FromCash(cash, amount), FromMmf(cash, mmf, amount);
    ZeroIsWhole();
    if amount > 0.0 && Enough(cash, mmf, amount) {
      if Usable(cash) > 0.0 { OverdrawsOnlyHalfCents(cash, c); }
      if m > 0.0 { OverdrawsOnlyHalfCents(mmf, m); }
      NothingTaken(mmf, m);
      NothingTaken(cash, Usable(cash));
      if Usable(cash) > 0.0 && NotHalfCent(cash.value) { TakesAll(cash); }
    }
  }

  lemma ZeroIsWhole()
    ensures NotHalfCent(0.0)
  {
  }

  lemma NothingTaken(b: Balance, taken: real)
    ensures taken <= 0.0 ==> !Overdraws(b, taken) && Executed(b, taken) == b
  {
  }

  /** Nothing to deduct is done at once; more than there is, and nothing else, is refused; neither writes. */
  lemma NothingIsWritten(cash: Balance, mmf: Balance, amount: real)
    ensures amount <= 0.0 ==> Deduction(cash, mmf, amount) == (Deducted, cash, mmf)
    ensures var there := (if cash.Some? && cash.value > 0.0 then cash.value else 0.0)
                         + (if mmf.Some? && mmf.value > 0.0 then mmf.value else 0.0);
            && (Deduction(cash, mmf, amount).0 == Refused <==> amount > 0.0 && amount > there)
            && (Deduction(cash, mmf, amount).0 == Refused ==> Deduction(cash, mmf, amount) == (Refused, cash, mmf))
  {
    hide Quantize;
  }

  /** In whole cents: CASH gives first and MMF gives what CASH does not have. */
  lemma CashGivesFirst(cash: nat, mmf: nat, amount: nat)
    requires 0 < amount <= cash + mmf
    ensures var fromCash := if amount <= cash then amount else cash;
            Deduction(Some(cash as real), Some(mmf as real), amount as real)
            == (Deducted, Some((cash - fromCash) as real), Some((mmf - (amount - fromCash)) as real))
  {
    hide Quantize;
    var fromCash := if amount <= cash then amount else cash;
    var fromMmf := amount - fromCash;
    QuantizeWhole(fromCash);
    QuantizeWhole(cash - fromCash);
    QuantizeWhole(fromMmf);
    QuantizeWhole(mmf - fromMmf);
    assert FromCash(Some(cash as real), amount as real) == fromCash as real;
    assert FromMmf(Some(cash as real), Some(mmf as real), amount as real) == fromMmf as real;
    assert cash as real - fromCash as real == (cash - fromCash) as real;
    assert mmf as real - fromMmf as real == (mmf - fromMmf) as real;
    assert Executed(Some(cash as real), fromCash as real) == Some((cash - fromCash) as real);
    assert Executed(Some(mmf as real), fromMmf as real) == Some((mmf - fromMmf) as real);
  }
}
