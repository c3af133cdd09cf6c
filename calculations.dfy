/** The financial derivation engine (src/utils/calculations.ts): contract and
    executed totals, deductions, net amount, overall execution percentage, the
    five-way payment status and item codes. Every function here is pure. */
module Calculations {
  import opened Domain
  import Text

  /** The tolerance band of the status ladder: 0.01 currency unit, exactly. */
  const Tolerance: real := 1.0 / 100.0

  function Abs(x: real): real { if x < 0.0 then -x else x }

  /** An item's amount is non-negative and its execution percentage lies in
      [0, 100]: what the forms' `min`/`max` attributes ask of the user. */
  predicate ItemInRange(item: Item) {
    item.amount >= 0.0 && 0.0 <= item.executionPercentage <= 100.0
  }

  predicate ItemsInRange(items: seq<Item>) {
    forall i :: 0 <= i < |items| ==> ItemInRange(items[i])
  }

  /** calculateItemTotal: the executed value `amount * (executionPercentage / 100)`. */
  function ItemTotal(item: Item): (r: real)
    ensures ItemInRange(item) ==> 0.0 <= r <= item.amount
    ensures item.executionPercentage == 100.0 ==> r == item.amount
    ensures item.executionPercentage == 0.0 || item.amount == 0.0 ==> r == 0.0
  {
    item.amount * (item.executionPercentage / 100.0)
  }

  /** calculateOperationTotal: the sum of the items' face amounts (a left fold). */
  function OperationTotal(items: seq<Item>): real {
    if |items| == 0 then 0.0
    else OperationTotal(items[..|items| - 1]) + items[|items| - 1].amount
  }

  /** calculateExecutedTotal: the sum of the items' executed values. */
  function ExecutedTotal(items: seq<Item>): real {
    if |items| == 0 then 0.0
    else ExecutedTotal(items[..|items| - 1]) + ItemTotal(items[|items| - 1])
  }

  /** What one deduction takes, given the executed total: nothing when inactive,
      a share of the executed total when a percentage, its value otherwise. */
  function DeductionAmount(executedTotal: real, d: Deduction): (r: real)
    ensures !d.isActive ==> r == 0.0
  {
    if !d.isActive then 0.0
    else if d.kind == Percentage then executedTotal * d.value / 100.0
    else d.value
  }

  /** calculateDeductions */
  function Deductions(executedTotal: real, ds: seq<Deduction>): real {
    if |ds| == 0 then 0.0
    else Deductions(executedTotal, ds[..|ds| - 1]) + DeductionAmount(executedTotal, ds[|ds| - 1])
  }

  /** calculateTotalDeductions: deductions taken on the executed total of the items. */
  function TotalDeductions(op: Operation): (r: real)
    ensures (forall j :: 0 <= j < |op.deductions| ==> !op.deductions[j].isActive) ==> r == 0.0
  {
    var executedTotal := ExecutedTotal(op.items);
    assert (forall j :: 0 <= j < |op.deductions| ==> !op.deductions[j].isActive)
        ==> Deductions(executedTotal, op.deductions) == 0.0 by {
      if forall j :: 0 <= j < |op.deductions| ==> !op.deductions[j].isActive {
        NoActiveDeductionsSum(executedTotal, op.deductions);
      }
    }
    Deductions(executedTotal, op.deductions)
  }

  /** calculateNetAmount: executed total less deductions, not clamped at zero. */
  function NetAmount(op: Operation): (r: real)
    ensures r + TotalDeductions(op) == ExecutedTotal(op.items)
  {
    var executedTotal := ExecutedTotal(op.items);
    executedTotal - Deductions(executedTotal, op.deductions)
  }

  /** calculateNetDue: net amount less what was received. */
  function NetDue(op: Operation): (r: real)
    ensures r == ExecutedTotal(op.items) - TotalDeductions(op) - op.totalReceived
  {
    NetAmount(op) - op.totalReceived
  }

  /** calculateOverallExecutionPercentage: executed over contract total, in percent,
      and 0 for no items or a contract total that is not positive. */
  function OverallExecutionPercentage(items: seq<Item>): (r: real)
    ensures items == [] || OperationTotal(items) <= 0.0 ==> r == 0.0
    ensures OperationTotal(items) > 0.0 ==> r * OperationTotal(items) == ExecutedTotal(items) * 100.0
  {
    if |items| == 0 then 0.0
    else
      var totalAmount := OperationTotal(items);
      var executedAmount := ExecutedTotal(items);
      if totalAmount > 0.0 then (executedAmount / totalAmount) * 100.0 else 0.0
  }

  /** calculateOperationStatus. It reads the CACHED `overallExecutionPercentage`,
      `totalAmount` and `totalReceived` fields, and recomputes the deductions from
      the items. The `ensures` clauses characterise each status on its own, without
      the order of the checks. */
  function OperationStatus(op: Operation): (r: Status)
    ensures r == InProgress <==> op.overallExecutionPercentage < 100.0
    ensures r == CompletedOverpaid <==>
      op.overallExecutionPercentage >= 100.0
      && op.totalReceived + TotalDeductions(op) > op.totalAmount + Tolerance
    ensures r == CompletedFullPayment <==>
      op.overallExecutionPercentage >= 100.0
      && op.totalAmount - Tolerance <= op.totalReceived + TotalDeductions(op) <= op.totalAmount + Tolerance
    ensures r == CompletedPartialPayment <==>
      op.overallExecutionPercentage >= 100.0
      && 0.0 < op.totalReceived + TotalDeductions(op) < op.totalAmount - Tolerance
    ensures r == Completed <==>
      op.overallExecutionPercentage >= 100.0
      && op.totalReceived + TotalDeductions(op) <= 0.0
      && op.totalReceived + TotalDeductions(op) < op.totalAmount - Tolerance
  {
    var executionPercentage := op.overallExecutionPercentage;
    var totalAmount := op.totalAmount;
    var totalReceived := op.totalReceived;
    var totalDeductions := TotalDeductions(op);
    if executionPercentage < 100.0 then InProgress
    else
      var totalPaid := totalReceived + totalDeductions;
      if totalPaid > totalAmount + Tolerance then CompletedOverpaid
      else if Abs(totalPaid - totalAmount) <= Tolerance then CompletedFullPayment
      else if totalPaid > 0.0 then CompletedPartialPayment
      else Completed
  }

  /** generateItemCode: `operationCode-NNN`, the 1-based position left-padded with
      zeros to at least three digits. */
  function ItemCode(operationCode: string, itemIndex: nat): (r: string)
    ensures |r| >= |operationCode| + 4
    ensures r[..|operationCode| + 1] == operationCode + "-"
  {
    operationCode + "-" + Text.PadStart(Text.NatToString(itemIndex + 1), 3, '0')
  }

  // ---------------------------------------------------------------------------
  // Totals

  lemma {:induction false} OperationTotalAppend(a: seq<Item>, b: seq<Item>)
    ensures OperationTotal(a + b) == OperationTotal(a) + OperationTotal(b)
  {
    if |b| == 0 {
      assert a + b == a;
    } else {
      assert (a + b)[..|a + b| - 1] == a + b[..|b| - 1];
      OperationTotalAppend(a, b[..|b| - 1]);
    }
  }

  lemma {:induction false} ExecutedTotalAppend(a: seq<Item>, b: seq<Item>)
    ensures ExecutedTotal(a + b) == ExecutedTotal(a) + ExecutedTotal(b)
  {
    if |b| == 0 {
      assert a + b == a;
    } else {
      assert (a + b)[..|a + b| - 1] == a + b[..|b| - 1];
      ExecutedTotalAppend(a, b[..|b| - 1]);
    }
  }

  /** With amounts non-negative and percentages in [0, 100], the executed total
      lies between 0 and the contract total. */
  lemma {:induction false} ExecutedWithinContract(items: seq<Item>)
    requires ItemsInRange(items)
    ensures 0.0 <= ExecutedTotal(items) <= OperationTotal(items)
  {
    if |items| > 0 {
      ExecutedWithinContract(items[..|items| - 1]);
      assert ItemInRange(items[|items| - 1]);
    }
  }

  /** Every item with a positive amount is executed to 100%. */
  predicate FullyExecuted(items: seq<Item>) {
    forall i :: 0 <= i < |items| && items[i].amount > 0.0 ==> items[i].executionPercentage == 100.0
  }

  /** Under the same range assumptions the executed total equals the contract total
      exactly when every item with a positive amount is executed to 100%. */
  lemma {:induction false} FullyExecutedIff(items: seq<Item>)
    requires ItemsInRange(items)
    ensures ExecutedTotal(items) == OperationTotal(items) <==> FullyExecuted(items)
  {
    if |items| > 0 {
      var init := items[..|items| - 1];
      var last := items[|items| - 1];
      assert ItemsInRange(init);
      assert ItemInRange(last);
      FullyExecutedIff(init);
      ExecutedWithinContract(init);
      ItemTotalFull(last);
      assert FullyExecuted(items) <==>
        FullyExecuted(init) && (last.amount > 0.0 ==> last.executionPercentage == 100.0)
      by {
        forall i | 0 <= i < |init| ensures init[i] == items[i] { }
      }
    }
  }

  /** One item is fully executed (its executed value is its amount) exactly when its
      amount is zero or its percentage is 100. */
  lemma ItemTotalFull(item: Item)
    requires ItemInRange(item)
    ensures ItemTotal(item) == item.amount <==> item.amount == 0.0 || item.executionPercentage == 100.0
  {
    var a, p := item.amount, item.executionPercentage;
    assert a - ItemTotal(item) == a * ((100.0 - p) / 100.0);
    if a > 0.0 && p != 100.0 {
      assert (100.0 - p) / 100.0 > 0.0;
      assert a * ((100.0 - p) / 100.0) > 0.0;
    }
  }

  /** The overall execution percentage lies in [0, 100] under the range assumptions. */
  lemma PercentageInRange(items: seq<Item>)
    requires ItemsInRange(items)
    ensures 0.0 <= OverallExecutionPercentage(items) <= 100.0
  {
    ExecutedWithinContract(items);
    var t, e := OperationTotal(items), ExecutedTotal(items);
    if |items| > 0 && t > 0.0 {
      var inv := 1.0 / t;
      assert inv > 0.0;
      assert e / t == e * inv;
      assert e * inv <= t * inv;
      assert t * inv == 1.0;
    }
  }

  /** The overall execution percentage is 100 exactly when every item with a
      positive amount is fully executed and the contract total is positive. */
  lemma PercentageCompleteIff(items: seq<Item>)
    requires ItemsInRange(items)
    ensures OverallExecutionPercentage(items) == 100.0 <==> OperationTotal(items) > 0.0 && FullyExecuted(items)
  {
    FullyExecutedIff(items);
    var t, e := OperationTotal(items), ExecutedTotal(items);
    var r := OverallExecutionPercentage(items);
    if t > 0.0 {
      assert r * t == e * 100.0;
      if r == 100.0 {
        assert e * 100.0 == t * 100.0;
        assert e == t;
      }
      if e == t {
        assert r * t == 100.0 * t;
        MulCancel(r, 100.0, t);
      }
    }
  }

  /** A non-zero factor cancels from both sides of an equation. */
  lemma MulCancel(x: real, y: real, t: real)
    requires t != 0.0 && x * t == y * t
    ensures x == y
  {
    calc {
      x;
      == (x * t) / t;
      == (y * t) / t;
      == y;
    }
  }

  // ---------------------------------------------------------------------------
  // Deductions

  lemma {:induction false} DeductionsAppend(e: real, a: seq<Deduction>, b: seq<Deduction>)
    ensures Deductions(e, a + b) == Deductions(e, a) + Deductions(e, b)
  {
    if |b| == 0 {
      assert a + b == a;
    } else {
      assert (a + b)[..|a + b| - 1] == a + b[..|b| - 1];
      DeductionsAppend(e, a, b[..|b| - 1]);
    }
  }

  /** Taking one deduction out of the list takes exactly its own amount out of the total. */
  lemma DeductionsRemoveAt(e: real, b: seq<Deduction>, i: nat)
    requires i < |b|
    ensures Deductions(e, b) == Deductions(e, b[..i] + b[i + 1..]) + DeductionAmount(e, b[i])
  {
    var x := b[i];
    assert b == (b[..i] + [x]) + b[i + 1..];
    DeductionsAppend(e, b[..i] + [x], b[i + 1..]);
    DeductionsAppend(e, b[..i], [x]);
    DeductionsAppend(e, b[..i], b[i + 1..]);
    assert [x][..0] == [];
  }

  lemma MultisetRemoveAt<T>(a: seq<T>, b: seq<T>, i: nat)
    requires |a| > 0 && i < |b| && multiset(a) == multiset(b) && b[i] == a[|a| - 1]
    ensures multiset(a[..|a| - 1]) == multiset(b[..i] + b[i + 1..])
  {
    var x := b[i];
    assert a == a[..|a| - 1] + [x];
    assert b == b[..i] + [x] + b[i + 1..];
    var a', b' := a[..|a| - 1], b[..i] + b[i + 1..];
    assert multiset(a) == multiset(a') + multiset{x};
    assert multiset(b) == multiset(b[..i]) + multiset{x} + multiset(b[i + 1..]);
    assert multiset(b') == multiset(b[..i]) + multiset(b[i + 1..]);
    assert multiset(a') + multiset{x} == multiset(b') + multiset{x};
    assert multiset(a') == multiset(a') + multiset{x} - multiset{x};
  }

  /** The deductions total does not depend on the order of the list. */
  lemma {:induction false} DeductionsOrderIndependent(e: real, a: seq<Deduction>, b: seq<Deduction>)
    requires multiset(a) == multiset(b)
    ensures Deductions(e, a) == Deductions(e, b)
    decreases |a|
  {
    if |a| == 0 {
      assert |b| == |multiset(b)| == 0;
    } else {
      var x := a[|a| - 1];
      assert x in multiset(b);
      var i :| 0 <= i < |b| && b[i] == x;
      MultisetRemoveAt(a, b, i);
      DeductionsOrderIndependent(e, a[..|a| - 1], b[..i] + b[i + 1..]);
      DeductionsRemoveAt(e, b, i);
    }
  }

  /** Sum of the values of the active percentage deductions (percentage points). */
  function ActivePercentagePoints(ds: seq<Deduction>): real {
    if |ds| == 0 then 0.0
    else
      var d := ds[|ds| - 1];
      ActivePercentagePoints(ds[..|ds| - 1]) + (if d.isActive && d.kind == Percentage then d.value else 0.0)
  }

  /** Sum of the values of the active fixed deductions. */
  function ActiveFixedSum(ds: seq<Deduction>): real {
    if |ds| == 0 then 0.0
    else
      var d := ds[|ds| - 1];
      ActiveFixedSum(ds[..|ds| - 1]) + (if d.isActive && d.kind != Percentage then d.value else 0.0)
  }

  /** Deductions are linear in the executed total: the active percentages are taken
      on the executed total and the active fixed amounts are added; inactive
      deductions play no part. */
  lemma {:induction false} DeductionsDecompose(e: real, ds: seq<Deduction>)
    ensures Deductions(e, ds) == e * ActivePercentagePoints(ds) / 100.0 + ActiveFixedSum(ds)
  {
    if |ds| > 0 {
      var init := ds[..|ds| - 1];
      DeductionsDecompose(e, init);
      var d := ds[|ds| - 1];
      var points := ActivePercentagePoints(init);
      if d.isActive && d.kind == Percentage {
        assert ActivePercentagePoints(ds) == points + d.value;
        assert e * (points + d.value) == e * points + e * d.value;
        assert e * ActivePercentagePoints(ds) / 100.0 == e * points / 100.0 + e * d.value / 100.0;
      } else {
        assert ActivePercentagePoints(ds) == points;
      }
    }
  }

  /** With no active deduction nothing is deducted, so the net amount equals the
      executed total. */
  lemma NoActiveDeductions(op: Operation)
    requires forall i :: 0 <= i < |op.deductions| ==> !op.deductions[i].isActive
    ensures TotalDeductions(op) == 0.0
    ensures NetAmount(op) == ExecutedTotal(op.items)
  {
    NoActiveDeductionsSum(ExecutedTotal(op.items), op.deductions);
  }

  lemma {:induction false} NoActiveDeductionsSum(e: real, ds: seq<Deduction>)
    requires forall i :: 0 <= i < |ds| ==> !ds[i].isActive
    ensures Deductions(e, ds) == 0.0
  {
    if |ds| > 0 {
      NoActiveDeductionsSum(e, ds[..|ds| - 1]);
    }
  }

  /** A single active percentage deduction of p takes p% of the executed total,
      whatever the contract total is. */
  lemma SinglePercentageDeduction(op: Operation, p: real)
    requires |op.deductions| == 1
    requires op.deductions[0].isActive && op.deductions[0].kind == Percentage && op.deductions[0].value == p
    ensures TotalDeductions(op) == ExecutedTotal(op.items) * p / 100.0
  {
    DeductionsDecompose(ExecutedTotal(op.items), op.deductions);
    assert op.deductions[..0] == [];
  }

  /** The net amount is not clamped: fixed deductions above the executed value make
      it negative. */
  lemma NetAmountCanBeNegative(op: Operation)
    requires op.items == []
    requires op.deductions == [Deduction("d", "penalty", Fixed, 50.0, true)]
    ensures NetAmount(op) == -50.0
    ensures NetDue(op) == -50.0 - op.totalReceived
  {
    assert ExecutedTotal(op.items) == 0.0;
    assert op.deductions[..0] == [];
    assert Deductions(0.0, op.deductions) == Deductions(0.0, []) + 50.0;
  }

  // ---------------------------------------------------------------------------
  // Status

  /** An operation whose cached percentage was computed from an empty item list is
      in progress (the percentage is 0, not a division by zero). */
  lemma EmptyOperationInProgress(op: Operation)
    requires op.items == []
    requires op.overallExecutionPercentage == OverallExecutionPercentage(op.items)
    ensures OperationStatus(op) == InProgress
  {
  }

  /** The boundary cases of the ladder for a fully executed 1000-unit operation
      without deductions. */
  lemma StatusBoundaries(op: Operation)
    requires op.overallExecutionPercentage == 100.0 && op.totalAmount == 1000.0
    requires op.deductions == []
    ensures op.totalReceived == 999.995 ==> OperationStatus(op) == CompletedFullPayment
    ensures op.totalReceived == 1000.01 ==> OperationStatus(op) == CompletedFullPayment
    ensures op.totalReceived == 1000.02 ==> OperationStatus(op) == CompletedOverpaid
    ensures op.totalReceived == 500.0 ==> OperationStatus(op) == CompletedPartialPayment
    ensures op.totalReceived == 0.0 ==> OperationStatus(op) == Completed
  {
  }

  /** The end-to-end scenario: items 600 at 100% and 400 at 50%, one active 10%
      deduction, 300 received. */
  lemma WorkedExample(op: Operation)
    requires op.items == [
      Item("i1", "OP-001", "a", 600.0, None, None, 100.0, 0),
      Item("i2", "OP-002", "b", 400.0, None, None, 50.0, 0)]
    requires op.deductions == [Deduction("d1", "retention", Percentage, 10.0, true)]
    requires op.totalReceived == 300.0
    requires op.totalAmount == OperationTotal(op.items)
    requires op.overallExecutionPercentage == OverallExecutionPercentage(op.items)
    ensures OperationTotal(op.items) == 1000.0
    ensures ExecutedTotal(op.items) == 800.0
    ensures TotalDeductions(op) == 80.0
    ensures NetAmount(op) == 720.0
    ensures op.overallExecutionPercentage == 80.0
    ensures OperationStatus(op) == InProgress
  {
    WorkedExampleTotals(op.items, 50.0);
    assert op.deductions[..0] == [];
    assert ExecutedTotal(op.items) == 800.0;
    assert Deductions(800.0, op.deductions) == Deductions(800.0, []) + 800.0 * 10.0 / 100.0;
    assert op.overallExecutionPercentage == (800.0 / 1000.0) * 100.0;
  }

  /** The same scenario once the second item reaches 100%: partially paid. */
  lemma WorkedExampleCompleted(op: Operation)
    requires op.items == [
      Item("i1", "OP-001", "a", 600.0, None, None, 100.0, 0),
      Item("i2", "OP-002", "b", 400.0, None, None, 100.0, 0)]
    requires op.deductions == [Deduction("d1", "retention", Percentage, 10.0, true)]
    requires op.totalReceived == 300.0
    requires op.totalAmount == OperationTotal(op.items)
    requires op.overallExecutionPercentage == OverallExecutionPercentage(op.items)
    ensures ExecutedTotal(op.items) == 1000.0
    ensures TotalDeductions(op) == 100.0
    ensures op.overallExecutionPercentage == 100.0
    ensures OperationStatus(op) == CompletedPartialPayment
  {
    WorkedExampleTotals(op.items, 100.0);
    assert op.deductions[..0] == [];
    assert ExecutedTotal(op.items) == 1000.0;
    assert Deductions(1000.0, op.deductions) == Deductions(1000.0, []) + 1000.0 * 10.0 / 100.0;
    assert op.overallExecutionPercentage == (1000.0 / 1000.0) * 100.0;
  }

  /** Totals of the two-item list of the scenario, the second item at `p` percent. */
  lemma WorkedExampleTotals(items: seq<Item>, p: real)
    requires items == [
      Item("i1", "OP-001", "a", 600.0, None, None, 100.0, 0),
      Item("i2", "OP-002", "b", 400.0, None, None, p, 0)]
    ensures OperationTotal(items) == 1000.0
    ensures ExecutedTotal(items) == 600.0 + 400.0 * (p / 100.0)
  {
    var first := items[..1];
    assert first == [items[0]];
    assert first[..0] == [];
    assert OperationTotal(first) == 600.0;
    assert ExecutedTotal(first) == 600.0;
  }

  // ---------------------------------------------------------------------------
  // Item codes

  /** The 1-based position can be read back from an item code. */
  lemma ItemCodeDecodes(operationCode: string, itemIndex: nat)
    ensures var suffix := ItemCode(operationCode, itemIndex)[|operationCode| + 1..];
      && (forall i :: 0 <= i < |Text.StripLeading(suffix, '0')| ==> '0' <= Text.StripLeading(suffix, '0')[i] <= '9')
      && Text.ParseNat(Text.StripLeading(suffix, '0')) == itemIndex + 1
  {
    var digits := Text.NatToString(itemIndex + 1);
    var suffix := ItemCode(operationCode, itemIndex)[|operationCode| + 1..];
    assert suffix == Text.PadStart(digits, 3, '0');
    Text.PadStartInvertible(digits, 3, '0');
    Text.ParseNatToString(itemIndex + 1);
  }

  /** Distinct positions get distinct codes under one operation code. */
  lemma ItemCodeInjective(operationCode: string, i: nat, j: nat)
    requires ItemCode(operationCode, i) == ItemCode(operationCode, j)
    ensures i == j
  {
    ItemCodeDecodes(operationCode, i);
    ItemCodeDecodes(operationCode, j);
  }
}
