/** The operation details view (src/components/Operations/OperationDetails.tsx):
    the derived figures it shows, the breakdown of active deductions, the per-item
    executed values, the collection rate and the status badge. */
module OperationDetails {
  import opened Domain
  import Calculations
  import Reports

  // ---------------------------------------------------------------------------
  // Status badge

  /** The label lookup as written in the details view: its table has no entry for
      `completed_overpaid`, so that status has no label. */
  function StatusLabelAsWritten(s: Status): (r: Option<string>)
    ensures r.None? <==> s == CompletedOverpaid
  {
    match s
    case InProgress => Some("قيد التنفيذ")
    case Completed => Some("مكتملة")
    case CompletedPartialPayment => Some("مكتملة - دفع جزئي")
    case CompletedFullPayment => Some("مكتملة ومدفوعة بالكامل")
    case CompletedOverpaid => None
  }

  /** The colour lookup as written in the details view, with the same gap. */
  function StatusColorAsWritten(s: Status): (r: Option<string>)
    ensures r.None? <==> s == CompletedOverpaid
  {
    match s
    case InProgress => Some("bg-yellow-100 text-yellow-800")
    case Completed => Some("bg-gray-100 text-gray-800")
    case CompletedPartialPayment => Some("bg-orange-100 text-orange-800")
    case CompletedFullPayment => Some("bg-green-100 text-green-800")
    case CompletedOverpaid => None
  }

  /** A stored operation can carry the overpaid status (the status computation
      produces it), and the details view then finds neither a label nor a colour
      for its badge. */
  lemma OverpaidBadgeMissing(op: Operation)
    requires op.overallExecutionPercentage == 100.0 && op.totalAmount == 1000.0
    requires op.totalReceived == 1100.0 && op.deductions == []
    ensures Calculations.OperationStatus(op) == CompletedOverpaid
    ensures StatusLabelAsWritten(Calculations.OperationStatus(op)) == None
    ensures StatusColorAsWritten(Calculations.OperationStatus(op)) == None
  {
    assert Calculations.TotalDeductions(op) == 0.0;
  }

  /** The complete five-status label table (the one the operations list uses). It
      agrees with the details view wherever that view has an entry. */
  function StatusLabel(s: Status): (r: string)
    ensures StatusLabelAsWritten(s).Some? ==> r == StatusLabelAsWritten(s).value
    ensures |r| > 0
  {
    match s
    case InProgress => "قيد التنفيذ"
    case Completed => "مكتملة"
    case CompletedPartialPayment => "مكتملة - دفع جزئي"
    case CompletedFullPayment => "مكتملة ومدفوعة بالكامل"
    case CompletedOverpaid => "مكتملة - سداد بالزيادة"
  }

  /** The complete five-status colour table. */
  function StatusColor(s: Status): (r: string)
    ensures StatusColorAsWritten(s).Some? ==> r == StatusColorAsWritten(s).value
    ensures |r| > 0
  {
    match s
    case InProgress => "bg-yellow-100 text-yellow-800"
    case Completed => "bg-gray-100 text-gray-800"
    case CompletedPartialPayment => "bg-orange-100 text-orange-800"
    case CompletedFullPayment => "bg-green-100 text-green-800"
    case CompletedOverpaid => "bg-purple-100 text-purple-800"
  }

  /** Every status has its own label and its own colour: a badge identifies the status. */
  lemma BadgesDistinct(s: Status, t: Status)
    ensures StatusLabel(s) == StatusLabel(t) ==> s == t
    ensures StatusColor(s) == StatusColor(t) ==> s == t
  {
  }

  // ---------------------------------------------------------------------------
  // Derived figures

  /** The remaining amount of the details view: net amount less received. It closes
      the balance of the executed value. */
  function RemainingAmount(op: Operation): (r: real)
    ensures r + op.totalReceived + Calculations.TotalDeductions(op) == Calculations.ExecutedTotal(op.items)
  {
    Calculations.NetAmount(op) - op.totalReceived
  }

  /** The operations list shows a different remaining amount (contract total less
      paid); the two differ by the part of the contract not yet executed, and agree
      once every item is fully executed. */
  lemma RemainingVersusListRow(op: Operation)
    ensures Reports.RowRemaining(op) - RemainingAmount(op)
      == op.totalAmount - Calculations.ExecutedTotal(op.items)
    ensures Calculations.ItemsInRange(op.items) && Calculations.FullyExecuted(op.items)
      && op.totalAmount == Calculations.OperationTotal(op.items)
      ==> Reports.RowRemaining(op) == RemainingAmount(op)
  {
    if Calculations.ItemsInRange(op.items) {
      Calculations.FullyExecutedIff(op.items);
    }
  }

  /** The executed-value column: `amount * (executionPercentage / 100)` for each item. */
  function ItemRows(items: seq<Item>): (r: seq<real>)
    ensures |r| == |items|
    ensures forall i :: 0 <= i < |items| ==> r[i] == Calculations.ItemTotal(items[i])
  {
    if |items| == 0 then []
    else ItemRows(items[..|items| - 1]) + [items[|items| - 1].amount * (items[|items| - 1].executionPercentage / 100.0)]
  }

  function Sum(s: seq<real>): real {
    if |s| == 0 then 0.0 else Sum(s[..|s| - 1]) + s[|s| - 1]
  }

  /** The item rows add up to the executed amount shown in the summary. */
  lemma {:induction false} ItemRowsAddUp(items: seq<Item>)
    ensures Sum(ItemRows(items)) == Calculations.ExecutedTotal(items)
  {
    if |items| > 0 {
      ItemRowsAddUp(items[..|items| - 1]);
      assert ItemRows(items)[..|items| - 1] == ItemRows(items[..|items| - 1]);
    }
  }

  /** What a deduction card shows: a share of the executed total for a percentage,
      the value for a fixed amount. */
  function ShownDeduction(executedTotal: real, d: Deduction): real {
    if d.kind == Percentage then executedTotal * d.value / 100.0 else d.value
  }

  /** The deduction cards: one per active deduction, in order. */
  function ActiveBreakdown(executedTotal: real, ds: seq<Deduction>): (r: seq<real>)
    ensures |r| == CountWhere(ds, (d: Deduction) => d.isActive)
  {
    if |ds| == 0 then []
    else
      ActiveBreakdown(executedTotal, ds[..|ds| - 1])
      + (if ds[|ds| - 1].isActive then [ShownDeduction(executedTotal, ds[|ds| - 1])] else [])
  }

  /** The cards add up to the total deductions shown beneath them. */
  lemma {:induction false} BreakdownAddsUp(executedTotal: real, ds: seq<Deduction>)
    ensures Sum(ActiveBreakdown(executedTotal, ds)) == Calculations.Deductions(executedTotal, ds)
  {
    if |ds| > 0 {
      var init := ds[..|ds| - 1];
      BreakdownAddsUp(executedTotal, init);
      var r := ActiveBreakdown(executedTotal, ds);
      if ds[|ds| - 1].isActive {
        assert r[..|r| - 1] == ActiveBreakdown(executedTotal, init);
      } else {
        assert r == ActiveBreakdown(executedTotal, init);
      }
    }
  }

  /** For an operation, the cards add up to its total deductions. */
  lemma BreakdownMatchesTotal(op: Operation)
    ensures Sum(ActiveBreakdown(Calculations.ExecutedTotal(op.items), op.deductions))
      == Calculations.TotalDeductions(op)
  {
    BreakdownAddsUp(Calculations.ExecutedTotal(op.items), op.deductions);
  }

  /** The collection rate: received over net amount, in percent, and 0 when the
      net amount is not positive. */
  function CollectionRate(op: Operation): (r: real)
    ensures Calculations.NetAmount(op) <= 0.0 ==> r == 0.0
    ensures Calculations.NetAmount(op) > 0.0 ==> r * Calculations.NetAmount(op) == op.totalReceived * 100.0
  {
    Reports.Rate(op.totalReceived, Calculations.NetAmount(op))
  }

  /** The rate is 100% exactly when nothing remains of a positive net amount. */
  lemma CollectionCompleteIff(op: Operation)
    requires Calculations.NetAmount(op) > 0.0
    ensures CollectionRate(op) == 100.0 <==> RemainingAmount(op) == 0.0
  {
    var n := Calculations.NetAmount(op);
    var r := CollectionRate(op);
    assert r * n == op.totalReceived * 100.0;
    if r == 100.0 {
      assert op.totalReceived * 100.0 == n * 100.0;
    }
    if RemainingAmount(op) == 0.0 {
      assert n + Calculations.TotalDeductions(op) == Calculations.ExecutedTotal(op.items);
      assert RemainingAmount(op) + op.totalReceived + Calculations.TotalDeductions(op)
        == Calculations.ExecutedTotal(op.items);
      assert op.totalReceived == n;
      calc {
        r * n;
        == op.totalReceived * 100.0;
        == n * 100.0;
        == 100.0 * n;
      }
      Calculations.MulCancel(r, 100.0, n);
    }
  }
}
