/** The checks and payments screen (src/components/Checks/ChecksManager.tsx): the
    received payments of all operations as tagged rows, the received/pending
    classification, the badge, the basic and the advanced filters and the
    summary figures. */
module Checks {
  import opened Domain
  import Text
  import App
  import OperationForm
  import OperationsList

  /** A payment with the operation and client it belongs to. */
  datatype PaymentRow = PaymentRow(
    payment: Payment,
    operationId: string,
    operationName: string,
    operationCode: string,
    clientId: string,
    clientName: string)

  function RowsOf(op: Operation, clients: seq<Client>): (r: seq<PaymentRow>)
    ensures |r| == |op.receivedPayments|
    ensures forall j :: 0 <= j < |r| ==>
      (r[j].payment == op.receivedPayments[j] && r[j].operationId == op.id && r[j].operationName == op.name
       && r[j].operationCode == op.code && r[j].clientId == op.clientId
       && r[j].clientName == OperationsList.ClientName(clients, op.clientId))
  {
    var ps := op.receivedPayments;
    seq(|ps|, j requires 0 <= j < |ps| =>
      PaymentRow(ps[j], op.id, op.name, op.code, op.clientId, OperationsList.ClientName(clients, op.clientId)))
  }

  function PaymentCount(op: Operation): nat { |op.receivedPayments| }

  /** allReceivedPayments: one row per payment, operation by operation. */
  function AllPayments(ops: seq<Operation>, clients: seq<Client>): (r: seq<PaymentRow>)
    ensures |r| == App.CountOver(ops, PaymentCount)
  {
    if |ops| == 0 then [] else AllPayments(ops[..|ops| - 1], clients) + RowsOf(ops[|ops| - 1], clients)
  }

  /** The flattening keeps the order of the operations. */
  lemma {:induction false} AllPaymentsAppend(a: seq<Operation>, b: seq<Operation>, clients: seq<Client>)
    ensures AllPayments(a + b, clients) == AllPayments(a, clients) + AllPayments(b, clients)
  {
    if |b| == 0 {
      assert a + b == a;
    } else {
      var front, last := b[..|b| - 1], b[|b| - 1];
      assert (a + b)[..|a + b| - 1] == a + front;
      assert (a + b)[|a + b| - 1] == last;
      AllPaymentsAppend(a, front, clients);
      calc {
        AllPayments(a + b, clients);
        == AllPayments(a + front, clients) + RowsOf(last, clients);
        == AllPayments(a, clients) + AllPayments(front, clients) + RowsOf(last, clients);
        == AllPayments(a, clients) + AllPayments(b, clients);
      }
    }
  }

  // ---------------------------------------------------------------------------
  // Status and badge

  datatype StatusFilter = AnyStatus | ReceivedStatus | PendingStatus

  /** The status filter as written: "received" needs a receipt date whatever the
      type, "pending" is a check without one. */
  predicate StatusMatches(p: Payment, f: StatusFilter) {
    match f
    case AnyStatus => true
    case ReceivedStatus => p.receiptDate.Some?
    case PendingStatus => p.receiptDate.None? && p.kind == Check
  }

  /** Received and pending never overlap, and a cash payment without a receipt date
      matches neither. */
  lemma ReceivedPendingDisjoint(p: Payment)
    ensures !(StatusMatches(p, ReceivedStatus) && StatusMatches(p, PendingStatus))
    ensures p.kind == Cash && p.receiptDate.None? ==>
      !StatusMatches(p, ReceivedStatus) && !StatusMatches(p, PendingStatus)
  {
  }

  datatype Badge = ReceivedBadge | PendingBadge

  /** The status column: cash always shows as received, a check as received
      exactly when it has a receipt date. */
  function BadgeOf(p: Payment): (b: Badge)
    ensures b == PendingBadge <==> p.kind == Check && p.receiptDate.None?
  {
    if p.kind == Check then (if p.receiptDate.Some? then ReceivedBadge else PendingBadge)
    else ReceivedBadge
  }

  /** A new payment row of the operation form is cash without a receipt date: its
      badge says received, yet the "received" filter does not list it (nor does the
      "pending" one). */
  lemma NewCashPaymentHiddenFromReceived(ps: seq<Payment>, id: string, now: int)
    ensures var p := OperationForm.AppendBlankPayment(ps, id, now)[|ps|];
      BadgeOf(p) == ReceivedBadge && !StatusMatches(p, ReceivedStatus) && !StatusMatches(p, PendingStatus)
  {
  }

  /** The status filter read as the badge reads: "received" is every payment the
      badge shows as received. */
  predicate StatusMatchesIntended(p: Payment, f: StatusFilter) {
    match f
    case AnyStatus => true
    case ReceivedStatus => p.kind == Cash || p.receiptDate.Some?
    case PendingStatus => p.receiptDate.None? && p.kind == Check
  }

  /** The intended filter agrees with the badge, and received and pending split
      every payment. */
  lemma IntendedFilterFollowsBadge(p: Payment)
    ensures StatusMatchesIntended(p, ReceivedStatus) <==> BadgeOf(p) == ReceivedBadge
    ensures StatusMatchesIntended(p, PendingStatus) <==> BadgeOf(p) == PendingBadge
    ensures StatusMatchesIntended(p, ReceivedStatus) <==> !StatusMatchesIntended(p, PendingStatus)
    ensures StatusMatches(p, ReceivedStatus) ==> StatusMatchesIntended(p, ReceivedStatus)
  {
  }

  // ---------------------------------------------------------------------------
  // Filters

  /** The search: check number, bank, client name, operation name or code,
      ignoring case (a missing number or bank reads as empty). */
  predicate SearchMatches(row: PaymentRow, term: string) {
    || Text.ContainsIgnoreCase(row.payment.checkNumber.GetOr(""), term)
    || Text.ContainsIgnoreCase(row.payment.bank.GetOr(""), term)
    || Text.ContainsIgnoreCase(row.clientName, term)
    || Text.ContainsIgnoreCase(row.operationName, term)
    || Text.ContainsIgnoreCase(row.operationCode, term)
  }

  predicate BasicMatch(row: PaymentRow, term: string, kind: Choice<PaymentType>, status: StatusFilter) {
    SearchMatches(row, term) && kind.Accepts(row.payment.kind) && StatusMatches(row.payment, status)
  }

  datatype AdvancedFilters = AdvancedFilters(
    clientId: Choice<string>,
    operationId: Choice<string>,
    status: StatusFilter,
    kind: Choice<PaymentType>,
    startDate: Option<int>,
    endDate: Option<int>,
    minAmount: Option<real>,
    maxAmount: Option<real>,
    searchTerm: string)

  const DefaultFilters := AdvancedFilters(All, All, AnyStatus, All, None, None, None, None, "")

  /** applyAdvancedFilters: a conjunction of independent conditions. */
  predicate AdvancedMatch(row: PaymentRow, f: AdvancedFilters) {
    && (f.searchTerm == "" || SearchMatches(row, f.searchTerm))
    && f.clientId.Accepts(row.clientId)
    && f.operationId.Accepts(row.operationId)
    && f.kind.Accepts(row.payment.kind)
    && StatusMatches(row.payment, f.status)
    && (f.startDate.Some? ==> row.payment.date >= f.startDate.value)
    && (f.endDate.Some? ==> row.payment.date <= f.endDate.value + OperationsList.EndOfDayOffset)
    && (f.minAmount.Some? ==> row.payment.amount >= f.minAmount.value)
    && (f.maxAmount.Some? ==> row.payment.amount <= f.maxAmount.value)
  }

  /** filteredPayments: an order-preserving selection of the rows. */
  function FilteredPayments(rows: seq<PaymentRow>, showAdvanced: bool, f: AdvancedFilters,
                            term: string, kind: Choice<PaymentType>, status: StatusFilter): (r: seq<PaymentRow>)
    ensures showAdvanced ==> forall i :: 0 <= i < |r| ==> r[i] in rows && AdvancedMatch(r[i], f)
    ensures showAdvanced ==> forall i :: 0 <= i < |rows| && AdvancedMatch(rows[i], f) ==> rows[i] in r
    ensures !showAdvanced ==> forall i :: 0 <= i < |r| ==> r[i] in rows && BasicMatch(r[i], term, kind, status)
    ensures !showAdvanced ==> forall i :: 0 <= i < |rows| && BasicMatch(rows[i], term, kind, status) ==> rows[i] in r
  {
    if showAdvanced then Filter(rows, row => AdvancedMatch(row, f))
    else Filter(rows, row => BasicMatch(row, term, kind, status))
  }

  /** The advanced panel at its defaults lists every payment, in order. */
  lemma DefaultFiltersKeepAll(rows: seq<PaymentRow>, term: string, kind: Choice<PaymentType>, status: StatusFilter)
    ensures FilteredPayments(rows, true, DefaultFilters, term, kind, status) == rows
  {
    FilterAll(rows, row => AdvancedMatch(row, DefaultFilters));
  }

  /** The date bounds cover the end date's whole day; the amount bounds are inclusive. */
  lemma AdvancedBoundsInclusive(row: PaymentRow, day: int)
    ensures day <= row.payment.date < day + 86_400_000 ==>
      AdvancedMatch(row, DefaultFilters.(startDate := Some(day), endDate := Some(day)))
    ensures row.payment.date >= day + 86_400_000 ==> !AdvancedMatch(row, DefaultFilters.(endDate := Some(day)))
    ensures AdvancedMatch(row, DefaultFilters.(minAmount := Some(row.payment.amount), maxAmount := Some(row.payment.amount)))
  {
  }

  // ---------------------------------------------------------------------------
  // Summary figures

  function SumAmounts(rows: seq<PaymentRow>): real {
    if |rows| == 0 then 0.0 else SumAmounts(rows[..|rows| - 1]) + rows[|rows| - 1].payment.amount
  }

  predicate IsCheckRow(row: PaymentRow) { row.payment.kind == Check }
  predicate IsCashRow(row: PaymentRow) { row.payment.kind == Cash }
  predicate IsPendingCheckRow(row: PaymentRow) { row.payment.kind == Check && row.payment.receiptDate.None? }

  datatype Summary = Summary(totalAmount: real, totalChecks: nat, totalCash: nat, pendingChecks: nat)

  /** The summary cards: every payment is a check or cash, and the pending checks
      are among the checks. */
  function Summarize(rows: seq<PaymentRow>): (s: Summary)
    ensures s.totalChecks + s.totalCash == |rows|
    ensures s.pendingChecks <= s.totalChecks
  {
    CountWhereSplit(rows, IsCheckRow, IsCashRow);
    CountWhereMono(rows, IsPendingCheckRow, IsCheckRow);
    Summary(SumAmounts(rows), CountWhere(rows, IsCheckRow), CountWhere(rows, IsCashRow),
            CountWhere(rows, IsPendingCheckRow))
  }

  function ReceivedOf(op: Operation): real { OperationForm.TotalReceived(op.receivedPayments) }

  /** The screen's total amount is the sum of the operations' received totals. */
  lemma {:induction false} TotalMatchesOperations(ops: seq<Operation>, clients: seq<Client>)
    ensures Summarize(AllPayments(ops, clients)).totalAmount == App.SumOver(ops, ReceivedOf)
  {
    if |ops| > 0 {
      var init := ops[..|ops| - 1];
      var last := ops[|ops| - 1];
      TotalMatchesOperations(init, clients);
      SumAmountsAppend(AllPayments(init, clients), RowsOf(last, clients));
      RowsSum(last, clients, |last.receivedPayments|);
      assert RowsOf(last, clients)[..|last.receivedPayments|] == RowsOf(last, clients);
      assert last.receivedPayments[..|last.receivedPayments|] == last.receivedPayments;
    }
  }

  lemma {:induction false} RowsSum(op: Operation, clients: seq<Client>, k: nat)
    requires k <= |op.receivedPayments|
    ensures SumAmounts(RowsOf(op, clients)[..k]) == OperationForm.TotalReceived(op.receivedPayments[..k])
  {
    if k > 0 {
      RowsSum(op, clients, k - 1);
      assert RowsOf(op, clients)[..k][..k - 1] == RowsOf(op, clients)[..k - 1];
      assert op.receivedPayments[..k][..k - 1] == op.receivedPayments[..k - 1];
    }
  }

  lemma {:induction false} SumAmountsAppend(a: seq<PaymentRow>, b: seq<PaymentRow>)
    ensures SumAmounts(a + b) == SumAmounts(a) + SumAmounts(b)
  {
    if |b| == 0 {
      assert a + b == a;
    } else {
      assert (a + b)[..|a + b| - 1] == a + b[..|b| - 1];
      SumAmountsAppend(a, b[..|b| - 1]);
    }
  }
}
