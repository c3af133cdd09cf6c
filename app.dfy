/** The application shell (src/App.tsx): the dashboard aggregates, the
    status recomputation on every operation update and the guard in front of
    client deletion. The storage round trips behind the handlers are the local
    store of module `Database`. */
module App {
  import opened Domain
  import Calculations
  import OperationForm
  import Database

  /** Sum of `f` over the operations (`operations.reduce((sum, op) => sum + f(op), 0)`). */
  function SumOver(ops: seq<Operation>, f: Operation -> real): real {
    if |ops| == 0 then 0.0 else SumOver(ops[..|ops| - 1], f) + f(ops[|ops| - 1])
  }

  /** Natural-number sum of `f` over the operations. */
  function CountOver(ops: seq<Operation>, f: Operation -> nat): nat {
    if |ops| == 0 then 0 else CountOver(ops[..|ops| - 1], f) + f(ops[|ops| - 1])
  }

  /** The statuses the dashboard counts as completed: every completed status except
      `completed_overpaid`. */
  predicate CountsAsCompleted(op: Operation) {
    op.status == Completed || op.status == CompletedPartialPayment || op.status == CompletedFullPayment
  }

  predicate IsInProgress(op: Operation) { op.status == InProgress }

  predicate IsOverpaid(op: Operation) { op.status == CompletedOverpaid }

  function UnreturnedGuarantees(op: Operation): nat {
    CountWhere(op.guaranteeChecks, (c: GuaranteeCheck) => !c.isReturned)
    + CountWhere(op.guaranteeLetters, (l: GuaranteeLetter) => !l.isReturned)
  }

  function ActiveWarrantyCount(op: Operation): nat {
    CountWhere(op.Warranties(), (w: Warranty) => w.isActive)
  }

  function Amount(op: Operation): real { op.totalAmount }

  function Received(op: Operation): real { op.totalReceived }

  function Executed(op: Operation): real { Calculations.ExecutedTotal(op.items) }

  function AllGuarantees(op: Operation): nat {
    |op.guaranteeChecks| + |op.guaranteeLetters|
  }

  datatype DashboardStats = DashboardStats(
    totalOperations: nat,
    completedOperations: nat,
    inProgressOperations: nat,
    totalAmount: real,
    totalReceived: real,
    outstandingGuarantees: nat,
    activeWarranties: nat,
    totalDeductions: real,
    totalNetAmount: real)

  /** getDashboardStats */
  function GetDashboardStats(ops: seq<Operation>): (r: DashboardStats)
    ensures r.totalOperations == |ops|
    ensures r.completedOperations + r.inProgressOperations <= r.totalOperations
  {
    var notCompleted := (op: Operation) => !CountsAsCompleted(op);
    CountWhereSplit(ops, CountsAsCompleted, notCompleted);
    CountWhereMono(ops, IsInProgress, notCompleted);
    DashboardStats(
      |ops|,
      CountWhere(ops, CountsAsCompleted),
      CountWhere(ops, IsInProgress),
      SumOver(ops, Amount),
      SumOver(ops, Received),
      CountOver(ops, UnreturnedGuarantees),
      CountOver(ops, ActiveWarrantyCount),
      SumOver(ops, Calculations.TotalDeductions),
      SumOver(ops, Calculations.NetAmount))
  }

  /** The statuses the dashboard counts as completed and the database statistics
      do not. */
  predicate CompletedWithPayment(op: Operation) {
    op.status == CompletedPartialPayment || op.status == CompletedFullPayment
  }

  /** The database statistics and the dashboard agree on every figure they share,
      except the completed count: the database counts only status `completed`, so
      the dashboard's count is larger by the operations completed with partial or
      full payment. */
  lemma {:induction false} StatisticsVersusDashboard(ops: seq<Operation>, clients: seq<Client>)
    ensures var s, d := Database.GetStatistics(ops, clients), GetDashboardStats(ops);
      && s.totalOperations == d.totalOperations
      && s.completedOperations + CountWhere(ops, CompletedWithPayment) == d.completedOperations
      && s.inProgressOperations == d.inProgressOperations
      && s.totalAmount == d.totalAmount
      && s.totalReceived == d.totalReceived
      && s.outstandingGuarantees == d.outstandingGuarantees
      && s.activeWarranties == d.activeWarranties
  {
    if |ops| > 0 {
      StatisticsVersusDashboard(ops[..|ops| - 1], clients);
    }
  }

  /** Every operation is completed, in progress or overpaid, and only one of them:
      the overpaid operations are the ones missing from the two dashboard counts. */
  lemma {:induction false} StatusCountsPartition(ops: seq<Operation>)
    ensures var s := GetDashboardStats(ops);
      s.totalOperations == s.completedOperations + s.inProgressOperations + CountWhere(ops, IsOverpaid)
  {
    if |ops| > 0 {
      StatusCountsPartition(ops[..|ops| - 1]);
    }
  }

  /** The completed count falls short of the operations that are not in progress
      by exactly the overpaid ones. */
  lemma OverpaidNotCompleted(ops: seq<Operation>)
    requires exists i :: 0 <= i < |ops| && ops[i].status == CompletedOverpaid
    ensures var s := GetDashboardStats(ops);
      s.completedOperations + s.inProgressOperations < s.totalOperations
  {
    StatusCountsPartition(ops);
    var i :| 0 <= i < |ops| && ops[i].status == CompletedOverpaid;
    OverpaidCountPositive(ops, i);
  }

  lemma {:induction false} OverpaidCountPositive(ops: seq<Operation>, i: nat)
    requires i < |ops| && ops[i].status == CompletedOverpaid
    ensures CountWhere(ops, IsOverpaid) > 0
  {
    if i < |ops| - 1 {
      OverpaidCountPositive(ops[..|ops| - 1], i);
    }
  }

  /** Dashboard deductions and net amounts add up to the executed value of all
      operations. */
  lemma {:induction false} DeductionsPlusNetIsExecuted(ops: seq<Operation>)
    ensures var s := GetDashboardStats(ops);
      s.totalDeductions + s.totalNetAmount
        == SumOver(ops, Executed)
  {
    if |ops| > 0 {
      DeductionsPlusNetIsExecuted(ops[..|ops| - 1]);
      var last := ops[|ops| - 1];
      assert Calculations.NetAmount(last) + Calculations.TotalDeductions(last)
        == Calculations.ExecutedTotal(last.items);
    }
  }

  /** The outstanding-guarantee count never exceeds the number of guarantees. */
  lemma {:induction false} OutstandingWithinGuarantees(ops: seq<Operation>)
    ensures GetDashboardStats(ops).outstandingGuarantees <= CountOver(ops, AllGuarantees)
  {
    if |ops| > 0 {
      OutstandingWithinGuarantees(ops[..|ops| - 1]);
      var last := ops[|ops| - 1];
      CountWhereAtMostLength(last.guaranteeChecks, (c: GuaranteeCheck) => !c.isReturned);
      CountWhereAtMostLength(last.guaranteeLetters, (l: GuaranteeLetter) => !l.isReturned);
    }
  }

  lemma {:induction false} CountWhereAtMostLength<T>(s: seq<T>, p: T -> bool)
    ensures CountWhere(s, p) <= |s|
  {
    if |s| > 0 {
      CountWhereAtMostLength(s[..|s| - 1], p);
    }
  }

  /** The active-warranty count reads only the `isActive` flags: moving every
      warranty's end date (into the past, say) leaves it unchanged. */
  lemma ActiveWarrantiesIgnoreDates(op: Operation, moved: Operation, endDate: int)
    requires |moved.Warranties()| == |op.Warranties()|
    requires forall j :: 0 <= j < |op.Warranties()| ==> moved.Warranties()[j] == op.Warranties()[j].(endDate := endDate)
    ensures ActiveWarrantyCount(moved) == ActiveWarrantyCount(op)
  {
    SameFlagsSameCount(moved.Warranties(), op.Warranties());
  }

  lemma {:induction false} SameFlagsSameCount(a: seq<Warranty>, b: seq<Warranty>)
    requires |a| == |b| && forall j :: 0 <= j < |a| ==> a[j].isActive == b[j].isActive
    ensures CountWhere(a, (w: Warranty) => w.isActive) == CountWhere(b, (w: Warranty) => w.isActive)
  {
    if |a| > 0 {
      SameFlagsSameCount(a[..|a| - 1], b[..|b| - 1]);
    }
  }

  // ---------------------------------------------------------------------------
  // Operation updates

  /** handleUpdateOperation: the record written to the store, its status recomputed
      from its own figures and its update time set. */
  function HandleUpdateOperation(op: Operation, now: int): (r: Operation)
    ensures r.status == Calculations.OperationStatus(op)
    ensures r == op.(status := r.status, updatedAt := now)
  {
    op.(status := Calculations.OperationStatus(op), updatedAt := now)
  }

  /** The stored status agrees with the stored figures, whatever status came in. */
  lemma UpdatedStatusConsistent(op: Operation, now: int)
    ensures Calculations.OperationStatus(HandleUpdateOperation(op, now)) == HandleUpdateOperation(op, now).status
  {
    var r := HandleUpdateOperation(op, now);
    assert r.items == op.items && r.deductions == op.deductions;
  }

  /** Saving from the edit form: the form's status, computed against the previous
      contract total, is discarded, and the stored status is the one of the new
      contract total. */
  lemma EditedOperationStoredStatus(
    original: Operation, clientId: string, name: string, code: string,
    items: seq<Item>, deductions: seq<Deduction>, checks: seq<GuaranteeCheck>,
    letters: seq<GuaranteeLetter>, payments: seq<Payment>, now: int, saveTime: int)
    requires OperationForm.Submit(original, clientId, name, code, items, deductions, checks, letters, payments, now).Ok?
    ensures var op := OperationForm.Submit(original, clientId, name, code, items, deductions, checks, letters, payments, now).value;
      var stored := HandleUpdateOperation(op, saveTime);
      && stored.totalAmount == Calculations.OperationTotal(items)
      && stored.status == Calculations.OperationStatus(stored)
  {
    var op := OperationForm.Submit(original, clientId, name, code, items, deductions, checks, letters, payments, now).value;
    UpdatedStatusConsistent(op, saveTime);
  }

  // ---------------------------------------------------------------------------
  // Client deletion

  datatype DeleteClientOutcome = Blocked | Cancelled | Deleted

  /** handleDeleteClient's decision: refused while an operation of the loaded list
      references the client; otherwise carried out when the user confirms. */
  function DeleteClientDecision(ops: seq<Operation>, clientId: string, confirmed: bool): (r: DeleteClientOutcome)
    ensures r == Blocked <==> exists i :: 0 <= i < |ops| && ops[i].clientId == clientId
    ensures r == Deleted <==> confirmed && forall i :: 0 <= i < |ops| ==> ops[i].clientId != clientId
  {
    if exists i :: 0 <= i < |ops| && ops[i].clientId == clientId then Blocked
    else if confirmed then Deleted
    else Cancelled
  }

  /** handleDeleteClient against the store: the screen's own operation list is
      checked first, and the store's delete re-checks its own operations. */
  method HandleDeleteClient(store: Database.LocalStore, ops: seq<Operation>, clientId: string, confirmed: bool)
    returns (outcome: DeleteClientOutcome)
    requires store.Valid()
    modifies store
    ensures store.Valid()
    ensures outcome == DeleteClientDecision(ops, clientId, confirmed)
    ensures outcome != Deleted ==> store.clients == old(store.clients) && store.operations == old(store.operations)
    ensures outcome == Deleted ==> store.clients == Database.DeleteClientResult(old(store.clients), old(store.operations), clientId).0
    ensures store.operations == old(store.operations)
  {
    outcome := DeleteClientDecision(ops, clientId, confirmed);
    if outcome == Deleted {
      var _ := store.DeleteClient(clientId);
    }
  }
}
