/** The reports screen (src/components/Reports/ReportsManager.tsx): the operation
    filter, the summary figures, the per-client table, the guarantee and warranty
    counts and the displayed rates. All of it is derived from the operation list. */
module Reports {
  import opened Domain
  import Calculations
  import App

  /** The report's selections: a client or all, and optional bounds on the
      creation time (a chosen day's date reads as that day's first instant). */
  datatype ReportFilter = ReportFilter(client: Choice<string>, dateFrom: Option<int>, dateTo: Option<int>)

  predicate ReportKeeps(op: Operation, f: ReportFilter) {
    && f.client.Accepts(op.clientId)
    && (f.dateFrom.Some? ==> op.createdAt >= f.dateFrom.value)
    && (f.dateTo.Some? ==> op.createdAt <= f.dateTo.value)
  }

  /** filteredOperations */
  function FilteredOperations(ops: seq<Operation>, f: ReportFilter): (r: seq<Operation>)
    ensures forall i :: 0 <= i < |r| ==> r[i] in ops && ReportKeeps(r[i], f)
    ensures forall i :: 0 <= i < |ops| && ReportKeeps(ops[i], f) ==> ops[i] in r
  {
    Filter(ops, op => ReportKeeps(op, f))
  }

  /** With every client and no dates the report covers all operations, in order. */
  lemma UnfilteredReportKeepsAll(ops: seq<Operation>)
    ensures FilteredOperations(ops, ReportFilter(All, None, None)) == ops
  {
    FilterAll(ops, op => ReportKeeps(op, ReportFilter(All, None, None)));
  }

  /** The date bounds are inclusive: an operation created exactly at both bounds is kept. */
  lemma DateBoundsInclusive(op: Operation)
    ensures ReportKeeps(op, ReportFilter(Only(op.clientId), Some(op.createdAt), Some(op.createdAt)))
  {
  }

  datatype Summary = Summary(
    totalOperations: nat,
    completedOperations: nat,
    inProgressOperations: nat,
    totalAmount: real,
    totalReceived: real,
    totalDeductions: real,
    totalNet: real,
    totalPaid: real,
    totalOutstanding: real)

  /** The summary figures of the filtered operations. */
  function Summarize(ops: seq<Operation>): (s: Summary)
    ensures s.totalPaid == s.totalReceived + s.totalDeductions
    ensures s.totalOutstanding == s.totalNet - s.totalReceived
    ensures s.completedOperations + s.inProgressOperations <= s.totalOperations == |ops|
  {
    var stats := App.GetDashboardStats(ops);
    App.StatusCountsPartition(ops);
    Summary(
      |ops|,
      stats.completedOperations,
      stats.inProgressOperations,
      stats.totalAmount,
      stats.totalReceived,
      stats.totalDeductions,
      stats.totalNetAmount,
      stats.totalReceived + stats.totalDeductions,
      stats.totalNetAmount - stats.totalReceived)
  }

  /** What a row of the financial table shows as remaining: contract total less
      received and deducted amounts. */
  function RowRemaining(op: Operation): real {
    op.totalAmount - (op.totalReceived + Calculations.TotalDeductions(op))
  }

  /** The rows' remaining amounts add up to total amount less total paid. */
  lemma {:induction false} RowsAddUp(ops: seq<Operation>)
    ensures App.SumOver(ops, RowRemaining) == Summarize(ops).totalAmount - Summarize(ops).totalPaid
  {
    if |ops| > 0 {
      RowsAddUp(ops[..|ops| - 1]);
    }
  }

  /** The summary's outstanding figure is measured against the executed value, the
      rows' remaining against the contract total: the two differ by exactly the
      unexecuted part of the contracts. */
  lemma OutstandingVersusRows(ops: seq<Operation>)
    ensures Summarize(ops).totalOutstanding
      == App.SumOver(ops, RowRemaining) - (App.SumOver(ops, App.Amount) - App.SumOver(ops, App.Executed))
  {
    RowsAddUp(ops);
    App.DeductionsPlusNetIsExecuted(ops);
  }

  // ---------------------------------------------------------------------------
  // Per-client figures

  datatype ClientStat = ClientStat(
    client: Client,
    operationsCount: nat,
    totalAmount: real,
    totalReceived: real,
    totalDeductions: real,
    totalPaid: real,
    outstanding: real)

  function OfClient(ops: seq<Operation>, clientId: string): seq<Operation> {
    Filter(ops, (op: Operation) => op.clientId == clientId)
  }

  /** One client's line of the table. */
  function StatFor(c: Client, ops: seq<Operation>): (s: ClientStat)
    ensures s.client == c
    ensures s.operationsCount == CountWhere(ops, (op: Operation) => op.clientId == c.id)
    ensures s.outstanding == s.totalAmount - (s.totalReceived + s.totalDeductions)
  {
    var mine := OfClient(ops, c.id);
    var stats := App.GetDashboardStats(mine);
    ClientStat(c, |mine|, stats.totalAmount, stats.totalReceived, stats.totalDeductions,
               stats.totalReceived + stats.totalDeductions,
               stats.totalAmount - (stats.totalReceived + stats.totalDeductions))
  }

  function AllStats(clients: seq<Client>, ops: seq<Operation>): (r: seq<ClientStat>)
    ensures |r| == |clients|
    ensures forall i :: 0 <= i < |clients| ==> r[i] == StatFor(clients[i], ops)
  {
    if |clients| == 0 then [] else AllStats(clients[..|clients| - 1], ops) + [StatFor(clients[|clients| - 1], ops)]
  }

  /** clientStats: the clients with at least one filtered operation, in client order. */
  function ClientStats(clients: seq<Client>, ops: seq<Operation>): (r: seq<ClientStat>)
    ensures forall i :: 0 <= i < |r| ==>
      r[i].operationsCount > 0 && r[i].client in clients && r[i] == StatFor(r[i].client, ops)
    ensures forall i :: 0 <= i < |clients| && (exists j :: 0 <= j < |ops| && ops[j].clientId == clients[i].id) ==>
      StatFor(clients[i], ops) in r
  {
    var all := AllStats(clients, ops);
    var r := Filter(all, (s: ClientStat) => s.operationsCount > 0);
    forall i | 0 <= i < |clients| && (exists j :: 0 <= j < |ops| && ops[j].clientId == clients[i].id)
      ensures StatFor(clients[i], ops) in r
    {
      var j :| 0 <= j < |ops| && ops[j].clientId == clients[i].id;
      CountWherePositive(ops, (op: Operation) => op.clientId == clients[i].id, j);
      assert all[i] == StatFor(clients[i], ops);
    }
    r
  }

  lemma {:induction false} CountWherePositive<T>(s: seq<T>, p: T -> bool, j: nat)
    requires j < |s| && p(s[j])
    ensures CountWhere(s, p) > 0
  {
    if j < |s| - 1 {
      CountWherePositive(s[..|s| - 1], p, j);
    }
  }

  // ---------------------------------------------------------------------------
  // Guarantee and warranty counts

  datatype GuaranteeStats = GuaranteeStats(
    totalChecks: nat, totalLetters: nat, activeChecks: nat, activeLetters: nat,
    totalWarranties: nat, activeWarranties: nat)

  function CheckCount(op: Operation): nat { |op.guaranteeChecks| }
  function LetterCount(op: Operation): nat { |op.guaranteeLetters| }
  function ActiveChecks(op: Operation): nat { CountWhere(op.guaranteeChecks, (c: GuaranteeCheck) => !c.isReturned) }
  function ActiveLetters(op: Operation): nat { CountWhere(op.guaranteeLetters, (l: GuaranteeLetter) => !l.isReturned) }
  function WarrantyCount(op: Operation): nat { |op.Warranties()| }

  /** The guarantee and warranty counts; the active ones never exceed the totals. */
  function GuaranteeCounts(ops: seq<Operation>): (g: GuaranteeStats)
    ensures g.activeChecks <= g.totalChecks && g.activeLetters <= g.totalLetters
    ensures g.activeWarranties <= g.totalWarranties
  {
    ActiveWithinTotals(ops);
    GuaranteeStats(
      App.CountOver(ops, CheckCount), App.CountOver(ops, LetterCount),
      App.CountOver(ops, ActiveChecks), App.CountOver(ops, ActiveLetters),
      App.CountOver(ops, WarrantyCount), App.CountOver(ops, App.ActiveWarrantyCount))
  }

  lemma {:induction false} ActiveWithinTotals(ops: seq<Operation>)
    ensures App.CountOver(ops, ActiveChecks) <= App.CountOver(ops, CheckCount)
    ensures App.CountOver(ops, ActiveLetters) <= App.CountOver(ops, LetterCount)
    ensures App.CountOver(ops, App.ActiveWarrantyCount) <= App.CountOver(ops, WarrantyCount)
  {
    if |ops| > 0 {
      ActiveWithinTotals(ops[..|ops| - 1]);
      var last := ops[|ops| - 1];
      App.CountWhereAtMostLength(last.guaranteeChecks, (c: GuaranteeCheck) => !c.isReturned);
      App.CountWhereAtMostLength(last.guaranteeLetters, (l: GuaranteeLetter) => !l.isReturned);
      App.CountWhereAtMostLength(last.Warranties(), (w: Warranty) => w.isActive);
    }
  }

  /** The displayed number of ended certificates (total less active) is never
      negative, and with the active ones it makes up the total. */
  function EndedWarranties(g: GuaranteeStats): (n: nat)
    requires g.activeWarranties <= g.totalWarranties
    ensures n + g.activeWarranties == g.totalWarranties
  {
    g.totalWarranties - g.activeWarranties
  }

  // ---------------------------------------------------------------------------
  // Rates

  /** A displayed percentage `den > 0 ? num / den * 100 : 0`. */
  function Rate(num: real, den: real): (r: real)
    ensures den <= 0.0 ==> r == 0.0
    ensures den > 0.0 ==> r * den == num * 100.0
    ensures den > 0.0 && 0.0 <= num <= den ==> 0.0 <= r <= 100.0
  {
    if den > 0.0 then
      var q := num / den;
      assert 0.0 <= num <= den ==> 0.0 <= q <= 1.0 by {
        if 0.0 <= num <= den {
          var inv := 1.0 / den;
          assert q == num * inv;
          assert num * inv <= den * inv;
        }
      }
      q * 100.0
    else 0.0
  }

  /** The collection rate of the summary: paid over contract total. */
  function PaymentRate(s: Summary): real { Rate(s.totalPaid, s.totalAmount) }

  /** The completion rate: completed over all operations, within [0, 100]. */
  function CompletionRate(s: Summary): (r: real)
    requires s.completedOperations <= s.totalOperations
    ensures 0.0 <= r <= 100.0
    ensures s.totalOperations == 0 ==> r == 0.0
  {
    Rate(s.completedOperations as real, s.totalOperations as real)
  }

  /** The share of active warranty certificates, within [0, 100]. */
  function ActiveWarrantyRate(g: GuaranteeStats): (r: real)
    requires g.activeWarranties <= g.totalWarranties
    ensures 0.0 <= r <= 100.0
    ensures g.totalWarranties == 0 ==> r == 0.0
  {
    Rate(g.activeWarranties as real, g.totalWarranties as real)
  }
}
