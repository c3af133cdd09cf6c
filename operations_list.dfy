/** The operations table (src/components/Operations/OperationsList.tsx): the
    client-name lookup, the basic and the advanced filters, and the figures of a
    row. Its status badge tables are the five-status ones, `OperationDetails.StatusLabel`
    and `OperationDetails.StatusColor`. */
module OperationsList {
  import opened Domain
  import Text
  import Calculations
  import Reports

  /** The name shown for an operation whose client is not in the list. */
  const UnknownClient := "عميل غير معروف"

  /** An end date reaches to 23:59:59.999 of its day: this many milliseconds after
      the day's first instant. */
  const EndOfDayOffset := 86_399_999

  /** getClientName: the name of the first client with that id. */
  function ClientName(clients: seq<Client>, id: string): (r: string)
    ensures (forall i :: 0 <= i < |clients| ==> clients[i].id != id) ==> r == UnknownClient
    ensures forall i ::
      (0 <= i < |clients| && clients[i].id == id && (forall j :: 0 <= j < i ==> clients[j].id != id))
      ==> r == clients[i].name
  {
    if |clients| == 0 then UnknownClient
    else if clients[0].id == id then clients[0].name
    else
      var r := ClientName(clients[1..], id);
      assert forall i :: 1 <= i < |clients| ==> clients[i] == clients[1..][i - 1];
      r
  }

  /** The free-text search: the name, the code or the client's name contains the
      term, ignoring case. */
  predicate SearchMatches(op: Operation, clients: seq<Client>, term: string) {
    || Text.ContainsIgnoreCase(op.name, term)
    || Text.ContainsIgnoreCase(op.code, term)
    || Text.ContainsIgnoreCase(ClientName(clients, op.clientId), term)
  }

  /** The advanced filter panel. A date is the first instant of the chosen day; an
      empty input is `None` (or the empty search term). */
  datatype AdvancedFilters = AdvancedFilters(
    clientId: Choice<string>,
    status: Choice<Status>,
    startDate: Option<int>,
    endDate: Option<int>,
    minAmount: Option<real>,
    maxAmount: Option<real>,
    searchTerm: string)

  /** The values the panel starts with and returns to on reset. */
  const DefaultFilters := AdvancedFilters(All, All, None, None, None, None, "")

  /** applyAdvancedFilters */
  predicate AdvancedMatch(op: Operation, clients: seq<Client>, f: AdvancedFilters) {
    && (f.searchTerm == "" || SearchMatches(op, clients, f.searchTerm))
    && f.clientId.Accepts(op.clientId)
    && f.status.Accepts(op.status)
    && (f.startDate.Some? ==> op.createdAt >= f.startDate.value)
    && (f.endDate.Some? ==> op.createdAt <= f.endDate.value + EndOfDayOffset)
    && (f.minAmount.Some? ==> op.totalAmount >= f.minAmount.value)
    && (f.maxAmount.Some? ==> op.totalAmount <= f.maxAmount.value)
  }

  /** The basic filter: search, status and client. */
  predicate BasicMatch(op: Operation, clients: seq<Client>, term: string, status: Choice<Status>, client: Choice<string>) {
    && SearchMatches(op, clients, term)
    && status.Accepts(op.status)
    && client.Accepts(op.clientId)
  }

  /** filteredOperations: the advanced filter when its panel is open, the basic one
      otherwise; an order-preserving selection either way. */
  function FilteredOperations(
    ops: seq<Operation>, clients: seq<Client>, showAdvanced: bool, f: AdvancedFilters,
    term: string, status: Choice<Status>, client: Choice<string>): (r: seq<Operation>)
    ensures showAdvanced ==> forall i :: 0 <= i < |r| ==> r[i] in ops && AdvancedMatch(r[i], clients, f)
    ensures showAdvanced ==> forall i :: 0 <= i < |ops| && AdvancedMatch(ops[i], clients, f) ==> ops[i] in r
    ensures !showAdvanced ==> forall i :: 0 <= i < |r| ==> r[i] in ops && BasicMatch(r[i], clients, term, status, client)
    ensures !showAdvanced ==> forall i :: 0 <= i < |ops| && BasicMatch(ops[i], clients, term, status, client) ==> ops[i] in r
  {
    if showAdvanced then Filter(ops, op => AdvancedMatch(op, clients, f))
    else Filter(ops, op => BasicMatch(op, clients, term, status, client))
  }

  /** With the panel at its default values every operation is listed, in order. */
  lemma DefaultFiltersKeepAll(ops: seq<Operation>, clients: seq<Client>, term: string, status: Choice<Status>, client: Choice<string>)
    ensures FilteredOperations(ops, clients, true, DefaultFilters, term, status, client) == ops
  {
    FilterAll(ops, op => AdvancedMatch(op, clients, DefaultFilters));
  }

  /** The same holds for the basic filter with an empty term and "all" selected. */
  lemma BasicDefaultsKeepAll(ops: seq<Operation>, clients: seq<Client>, f: AdvancedFilters)
    ensures FilteredOperations(ops, clients, false, f, "", All, All) == ops
  {
    forall op | op in ops ensures BasicMatch(op, clients, "", All, All) {
      Text.EmptyTermMatches(op.name);
    }
    FilterAll(ops, op => BasicMatch(op, clients, "", All, All));
  }

  /** The basic filter is the advanced one with only search, status and client set:
      an empty term matches every operation in both. */
  lemma BasicIsAdvancedSubset(op: Operation, clients: seq<Client>, term: string, status: Choice<Status>, client: Choice<string>)
    ensures BasicMatch(op, clients, term, status, client)
      <==> AdvancedMatch(op, clients, AdvancedFilters(client, status, None, None, None, None, term))
  {
    if term == "" {
      Text.EmptyTermMatches(op.name);
    }
  }

  /** The end date covers its whole day and nothing after it; the start date and
      the amount bounds are inclusive. */
  lemma BoundsInclusive(op: Operation, clients: seq<Client>, day: int)
    ensures op.createdAt - day < 86_400_000 && op.createdAt >= day ==>
      AdvancedMatch(op, clients, DefaultFilters.(startDate := Some(day), endDate := Some(day)))
    ensures op.createdAt >= day + 86_400_000 ==>
      !AdvancedMatch(op, clients, DefaultFilters.(endDate := Some(day)))
    ensures AdvancedMatch(op, clients, DefaultFilters.(minAmount := Some(op.totalAmount), maxAmount := Some(op.totalAmount)))
  {
  }

  /** Searching for the operation's own name finds it. */
  lemma OwnNameFound(op: Operation, clients: seq<Client>)
    ensures BasicMatch(op, clients, op.name, All, All)
  {
    Text.ContainsSelf(Text.Lower(op.name));
  }

  // ---------------------------------------------------------------------------
  // Row figures

  /** What a row shows in the remaining column: the magnitude of contract total
      less paid, and whether to mark it as an excess. */
  datatype RemainingCell = RemainingCell(amount: real, excess: bool)

  function RowCell(op: Operation): (c: RemainingCell)
    ensures c.amount >= 0.0
    ensures c.excess <==> op.totalReceived + Calculations.TotalDeductions(op) > op.totalAmount
    ensures c.excess ==> c.amount == -Reports.RowRemaining(op)
    ensures !c.excess ==> c.amount == Reports.RowRemaining(op)
  {
    var remaining := Reports.RowRemaining(op);
    RemainingCell(Calculations.Abs(remaining), remaining < 0.0)
  }

  /** An operation whose stored status is overpaid always shows the excess marker;
      the converse fails inside the 0.01 tolerance band, where the status reads as
      fully paid while the marker is shown. */
  lemma ExcessMarkerVersusStatus(op: Operation)
    ensures Calculations.OperationStatus(op) == CompletedOverpaid ==> RowCell(op).excess
    ensures op.overallExecutionPercentage >= 100.0
      && op.totalAmount < op.totalReceived + Calculations.TotalDeductions(op) <= op.totalAmount + Calculations.Tolerance
      ==> RowCell(op).excess && Calculations.OperationStatus(op) == CompletedFullPayment
  {
  }
}
