/** The guarantees screen (src/components/Guarantees/GuaranteesManager.tsx): the
    guarantee checks and letters of all operations flattened into tagged rows, their
    expiry classification against the current time, the status badge, the basic and
    the advanced filters, and the counts on the summary cards. */
module Guarantees {
  import opened Domain
  import Text
  import App
  import Reports
  import OperationsList

  /** Milliseconds in a day. */
  const DayMs := 86_400_000

  /** A guarantee of either kind. */
  datatype Guarantee = OfCheck(check: GuaranteeCheck) | OfLetter(letter: GuaranteeLetter) {
    function Number(): string {
      match this
      case OfCheck(c) => c.checkNumber
      case OfLetter(l) => l.letterNumber
    }
    function Bank(): string {
      match this
      case OfCheck(c) => c.bank
      case OfLetter(l) => l.bank
    }
    function Amount(): real {
      match this
      case OfCheck(c) => c.amount
      case OfLetter(l) => l.amount
    }
    /** The date the date filters read: the check date or the letter date. */
    function IssueDate(): int {
      match this
      case OfCheck(c) => c.checkDate
      case OfLetter(l) => l.letterDate
    }
    /** The date expiry is measured on: a check's expiry date, a letter's due date. */
    function ExpiryDate(): int {
      match this
      case OfCheck(c) => c.expiryDate
      case OfLetter(l) => l.dueDate
    }
    predicate IsReturned() {
      match this
      case OfCheck(c) => c.isReturned
      case OfLetter(l) => l.isReturned
    }
  }

  /** A guarantee with the operation and client it belongs to. */
  datatype GuaranteeRow = GuaranteeRow(
    guarantee: Guarantee,
    operationId: string,
    operationName: string,
    operationCode: string,
    clientId: string,
    clientName: string)

  function Tag(g: Guarantee, op: Operation, clients: seq<Client>): GuaranteeRow {
    GuaranteeRow(g, op.id, op.name, op.code, op.clientId, OperationsList.ClientName(clients, op.clientId))
  }

  /** The rows of one operation's guarantee checks, in order. */
  function CheckRows(op: Operation, clients: seq<Client>): (r: seq<GuaranteeRow>)
    ensures |r| == |op.guaranteeChecks|
    ensures forall j :: 0 <= j < |r| ==> r[j] == Tag(OfCheck(op.guaranteeChecks[j]), op, clients)
  {
    seq(|op.guaranteeChecks|, j requires 0 <= j < |op.guaranteeChecks| => Tag(OfCheck(op.guaranteeChecks[j]), op, clients))
  }

  /** The rows of one operation's guarantee letters, in order. */
  function LetterRows(op: Operation, clients: seq<Client>): (r: seq<GuaranteeRow>)
    ensures |r| == |op.guaranteeLetters|
    ensures forall j :: 0 <= j < |r| ==> r[j] == Tag(OfLetter(op.guaranteeLetters[j]), op, clients)
  {
    seq(|op.guaranteeLetters|, j requires 0 <= j < |op.guaranteeLetters| => Tag(OfLetter(op.guaranteeLetters[j]), op, clients))
  }

  /** allGuaranteeChecks: every operation's checks, operation by operation. */
  function AllChecks(ops: seq<Operation>, clients: seq<Client>): (r: seq<GuaranteeRow>)
    ensures |r| == App.CountOver(ops, Reports.CheckCount)
  {
    if |ops| == 0 then [] else AllChecks(ops[..|ops| - 1], clients) + CheckRows(ops[|ops| - 1], clients)
  }

  /** allGuaranteeLetters: every operation's letters, operation by operation. */
  function AllLetters(ops: seq<Operation>, clients: seq<Client>): (r: seq<GuaranteeRow>)
    ensures |r| == App.CountOver(ops, Reports.LetterCount)
  {
    if |ops| == 0 then [] else AllLetters(ops[..|ops| - 1], clients) + LetterRows(ops[|ops| - 1], clients)
  }

  /** Flattening keeps the operations' order: the rows of a list of operations are
      the rows of its parts, one after the other. */
  lemma FlattenAppend(a: seq<Operation>, b: seq<Operation>, clients: seq<Client>)
    ensures AllChecks(a + b, clients) == AllChecks(a, clients) + AllChecks(b, clients)
    ensures AllLetters(a + b, clients) == AllLetters(a, clients) + AllLetters(b, clients)
  {
    ChecksAppend(a, b, clients);
    LettersAppend(a, b, clients);
  }

  lemma {:induction false} ChecksAppend(a: seq<Operation>, b: seq<Operation>, clients: seq<Client>)
    ensures AllChecks(a + b, clients) == AllChecks(a, clients) + AllChecks(b, clients)
  {
    if |b| == 0 {
      assert a + b == a;
    } else {
      var front, last := b[..|b| - 1], b[|b| - 1];
      assert (a + b)[..|a + b| - 1] == a + front;
      assert (a + b)[|a + b| - 1] == last;
      ChecksAppend(a, front, clients);
      calc {
        AllChecks(a + b, clients);
        == AllChecks(a + front, clients) + CheckRows(last, clients);
        == AllChecks(a, clients) + AllChecks(front, clients) + CheckRows(last, clients);
        == AllChecks(a, clients) + AllChecks(b, clients);
      }
    }
  }

  lemma {:induction false} LettersAppend(a: seq<Operation>, b: seq<Operation>, clients: seq<Client>)
    ensures AllLetters(a + b, clients) == AllLetters(a, clients) + AllLetters(b, clients)
  {
    if |b| == 0 {
      assert a + b == a;
    } else {
      var front, last := b[..|b| - 1], b[|b| - 1];
      assert (a + b)[..|a + b| - 1] == a + front;
      assert (a + b)[|a + b| - 1] == last;
      LettersAppend(a, front, clients);
      calc {
        AllLetters(a + b, clients);
        == AllLetters(a + front, clients) + LetterRows(last, clients);
        == AllLetters(a, clients) + AllLetters(front, clients) + LetterRows(last, clients);
        == AllLetters(a, clients) + AllLetters(b, clients);
      }
    }
  }

  /** A single operation contributes exactly its own rows. */
  lemma FlattenSingle(op: Operation, clients: seq<Client>)
    ensures AllChecks([op], clients) == CheckRows(op, clients)
    ensures AllLetters([op], clients) == LetterRows(op, clients)
  {
    assert [op][..0] == [];
  }

  // ---------------------------------------------------------------------------
  // Expiry

  /** isExpired: the date lies before now. */
  predicate IsExpired(date: int, now: int) {
    date < now
  }

  /** `Math.ceil((date - now) / day)`: whole days left, rounded up. */
  function DaysLeft(date: int, now: int): int {
    -((now - date) / DayMs)
  }

  /** isExpiringSoon: between 1 and 30 days left, rounded up. */
  predicate IsExpiringSoon(date: int, now: int) {
    0 < DaysLeft(date, now) <= 30
  }

  /** The rounded-up day count lies in (0, 30] exactly when the date is after now
      and at most thirty days ahead. */
  lemma ExpiringSoonIff(date: int, now: int)
    ensures IsExpiringSoon(date, now) <==> now < date <= now + 30 * DayMs
  {
    var x := date - now;
    var q := (-x) / DayMs;
    assert DayMs * q <= -x < DayMs * q + DayMs;
    if x > 0 {
      assert q < 0;
    } else {
      assert q >= 0;
    }
    if x <= 30 * DayMs {
      assert q >= -30;
    } else {
      assert q < -30;
    }
  }

  /** A guarantee is never both expired and expiring soon. */
  lemma NotBothExpiredAndExpiring(date: int, now: int)
    ensures !(IsExpired(date, now) && IsExpiringSoon(date, now))
  {
    ExpiringSoonIff(date, now);
  }

  // ---------------------------------------------------------------------------
  // Badge and basic filter

  datatype Badge = ReturnedBadge | ExpiredBadge | ExpiringBadge | StandingBadge

  /** The badge of a row: returned first, then expired, then expiring soon. */
  function BadgeOf(g: Guarantee, now: int): (b: Badge)
    ensures b == ReturnedBadge <==> g.IsReturned()
    ensures b == ExpiredBadge <==> !g.IsReturned() && g.ExpiryDate() < now
    ensures b == ExpiringBadge <==> !g.IsReturned() && now < g.ExpiryDate() <= now + 30 * DayMs
    ensures b == StandingBadge <==> !g.IsReturned() && (g.ExpiryDate() == now || g.ExpiryDate() > now + 30 * DayMs)
  {
    ExpiringSoonIff(g.ExpiryDate(), now);
    if g.IsReturned() then ReturnedBadge
    else if IsExpired(g.ExpiryDate(), now) then ExpiredBadge
    else if IsExpiringSoon(g.ExpiryDate(), now) then ExpiringBadge
    else StandingBadge
  }

  datatype StatusFilter = AnyStatus | ActiveStatus | ReturnedStatus | ExpiringStatus | ExpiredStatus

  predicate StatusMatches(g: Guarantee, f: StatusFilter, now: int) {
    match f
    case AnyStatus => true
    case ActiveStatus => !g.IsReturned() && !IsExpired(g.ExpiryDate(), now)
    case ReturnedStatus => g.IsReturned()
    case ExpiringStatus => !g.IsReturned() && IsExpiringSoon(g.ExpiryDate(), now)
    case ExpiredStatus => !g.IsReturned() && IsExpired(g.ExpiryDate(), now)
  }

  /** The status filter agrees with the badge: "active" shows the expiring and the
      standing guarantees, every other choice exactly its own badge. */
  lemma StatusFilterFollowsBadge(g: Guarantee, now: int)
    ensures StatusMatches(g, ActiveStatus, now) <==> BadgeOf(g, now) in {ExpiringBadge, StandingBadge}
    ensures StatusMatches(g, ReturnedStatus, now) <==> BadgeOf(g, now) == ReturnedBadge
    ensures StatusMatches(g, ExpiringStatus, now) <==> BadgeOf(g, now) == ExpiringBadge
    ensures StatusMatches(g, ExpiredStatus, now) <==> BadgeOf(g, now) == ExpiredBadge
  {
    ExpiringSoonIff(g.ExpiryDate(), now);
  }

  /** The basic search: number, bank, client name or operation name, ignoring case. */
  predicate BasicSearch(row: GuaranteeRow, term: string) {
    || Text.ContainsIgnoreCase(row.guarantee.Number(), term)
    || Text.ContainsIgnoreCase(row.guarantee.Bank(), term)
    || Text.ContainsIgnoreCase(row.clientName, term)
    || Text.ContainsIgnoreCase(row.operationName, term)
  }

  predicate BasicMatch(row: GuaranteeRow, term: string, f: StatusFilter, now: int) {
    BasicSearch(row, term) && StatusMatches(row.guarantee, f, now)
  }

  // ---------------------------------------------------------------------------
  // Advanced filter

  datatype AdvancedStatus = AnyAdvanced | NotReturned | ReturnedOnly

  /** The advanced panel. Its free-text field is called `bank` but searches bank,
      client name, operation name and number. Dates are the first instant of the
      chosen day. */
  datatype AdvancedFilters = AdvancedFilters(
    clientId: Choice<string>,
    operationId: Choice<string>,
    status: AdvancedStatus,
    startDate: Option<int>,
    endDate: Option<int>,
    minAmount: Option<real>,
    maxAmount: Option<real>,
    text: string)

  const DefaultFilters := AdvancedFilters(All, All, AnyAdvanced, None, None, None, None, "")

  /** applyAdvancedFilters, for the rows of the tab being shown. */
  predicate AdvancedMatch(row: GuaranteeRow, f: AdvancedFilters) {
    && (f.text == "" || BasicSearch(row, f.text))
    && f.clientId.Accepts(row.clientId)
    && f.operationId.Accepts(row.operationId)
    && (f.status == NotReturned ==> !row.guarantee.IsReturned())
    && (f.status == ReturnedOnly ==> row.guarantee.IsReturned())
    && (f.startDate.Some? ==> row.guarantee.IssueDate() >= f.startDate.value)
    && (f.endDate.Some? ==> row.guarantee.IssueDate() <= f.endDate.value + OperationsList.EndOfDayOffset)
    && (f.minAmount.Some? ==> row.guarantee.Amount() >= f.minAmount.value)
    && (f.maxAmount.Some? ==> row.guarantee.Amount() <= f.maxAmount.value)
  }

  /** filteredChecks / filteredLetters: an order-preserving selection of the rows. */
  function FilteredRows(rows: seq<GuaranteeRow>, showAdvanced: bool, f: AdvancedFilters,
                        term: string, status: StatusFilter, now: int): (r: seq<GuaranteeRow>)
    ensures showAdvanced ==> forall i :: 0 <= i < |r| ==> r[i] in rows && AdvancedMatch(r[i], f)
    ensures showAdvanced ==> forall i :: 0 <= i < |rows| && AdvancedMatch(rows[i], f) ==> rows[i] in r
    ensures !showAdvanced ==> forall i :: 0 <= i < |r| ==> r[i] in rows && BasicMatch(r[i], term, status, now)
    ensures !showAdvanced ==> forall i :: 0 <= i < |rows| && BasicMatch(rows[i], term, status, now) ==> rows[i] in r
  {
    if showAdvanced then Filter(rows, row => AdvancedMatch(row, f))
    else Filter(rows, row => BasicMatch(row, term, status, now))
  }

  /** The advanced panel at its defaults shows every row, in order. */
  lemma DefaultFiltersKeepAll(rows: seq<GuaranteeRow>, term: string, status: StatusFilter, now: int)
    ensures FilteredRows(rows, true, DefaultFilters, term, status, now) == rows
  {
    FilterAll(rows, row => AdvancedMatch(row, DefaultFilters));
  }

  /** The advanced "active" choice only excludes returned guarantees: an expired,
      unreturned guarantee passes it, while the basic "active" choice rejects it. */
  lemma AdvancedActiveIgnoresExpiry(row: GuaranteeRow, now: int)
    requires !row.guarantee.IsReturned() && row.guarantee.ExpiryDate() < now
    ensures AdvancedMatch(row, DefaultFilters.(status := NotReturned))
    ensures !BasicMatch(row, "", ActiveStatus, now)
  {
  }

  /** The date bounds read the issue date and cover the end date's whole day; the
      amount bounds are inclusive. */
  lemma AdvancedBoundsInclusive(row: GuaranteeRow, day: int)
    ensures day <= row.guarantee.IssueDate() < day + DayMs ==>
      AdvancedMatch(row, DefaultFilters.(startDate := Some(day), endDate := Some(day)))
    ensures row.guarantee.IssueDate() >= day + DayMs ==> !AdvancedMatch(row, DefaultFilters.(endDate := Some(day)))
    ensures AdvancedMatch(row, DefaultFilters.(minAmount := Some(row.guarantee.Amount()), maxAmount := Some(row.guarantee.Amount())))
  {
  }

  // ---------------------------------------------------------------------------
  // Summary cards

  predicate IsActive(row: GuaranteeRow, now: int) {
    StatusMatches(row.guarantee, ActiveStatus, now)
  }

  predicate IsExpiredRow(row: GuaranteeRow, now: int) {
    StatusMatches(row.guarantee, ExpiredStatus, now)
  }

  predicate IsExpiringRow(row: GuaranteeRow, now: int) {
    StatusMatches(row.guarantee, ExpiringStatus, now)
  }

  predicate IsReturnedRow(row: GuaranteeRow) {
    row.guarantee.IsReturned()
  }

  datatype Counts = Counts(total: nat, active: nat, expiring: nat, expired: nat, returned: nat)

  /** The cards' figures for one kind of guarantee. Every row is exactly one of
      active, expired and returned; the expiring ones are among the active ones. */
  function CountRows(rows: seq<GuaranteeRow>, now: int): (c: Counts)
    ensures c.total == |rows|
    ensures c.active + c.expired + c.returned == c.total
    ensures c.expiring <= c.active
  {
    ThreeWaySplit(rows, now);
    forall row | row in rows && IsExpiringRow(row, now) ensures IsActive(row, now) {
      NotBothExpiredAndExpiring(row.guarantee.ExpiryDate(), now);
    }
    CountWhereMono(rows, row => IsExpiringRow(row, now), row => IsActive(row, now));
    Counts(
      |rows|,
      CountWhere(rows, row => IsActive(row, now)),
      CountWhere(rows, row => IsExpiringRow(row, now)),
      CountWhere(rows, row => IsExpiredRow(row, now)),
      CountWhere(rows, IsReturnedRow))
  }

  lemma {:induction false} ThreeWaySplit(rows: seq<GuaranteeRow>, now: int)
    ensures CountWhere(rows, row => IsActive(row, now)) + CountWhere(rows, row => IsExpiredRow(row, now))
      + CountWhere(rows, IsReturnedRow) == |rows|
  {
    if |rows| > 0 {
      ThreeWaySplit(rows[..|rows| - 1], now);
    }
  }
}
