/** Entities of the construction-management application (the records held in the
    local store and passed between the screens), as values.

    Money and percentages are `real` (exact; the application uses IEEE doubles).
    Dates are integer millisecond timestamps. A field that the application reads
    with a `|| []` / `|| 'default'` fallback because older records may lack it is
    an `Option` here. */
module Domain {

  datatype Option<T> = None | Some(value: T) {
    function GetOr(default: T): T {
      match this
      case Some(v) => v
      case None => default
    }
  }

  datatype Result<T, E> = Ok(value: T) | Err(error: E)

  /** A selection list with an "all" entry (`'all'` or a specific value). */
  datatype Choice<T(==)> = All | Only(value: T) {
    predicate Accepts(x: T) {
      All? || value == x
    }
  }

  /** Operation['status'] */
  datatype Status =
    | InProgress
    | Completed
    | CompletedPartialPayment
    | CompletedFullPayment
    | CompletedOverpaid

  datatype DeductionType = Percentage | Fixed

  datatype PaymentType = Check | Cash

  /** Whether a guarantee or warranty belongs to the whole operation or to one item. */
  datatype RelatedTo = ToOperation | ToItem

  datatype ClientType = Owner | MainContractor | Consultant

  datatype Department = Accounts | Engineering | Management | OtherDepartment

  datatype Item = Item(
    id: string,
    code: string,
    description: string,
    amount: real,
    contractNumber: Option<string>,
    contractDate: Option<int>,
    executionPercentage: real,
    addedAt: int)

  datatype Deduction = Deduction(
    id: string,
    name: string,
    kind: DeductionType,
    value: real,
    isActive: bool)

  datatype GuaranteeCheck = GuaranteeCheck(
    id: string,
    checkNumber: string,
    amount: real,
    checkDate: int,
    deliveryDate: int,
    expiryDate: int,
    bank: string,
    isReturned: bool,
    returnDate: Option<int>,
    relatedTo: Option<RelatedTo>,
    relatedItemId: Option<string>)

  datatype Renewal = Renewal(id: string, renewalDate: int, newDueDate: int, notes: Option<string>)

  datatype GuaranteeLetter = GuaranteeLetter(
    id: string,
    bank: string,
    letterDate: int,
    letterNumber: string,
    amount: real,
    dueDate: int,
    renewals: seq<Renewal>,
    relatedTo: Option<RelatedTo>,
    relatedItemId: Option<string>,
    isReturned: bool,
    returnDate: Option<int>,
    notes: Option<string>)

  datatype Warranty = Warranty(
    id: string,
    certificateNumber: string,
    issueDate: int,
    startDate: int,
    endDate: int,
    warrantyPeriodMonths: int,
    description: string,
    relatedTo: RelatedTo,
    relatedItemId: Option<string>,
    isActive: bool,
    notes: Option<string>)

  datatype Payment = Payment(
    id: string,
    kind: PaymentType,
    amount: real,
    date: int,
    checkNumber: Option<string>,
    bank: Option<string>,
    receiptDate: Option<int>,
    notes: Option<string>)

  datatype Operation = Operation(
    id: string,
    code: string,
    name: string,
    clientId: string,
    items: seq<Item>,
    deductions: seq<Deduction>,
    guaranteeChecks: seq<GuaranteeCheck>,
    guaranteeLetters: seq<GuaranteeLetter>,
    warrantyCertificates: Option<seq<Warranty>>,
    receivedPayments: seq<Payment>,
    totalAmount: real,
    totalReceived: real,
    overallExecutionPercentage: real,
    status: Status,
    createdAt: int,
    updatedAt: int)
  {
    /** `operation.warrantyCertificates || []` */
    function Warranties(): seq<Warranty> {
      warrantyCertificates.GetOr([])
    }
  }

  datatype ContactData = ContactData(
    id: string,
    name: string,
    position: string,
    department: Department,
    phone: Option<string>,
    email: Option<string>,
    isMainContact: bool)

  datatype Client = Client(
    id: string,
    name: string,
    kind: Option<ClientType>,
    phone: Option<string>,
    email: Option<string>,
    address: Option<string>,
    contacts: Option<seq<ContactData>>,
    createdAt: int,
    updatedAt: int)

  /** Number of elements of `s` that satisfy `p` (`s.filter(p).length`). */
  function CountWhere<T>(s: seq<T>, p: T -> bool): nat {
    if |s| == 0 then 0
    else CountWhere(s[..|s| - 1], p) + (if p(s[|s| - 1]) then 1 else 0)
  }

  /** `s.filter(p)`, order kept. */
  function Filter<T>(s: seq<T>, p: T -> bool): (r: seq<T>)
    ensures |r| == CountWhere(s, p)
    ensures forall i :: 0 <= i < |r| ==> r[i] in s && p(r[i])
    ensures forall i :: 0 <= i < |s| && p(s[i]) ==> s[i] in r
  {
    if |s| == 0 then []
    else Filter(s[..|s| - 1], p) + (if p(s[|s| - 1]) then [s[|s| - 1]] else [])
  }

  /** `s.filter(p)` keeps every element that satisfies `p` and is an order-preserving
      sub-list of `s`: the kept positions form an increasing index map. */
  ghost predicate IsSublistVia<T>(r: seq<T>, s: seq<T>, idx: seq<nat>) {
    && |idx| == |r|
    && (forall k :: 0 <= k < |idx| ==> idx[k] < |s| && r[k] == s[idx[k]])
    && (forall k, l :: 0 <= k < l < |idx| ==> idx[k] < idx[l])
  }

  lemma {:induction false} FilterIsSublist<T>(s: seq<T>, p: T -> bool) returns (idx: seq<nat>)
    ensures IsSublistVia(Filter(s, p), s, idx)
    ensures forall j :: 0 <= j < |s| && p(s[j]) ==> j in idx
  {
    if |s| == 0 {
      idx := [];
    } else {
      var init, last := s[..|s| - 1], s[|s| - 1];
      var prev := FilterIsSublist(init, p);
      var front := Filter(init, p);
      if p(last) {
        idx := prev + [|s| - 1];
        assert Filter(s, p) == front + [last];
      } else {
        idx := prev;
        assert Filter(s, p) == front;
      }
      forall k | 0 <= k < |idx| ensures idx[k] < |s| && Filter(s, p)[k] == s[idx[k]] {
        if k < |prev| {
          assert idx[k] == prev[k] && front[k] == init[prev[k]] == s[prev[k]];
        }
      }
      forall j | 0 <= j < |s| && p(s[j]) ensures j in idx {
        if j < |s| - 1 {
          assert init[j] == s[j] && j in prev;
        }
      }
    }
  }

  lemma {:induction false} FilterAll<T>(s: seq<T>, p: T -> bool)
    requires forall x :: x in s ==> p(x)
    ensures Filter(s, p) == s
    ensures CountWhere(s, p) == |s|
  {
    forall i | 0 <= i < |s| ensures p(s[i]) {
      assert s[i] in s;
    }
    FilterAllAt(s, p);
  }

  /** `FilterAll` with the hypothesis stated position by position. */
  lemma {:induction false} FilterAllAt<T>(s: seq<T>, p: T -> bool)
    requires forall i :: 0 <= i < |s| ==> p(s[i])
    ensures Filter(s, p) == s
  {
    if |s| > 0 {
      var init := s[..|s| - 1];
      forall i | 0 <= i < |init| ensures p(init[i]) {
        assert init[i] == s[i];
      }
      FilterAllAt(init, p);
      assert init + [s[|s| - 1]] == s;
    }
  }

  /** Replacing one element changes the count only by that element's vote. */
  lemma {:induction false} CountWhereUpdate<T>(s: seq<T>, i: nat, x: T, p: T -> bool)
    requires i < |s|
    ensures CountWhere(s[i := x], p) + (if p(s[i]) then 1 else 0)
      == CountWhere(s, p) + (if p(x) then 1 else 0)
  {
    var t := s[i := x];
    if i == |s| - 1 {
      assert t[..|t| - 1] == s[..|s| - 1];
    } else {
      CountWhereUpdate(s[..|s| - 1], i, x, p);
      assert t[..|t| - 1] == s[..|s| - 1][i := x];
    }
  }

  lemma {:induction false} CountWhereAppend<T>(a: seq<T>, b: seq<T>, p: T -> bool)
    ensures CountWhere(a + b, p) == CountWhere(a, p) + CountWhere(b, p)
  {
    if |b| > 0 {
      var b' := b[..|b| - 1];
      assert (a + b)[..|a + b| - 1] == a + b';
      CountWhereAppend(a, b', p);
    } else {
      assert a + b == a;
    }
  }

  /** Counting by a predicate and by its complement covers the whole list. */
  lemma {:induction false} CountWhereSplit<T>(s: seq<T>, p: T -> bool, q: T -> bool)
    requires forall x :: x in s ==> (p(x) <==> !q(x))
    ensures CountWhere(s, p) + CountWhere(s, q) == |s|
  {
    if |s| > 0 {
      CountWhereSplit(s[..|s| - 1], p, q);
    }
  }

  /** A count by a stronger predicate is no larger. */
  lemma {:induction false} CountWhereMono<T>(s: seq<T>, p: T -> bool, q: T -> bool)
    requires forall x :: x in s && p(x) ==> q(x)
    ensures CountWhere(s, p) <= CountWhere(s, q)
  {
    if |s| > 0 {
      CountWhereMono(s[..|s| - 1], p, q);
    }
  }
}
