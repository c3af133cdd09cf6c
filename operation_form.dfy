/** The operation edit form (src/components/Operations/EditOperationForm.tsx).
    The form's hook state (the five lists and the basic fields) is an
    `OperationEditor` object whose handlers reassign one list each; the list
    edits themselves are the pure functions below, and submission is the pure
    function `Submit`. */
module OperationForm {
  import opened Domain
  import Calculations

  // ---------------------------------------------------------------------------
  // Generic list edits

  /** `s.filter((_, i) => i !== index)`: drops the element at `index`, if any. */
  function RemoveAt<T>(s: seq<T>, index: nat): (r: seq<T>)
    ensures index >= |s| ==> r == s
    ensures index < |s| ==> |r| == |s| - 1
    ensures forall j :: 0 <= j < index && j < |r| ==> r[j] == s[j]
    ensures forall j :: index <= j < |r| ==> r[j] == s[j + 1]
  {
    if index < |s| then s[..index] + s[index + 1..] else s
  }

  /** Removing at a valid index takes exactly that one element out of the multiset
      of elements. */
  lemma RemoveAtMultiset<T>(s: seq<T>, index: nat)
    requires index < |s|
    ensures multiset(RemoveAt(s, index)) + multiset{s[index]} == multiset(s)
  {
    assert s == s[..index] + [s[index]] + s[index + 1..];
  }

  // ---------------------------------------------------------------------------
  // Items

  /** The fields of an item the form lets the user edit. */
  datatype ItemField =
    | ItemDescription(description: string)
    | ItemAmount(amount: real)
    | ItemExecutionPercentage(percentage: real)
    | ItemContractNumber(contractNumber: Option<string>)
    | ItemContractDate(contractDate: Option<int>)

  /** `{ ...item, [field]: value }` */
  function SetItemField(item: Item, f: ItemField): (r: Item)
    ensures r.id == item.id && r.code == item.code && r.addedAt == item.addedAt
    ensures r.description == if f.ItemDescription? then f.description else item.description
    ensures r.amount == if f.ItemAmount? then f.amount else item.amount
    ensures r.executionPercentage == if f.ItemExecutionPercentage? then f.percentage else item.executionPercentage
    ensures r.contractNumber == if f.ItemContractNumber? then f.contractNumber else item.contractNumber
    ensures r.contractDate == if f.ItemContractDate? then f.contractDate else item.contractDate
  {
    match f
    case ItemDescription(v) => item.(description := v)
    case ItemAmount(v) => item.(amount := v)
    case ItemExecutionPercentage(v) => item.(executionPercentage := v)
    case ItemContractNumber(v) => item.(contractNumber := v)
    case ItemContractDate(v) => item.(contractDate := v)
  }

  /** addItem: one blank item appended, coded after the current length. */
  function AppendBlankItem(items: seq<Item>, id: string, formCode: string, now: int): (r: seq<Item>)
    ensures |r| == |items| + 1 && r[..|items|] == items
    ensures r[|items|].code == Calculations.ItemCode(formCode, |items|)
    ensures r[|items|].description == "" && r[|items|].amount == 0.0
    ensures r[|items|].executionPercentage == 0.0 && r[|items|].addedAt == now
  {
    items + [Item(id, Calculations.ItemCode(formCode, |items|), "", 0.0, None, None, 0.0, now)]
  }

  /** updateItem: one field of the item at `index` replaced. */
  function UpdateItemField(items: seq<Item>, index: nat, f: ItemField): (r: seq<Item>)
    requires index < |items|
    ensures |r| == |items|
    ensures forall j :: 0 <= j < |items| && j != index ==> r[j] == items[j]
    ensures r[index] == SetItemField(items[index], f)
  {
    items[index := SetItemField(items[index], f)]
  }

  /** Every item re-coded after its position. */
  function Recode(items: seq<Item>, formCode: string): (r: seq<Item>)
    ensures |r| == |items|
    ensures forall j :: 0 <= j < |items| ==> r[j] == items[j].(code := Calculations.ItemCode(formCode, j))
  {
    seq(|items|, j requires 0 <= j < |items| => items[j].(code := Calculations.ItemCode(formCode, j)))
  }

  /** removeItem: refused on a list of at most one item; otherwise the item at
      `index` is dropped and the others are re-coded after their new positions. */
  function RemoveItemRecoded(items: seq<Item>, index: nat, formCode: string): (r: seq<Item>)
    ensures |items| <= 1 ==> r == items
    ensures |items| > 1 && index < |items| ==> |r| == |items| - 1
    ensures |items| > 1 && index >= |items| ==> r == Recode(items, formCode)
    ensures |items| > 1 ==> forall j :: 0 <= j < |r| ==> r[j].code == Calculations.ItemCode(formCode, j)
    ensures |items| > 1 && index < |items| ==> forall j :: 0 <= j < |r| ==>
      r[j] == (if j < index then items[j] else items[j + 1]).(code := r[j].code)
  {
    if |items| > 1 then Recode(RemoveAt(items, index), formCode) else items
  }

  /** After a removal the item codes are pairwise distinct. */
  lemma RemoveItemCodesDistinct(items: seq<Item>, index: nat, formCode: string)
    requires |items| > 1
    ensures var r := RemoveItemRecoded(items, index, formCode);
      forall j, k :: 0 <= j < k < |r| ==> r[j].code != r[k].code
  {
    var r := RemoveItemRecoded(items, index, formCode);
    forall j, k | 0 <= j < k < |r| ensures r[j].code != r[k].code {
      if r[j].code == r[k].code {
        Calculations.ItemCodeInjective(formCode, j, k);
      }
    }
  }

  /** Two lists whose items agree on amount and percentage, position by position. */
  predicate SameFigures(a: seq<Item>, b: seq<Item>) {
    |a| == |b|
    && forall j :: 0 <= j < |a| ==>
      a[j].amount == b[j].amount && a[j].executionPercentage == b[j].executionPercentage
  }

  /** The totals depend only on the amounts and percentages, position by position. */
  lemma {:induction false} TotalsOnlyReadFigures(a: seq<Item>, b: seq<Item>)
    requires SameFigures(a, b)
    ensures Calculations.OperationTotal(a) == Calculations.OperationTotal(b)
    ensures Calculations.ExecutedTotal(a) == Calculations.ExecutedTotal(b)
  {
    if |a| > 0 {
      TotalsOnlyReadFigures(a[..|a| - 1], b[..|b| - 1]);
    }
  }

  /** Re-coding does not touch the totals. */
  lemma OperationTotalRecode(items: seq<Item>, formCode: string)
    ensures Calculations.OperationTotal(Recode(items, formCode)) == Calculations.OperationTotal(items)
    ensures Calculations.ExecutedTotal(Recode(items, formCode)) == Calculations.ExecutedTotal(items)
  {
    TotalsOnlyReadFigures(Recode(items, formCode), items);
  }

  /** Taking one item out of the list takes exactly its amount out of the
      contract total and its executed value out of the executed total. */
  lemma TotalsRemoveAt(items: seq<Item>, index: nat)
    requires index < |items|
    ensures Calculations.OperationTotal(RemoveAt(items, index))
      == Calculations.OperationTotal(items) - items[index].amount
    ensures Calculations.ExecutedTotal(RemoveAt(items, index))
      == Calculations.ExecutedTotal(items) - Calculations.ItemTotal(items[index])
  {
    var x := items[index];
    assert items == (items[..index] + [x]) + items[index + 1..];
    Calculations.OperationTotalAppend(items[..index] + [x], items[index + 1..]);
    Calculations.OperationTotalAppend(items[..index], [x]);
    Calculations.OperationTotalAppend(items[..index], items[index + 1..]);
    Calculations.ExecutedTotalAppend(items[..index] + [x], items[index + 1..]);
    Calculations.ExecutedTotalAppend(items[..index], [x]);
    Calculations.ExecutedTotalAppend(items[..index], items[index + 1..]);
    assert [x][..0] == [];
  }

  /** Removing an item (when allowed) lowers the contract total by its amount;
      re-coding does not touch the totals. */
  lemma RemoveItemTotal(items: seq<Item>, index: nat, formCode: string)
    requires 1 < |items| && index < |items|
    ensures Calculations.OperationTotal(RemoveItemRecoded(items, index, formCode))
      == Calculations.OperationTotal(items) - items[index].amount
  {
    OperationTotalRecode(RemoveAt(items, index), formCode);
    TotalsRemoveAt(items, index);
  }

  /** Adding a blank item changes neither the contract nor the executed total. */
  lemma AddItemKeepsTotals(items: seq<Item>, id: string, formCode: string, now: int)
    ensures Calculations.OperationTotal(AppendBlankItem(items, id, formCode, now)) == Calculations.OperationTotal(items)
    ensures Calculations.ExecutedTotal(AppendBlankItem(items, id, formCode, now)) == Calculations.ExecutedTotal(items)
  {
    var r := AppendBlankItem(items, id, formCode, now);
    assert r[..|r| - 1] == items;
  }

  /** Replacing one item changes the contract total by the difference of the amounts. */
  lemma UpdateItemTotal(items: seq<Item>, index: nat, f: ItemField)
    requires index < |items|
    ensures Calculations.OperationTotal(UpdateItemField(items, index, f))
      == Calculations.OperationTotal(items) - items[index].amount + SetItemField(items[index], f).amount
  {
    var r := UpdateItemField(items, index, f);
    TotalsRemoveAt(items, index);
    TotalsRemoveAt(r, index);
    assert RemoveAt(r, index) == RemoveAt(items, index);
  }

  // ---------------------------------------------------------------------------
  // Deductions

  datatype DeductionField =
    | DeductionName(name: string)
    | DeductionKind(kind: DeductionType)
    | DeductionValue(value: real)
    | DeductionActive(isActive: bool)

  function SetDeductionField(d: Deduction, f: DeductionField): (r: Deduction)
    ensures r.id == d.id
    ensures r.name == if f.DeductionName? then f.name else d.name
    ensures r.kind == if f.DeductionKind? then f.kind else d.kind
    ensures r.value == if f.DeductionValue? then f.value else d.value
    ensures r.isActive == if f.DeductionActive? then f.isActive else d.isActive
  {
    match f
    case DeductionName(v) => d.(name := v)
    case DeductionKind(v) => d.(kind := v)
    case DeductionValue(v) => d.(value := v)
    case DeductionActive(v) => d.(isActive := v)
  }

  /** addDeduction: an active percentage deduction of 0 appended. */
  function AppendBlankDeduction(ds: seq<Deduction>, id: string): (r: seq<Deduction>)
    ensures |r| == |ds| + 1 && r[..|ds|] == ds
    ensures r[|ds|].isActive && r[|ds|].kind == Percentage && r[|ds|].value == 0.0
  {
    ds + [Deduction(id, "", Percentage, 0.0, true)]
  }

  function UpdateDeductionField(ds: seq<Deduction>, index: nat, f: DeductionField): (r: seq<Deduction>)
    requires index < |ds|
    ensures |r| == |ds|
    ensures forall j :: 0 <= j < |ds| && j != index ==> r[j] == ds[j]
    ensures r[index] == SetDeductionField(ds[index], f)
  {
    ds[index := SetDeductionField(ds[index], f)]
  }

  /** A freshly added deduction takes nothing, whatever the executed total. */
  lemma AddDeductionKeepsTotal(e: real, ds: seq<Deduction>, id: string)
    ensures Calculations.Deductions(e, AppendBlankDeduction(ds, id)) == Calculations.Deductions(e, ds)
  {
    var r := AppendBlankDeduction(ds, id);
    assert r[..|r| - 1] == ds;
  }

  /** Deactivating a deduction takes exactly its amount out of the deductions total. */
  lemma DeactivateDeduction(e: real, ds: seq<Deduction>, index: nat)
    requires index < |ds|
    ensures Calculations.Deductions(e, UpdateDeductionField(ds, index, DeductionActive(false)))
      == Calculations.Deductions(e, ds) - Calculations.DeductionAmount(e, ds[index])
  {
    var r := UpdateDeductionField(ds, index, DeductionActive(false));
    Calculations.DeductionsRemoveAt(e, ds, index);
    Calculations.DeductionsRemoveAt(e, r, index);
    assert r[..index] + r[index + 1..] == ds[..index] + ds[index + 1..];
  }

  // ---------------------------------------------------------------------------
  // Guarantee checks and letters

  datatype CheckField =
    | CheckNumber(checkNumber: string)
    | CheckAmount(amount: real)
    | CheckBank(bank: string)
    | CheckDate(checkDate: int)
    | CheckDeliveryDate(deliveryDate: int)
    | CheckExpiryDate(expiryDate: int)
    | CheckReturned(isReturned: bool)
    | CheckReturnDate(returnDate: Option<int>)

  function SetCheckField(c: GuaranteeCheck, f: CheckField): (r: GuaranteeCheck)
    ensures r.id == c.id && r.relatedTo == c.relatedTo && r.relatedItemId == c.relatedItemId
    ensures r.checkNumber == if f.CheckNumber? then f.checkNumber else c.checkNumber
    ensures r.amount == if f.CheckAmount? then f.amount else c.amount
    ensures r.bank == if f.CheckBank? then f.bank else c.bank
    ensures r.checkDate == if f.CheckDate? then f.checkDate else c.checkDate
    ensures r.deliveryDate == if f.CheckDeliveryDate? then f.deliveryDate else c.deliveryDate
    ensures r.expiryDate == if f.CheckExpiryDate? then f.expiryDate else c.expiryDate
    ensures r.isReturned == if f.CheckReturned? then f.isReturned else c.isReturned
    ensures r.returnDate == if f.CheckReturnDate? then f.returnDate else c.returnDate
  {
    match f
    case CheckNumber(v) => c.(checkNumber := v)
    case CheckAmount(v) => c.(amount := v)
    case CheckBank(v) => c.(bank := v)
    case CheckDate(v) => c.(checkDate := v)
    case CheckDeliveryDate(v) => c.(deliveryDate := v)
    case CheckExpiryDate(v) => c.(expiryDate := v)
    case CheckReturned(v) => c.(isReturned := v)
    case CheckReturnDate(v) => c.(returnDate := v)
  }

  /** addGuaranteeCheck: a blank, unreturned, operation-level check dated `today`.
      The expiry one calendar year later is a parameter. */
  function AppendBlankCheck(cs: seq<GuaranteeCheck>, id: string, today: int, expiry: int): (r: seq<GuaranteeCheck>)
    ensures |r| == |cs| + 1 && r[..|cs|] == cs
    ensures !r[|cs|].isReturned && r[|cs|].relatedTo == Some(ToOperation) && r[|cs|].amount == 0.0
    ensures r[|cs|].checkDate == today && r[|cs|].deliveryDate == today && r[|cs|].expiryDate == expiry
  {
    cs + [GuaranteeCheck(id, "", 0.0, today, today, expiry, "", false, None, Some(ToOperation), None)]
  }

  function UpdateCheckField(cs: seq<GuaranteeCheck>, index: nat, f: CheckField): (r: seq<GuaranteeCheck>)
    requires index < |cs|
    ensures |r| == |cs|
    ensures forall j :: 0 <= j < |cs| && j != index ==> r[j] == cs[j]
    ensures r[index] == SetCheckField(cs[index], f)
  {
    cs[index := SetCheckField(cs[index], f)]
  }

  /** Only a change of the return flag changes how many checks are outstanding;
      returning an outstanding check lowers that number by one. */
  lemma ReturnCheckOutstanding(cs: seq<GuaranteeCheck>, index: nat, f: CheckField)
    requires index < |cs|
    ensures var outstanding := (c: GuaranteeCheck) => !c.isReturned;
      && (!f.CheckReturned? ==> CountWhere(UpdateCheckField(cs, index, f), outstanding) == CountWhere(cs, outstanding))
      && (f == CheckReturned(true) && !cs[index].isReturned ==>
            CountWhere(UpdateCheckField(cs, index, f), outstanding) == CountWhere(cs, outstanding) - 1)
  {
    CountWhereUpdate(cs, index, SetCheckField(cs[index], f), (c: GuaranteeCheck) => !c.isReturned);
  }

  datatype LetterField =
    | LetterBank(bank: string)
    | LetterNumber(letterNumber: string)
    | LetterAmount(amount: real)
    | LetterDate(letterDate: int)
    | LetterDueDate(dueDate: int)
    | LetterRelatedTo(relatedTo: Option<RelatedTo>)
    | LetterReturned(isReturned: bool)
    | LetterReturnDate(returnDate: Option<int>)
    | LetterNotes(notes: Option<string>)

  function SetLetterField(l: GuaranteeLetter, f: LetterField): (r: GuaranteeLetter)
    ensures r.id == l.id && r.renewals == l.renewals && r.relatedItemId == l.relatedItemId
    ensures r.bank == if f.LetterBank? then f.bank else l.bank
    ensures r.letterNumber == if f.LetterNumber? then f.letterNumber else l.letterNumber
    ensures r.amount == if f.LetterAmount? then f.amount else l.amount
    ensures r.letterDate == if f.LetterDate? then f.letterDate else l.letterDate
    ensures r.dueDate == if f.LetterDueDate? then f.dueDate else l.dueDate
    ensures r.relatedTo == if f.LetterRelatedTo? then f.relatedTo else l.relatedTo
    ensures r.isReturned == if f.LetterReturned? then f.isReturned else l.isReturned
    ensures r.returnDate == if f.LetterReturnDate? then f.returnDate else l.returnDate
    ensures r.notes == if f.LetterNotes? then f.notes else l.notes
  {
    match f
    case LetterBank(v) => l.(bank := v)
    case LetterNumber(v) => l.(letterNumber := v)
    case LetterAmount(v) => l.(amount := v)
    case LetterDate(v) => l.(letterDate := v)
    case LetterDueDate(v) => l.(dueDate := v)
    case LetterRelatedTo(v) => l.(relatedTo := v)
    case LetterReturned(v) => l.(isReturned := v)
    case LetterReturnDate(v) => l.(returnDate := v)
    case LetterNotes(v) => l.(notes := v)
  }

  /** addGuaranteeLetter: a blank, unreturned, operation-level letter without
      renewals, dated `today`; the due date a year later is a parameter. */
  function AppendBlankLetter(ls: seq<GuaranteeLetter>, id: string, today: int, due: int): (r: seq<GuaranteeLetter>)
    ensures |r| == |ls| + 1 && r[..|ls|] == ls
    ensures !r[|ls|].isReturned && r[|ls|].relatedTo == Some(ToOperation) && r[|ls|].renewals == []
    ensures r[|ls|].letterDate == today && r[|ls|].dueDate == due && r[|ls|].amount == 0.0
  {
    ls + [GuaranteeLetter(id, "", today, "", 0.0, due, [], Some(ToOperation), None, false, None, None)]
  }

  function UpdateLetterField(ls: seq<GuaranteeLetter>, index: nat, f: LetterField): (r: seq<GuaranteeLetter>)
    requires index < |ls|
    ensures |r| == |ls|
    ensures forall j :: 0 <= j < |ls| && j != index ==> r[j] == ls[j]
    ensures r[index] == SetLetterField(ls[index], f)
  {
    ls[index := SetLetterField(ls[index], f)]
  }

  /** Only a change of the return flag changes how many letters are outstanding;
      returning an outstanding letter lowers that number by one. */
  lemma ReturnLetterOutstanding(ls: seq<GuaranteeLetter>, index: nat, f: LetterField)
    requires index < |ls|
    ensures var outstanding := (l: GuaranteeLetter) => !l.isReturned;
      && (!f.LetterReturned? ==> CountWhere(UpdateLetterField(ls, index, f), outstanding) == CountWhere(ls, outstanding))
      && (f == LetterReturned(true) && !ls[index].isReturned ==>
            CountWhere(UpdateLetterField(ls, index, f), outstanding) == CountWhere(ls, outstanding) - 1)
  {
    CountWhereUpdate(ls, index, SetLetterField(ls[index], f), (l: GuaranteeLetter) => !l.isReturned);
  }

  // ---------------------------------------------------------------------------
  // Received payments

  datatype PaymentField =
    | PaymentKind(kind: PaymentType)
    | PaymentAmount(amount: real)
    | PaymentDate(date: int)
    | PaymentCheckNumber(checkNumber: Option<string>)
    | PaymentBank(bank: Option<string>)
    | PaymentReceiptDate(receiptDate: Option<int>)
    | PaymentNotes(notes: Option<string>)

  function SetPaymentField(p: Payment, f: PaymentField): (r: Payment)
    ensures r.id == p.id
    ensures r.kind == if f.PaymentKind? then f.kind else p.kind
    ensures r.amount == if f.PaymentAmount? then f.amount else p.amount
    ensures r.date == if f.PaymentDate? then f.date else p.date
    ensures r.checkNumber == if f.PaymentCheckNumber? then f.checkNumber else p.checkNumber
    ensures r.bank == if f.PaymentBank? then f.bank else p.bank
    ensures r.receiptDate == if f.PaymentReceiptDate? then f.receiptDate else p.receiptDate
    ensures r.notes == if f.PaymentNotes? then f.notes else p.notes
  {
    match f
    case PaymentKind(v) => p.(kind := v)
    case PaymentAmount(v) => p.(amount := v)
    case PaymentDate(v) => p.(date := v)
    case PaymentCheckNumber(v) => p.(checkNumber := v)
    case PaymentBank(v) => p.(bank := v)
    case PaymentReceiptDate(v) => p.(receiptDate := v)
    case PaymentNotes(v) => p.(notes := v)
  }

  /** addReceivedPayment: a cash payment of 0 dated `now`. */
  function AppendBlankPayment(ps: seq<Payment>, id: string, now: int): (r: seq<Payment>)
    ensures |r| == |ps| + 1 && r[..|ps|] == ps
    ensures r[|ps|].kind == Cash && r[|ps|].amount == 0.0 && r[|ps|].date == now && r[|ps|].receiptDate == None
  {
    ps + [Payment(id, Cash, 0.0, now, None, None, None, None)]
  }

  function UpdatePaymentField(ps: seq<Payment>, index: nat, f: PaymentField): (r: seq<Payment>)
    requires index < |ps|
    ensures |r| == |ps|
    ensures forall j :: 0 <= j < |ps| && j != index ==> r[j] == ps[j]
    ensures r[index] == SetPaymentField(ps[index], f)
  {
    ps[index := SetPaymentField(ps[index], f)]
  }

  /** `receivedPayments.reduce((sum, p) => sum + p.amount, 0)` */
  function TotalReceived(ps: seq<Payment>): real {
    if |ps| == 0 then 0.0 else TotalReceived(ps[..|ps| - 1]) + ps[|ps| - 1].amount
  }

  /** The received total counts every payment, whatever its type and whether or
      not it has a receipt date: it is the sum over any split of the list. */
  lemma {:induction false} TotalReceivedSplit(ps: seq<Payment>, p: Payment -> bool)
    ensures TotalReceived(ps)
      == TotalReceived(Filter(ps, p)) + TotalReceived(Filter(ps, x => !p(x)))
  {
    if |ps| > 0 {
      var init := ps[..|ps| - 1];
      var last := ps[|ps| - 1];
      TotalReceivedSplit(init, p);
      var q := x => !p(x);
      if p(last) {
        assert Filter(ps, p)[..|Filter(ps, p)| - 1] == Filter(init, p);
        assert Filter(ps, q) == Filter(init, q);
      } else {
        assert Filter(ps, q)[..|Filter(ps, q)| - 1] == Filter(init, q);
        assert Filter(ps, p) == Filter(init, p);
      }
    }
  }

  /** Editing one payment changes the received total by the difference in that
      payment's amount; any other field leaves the total as it was. */
  lemma {:induction false} UpdatePaymentTotal(ps: seq<Payment>, index: nat, f: PaymentField)
    requires index < |ps|
    ensures TotalReceived(UpdatePaymentField(ps, index, f))
      == TotalReceived(ps) - ps[index].amount + SetPaymentField(ps[index], f).amount
    ensures !f.PaymentAmount? ==> TotalReceived(UpdatePaymentField(ps, index, f)) == TotalReceived(ps)
  {
    var r := UpdatePaymentField(ps, index, f);
    if index == |ps| - 1 {
      assert r[..|r| - 1] == ps[..|ps| - 1];
    } else {
      UpdatePaymentTotal(ps[..|ps| - 1], index, f);
      assert r[..|r| - 1] == UpdatePaymentField(ps[..|ps| - 1], index, f);
    }
  }

  /** A freshly added payment of 0 leaves the received total unchanged. */
  lemma AddReceivedPaymentKeepsTotal(ps: seq<Payment>, id: string, now: int)
    ensures TotalReceived(AppendBlankPayment(ps, id, now)) == TotalReceived(ps)
  {
    var r := AppendBlankPayment(ps, id, now);
    assert r[..|r| - 1] == ps;
  }

  // ---------------------------------------------------------------------------
  // Submission

  datatype SubmitError = MissingClientOrName | InvalidItem

  /** An item the form accepts: a description and a positive amount. */
  predicate ValidItem(item: Item) {
    item.description != "" && item.amount > 0.0
  }

  /** handleSubmit: validation, then the derived totals. The status is computed from
      the ORIGINAL operation overlaid with the new items, deductions, percentage and
      received total, so it still reads the previous `totalAmount`. `id`,
      `createdAt` and the warranty certificates come from the original. */
  function Submit(
    original: Operation, clientId: string, name: string, code: string,
    items: seq<Item>, deductions: seq<Deduction>, checks: seq<GuaranteeCheck>,
    letters: seq<GuaranteeLetter>, payments: seq<Payment>, now: int): (r: Result<Operation, SubmitError>)
    ensures r.Err? <==> clientId == "" || name == "" || exists i :: 0 <= i < |items| && !ValidItem(items[i])
    ensures r == Err(MissingClientOrName) <==> clientId == "" || name == ""
    ensures r.Ok? ==> forall i :: 0 <= i < |items| ==> ValidItem(items[i])
    ensures r.Ok? ==>
      && r.value.id == original.id && r.value.createdAt == original.createdAt
      && r.value.warrantyCertificates == original.warrantyCertificates
      && r.value.clientId == clientId && r.value.name == name && r.value.code == code
      && r.value.items == items && r.value.deductions == deductions
      && r.value.guaranteeChecks == checks && r.value.guaranteeLetters == letters
      && r.value.receivedPayments == payments
      && r.value.totalAmount == Calculations.OperationTotal(items)
      && r.value.overallExecutionPercentage == Calculations.OverallExecutionPercentage(items)
      && r.value.totalReceived == TotalReceived(payments)
      && r.value.updatedAt == now
    ensures r.Ok? ==> r.value.status == Calculations.OperationStatus(r.value.(totalAmount := original.totalAmount))
  {
    if clientId == "" || name == "" then Err(MissingClientOrName)
    else if exists i :: 0 <= i < |items| && !ValidItem(items[i]) then Err(InvalidItem)
    else
      var totalAmount := Calculations.OperationTotal(items);
      var overallExecutionPercentage := Calculations.OverallExecutionPercentage(items);
      var totalReceived := TotalReceived(payments);
      var status := Calculations.OperationStatus(original.(
        items := items,
        deductions := deductions,
        overallExecutionPercentage := overallExecutionPercentage,
        totalReceived := totalReceived));
      Ok(original.(
        code := code,
        name := name,
        clientId := clientId,
        items := items,
        deductions := deductions,
        guaranteeChecks := checks,
        guaranteeLetters := letters,
        receivedPayments := payments,
        totalAmount := totalAmount,
        totalReceived := totalReceived,
        overallExecutionPercentage := overallExecutionPercentage,
        status := status,
        updatedAt := now))
  }

  /** Positive amounts sum to a positive total. */
  lemma {:induction false} PositiveAmountsPositiveTotal(items: seq<Item>)
    requires |items| > 0
    requires forall i :: 0 <= i < |items| ==> items[i].amount > 0.0
    ensures Calculations.OperationTotal(items) > 0.0
  {
    if |items| > 1 {
      PositiveAmountsPositiveTotal(items[..|items| - 1]);
    } else {
      assert items[..0] == [];
    }
  }

  /** The items of an accepted submission (see `Submit`) all pass `ValidItem`; when
      there is at least one, the contract total is positive, so the execution
      percentage is a true ratio and not the zero fallback. */
  lemma ValidItemsPositiveTotal(items: seq<Item>)
    requires |items| > 0
    requires forall i :: 0 <= i < |items| ==> ValidItem(items[i])
    ensures Calculations.OperationTotal(items) > 0.0
    ensures Calculations.OverallExecutionPercentage(items) * Calculations.OperationTotal(items)
      == Calculations.ExecutedTotal(items) * 100.0
  {
    PositiveAmountsPositiveTotal(items);
  }

  /** The status the form computes can disagree with the status of the operation it
      saves: the original contract total was 100, the new items total 1000, nothing
      is deducted and 1000 was received. The form says "overpaid" while the saved
      figures describe a full payment. */
  lemma SubmitStatusUsesPreviousTotal(original: Operation, payments: seq<Payment>)
    requires original.totalAmount == 100.0
    requires payments == [Payment("p", Cash, 1000.0, 0, None, None, None, None)]
    ensures var items := [Item("i", "OP-001", "works", 1000.0, None, None, 100.0, 0)];
      var r := Submit(original, "c", "n", "OP", items, [], [], [], payments, 0);
      && r.Ok?
      && r.value.status == CompletedOverpaid
      && Calculations.OperationStatus(r.value) == CompletedFullPayment
  {
    var items := [Item("i", "OP-001", "works", 1000.0, None, None, 100.0, 0)];
    assert items[..0] == [];
    assert payments[..0] == [];
    assert ValidItem(items[0]);
    assert Calculations.OperationTotal(items) == 1000.0;
    assert Calculations.ExecutedTotal(items) == 1000.0;
    assert TotalReceived(payments) == 1000.0;
  }

  // ---------------------------------------------------------------------------
  // The form's state

  /** The edit form's state for one operation. Each handler reassigns one list. */
  class OperationEditor {
    const original: Operation
    var clientId: string
    var name: string
    var code: string
    var items: seq<Item>
    var deductions: seq<Deduction>
    var guaranteeChecks: seq<GuaranteeCheck>
    var guaranteeLetters: seq<GuaranteeLetter>
    var receivedPayments: seq<Payment>

    /** The form opened on `operation`: every field starts from it. */
    constructor (operation: Operation)
      ensures original == operation
      ensures clientId == operation.clientId && name == operation.name && code == operation.code
      ensures items == operation.items && deductions == operation.deductions
      ensures guaranteeChecks == operation.guaranteeChecks && guaranteeLetters == operation.guaranteeLetters
      ensures receivedPayments == operation.receivedPayments
    {
      original := operation;
      clientId := operation.clientId;
      name := operation.name;
      code := operation.code;
      items := operation.items;
      deductions := operation.deductions;
      guaranteeChecks := operation.guaranteeChecks;
      guaranteeLetters := operation.guaranteeLetters;
      receivedPayments := operation.receivedPayments;
    }

    /** The client selector of the basic section. */
    method SetClient(clientId': string)
      modifies this`clientId
      ensures clientId == clientId'
    {
      clientId := clientId';
    }

    /** The name input of the basic section. */
    method SetName(name': string)
      modifies this`name
      ensures name == name'
    {
      name := name';
    }

    method AddItem(id: string, now: int)
      modifies this`items
      ensures items == AppendBlankItem(old(items), id, code, now)
    {
      items := AppendBlankItem(items, id, code, now);
    }

    method UpdateItem(index: nat, f: ItemField)
      requires index < |items|
      modifies this`items
      ensures items == UpdateItemField(old(items), index, f)
    {
      items := UpdateItemField(items, index, f);
    }

    method RemoveItem(index: nat)
      modifies this`items
      ensures items == RemoveItemRecoded(old(items), index, code)
    {
      items := RemoveItemRecoded(items, index, code);
    }

    method AddDeduction(id: string)
      modifies this`deductions
      ensures deductions == AppendBlankDeduction(old(deductions), id)
    {
      deductions := AppendBlankDeduction(deductions, id);
    }

    method UpdateDeduction(index: nat, f: DeductionField)
      requires index < |deductions|
      modifies this`deductions
      ensures deductions == UpdateDeductionField(old(deductions), index, f)
    {
      deductions := UpdateDeductionField(deductions, index, f);
    }

    method RemoveDeduction(index: nat)
      modifies this`deductions
      ensures deductions == RemoveAt(old(deductions), index)
    {
      deductions := RemoveAt(deductions, index);
    }

    method AddGuaranteeCheck(id: string, today: int, expiry: int)
      modifies this`guaranteeChecks
      ensures guaranteeChecks == AppendBlankCheck(old(guaranteeChecks), id, today, expiry)
    {
      guaranteeChecks := AppendBlankCheck(guaranteeChecks, id, today, expiry);
    }

    method UpdateGuaranteeCheck(index: nat, f: CheckField)
      requires index < |guaranteeChecks|
      modifies this`guaranteeChecks
      ensures guaranteeChecks == UpdateCheckField(old(guaranteeChecks), index, f)
    {
      guaranteeChecks := UpdateCheckField(guaranteeChecks, index, f);
    }

    method RemoveGuaranteeCheck(index: nat)
      modifies this`guaranteeChecks
      ensures guaranteeChecks == RemoveAt(old(guaranteeChecks), index)
    {
      guaranteeChecks := RemoveAt(guaranteeChecks, index);
    }

    method AddGuaranteeLetter(id: string, today: int, due: int)
      modifies this`guaranteeLetters
      ensures guaranteeLetters == AppendBlankLetter(old(guaranteeLetters), id, today, due)
    {
      guaranteeLetters := AppendBlankLetter(guaranteeLetters, id, today, due);
    }

    method UpdateGuaranteeLetter(index: nat, f: LetterField)
      requires index < |guaranteeLetters|
      modifies this`guaranteeLetters
      ensures guaranteeLetters == UpdateLetterField(old(guaranteeLetters), index, f)
    {
      guaranteeLetters := UpdateLetterField(guaranteeLetters, index, f);
    }

    method RemoveGuaranteeLetter(index: nat)
      modifies this`guaranteeLetters
      ensures guaranteeLetters == RemoveAt(old(guaranteeLetters), index)
    {
      guaranteeLetters := RemoveAt(guaranteeLetters, index);
    }

    method AddReceivedPayment(id: string, now: int)
      modifies this`receivedPayments
      ensures receivedPayments == AppendBlankPayment(old(receivedPayments), id, now)
    {
      receivedPayments := AppendBlankPayment(receivedPayments, id, now);
    }

    method UpdateReceivedPayment(index: nat, f: PaymentField)
      requires index < |receivedPayments|
      modifies this`receivedPayments
      ensures receivedPayments == UpdatePaymentField(old(receivedPayments), index, f)
    {
      receivedPayments := UpdatePaymentField(receivedPayments, index, f);
    }

    method RemoveReceivedPayment(index: nat)
      modifies this`receivedPayments
      ensures receivedPayments == RemoveAt(old(receivedPayments), index)
    {
      receivedPayments := RemoveAt(receivedPayments, index);
    }

    /** handleSubmit: the operation handed to `onSave`, or why none is. */
    method HandleSubmit(now: int) returns (r: Result<Operation, SubmitError>)
      ensures r == Submit(original, clientId, name, code, items, deductions,
                          guaranteeChecks, guaranteeLetters, receivedPayments, now)
    {
      r := Submit(original, clientId, name, code, items, deductions,
                  guaranteeChecks, guaranteeLetters, receivedPayments, now);
    }
  }
}
