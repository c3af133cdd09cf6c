/** The warranty certificates screen (src/components/Warranties/WarrantiesManager.tsx):
    the certificates of all operations as tagged rows, their status against the
    current time, the filter and the summary cards, and the submit and delete
    handlers, which produce the updated operation handed to the operation store. */
module Warranties {
  import opened Domain
  import Text
  import App
  import Reports
  import OperationsList
  import Guarantees

  /** A certificate with the operation and client it belongs to. */
  datatype WarrantyRow = WarrantyRow(
    warranty: Warranty,
    operationId: string,
    operationName: string,
    operationCode: string,
    clientId: string,
    clientName: string)

  function RowsOf(op: Operation, clients: seq<Client>): (r: seq<WarrantyRow>)
    ensures |r| == |op.Warranties()|
    ensures forall j :: 0 <= j < |r| ==>
      (r[j].warranty == op.Warranties()[j] && r[j].operationId == op.id
       && r[j].clientName == OperationsList.ClientName(clients, op.clientId))
  {
    var ws := op.Warranties();
    seq(|ws|, j requires 0 <= j < |ws| =>
      WarrantyRow(ws[j], op.id, op.name, op.code, op.clientId, OperationsList.ClientName(clients, op.clientId)))
  }

  /** allWarranties: every operation's certificates (none when the field is
      missing), operation by operation. */
  function AllWarranties(ops: seq<Operation>, clients: seq<Client>): (r: seq<WarrantyRow>)
    ensures |r| == App.CountOver(ops, Reports.WarrantyCount)
  {
    if |ops| == 0 then [] else AllWarranties(ops[..|ops| - 1], clients) + RowsOf(ops[|ops| - 1], clients)
  }

  /** Listing the certificates of two runs of operations lists those of the first
      run, then those of the second. */
  lemma {:induction false} AllWarrantiesAppend(a: seq<Operation>, b: seq<Operation>, clients: seq<Client>)
    ensures AllWarranties(a + b, clients) == AllWarranties(a, clients) + AllWarranties(b, clients)
  {
    if |b| == 0 {
      assert a + b == a;
    } else {
      var front, last := b[..|b| - 1], b[|b| - 1];
      assert a + b == (a + front) + [last];
      AllWarrantiesAppend(a, front, clients);
      AllWarrantiesSnoc(a + front, last, clients);
      AllWarrantiesSnoc(front, last, clients);
      var first, middle, rows := AllWarranties(a, clients), AllWarranties(front, clients), RowsOf(last, clients);
      assert (first + middle) + rows == first + (middle + rows);
    }
  }

  /** One more operation adds its own rows at the end. */
  lemma AllWarrantiesSnoc(ops: seq<Operation>, op: Operation, clients: seq<Client>)
    ensures AllWarranties(ops + [op], clients) == AllWarranties(ops, clients) + RowsOf(op, clients)
  {
    assert (ops + [op])[..|ops|] == ops;
  }

  /** One operation lists exactly its own certificates, in order. */
  lemma AllWarrantiesSingle(op: Operation, clients: seq<Client>)
    ensures AllWarranties([op], clients) == RowsOf(op, clients)
  {
    assert [op][..0] == [];
  }

  // ---------------------------------------------------------------------------
  // Status, filter and cards

  /** In force: marked active and its end date not yet passed. */
  predicate InForce(w: Warranty, now: int) {
    w.isActive && !Guarantees.IsExpired(w.endDate, now)
  }

  datatype StatusFilter = AnyStatus | ActiveStatus | ExpiredStatus

  predicate StatusMatches(w: Warranty, f: StatusFilter, now: int) {
    match f
    case AnyStatus => true
    case ActiveStatus => InForce(w, now)
    case ExpiredStatus => !InForce(w, now)
  }

  /** The "active" and "expired" choices split the certificates: each certificate
      matches exactly one of them. */
  lemma ActiveExpiredComplementary(w: Warranty, now: int)
    ensures StatusMatches(w, ActiveStatus, now) <==> !StatusMatches(w, ExpiredStatus, now)
    ensures StatusMatches(w, ActiveStatus, now) <==> InForce(w, now)
  {
  }

  predicate SearchMatches(row: WarrantyRow, term: string) {
    || Text.ContainsIgnoreCase(row.warranty.certificateNumber, term)
    || Text.ContainsIgnoreCase(row.warranty.description, term)
    || Text.ContainsIgnoreCase(row.clientName, term)
    || Text.ContainsIgnoreCase(row.operationName, term)
  }

  /** filteredWarranties */
  function FilteredWarranties(rows: seq<WarrantyRow>, term: string, f: StatusFilter, now: int): (r: seq<WarrantyRow>)
    ensures forall i :: 0 <= i < |r| ==> r[i] in rows && SearchMatches(r[i], term) && StatusMatches(r[i].warranty, f, now)
    ensures forall i ::
      (0 <= i < |rows| && SearchMatches(rows[i], term) && StatusMatches(rows[i].warranty, f, now)) ==> rows[i] in r
  {
    Filter(rows, row => SearchMatches(row, term) && StatusMatches(row.warranty, f, now))
  }

  /** An empty search with "all" selected lists every certificate, in order. */
  lemma NoFilterKeepsAll(rows: seq<WarrantyRow>, now: int)
    ensures FilteredWarranties(rows, "", AnyStatus, now) == rows
  {
    forall row | row in rows ensures SearchMatches(row, "") && StatusMatches(row.warranty, AnyStatus, now) {
      Text.EmptyTermMatches(row.warranty.certificateNumber);
    }
    FilterAll(rows, row => SearchMatches(row, "") && StatusMatches(row.warranty, AnyStatus, now));
  }

  predicate RowActive(row: WarrantyRow, now: int) { StatusMatches(row.warranty, ActiveStatus, now) }
  predicate RowExpired(row: WarrantyRow, now: int) { StatusMatches(row.warranty, ExpiredStatus, now) }
  predicate RowExpiring(row: WarrantyRow, now: int) {
    row.warranty.isActive && Guarantees.IsExpiringSoon(row.warranty.endDate, now)
  }

  datatype Cards = Cards(total: nat, active: nat, expiring: nat, expired: nat)

  /** The four summary cards: the active and the expired ones make up the total,
      and the expiring ones are among the active ones. */
  function SummaryCards(rows: seq<WarrantyRow>, now: int): (c: Cards)
    ensures c.total == |rows|
    ensures c.active + c.expired == c.total
    ensures c.expiring <= c.active
  {
    CountWhereSplit(rows, row => RowActive(row, now), row => RowExpired(row, now));
    forall row | row in rows && RowExpiring(row, now) ensures RowActive(row, now) {
      Guarantees.NotBothExpiredAndExpiring(row.warranty.endDate, now);
    }
    CountWhereMono(rows, row => RowExpiring(row, now), row => RowActive(row, now));
    Cards(
      |rows|,
      CountWhere(rows, row => RowActive(row, now)),
      CountWhere(rows, row => RowExpiring(row, now)),
      CountWhere(rows, row => RowExpired(row, now)))
  }

  datatype Badge = ExpiringBadge | InForceBadge | EndedBadge

  /** The status column: ended unless in force, and among those in force the ones
      ending within thirty days. */
  function BadgeOf(w: Warranty, now: int): (b: Badge)
    ensures b == EndedBadge <==> StatusMatches(w, ExpiredStatus, now)
    ensures b == ExpiringBadge <==> w.isActive && now < w.endDate <= now + 30 * Guarantees.DayMs
  {
    Guarantees.ExpiringSoonIff(w.endDate, now);
    if w.isActive && !Guarantees.IsExpired(w.endDate, now) then
      if Guarantees.IsExpiringSoon(w.endDate, now) then ExpiringBadge else InForceBadge
    else EndedBadge
  }

  // ---------------------------------------------------------------------------
  // Submit and delete

  /** The certificate form. Dates are timestamps; the end date, computed from the
      start date and the period by calendar arithmetic, is passed in. */
  datatype WarrantyForm = WarrantyForm(
    certificateNumber: string,
    issueDate: int,
    startDate: int,
    warrantyPeriodMonths: int,
    description: string,
    relatedTo: RelatedTo,
    relatedItemId: string,
    notes: string)

  datatype SubmitError = NoOperationSelected | MissingCertificateNumber | MissingDescription | OperationNotFound

  /** The first operation with that id. */
  function FindOperation(ops: seq<Operation>, id: string): (r: Option<Operation>)
    ensures r.None? <==> forall i :: 0 <= i < |ops| ==> ops[i].id != id
    ensures r.Some? ==> r.value in ops && r.value.id == id
  {
    if |ops| == 0 then None
    else if ops[0].id == id then Some(ops[0])
    else
      var r := FindOperation(ops[1..], id);
      assert forall i :: 1 <= i < |ops| ==> ops[i] == ops[1..][i - 1];
      r
  }

  /** The certificate the form saves: trimmed texts, always active, an item
      reference only for an item certificate, no notes when they are blank. */
  function SavedWarranty(id: string, form: WarrantyForm, endDate: int): (w: Warranty)
    ensures w.id == id && w.isActive
    ensures w.certificateNumber == Text.Trim(form.certificateNumber) && w.description == Text.Trim(form.description)
    ensures w.relatedItemId.Some? <==> form.relatedTo == ToItem
    ensures w.notes.None? <==> Text.Trim(form.notes) == ""
    ensures w.notes.Some? ==> w.notes.value == Text.Trim(form.notes)
  {
    var notes := Text.Trim(form.notes);
    Warranty(
      id, Text.Trim(form.certificateNumber), form.issueDate, form.startDate, endDate,
      form.warrantyPeriodMonths, Text.Trim(form.description), form.relatedTo,
      if form.relatedTo == ToItem then Some(form.relatedItemId) else None,
      true,
      if notes == "" then None else Some(notes))
  }

  /** Replace every certificate with that id by `w`. */
  function ReplaceById(ws: seq<Warranty>, id: string, w: Warranty): (r: seq<Warranty>)
    ensures |r| == |ws|
    ensures forall j :: 0 <= j < |ws| ==> r[j] == if ws[j].id == id then w else ws[j]
  {
    seq(|ws|, j requires 0 <= j < |ws| => if ws[j].id == id then w else ws[j])
  }

  /** handleSubmit: validation in the order of the handler, then the owning
      operation with its certificate list replaced and its update time set.
      `editing` is the certificate being edited, if any. */
  function SubmitWarranty(ops: seq<Operation>, selectedOperation: string, editing: Option<Warranty>,
                          form: WarrantyForm, endDate: int, newId: string, now: int): (r: Result<Operation, SubmitError>)
    ensures r == Err(NoOperationSelected) <==> selectedOperation == ""
    ensures r.Err? <==>
      || selectedOperation == ""
      || Text.Trim(form.certificateNumber) == ""
      || Text.Trim(form.description) == ""
      || FindOperation(ops, selectedOperation).None?
    ensures r.Ok? ==> var op := FindOperation(ops, selectedOperation).value;
      && r.value == op.(warrantyCertificates := r.value.warrantyCertificates, updatedAt := now)
      && r.value.warrantyCertificates.Some?
  {
    if selectedOperation == "" then Err(NoOperationSelected)
    else if Text.Trim(form.certificateNumber) == "" then Err(MissingCertificateNumber)
    else if Text.Trim(form.description) == "" then Err(MissingDescription)
    else
      match FindOperation(ops, selectedOperation)
      case None => Err(OperationNotFound)
      case Some(op) =>
        var id := if editing.Some? && editing.value.id != "" then editing.value.id else newId;
        var saved := SavedWarranty(id, form, endDate);
        var updated := if editing.Some? then ReplaceById(op.Warranties(), editing.value.id, saved)
                       else op.Warranties() + [saved];
        Ok(op.(warrantyCertificates := Some(updated), updatedAt := now))
  }

  /** A certificate number made only of ideographic spaces (U+3000) is blank to
      `trim()`, so the form refuses it. */
  lemma IdeographicSpaceNumberRefused(ops: seq<Operation>, selectedOperation: string, editing: Option<Warranty>,
                                      form: WarrantyForm, endDate: int, newId: string, now: int)
    requires selectedOperation != "" && form.certificateNumber == "\U{3000}\U{3000}"
    ensures SubmitWarranty(ops, selectedOperation, editing, form, endDate, newId, now) == Err(MissingCertificateNumber)
  {
    assert Text.IsSpace(form.certificateNumber[0]) && Text.IsSpace(form.certificateNumber[1]);
  }

  /** Some character other than white space, so that trimming leaves text. */
  predicate HasText(s: string) {
    exists i :: 0 <= i < |s| && !Text.IsSpace(s[i])
  }

  /** Adding appends exactly the saved certificate. */
  lemma AddAppendsOne(ops: seq<Operation>, selectedOperation: string, form: WarrantyForm, endDate: int, newId: string, now: int)
    requires selectedOperation != "" && exists k :: 0 <= k < |ops| && ops[k].id == selectedOperation
    requires HasText(form.certificateNumber) && HasText(form.description)
    ensures SubmitWarranty(ops, selectedOperation, None, form, endDate, newId, now).Ok?
    ensures var op := FindOperation(ops, selectedOperation).value;
      SubmitWarranty(ops, selectedOperation, None, form, endDate, newId, now).value.Warranties()
        == op.Warranties() + [SavedWarranty(newId, form, endDate)]
  {
    assert Text.Trim(form.certificateNumber) != "" && Text.Trim(form.description) != "";
    assert FindOperation(ops, selectedOperation).Some?;
  }

  /** Editing replaces the certificates carrying the edited id in place, keeps that
      id, the length of the list and every other certificate where it was. */
  lemma EditReplacesInPlace(ops: seq<Operation>, selectedOperation: string, editing: Warranty,
                            form: WarrantyForm, endDate: int, newId: string, now: int)
    requires editing.id != ""
    requires selectedOperation != "" && exists k :: 0 <= k < |ops| && ops[k].id == selectedOperation
    requires HasText(form.certificateNumber) && HasText(form.description)
    ensures SubmitWarranty(ops, selectedOperation, Some(editing), form, endDate, newId, now).Ok?
    ensures var before := FindOperation(ops, selectedOperation).value.Warranties();
      var after := SubmitWarranty(ops, selectedOperation, Some(editing), form, endDate, newId, now).value.Warranties();
      && |after| == |before|
      && (forall j :: 0 <= j < |before| && before[j].id != editing.id ==> after[j] == before[j])
      && (forall j :: 0 <= j < |before| && before[j].id == editing.id ==>
            after[j] == SavedWarranty(editing.id, form, endDate))
  {
    assert Text.Trim(form.certificateNumber) != "" && Text.Trim(form.description) != "";
    assert FindOperation(ops, selectedOperation).Some?;
  }

  /** The form as it is filled in for editing a certificate. */
  function FormOf(w: Warranty): WarrantyForm {
    WarrantyForm(w.certificateNumber, w.issueDate, w.startDate, w.warrantyPeriodMonths, w.description,
                 w.relatedTo, w.relatedItemId.GetOr(""), w.notes.GetOr(""))
  }

  /** Saving an opened certificate without changes gives the same certificate back,
      provided it is active, its texts have no surrounding white space and its item
      reference and notes are in the form the handler writes. */
  lemma EditUnchangedRoundTrip(w: Warranty)
    requires w.isActive
    requires Text.IsTrimmed(w.certificateNumber) && Text.IsTrimmed(w.description)
    requires w.relatedItemId.Some? <==> w.relatedTo == ToItem
    requires w.notes.Some? ==> w.notes.value != "" && Text.IsTrimmed(w.notes.value)
    ensures SavedWarranty(w.id, FormOf(w), w.endDate) == w
  {
    var f := FormOf(w);
    Text.TrimmedFixedPoint(w.certificateNumber);
    Text.TrimmedFixedPoint(w.description);
    Text.TrimmedFixedPoint(f.notes);
    var notes := if Text.Trim(f.notes) == "" then None else Some(Text.Trim(f.notes));
    assert notes == w.notes;
    var item := if f.relatedTo == ToItem then Some(f.relatedItemId) else None;
    assert item == w.relatedItemId;
    calc {
      SavedWarranty(w.id, f, w.endDate);
      == Warranty(w.id, Text.Trim(f.certificateNumber), f.issueDate, f.startDate, w.endDate,
                  f.warrantyPeriodMonths, Text.Trim(f.description), f.relatedTo, item, true, notes);
      == Warranty(w.id, w.certificateNumber, w.issueDate, w.startDate, w.endDate,
                  w.warrantyPeriodMonths, w.description, w.relatedTo, w.relatedItemId, w.isActive, w.notes);
    }
  }

  /** handleDelete: the owning operation without the certificates carrying that id,
      the others in order, and its update time set. */
  function DeleteWarranty(op: Operation, id: string, now: int): (r: Operation)
    ensures r == op.(warrantyCertificates := r.warrantyCertificates, updatedAt := now)
    ensures forall j :: 0 <= j < |r.Warranties()| ==> r.Warranties()[j].id != id && r.Warranties()[j] in op.Warranties()
    ensures forall j :: 0 <= j < |op.Warranties()| && op.Warranties()[j].id != id ==> op.Warranties()[j] in r.Warranties()
    ensures |r.Warranties()| == |op.Warranties()| - CountWhere(op.Warranties(), (w: Warranty) => w.id == id)
  {
    var ws := op.Warranties();
    var keep := (w: Warranty) => w.id != id;
    CountWhereSplit(ws, keep, (w: Warranty) => w.id == id);
    op.(warrantyCertificates := Some(Filter(ws, keep)), updatedAt := now)
  }

  /** The certificates left by a delete are those of the operation in their
      original order: the positions `idx` they come from are increasing, and every
      position whose id differs is among them. */
  lemma DeleteWarrantyKeepsOrder(op: Operation, id: string, now: int) returns (idx: seq<nat>)
    ensures IsSublistVia(DeleteWarranty(op, id, now).Warranties(), op.Warranties(), idx)
    ensures forall j :: 0 <= j < |op.Warranties()| && op.Warranties()[j].id != id ==> j in idx
  {
    var ws := op.Warranties();
    var keep := (w: Warranty) => w.id != id;
    idx := FilterIsSublist(ws, keep);
    assert forall j :: 0 <= j < |ws| && ws[j].id != id ==> keep(ws[j]);
  }

  /** Deleting a certificate that is not there changes only the update time. */
  lemma DeleteAbsentKeepsList(op: Operation, id: string, now: int)
    requires forall j :: 0 <= j < |op.Warranties()| ==> op.Warranties()[j].id != id
    ensures DeleteWarranty(op, id, now).Warranties() == op.Warranties()
  {
    FilterAll(op.Warranties(), (w: Warranty) => w.id != id);
  }
}
