/** The local store (src/utils/database.ts). Its two tables are maps from id to
    record held by a `LocalStore` object; the asynchronous IndexedDB calls become
    ordinary method calls, and a failed transaction leaves both maps as they were.
    The creating hooks, the import normalisation, the advanced search and the
    quick statistics are pure functions. */
module Database {
  import opened Domain
  import Text

  // ---------------------------------------------------------------------------
  // Normalisation and the creating hooks

  /** `relatedTo || 'operation'` */
  function DefaultRelatedTo(r: Option<RelatedTo>): (d: Option<RelatedTo>)
    ensures d.Some?
    ensures r.Some? ==> d == r
  {
    Some(r.GetOr(ToOperation))
  }

  function NormalizeCheck(c: GuaranteeCheck): GuaranteeCheck {
    c.(relatedTo := DefaultRelatedTo(c.relatedTo))
  }

  function NormalizeLetter(l: GuaranteeLetter): GuaranteeLetter {
    l.(relatedTo := DefaultRelatedTo(l.relatedTo))
  }

  /** importData's client mapping: the type defaults to owner and the contacts to
      an empty list; everything else is kept. */
  function NormalizeClient(c: Client): (r: Client)
    ensures r.kind.Some? && r.contacts.Some?
    ensures c.kind.Some? ==> r.kind == c.kind
    ensures c.kind.None? ==> r.kind == Some(Owner)
    ensures c.contacts.Some? ==> r.contacts == c.contacts
    ensures c.contacts.None? ==> r.contacts == Some([])
    ensures r.(kind := c.kind, contacts := c.contacts) == c
  {
    c.(kind := Some(c.kind.GetOr(Owner)), contacts := Some(c.contacts.GetOr([])))
  }

  /** importData's operation mapping: warranty certificates default to an empty
      list, and every guarantee check and letter gets a `relatedTo`. */
  function NormalizeOperation(op: Operation): (r: Operation)
    ensures r.warrantyCertificates.Some? && r.Warranties() == op.Warranties()
    ensures |r.guaranteeChecks| == |op.guaranteeChecks| && |r.guaranteeLetters| == |op.guaranteeLetters|
    ensures forall i :: 0 <= i < |op.guaranteeChecks| ==>
      r.guaranteeChecks[i].relatedTo.Some?
      && r.guaranteeChecks[i] == op.guaranteeChecks[i].(relatedTo := r.guaranteeChecks[i].relatedTo)
      && (op.guaranteeChecks[i].relatedTo.Some? ==> r.guaranteeChecks[i] == op.guaranteeChecks[i])
    ensures forall i :: 0 <= i < |op.guaranteeLetters| ==>
      r.guaranteeLetters[i].relatedTo.Some?
      && r.guaranteeLetters[i] == op.guaranteeLetters[i].(relatedTo := r.guaranteeLetters[i].relatedTo)
      && (op.guaranteeLetters[i].relatedTo.Some? ==> r.guaranteeLetters[i] == op.guaranteeLetters[i])
    ensures r.(warrantyCertificates := op.warrantyCertificates, guaranteeChecks := op.guaranteeChecks,
               guaranteeLetters := op.guaranteeLetters) == op
  {
    op.(warrantyCertificates := Some(op.Warranties()),
        guaranteeChecks := seq(|op.guaranteeChecks|, i requires 0 <= i < |op.guaranteeChecks| =>
                               NormalizeCheck(op.guaranteeChecks[i])),
        guaranteeLetters := seq(|op.guaranteeLetters|, i requires 0 <= i < |op.guaranteeLetters| =>
                                NormalizeLetter(op.guaranteeLetters[i])))
  }

  /** The clients table's creating hook: both time stamps set to `now` and the same
      defaults as the import mapping. */
  function CreatingClient(c: Client, now: int): (r: Client)
    ensures r.createdAt == now && r.updatedAt == now
    ensures r == NormalizeClient(c).(createdAt := now, updatedAt := now)
  {
    var d := c.(createdAt := now, updatedAt := now);
    d.(kind := Some(d.kind.GetOr(Owner)), contacts := Some(d.contacts.GetOr([])))
  }

  /** The operations table's creating hook. */
  function CreatingOperation(op: Operation, now: int): (r: Operation)
    ensures r.createdAt == now && r.updatedAt == now
    ensures r == NormalizeOperation(op).(createdAt := now, updatedAt := now)
  {
    NormalizeOperation(op.(createdAt := now, updatedAt := now))
  }

  /** Normalising twice is normalising once, so the import mapping followed by the
      creating hook is the creating hook alone. */
  lemma NormalizeIdempotent(c: Client, op: Operation, now: int)
    ensures NormalizeClient(NormalizeClient(c)) == NormalizeClient(c)
    ensures NormalizeOperation(NormalizeOperation(op)) == NormalizeOperation(op)
    ensures CreatingClient(NormalizeClient(c), now) == CreatingClient(c, now)
    ensures CreatingOperation(NormalizeOperation(op), now) == CreatingOperation(op, now)
  {
    var n := NormalizeOperation(op);
    assert NormalizeOperation(n).guaranteeChecks == n.guaranteeChecks;
    assert NormalizeOperation(n).guaranteeLetters == n.guaranteeLetters;
  }

  // ---------------------------------------------------------------------------
  // Tables as maps

  /** The table built by adding the records in order (last one wins on a repeated id). */
  function ClientsById(s: seq<Client>): (m: map<string, Client>)
    ensures m.Keys == set i | 0 <= i < |s| :: s[i].id
    ensures forall id :: id in m ==> m[id].id == id
  {
    if |s| == 0 then map[]
    else ClientsById(s[..|s| - 1])[s[|s| - 1].id := s[|s| - 1]]
  }

  function OperationsById(s: seq<Operation>): (m: map<string, Operation>)
    ensures m.Keys == set i | 0 <= i < |s| :: s[i].id
    ensures forall id :: id in m ==> m[id].id == id
  {
    if |s| == 0 then map[]
    else OperationsById(s[..|s| - 1])[s[|s| - 1].id := s[|s| - 1]]
  }

  predicate DistinctClientIds(s: seq<Client>) {
    forall i, j :: 0 <= i < j < |s| ==> s[i].id != s[j].id
  }

  predicate DistinctOperationIds(s: seq<Operation>) {
    forall i, j :: 0 <= i < j < |s| ==> s[i].id != s[j].id
  }

  /** With distinct ids every record of the list is in the table as given. */
  lemma {:induction false} ClientsByIdHolds(s: seq<Client>)
    requires DistinctClientIds(s)
    ensures forall i :: 0 <= i < |s| ==> ClientsById(s)[s[i].id] == s[i]
  {
    if |s| > 0 {
      var init, last := s[..|s| - 1], s[|s| - 1];
      ClientsByIdHolds(init);
      forall i | 0 <= i < |s| ensures ClientsById(s)[s[i].id] == s[i] {
        if i < |s| - 1 {
          assert s[i] == init[i] && s[i].id != last.id;
        }
      }
    }
  }

  lemma {:induction false} OperationsByIdHolds(s: seq<Operation>)
    requires DistinctOperationIds(s)
    ensures forall i :: 0 <= i < |s| ==> OperationsById(s)[s[i].id] == s[i]
  {
    if |s| > 0 {
      var init, last := s[..|s| - 1], s[|s| - 1];
      OperationsByIdHolds(init);
      forall i | 0 <= i < |s| ensures OperationsById(s)[s[i].id] == s[i] {
        if i < |s| - 1 {
          assert s[i] == init[i] && s[i].id != last.id;
        }
      }
    }
  }

  /** Some operation of the table references the client. */
  predicate Referenced(operations: map<string, Operation>, clientId: string) {
    exists k :: k in operations && operations[k].clientId == clientId
  }

  /** deleteClient on the clients table: refused (and the table kept) while an
      operation references the client; otherwise the client, if present, is gone.
      The flag says whether the deletion went ahead. */
  function DeleteClientResult(clients: map<string, Client>, operations: map<string, Operation>, clientId: string)
    : (r: (map<string, Client>, bool))
    ensures r.1 <==> !Referenced(operations, clientId)
    ensures !r.1 ==> r.0 == clients
    ensures r.1 ==> clientId !in r.0 && forall k :: k in clients && k != clientId ==> k in r.0 && r.0[k] == clients[k]
    ensures r.0.Keys <= clients.Keys
  {
    if Referenced(operations, clientId) then (clients, false) else (clients - {clientId}, true)
  }

  datatype StoreError = ClientHasOperations | DuplicateId

  /** An import file: either collection may be missing. */
  datatype ImportFile = ImportFile(operations: Option<seq<Operation>>, clients: Option<seq<Client>>)

  class LocalStore {
    var operations: map<string, Operation>
    var clients: map<string, Client>

    /** Every record is stored under its own id. */
    predicate Valid()
      reads this
    {
      (forall k :: k in operations ==> operations[k].id == k)
      && (forall k :: k in clients ==> clients[k].id == k)
    }

    constructor ()
      ensures Valid() && operations == map[] && clients == map[]
    {
      operations := map[];
      clients := map[];
    }

    /** addOperation: the creating hook applied, refused on an existing id. */
    method AddOperation(op: Operation, now: int) returns (r: Result<string, StoreError>)
      requires Valid()
      modifies this`operations
      ensures Valid()
      ensures op.id in old(operations) ==> r == Err(DuplicateId) && operations == old(operations)
      ensures op.id !in old(operations) ==> r == Ok(op.id) && operations == old(operations)[op.id := CreatingOperation(op, now)]
    {
      if op.id in operations {
        r := Err(DuplicateId);
      } else {
        operations := operations[op.id := CreatingOperation(op, now)];
        r := Ok(op.id);
      }
    }

    /** addClient: the creating hook applied, refused on an existing id. */
    method AddClient(c: Client, now: int) returns (r: Result<string, StoreError>)
      requires Valid()
      modifies this`clients
      ensures Valid()
      ensures c.id in old(clients) ==> r == Err(DuplicateId) && clients == old(clients)
      ensures c.id !in old(clients) ==> r == Ok(c.id) && clients == old(clients)[c.id := CreatingClient(c, now)]
    {
      if c.id in clients {
        r := Err(DuplicateId);
      } else {
        clients := clients[c.id := CreatingClient(c, now)];
        r := Ok(c.id);
      }
    }

    /** deleteClient: throws while an operation references the client. */
    method DeleteClient(clientId: string) returns (r: Result<(), StoreError>)
      requires Valid()
      modifies this`clients
      ensures Valid()
      ensures r.Err? <==> Referenced(old(operations), clientId)
      ensures r.Err? ==> r.error == ClientHasOperations
      ensures clients == DeleteClientResult(old(clients), operations, clientId).0
    {
      if exists k :: k in operations && operations[k].clientId == clientId {
        r := Err(ClientHasOperations);
      } else {
        clients := clients - {clientId};
        r := Ok(());
      }
    }

    /** importData: each collection present in the file replaces its table (through
        the import mapping and the creating hook); a repeated id makes the bulk add
        fail, which aborts the transaction and leaves both tables untouched. */
    method ImportData(data: ImportFile, now: int) returns (r: Result<(), StoreError>)
      requires Valid()
      modifies this
      ensures Valid()
      ensures r.Err? <==>
        (data.clients.Some? && !DistinctClientIds(data.clients.value))
        || (data.operations.Some? && !DistinctOperationIds(data.operations.value))
      ensures r.Err? ==> clients == old(clients) && operations == old(operations)
      ensures r.Ok? ==> clients == ImportedClients(old(clients), data, now)
      ensures r.Ok? ==> operations == ImportedOperations(old(operations), data, now)
    {
      if data.clients.Some? && !DistinctClientIds(data.clients.value) {
        return Err(DuplicateId);
      }
      if data.operations.Some? && !DistinctOperationIds(data.operations.value) {
        return Err(DuplicateId);
      }
      clients := ImportedClients(clients, data, now);
      operations := ImportedOperations(operations, data, now);
      r := Ok(());
    }
  }

  /** The clients table after a successful import. */
  function ImportedClients(old_: map<string, Client>, data: ImportFile, now: int): map<string, Client> {
    match data.clients
    case None => old_
    case Some(cs) =>
      ClientsById(seq(|cs|, i requires 0 <= i < |cs| => CreatingClient(NormalizeClient(cs[i]), now)))
  }

  /** The operations table after a successful import. */
  function ImportedOperations(old_: map<string, Operation>, data: ImportFile, now: int): map<string, Operation> {
    match data.operations
    case None => old_
    case Some(ops) =>
      OperationsById(seq(|ops|, i requires 0 <= i < |ops| => CreatingOperation(NormalizeOperation(ops[i]), now)))
  }

  /** After a successful import of a client list, the table holds exactly the
      imported ids, each client normalised and stamped `now`; an absent list leaves
      the table as it was. */
  lemma ImportedClientsContents(old_: map<string, Client>, data: ImportFile, now: int)
    requires data.clients.Some? ==> DistinctClientIds(data.clients.value)
    ensures data.clients.None? ==> ImportedClients(old_, data, now) == old_
    ensures data.clients.Some? ==>
      var cs := data.clients.value;
      var t := ImportedClients(old_, data, now);
      && t.Keys == (set i | 0 <= i < |cs| :: cs[i].id)
      && forall i :: 0 <= i < |cs| ==>
           t[cs[i].id] == NormalizeClient(cs[i]).(createdAt := now, updatedAt := now)
  {
    if data.clients.Some? {
      var cs := data.clients.value;
      var stamped := seq(|cs|, i requires 0 <= i < |cs| => CreatingClient(NormalizeClient(cs[i]), now));
      forall i | 0 <= i < |cs|
        ensures stamped[i] == NormalizeClient(cs[i]).(createdAt := now, updatedAt := now)
        ensures stamped[i].id == cs[i].id
      {
        StampedClient(cs[i], now);
      }
      ClientsByIdOfRenamed(cs, stamped);
    }
  }

  /** A list carrying the ids of a list with distinct ids gives a table over those
      ids holding its own records. */
  lemma ClientsByIdOfRenamed(cs: seq<Client>, stamped: seq<Client>)
    requires DistinctClientIds(cs)
    requires |stamped| == |cs| && forall i :: 0 <= i < |cs| ==> stamped[i].id == cs[i].id
    ensures ClientsById(stamped).Keys == (set i | 0 <= i < |cs| :: cs[i].id)
    ensures forall i :: 0 <= i < |cs| ==> ClientsById(stamped)[cs[i].id] == stamped[i]
  {
    assert (set i | 0 <= i < |stamped| :: stamped[i].id) == (set i | 0 <= i < |cs| :: cs[i].id);
    ClientsByIdHolds(stamped);
  }

  /** The import mapping followed by the creating hook. */
  lemma StampedClient(c: Client, now: int)
    ensures CreatingClient(NormalizeClient(c), now) == NormalizeClient(c).(createdAt := now, updatedAt := now)
    ensures CreatingClient(NormalizeClient(c), now).id == c.id
  {
    assert NormalizeClient(NormalizeClient(c)) == NormalizeClient(c);
  }

  /** The same for operations: exactly the imported ids, each normalised (so every
      guarantee has a `relatedTo` and the warranty list is present) and stamped. */
  lemma ImportedOperationsContents(old_: map<string, Operation>, data: ImportFile, now: int)
    requires data.operations.Some? ==> DistinctOperationIds(data.operations.value)
    ensures data.operations.None? ==> ImportedOperations(old_, data, now) == old_
    ensures data.operations.Some? ==>
      var ops := data.operations.value;
      var t := ImportedOperations(old_, data, now);
      && t.Keys == (set i | 0 <= i < |ops| :: ops[i].id)
      && forall i :: 0 <= i < |ops| ==>
           t[ops[i].id] == NormalizeOperation(ops[i]).(createdAt := now, updatedAt := now)
  {
    if data.operations.Some? {
      var ops := data.operations.value;
      var stamped := seq(|ops|, i requires 0 <= i < |ops| => CreatingOperation(NormalizeOperation(ops[i]), now));
      forall i | 0 <= i < |ops|
        ensures stamped[i] == NormalizeOperation(ops[i]).(createdAt := now, updatedAt := now)
        ensures stamped[i].id == ops[i].id
      {
        StampedOperation(ops[i], now);
      }
      OperationsByIdOfRenamed(ops, stamped);
    }
  }

  /** A list carrying the ids of a list with distinct ids gives a table over those
      ids holding its own records. */
  lemma OperationsByIdOfRenamed(ops: seq<Operation>, stamped: seq<Operation>)
    requires DistinctOperationIds(ops)
    requires |stamped| == |ops| && forall i :: 0 <= i < |ops| ==> stamped[i].id == ops[i].id
    ensures OperationsById(stamped).Keys == (set i | 0 <= i < |ops| :: ops[i].id)
    ensures forall i :: 0 <= i < |ops| ==> OperationsById(stamped)[ops[i].id] == stamped[i]
  {
    assert (set i | 0 <= i < |stamped| :: stamped[i].id) == (set i | 0 <= i < |ops| :: ops[i].id);
    OperationsByIdHolds(stamped);
  }

  /** The import mapping followed by the creating hook. */
  lemma StampedOperation(op: Operation, now: int)
    ensures CreatingOperation(NormalizeOperation(op), now) == NormalizeOperation(op).(createdAt := now, updatedAt := now)
    ensures CreatingOperation(NormalizeOperation(op), now).id == op.id
  {
    var n := NormalizeOperation(op);
    assert NormalizeOperation(n).guaranteeChecks == n.guaranteeChecks;
    assert NormalizeOperation(n).guaranteeLetters == n.guaranteeLetters;
  }

  // ---------------------------------------------------------------------------
  // Queries

  /** The filters of advancedSearch; a missing (or, for the texts, empty) filter
      imposes nothing. */
  datatype SearchFilters = SearchFilters(
    clientId: Option<string>,
    status: Option<Status>,
    startDate: Option<int>,
    endDate: Option<int>,
    minAmount: Option<real>,
    maxAmount: Option<real>,
    searchTerm: Option<string>)

  const NoFilters := SearchFilters(None, None, None, None, None, None, None)

  predicate SearchMatches(op: Operation, f: SearchFilters) {
    && (f.clientId.Some? && f.clientId.value != "" ==> op.clientId == f.clientId.value)
    && (f.status.Some? ==> op.status == f.status.value)
    && (f.startDate.Some? ==> op.createdAt >= f.startDate.value)
    && (f.endDate.Some? ==> op.createdAt <= f.endDate.value)
    && (f.minAmount.Some? ==> op.totalAmount >= f.minAmount.value)
    && (f.maxAmount.Some? ==> op.totalAmount <= f.maxAmount.value)
    && (f.searchTerm.Some? && f.searchTerm.value != "" ==>
          Text.ContainsIgnoreCase(op.name, f.searchTerm.value) || Text.ContainsIgnoreCase(op.code, f.searchTerm.value))
  }

  /** advancedSearch over the operations in table order. */
  function AdvancedSearch(ops: seq<Operation>, f: SearchFilters): (r: seq<Operation>)
    ensures forall i :: 0 <= i < |r| ==> r[i] in ops && SearchMatches(r[i], f)
    ensures forall i :: 0 <= i < |ops| && SearchMatches(ops[i], f) ==> ops[i] in r
  {
    Filter(ops, op => SearchMatches(op, f))
  }

  /** Without filters the search returns every operation, in order. */
  lemma NoFiltersReturnAll(ops: seq<Operation>)
    ensures AdvancedSearch(ops, NoFilters) == ops
  {
    FilterAll(ops, op => SearchMatches(op, NoFilters));
  }

  /** The date and amount bounds are inclusive: an operation created exactly at
      both bounds, with an amount exactly at both bounds, is kept. */
  lemma BoundsInclusive(op: Operation)
    ensures SearchMatches(op, SearchFilters(None, None, Some(op.createdAt), Some(op.createdAt),
                                            Some(op.totalAmount), Some(op.totalAmount), None))
  {
  }

  datatype Statistics = Statistics(
    totalOperations: nat,
    completedOperations: nat,
    inProgressOperations: nat,
    totalAmount: real,
    totalReceived: real,
    outstandingGuarantees: nat,
    activeWarranties: nat,
    totalClients: nat)

  function SumAmounts(ops: seq<Operation>): real {
    if |ops| == 0 then 0.0 else SumAmounts(ops[..|ops| - 1]) + ops[|ops| - 1].totalAmount
  }

  function SumReceived(ops: seq<Operation>): real {
    if |ops| == 0 then 0.0 else SumReceived(ops[..|ops| - 1]) + ops[|ops| - 1].totalReceived
  }

  function Outstanding(ops: seq<Operation>): nat {
    if |ops| == 0 then 0
    else
      var op := ops[|ops| - 1];
      Outstanding(ops[..|ops| - 1])
      + CountWhere(op.guaranteeChecks, (c: GuaranteeCheck) => !c.isReturned)
      + CountWhere(op.guaranteeLetters, (l: GuaranteeLetter) => !l.isReturned)
  }

  function ActiveWarranties(ops: seq<Operation>): nat {
    if |ops| == 0 then 0
    else ActiveWarranties(ops[..|ops| - 1]) + CountWhere(ops[|ops| - 1].Warranties(), (w: Warranty) => w.isActive)
  }

  /** The two statuses getStatistics counts: exactly `completed` and exactly
      `in_progress`. */
  predicate IsCompletedExactly(op: Operation) { op.status == Completed }

  predicate IsInProgressExactly(op: Operation) { op.status == InProgress }

  /** The statuses getStatistics counts under neither heading: the three completed
      statuses that carry a payment state. */
  predicate HasPaymentState(op: Operation) {
    op.status == CompletedPartialPayment || op.status == CompletedFullPayment || op.status == CompletedOverpaid
  }

  /** getStatistics: only status `completed` itself counts as completed, so the
      operations with a payment state fall outside both counts. */
  function GetStatistics(ops: seq<Operation>, clients: seq<Client>): (r: Statistics)
    ensures r.totalOperations == |ops|
    ensures r.completedOperations + r.inProgressOperations + CountWhere(ops, HasPaymentState) == r.totalOperations
    ensures r.totalClients == |clients|
  {
    CountWhereSplitBound(ops);
    Statistics(
      |ops|,
      CountWhere(ops, IsCompletedExactly),
      CountWhere(ops, IsInProgressExactly),
      SumAmounts(ops),
      SumReceived(ops),
      Outstanding(ops),
      ActiveWarranties(ops),
      |clients|)
  }

  /** Every operation is counted as completed, as in progress, or carries a
      payment state, and exactly one of these. */
  lemma {:induction false} CountWhereSplitBound(ops: seq<Operation>)
    ensures CountWhere(ops, IsCompletedExactly) + CountWhere(ops, IsInProgressExactly)
      + CountWhere(ops, HasPaymentState) == |ops|
  {
    if |ops| > 0 {
      CountWhereSplitBound(ops[..|ops| - 1]);
    }
  }
}
