/** The client screen (src/components/Clients/ClientsManager.tsx): the search
    filter, the contact-list editor and the client form's submission.

    The contact list is a sequence of mutable `Contact` objects. `updateContact`
    copies the edited contact but clears the main flag of the OTHER contacts in
    place, and `removeContact` sets the flag of the first remaining contact in
    place; the objects may be the very ones the client record holds (the editor is
    loaded with `client.contacts` itself), so those edits are visible through it. */
module Clients {
  import opened Domain
  import Text
  import OperationForm

  // ---------------------------------------------------------------------------
  // Contacts as values, and the main-contact invariants

  predicate IsMain(c: ContactData) { c.isMainContact }

  /** No two contacts of the list are main contacts. */
  predicate AtMostOneMain(v: seq<ContactData>) {
    forall j, k :: 0 <= j < |v| && 0 <= k < |v| && v[j].isMainContact && v[k].isMainContact ==> j == k
  }

  predicate ExactlyOneMain(v: seq<ContactData>) {
    AtMostOneMain(v) && exists j :: 0 <= j < |v| && v[j].isMainContact
  }

  /** The number of main contacts. */
  function MainCount(v: seq<ContactData>): nat {
    CountWhere(v, IsMain)
  }

  lemma {:induction false} MainCountZero(v: seq<ContactData>)
    ensures MainCount(v) == 0 <==> forall j :: 0 <= j < |v| ==> !v[j].isMainContact
  {
    if |v| > 0 {
      var init := v[..|v| - 1];
      MainCountZero(init);
      assert forall j :: 0 <= j < |init| ==> init[j] == v[j];
    }
  }

  /** The pairwise definition agrees with counting: at most one main contact means
      a count of at most one. */
  lemma {:induction false} AtMostOneMainCount(v: seq<ContactData>)
    ensures AtMostOneMain(v) <==> MainCount(v) <= 1
  {
    if |v| > 0 {
      var init := v[..|v| - 1];
      var n := |v| - 1;
      AtMostOneMainCount(init);
      MainCountZero(init);
      assert forall j :: 0 <= j < |init| ==> init[j] == v[j];
      if AtMostOneMain(v) {
        assert AtMostOneMain(init);
        if v[n].isMainContact {
          assert forall j :: 0 <= j < |init| ==> !init[j].isMainContact;
        }
      }
      if MainCount(v) <= 1 {
        if v[n].isMainContact {
          assert MainCount(init) == 0;
        } else {
          assert AtMostOneMain(init);
        }
      }
    }
  }

  /** The contact `addContact` appends. */
  function BlankContact(id: string, first: bool): ContactData {
    ContactData(id, "", "", Management, Some(""), Some(""), first)
  }

  /** addContact on values: the new contact is main iff the list was empty. */
  function AddContactView(v: seq<ContactData>, id: string): (r: seq<ContactData>)
    ensures |r| == |v| + 1 && r[..|v|] == v
    ensures r[|v|].id == id && (r[|v|].isMainContact <==> |v| == 0)
  {
    v + [BlankContact(id, |v| == 0)]
  }

  /** The fields of a contact the form edits. */
  datatype ContactField =
    | ContactName(name: string)
    | ContactPosition(position: string)
    | ContactDepartment(department: Department)
    | ContactPhone(phone: Option<string>)
    | ContactEmail(email: Option<string>)
    | ContactMain(isMainContact: bool)

  function SetContactField(c: ContactData, f: ContactField): (r: ContactData)
    ensures r.id == c.id
    ensures r.name == if f.ContactName? then f.name else c.name
    ensures r.position == if f.ContactPosition? then f.position else c.position
    ensures r.department == if f.ContactDepartment? then f.department else c.department
    ensures r.phone == if f.ContactPhone? then f.phone else c.phone
    ensures r.email == if f.ContactEmail? then f.email else c.email
    ensures r.isMainContact == if f.ContactMain? then f.isMainContact else c.isMainContact
  {
    match f
    case ContactName(v) => c.(name := v)
    case ContactPosition(v) => c.(position := v)
    case ContactDepartment(v) => c.(department := v)
    case ContactPhone(v) => c.(phone := v)
    case ContactEmail(v) => c.(email := v)
    case ContactMain(v) => c.(isMainContact := v)
  }

  /** updateContact on values: the field of contact `index` is set and, when the
      main flag is set to true, every other contact loses its flag. */
  function UpdateContactView(v: seq<ContactData>, index: nat, f: ContactField): (r: seq<ContactData>)
    requires index < |v|
    ensures |r| == |v|
    ensures r[index] == SetContactField(v[index], f)
    ensures forall j :: 0 <= j < |v| && j != index ==>
      r[j] == if f == ContactMain(true) then v[j].(isMainContact := false) else v[j]
  {
    seq(|v|, j requires 0 <= j < |v| =>
      if j == index then SetContactField(v[j], f)
      else if f == ContactMain(true) then v[j].(isMainContact := false)
      else v[j])
  }

  /** removeContact on values: contact `index` is dropped and, if it was the main
      contact and others remain, the first remaining contact becomes main. */
  function RemoveContactView(v: seq<ContactData>, index: nat): (r: seq<ContactData>)
    requires index < |v|
    ensures |r| == |v| - 1
    ensures forall j :: 0 < j < |r| ==> r[j] == OperationForm.RemoveAt(v, index)[j]
    ensures |r| > 0 ==> r[0] == OperationForm.RemoveAt(v, index)[0].(isMainContact := r[0].isMainContact)
    ensures |r| > 0 ==> (r[0].isMainContact <==> v[index].isMainContact || OperationForm.RemoveAt(v, index)[0].isMainContact)
  {
    var rest := OperationForm.RemoveAt(v, index);
    if v[index].isMainContact && |rest| > 0 then rest[0 := rest[0].(isMainContact := true)] else rest
  }

  /** Adding keeps "at most one main contact"; adding to an empty list gives
      exactly one. */
  lemma AddKeepsAtMostOne(v: seq<ContactData>, id: string)
    requires AtMostOneMain(v)
    ensures AtMostOneMain(AddContactView(v, id))
    ensures v == [] ==> ExactlyOneMain(AddContactView(v, id))
  {
    var r := AddContactView(v, id);
    if v == [] {
      assert r[0].isMainContact;
    }
  }

  /** Setting the main flag of contact `index` leaves it the only main contact. */
  lemma SetMainLeavesOnlyOne(v: seq<ContactData>, index: nat)
    requires index < |v|
    ensures var r := UpdateContactView(v, index, ContactMain(true));
      (forall j :: 0 <= j < |r| ==> (r[j].isMainContact <==> j == index)) && ExactlyOneMain(r)
  {
    var r := UpdateContactView(v, index, ContactMain(true));
    assert r[index].isMainContact;
  }

  /** Every update keeps "at most one main contact". */
  lemma UpdateKeepsAtMostOne(v: seq<ContactData>, index: nat, f: ContactField)
    requires index < |v| && AtMostOneMain(v)
    ensures AtMostOneMain(UpdateContactView(v, index, f))
  {
    var r := UpdateContactView(v, index, f);
    if f != ContactMain(true) {
      forall j, k | 0 <= j < |r| && 0 <= k < |r| && r[j].isMainContact && r[k].isMainContact
        ensures j == k
      {
        assert v[j].isMainContact && v[k].isMainContact;
      }
    } else {
      SetMainLeavesOnlyOne(v, index);
    }
  }

  /** Clearing the flag of the only main contact leaves the list without one. */
  lemma ClearingMainLeavesNone(v: seq<ContactData>, index: nat)
    requires index < |v| && ExactlyOneMain(v) && v[index].isMainContact
    ensures MainCount(UpdateContactView(v, index, ContactMain(false))) == 0
  {
    var r := UpdateContactView(v, index, ContactMain(false));
    MainCountZero(r);
    forall j | 0 <= j < |r| ensures !r[j].isMainContact {
      if j != index {
        assert !v[j].isMainContact;
      }
    }
  }

  /** Removing keeps "at most one main contact". */
  lemma RemoveKeepsAtMostOne(v: seq<ContactData>, index: nat)
    requires index < |v| && AtMostOneMain(v)
    ensures AtMostOneMain(RemoveContactView(v, index))
  {
    var r := RemoveContactView(v, index);
    var rest := OperationForm.RemoveAt(v, index);
    forall j | 0 <= j < |rest| ensures rest[j] == v[if j < index then j else j + 1] { }
    if v[index].isMainContact {
      forall t | 0 <= t < |rest| ensures !rest[t].isMainContact {
        var u := if t < index then t else t + 1;
        assert u != index && rest[t] == v[u];
      }
    }
    forall j, k | 0 <= j < |r| && 0 <= k < |r| && r[j].isMainContact && r[k].isMainContact
      ensures j == k
    {
      if !v[index].isMainContact {
        assert v[if j < index then j else j + 1].isMainContact;
        assert v[if k < index then k else k + 1].isMainContact;
      }
    }
  }

  /** Removing keeps "exactly one main contact" as long as some contact remains. */
  lemma RemoveKeepsExactlyOne(v: seq<ContactData>, index: nat)
    requires index < |v| && 1 < |v| && ExactlyOneMain(v)
    ensures ExactlyOneMain(RemoveContactView(v, index))
  {
    RemoveKeepsAtMostOne(v, index);
    var r := RemoveContactView(v, index);
    var rest := OperationForm.RemoveAt(v, index);
    var m :| 0 <= m < |v| && v[m].isMainContact;
    if m == index {
      assert r[0].isMainContact;
    } else {
      var j := if m < index then m else m - 1;
      assert rest[j] == v[m];
      if j == 0 {
        assert r[0].isMainContact;
      } else {
        assert r[j].isMainContact;
      }
    }
  }

  // ---------------------------------------------------------------------------
  // Contacts as objects

  /** A contact object of the form's contact list. */
  class Contact {
    var id: string
    var name: string
    var position: string
    var department: Department
    var phone: Option<string>
    var email: Option<string>
    var isMainContact: bool

    constructor (d: ContactData)
      ensures Data() == d
    {
      id, name, position, department := d.id, d.name, d.position, d.department;
      phone, email, isMainContact := d.phone, d.email, d.isMainContact;
    }

    function Data(): ContactData
      reads this
    {
      ContactData(id, name, position, department, phone, email, isMainContact)
    }
  }

  /** The current values of a list of contact objects. */
  function ViewOf(cs: seq<Contact>): (r: seq<ContactData>)
    reads cs
    ensures |r| == |cs|
    ensures forall j :: 0 <= j < |cs| ==> r[j] == cs[j].Data()
  {
    if |cs| == 0 then [] else ViewOf(cs[..|cs| - 1]) + [cs[|cs| - 1].Data()]
  }

  /** A list of contact objects whose values are `v`, position by position, has
      the view `v`. */
  lemma ViewOfPointwise(cs: seq<Contact>, v: seq<ContactData>)
    requires |cs| == |v| && forall j :: 0 <= j < |cs| ==> cs[j].Data() == v[j]
    ensures ViewOf(cs) == v
  {
  }

  /** The client form's contact list. */
  class ContactsEditor {
    var contacts: seq<Contact>

    /** No contact object appears twice in the list. */
    predicate Valid()
      reads this
    {
      forall j, k :: 0 <= j < k < |contacts| ==> contacts[j] != contacts[k]
    }

    function View(): seq<ContactData>
      reads this, contacts
    {
      ViewOf(contacts)
    }

    constructor ()
      ensures Valid() && contacts == []
    {
      contacts := [];
    }

    /** handleEdit: the editor takes the given contact objects without copying them. */
    method Load(existing: seq<Contact>)
      requires forall j, k :: 0 <= j < k < |existing| ==> existing[j] != existing[k]
      modifies this
      ensures Valid() && contacts == existing
    {
      contacts := existing;
    }

    /** addContact */
    method AddContact(id: string)
      requires Valid()
      modifies this
      ensures Valid()
      ensures |contacts| == |old(contacts)| + 1 && contacts[..|old(contacts)|] == old(contacts)
      ensures fresh(contacts[|contacts| - 1])
      ensures View() == AddContactView(old(View()), id)
    {
      var c := new Contact(BlankContact(id, |contacts| == 0));
      contacts := contacts + [c];
    }

    /** updateContact: contact `index` is replaced by an edited copy; when the main
        flag is set to true, the other contact objects are cleared in place. */
    method UpdateContact(index: nat, f: ContactField)
      requires Valid() && index < |contacts|
      modifies this, contacts
      ensures Valid()
      ensures |contacts| == |old(contacts)| && fresh(contacts[index])
      ensures forall j :: 0 <= j < |contacts| && j != index ==> contacts[j] == old(contacts[j])
      ensures View() == UpdateContactView(old(View()), index, f)
    {
      ghost var before := View();
      ghost var expected := UpdateContactView(before, index, f);
      var copy := new Contact(SetContactField(contacts[index].Data(), f));
      ReplaceAt(index, copy);
      assert contacts == old(contacts)[index := copy];
      ghost var mid := View();
      if f == ContactMain(true) {
        ClearMainExcept(index);
        forall j | 0 <= j < |contacts| ensures contacts[j].Data() == expected[j] {
          if j != index {
            assert contacts[j].Data() == mid[j].(isMainContact := false);
          }
        }
        ViewOfPointwise(contacts, expected);
      } else {
        assert mid == expected;
      }
    }

    /** The list assignment of updateContact: the object at `index` is replaced by
        `c`, which was not in the list. */
    method ReplaceAt(index: nat, c: Contact)
      requires Valid() && index < |contacts| && c !in contacts
      modifies this
      ensures Valid() && contacts == old(contacts)[index := c]
      ensures View() == old(View())[index := c.Data()]
    {
      ghost var expected := View()[index := c.Data()];
      contacts := contacts[index := c];
      forall a, b | 0 <= a < b < |contacts| ensures contacts[a] != contacts[b] {
        if a != index && b != index {
          assert contacts[a] == old(contacts[a]) && contacts[b] == old(contacts[b]);
        }
      }
      ViewOfPointwise(contacts, expected);
    }

    /** The loop of updateContact: every contact object except the one at `keep`
        loses its main flag, in place. */
    method ClearMainExcept(keep: nat)
      requires Valid() && keep < |contacts|
      modifies contacts
      ensures forall j :: 0 <= j < |contacts| ==>
        contacts[j].Data() == if j == keep then old(contacts[j].Data()) else old(contacts[j].Data()).(isMainContact := false)
    {
      var i := 0;
      while i < |contacts|
        invariant 0 <= i <= |contacts|
        invariant forall j :: 0 <= j < |contacts| ==>
          contacts[j].Data() == if j == keep || i <= j then old(contacts[j].Data()) else old(contacts[j].Data()).(isMainContact := false)
      {
        if i != keep {
          contacts[i].isMainContact := false;
        }
        i := i + 1;
      }
    }

    /** removeContact: the object at `index` leaves the list; if it was the main
        contact, the first remaining object is made main in place. */
    method RemoveContact(index: nat)
      requires Valid() && index < |contacts|
      modifies this, contacts
      ensures Valid()
      ensures contacts == OperationForm.RemoveAt(old(contacts), index)
      ensures View() == RemoveContactView(old(View()), index)
    {
      ghost var before := View();
      ghost var shifted := OperationForm.RemoveAt(before, index);
      var wasMain := contacts[index].isMainContact;
      var rest := OperationForm.RemoveAt(contacts, index);
      forall j | 0 <= j < |rest|
        ensures rest[j] == contacts[if j < index then j else j + 1] && rest[j].Data() == shifted[j]
      {
      }
      forall j, k | 0 <= j < k < |rest| ensures rest[j] != rest[k] {
        assert rest[j] == contacts[if j < index then j else j + 1];
        assert rest[k] == contacts[if k < index then k else k + 1];
      }
      contacts := rest;
      ViewOfPointwise(contacts, shifted);
      if wasMain && |rest| > 0 {
        MakeFirstMain();
      }
    }

    /** The in-place assignment of removeContact: the first contact object becomes
        main and no other object changes. */
    method MakeFirstMain()
      requires Valid() && 0 < |contacts|
      modifies contacts[0]
      ensures View() == old(View())[0 := old(View())[0].(isMainContact := true)]
    {
      ghost var expected := View()[0 := View()[0].(isMainContact := true)];
      contacts[0].isMainContact := true;
      forall j | 0 <= j < |contacts| ensures contacts[j].Data() == expected[j] {
        if j > 0 {
          assert contacts[j] != contacts[0];
        }
      }
      ViewOfPointwise(contacts, expected);
    }

    /** resetForm */
    method Reset()
      modifies this
      ensures Valid() && contacts == []
    {
      contacts := [];
    }
  }

  // ---------------------------------------------------------------------------
  // Search and submission

  /** A client matches the search term on its name (ignoring case), its phone
      (as typed) or its email (ignoring case); absent or empty phone and email
      never match. */
  predicate ClientMatches(c: Client, term: string) {
    || Text.ContainsIgnoreCase(c.name, term)
    || (c.phone.Some? && c.phone.value != "" && Text.Contains(c.phone.value, term))
    || (c.email.Some? && c.email.value != "" && Text.ContainsIgnoreCase(c.email.value, term))
  }

  /** filteredClients */
  function FilterClients(clients: seq<Client>, term: string): (r: seq<Client>)
    ensures forall i :: 0 <= i < |r| ==> r[i] in clients && ClientMatches(r[i], term)
    ensures forall i :: 0 <= i < |clients| && ClientMatches(clients[i], term) ==> clients[i] in r
  {
    Filter(clients, c => ClientMatches(c, term))
  }

  /** An empty search term keeps every client, in order. */
  lemma EmptySearchKeepsAll(clients: seq<Client>)
    ensures FilterClients(clients, "") == clients
  {
    forall c | c in clients ensures ClientMatches(c, "") {
      Text.EmptyTermMatches(c.name);
    }
    FilterAll(clients, c => ClientMatches(c, ""));
  }

  /** The fields of the client form. */
  datatype ClientForm = ClientForm(
    name: string, kind: Option<ClientType>, phone: string, email: string, address: string)

  /** The empty form `resetForm` restores. */
  const EmptyForm := ClientForm("", Some(Owner), "", "", "")

  /** handleEdit: the form loaded from a client, absent texts read as empty. */
  function FormOf(c: Client): ClientForm {
    ClientForm(c.name, c.kind, c.phone.GetOr(""), c.email.GetOr(""), c.address.GetOr(""))
  }

  /** handleSubmit: an update of the client being edited, keeping its id and
      creation date, or a new client with a fresh id. */
  function SubmitClient(editing: Option<Client>, form: ClientForm, contacts: seq<ContactData>,
                        newId: string, now: int): (r: Client)
    ensures editing.Some? ==> r.id == editing.value.id && r.createdAt == editing.value.createdAt
    ensures editing.None? ==> r.id == newId && r.createdAt == now
    ensures r.name == form.name && r.kind == form.kind && r.contacts == Some(contacts)
    ensures r.phone == Some(form.phone) && r.email == Some(form.email) && r.address == Some(form.address)
    ensures r.updatedAt == now
  {
    match editing
    case Some(c) =>
      c.(name := form.name, kind := form.kind, phone := Some(form.phone), email := Some(form.email),
         address := Some(form.address), contacts := Some(contacts), updatedAt := now)
    case None =>
      Client(newId, form.name, form.kind, Some(form.phone), Some(form.email), Some(form.address),
             Some(contacts), now, now)
  }

  /** Opening a client and saving the form untouched changes only its update time
      (and writes empty texts for absent phone, email and address). */
  lemma EditUnchangedRoundTrip(c: Client, now: int)
    requires c.phone.Some? && c.email.Some? && c.address.Some? && c.contacts.Some?
    ensures SubmitClient(Some(c), FormOf(c), c.contacts.value, "unused", now) == c.(updatedAt := now)
  {
  }
}
