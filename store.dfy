/** The contact service over the single persisted `contacts` entry: each
    operation reads the entry, checks for a duplicate phone where it has to,
    and writes the whole new list back. Each runs as one atomic step. */
module Store {
  import opened Wrappers
  import opened Contacts

  /** The message of the error addContact and updateContact raise. */
  const PhoneExistsMessage := "Phone number already exists."

  /** How a contact-service operation ends: done, or rejected with a message. */
  datatype Outcome = Done | Failed(message: string)

  /** Reading the entry: an absent or empty entry reads as the empty list. */
  function Load(entry: Option<seq<Contact>>): seq<Contact> {
    match entry
    case None => []
    case Some(cs) => cs
  }

  class ContactStore {
    /** The `contacts` entry of local storage; None when it is absent or empty. */
    var entry: Option<seq<Contact>>

    /** A store over whatever the entry holds when the page loads. */
    constructor (initial: Option<seq<Contact>>)
      ensures entry == initial
    {
      entry := initial;
    }

    /** The list the next operation will read. */
    function Stored(): seq<Contact>
      reads this
    {
      Load(entry)
    }

    /** addContact with the new id passed in: fails, writing nothing, when the
        phone is already stored; otherwise writes the old list with the new
        contact appended, every earlier entry keeping its place. Phone
        uniqueness is kept always, id uniqueness when the id is fresh. */
    method AddContact(id: int, name: string, phone: string) returns (outcome: Outcome)
      modifies this
      ensures outcome == if HasPhone(old(Stored()), phone) then Failed(PhoneExistsMessage) else Done
      ensures outcome.Failed? ==> entry == old(entry)
      ensures outcome.Done? ==> entry == Some(old(Stored()) + [Contact(id, name, phone)])
      ensures outcome.Done? ==>
                |Stored()| == |old(Stored())| + 1 && Stored()[..|old(Stored())|] == old(Stored())
      ensures UniquePhones(old(Stored())) ==> UniquePhones(Stored())
      ensures UniqueIds(old(Stored())) && !HasId(old(Stored()), id) ==> UniqueIds(Stored())
    {
      var contacts := Load(entry);
      if HasPhone(contacts, phone) {
        outcome := Failed(PhoneExistsMessage);
        return;
      }
      var added := Contact(id, name, phone);
      AppendKeepsUnique(contacts, added);
      contacts := contacts + [added];
      entry := Some(contacts);
      outcome := Done;
    }

    /** deleteContact: never fails and always writes the entry back, holding
        the old list without the entries that have this id; an absent id
        leaves the list as it was. Both uniqueness invariants are kept. */
    method DeleteContact(id: int)
      modifies this
      ensures entry == Some(RemoveId(old(Stored()), id))
      ensures !HasId(old(Stored()), id) ==> Stored() == old(Stored())
      ensures !HasId(Stored(), id)
      ensures UniquePhones(old(Stored())) ==> UniquePhones(Stored())
      ensures UniqueIds(old(Stored())) ==> UniqueIds(Stored())
    {
      var contacts := Load(entry);
      if UniquePhones(contacts) {
        RemoveIdKeepsUniquePhones(contacts, id);
      }
      if UniqueIds(contacts) {
        RemoveIdKeepsUniqueIds(contacts, id);
      }
      contacts := RemoveId(contacts, id);
      entry := Some(contacts);
    }

    /** updateContact: fails, writing nothing, exactly when a contact with
        another id already has the phone; otherwise writes the list with the
        entries of this id given the new name and phone in place. Ids are never
        changed; phones stay unique when ids are unique. */
    method UpdateContact(id: int, name: string, phone: string) returns (outcome: Outcome)
      modifies this
      ensures outcome == if PhoneTakenByOther(old(Stored()), id, phone) then Failed(PhoneExistsMessage) else Done
      ensures outcome.Failed? ==> entry == old(entry)
      ensures outcome.Done? ==> entry == Some(Rewrite(old(Stored()), id, name, phone))
      ensures UniquePhones(old(Stored())) && UniqueIds(old(Stored())) ==> UniquePhones(Stored())
      ensures UniqueIds(Stored()) <==> UniqueIds(old(Stored()))
    {
      var contacts := Load(entry);
      if PhoneTakenByOther(contacts, id, phone) {
        outcome := Failed(PhoneExistsMessage);
        return;
      }
      RewriteKeepsUniqueIds(contacts, id, name, phone);
      if UniquePhones(contacts) && UniqueIds(contacts) {
        RewriteKeepsUniquePhones(contacts, id, name, phone);
      }
      contacts := Rewrite(contacts, id, name, phone);
      entry := Some(contacts);
      outcome := Done;
    }
  }
}
