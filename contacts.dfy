/** The contact records and the list operations the contact service applies to
    the stored list: the duplicate-phone searches, the delete filter and the
    update map, with the invariants they keep. */
module Contacts {

  /** One stored record `{id, name, phone}`; the id is the creation time in
      milliseconds. */
  datatype Contact = Contact(id: int, name: string, phone: string)

  /** `contacts.some(c => c.phone === phone)`. */
  function HasPhone(cs: seq<Contact>, phone: string): (b: bool)
    ensures b <==> exists k :: 0 <= k < |cs| && cs[k].phone == phone
  {
    if cs == [] then false
    else cs[0].phone == phone || HasPhone(cs[1..], phone)
  }

  /** `contacts.some(c => c.id !== id && c.phone === phone)`: the phone is used
      by a contact with another id. */
  function PhoneTakenByOther(cs: seq<Contact>, id: int, phone: string): (b: bool)
    ensures b <==> exists k :: 0 <= k < |cs| && cs[k].id != id && cs[k].phone == phone
  {
    if cs == [] then false
    else (cs[0].id != id && cs[0].phone == phone) || PhoneTakenByOther(cs[1..], id, phone)
  }

  /** Some stored contact has this id. */
  predicate HasId(cs: seq<Contact>, id: int) {
    exists k :: 0 <= k < |cs| && cs[k].id == id
  }

  /** `contacts.filter(c => c.id !== id)`: the survivors are exactly the
      entries with another id; a list without the id is returned as it is. */
  function RemoveId(cs: seq<Contact>, id: int): (r: seq<Contact>)
    ensures |r| <= |cs|
    ensures forall k :: 0 <= k < |r| ==> r[k].id != id
    ensures forall c :: c in r <==> c in cs && c.id != id
    ensures !HasId(cs, id) ==> r == cs
  {
    if cs == [] then []
    else if cs[0].id == id then RemoveId(cs[1..], id)
    else [cs[0]] + RemoveId(cs[1..], id)
  }

  /** The filter works piecewise, so the survivors keep their relative order. */
  lemma {:induction false} RemoveIdAppend(a: seq<Contact>, b: seq<Contact>, id: int)
    ensures RemoveId(a + b, id) == RemoveId(a, id) + RemoveId(b, id)
  {
    if a == [] {
      assert a + b == b;
    } else {
      assert (a + b)[1..] == a[1..] + b;
      RemoveIdAppend(a[1..], b, id);
    }
  }

  /** Deleting the same id twice is the same as deleting it once. */
  lemma RemoveIdIdempotent(cs: seq<Contact>, id: int)
    ensures RemoveId(RemoveId(cs, id), id) == RemoveId(cs, id)
  {
  }

  /** `contacts.map(c => c.id === id ? {...c, name, phone} : c)`: same length,
      order and ids; entries with the id get the new name and phone, all
      others are untouched. */
  function Rewrite(cs: seq<Contact>, id: int, name: string, phone: string): (r: seq<Contact>)
    ensures |r| == |cs|
    ensures forall k :: 0 <= k < |cs| ==> r[k].id == cs[k].id
    ensures forall k :: 0 <= k < |cs| && cs[k].id == id ==> r[k] == Contact(id, name, phone)
    ensures forall k :: 0 <= k < |cs| && cs[k].id != id ==> r[k] == cs[k]
  {
    if cs == [] then []
    else
      var c := if cs[0].id == id then cs[0].(name := name, phone := phone) else cs[0];
      [c] + Rewrite(cs[1..], id, name, phone)
  }

  /** No two stored contacts share a phone. */
  predicate UniquePhones(cs: seq<Contact>) {
    forall i, j :: 0 <= i < j < |cs| ==> cs[i].phone != cs[j].phone
  }

  /** No two stored contacts share an id. */
  predicate UniqueIds(cs: seq<Contact>) {
    forall i, j :: 0 <= i < j < |cs| ==> cs[i].id != cs[j].id
  }

  /** Appending a contact whose phone is not yet stored keeps phones unique,
      and appending one whose id is fresh keeps ids unique. */
  lemma AppendKeepsUnique(cs: seq<Contact>, c: Contact)
    ensures UniquePhones(cs) && !HasPhone(cs, c.phone) ==> UniquePhones(cs + [c])
    ensures UniqueIds(cs) && !HasId(cs, c.id) ==> UniqueIds(cs + [c])
  {
  }

  /** The delete filter keeps phones unique. */
  lemma {:induction false} RemoveIdKeepsUniquePhones(cs: seq<Contact>, id: int)
    requires UniquePhones(cs)
    ensures UniquePhones(RemoveId(cs, id))
  {
    if cs != [] {
      RemoveIdKeepsUniquePhones(cs[1..], id);
      var rest := RemoveId(cs[1..], id);
      if cs[0].id != id {
        forall k | 0 <= k < |rest| ensures rest[k].phone != cs[0].phone {
          assert rest[k] in cs[1..];
        }
      }
    }
  }

  /** The delete filter keeps ids unique. */
  lemma {:induction false} RemoveIdKeepsUniqueIds(cs: seq<Contact>, id: int)
    requires UniqueIds(cs)
    ensures UniqueIds(RemoveId(cs, id))
  {
    if cs != [] {
      RemoveIdKeepsUniqueIds(cs[1..], id);
      var rest := RemoveId(cs[1..], id);
      if cs[0].id != id {
        forall k | 0 <= k < |rest| ensures rest[k].id != cs[0].id {
          assert rest[k] in cs[1..];
        }
      }
    }
  }

  /** The update map keeps phones unique when ids are unique and no contact
      with another id holds the new phone. */
  lemma RewriteKeepsUniquePhones(cs: seq<Contact>, id: int, name: string, phone: string)
    requires UniquePhones(cs) && UniqueIds(cs)
    requires !PhoneTakenByOther(cs, id, phone)
    ensures UniquePhones(Rewrite(cs, id, name, phone))
  {
  }

  /** The update map never changes ids, so it keeps them unique. */
  lemma RewriteKeepsUniqueIds(cs: seq<Contact>, id: int, name: string, phone: string)
    ensures UniqueIds(Rewrite(cs, id, name, phone)) <==> UniqueIds(cs)
  {
  }

  /** Without unique ids the update can break phone uniqueness: two entries
      that share an id both receive the new phone. */
  lemma RewriteNeedsUniqueIds()
    ensures var cs := [Contact(1, "Asha", "+91 9876543210"), Contact(1, "Ravi", "+91 9876543211")];
      && UniquePhones(cs)
      && !PhoneTakenByOther(cs, 1, "+91 9876543212")
      && !UniquePhones(Rewrite(cs, 1, "Asha", "+91 9876543212"))
  {
  }

  /** While phones are unique, re-saving a contact with its own current
      phone passes the duplicate check. */
  lemma ResaveOwnPhone(cs: seq<Contact>, k: int)
    requires UniquePhones(cs) && 0 <= k < |cs|
    ensures !PhoneTakenByOther(cs, cs[k].id, cs[k].phone)
  {
  }
}
