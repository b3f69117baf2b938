/** The add form's submit handler and the edit form's save handler, without
    the page: both trim the two fields, check the name, then the phone, then
    format the phone and hand the contact to the contact service. The message
    a handler would show is returned instead. */
module Handlers {
  import opened Wrappers
  import opened Text
  import opened Validation
  import opened Formatting
  import opened Contacts
  import opened Store

  const InvalidNameMessage := "Please enter a valid name (at least 2 characters)."
  const InvalidPhoneMessage := "Please enter a valid Indian phone number."

  /** What the checks make of the two fields. */
  datatype Submission = InvalidName | InvalidPhone | Ready(name: string, phone: string)

  /** Trim, validate the name, validate the phone, format: the name check
      comes first, the phone is checked only for a good name, and a ready
      contact carries the trimmed name and the formatted phone. */
  function PrepareContact(rawName: string, rawPhone: string): (s: Submission)
    ensures s.InvalidName? <==> |Trim(rawName)| < 2
    ensures s.InvalidPhone? <==> |Trim(rawName)| >= 2 && !ValidatePhone(Trim(rawPhone))
    ensures s.Ready? ==>
              && s.name == Trim(rawName) && |s.name| >= 2
              && ValidatePhone(Trim(rawPhone)) && s.phone == FormatPhone(Trim(rawPhone))
  {
    var name := Trim(rawName);
    var phone := Trim(rawPhone);
    if !ValidateName(name) then InvalidName
    else if !ValidatePhone(phone) then InvalidPhone
    else Ready(name, FormatPhone(phone))
  }

  /** The message shown for a rejected form. */
  function RejectionMessage(s: Submission): string
    requires !s.Ready?
  {
    if s.InvalidName? then InvalidNameMessage else InvalidPhoneMessage
  }

  /** Submitting the edit form with the phone it was filled with: a phone
      that formatPhone made from an accepted number P + D passes the checks
      and formats to itself, except when formatPhone cut a bare D starting
      with 91 to eight digits; that stored phone is then rejected. */
  lemma EditStoredPhone(rawName: string, entered: string)
    requires |Trim(rawName)| >= 2 && ValidatePhone(entered)
    ensures |entered| >= 10
    ensures var stored, p, d := FormatPhone(entered), entered[..|entered| - 10], entered[|entered| - 10..];
      PrepareContact(rawName, stored) ==
        if p == "" && "91" <= d then InvalidPhone else Ready(Trim(rawName), stored)
  {
    var stored := FormatPhone(entered);
    FormatValidPhone(entered);
    FormatPhoneIdempotent(entered);
    FormattedIsTrimmed(stored);
    var p, d := entered[..|entered| - 10], entered[|entered| - 10..];
    if p == "" && "91" <= d {
      assert !ValidatePhone(Trim(stored));
    } else {
      assert ValidatePhone(Trim(stored)) && FormatPhone(Trim(stored)) == stored;
    }
  }

  /** A formatted phone with at least one character after `+91 ` has no white
      space at either end, so trimming it changes nothing. */
  lemma FormattedIsTrimmed(r: string)
    requires "+91 " <= r && |r| > 4 && NoSeparators(r[4..])
    ensures Trim(r) == r
  {
  }

  /** The submit handler with the new id passed in. Returns None when the
      contact was stored, else the message shown; a rejected form or a
      duplicate phone writes nothing. */
  method SubmitContact(store: ContactStore, id: int, rawName: string, rawPhone: string)
    returns (error: Option<string>)
    modifies store
    ensures var s := PrepareContact(rawName, rawPhone);
      && (!s.Ready? ==> error == Some(RejectionMessage(s)) && store.entry == old(store.entry))
      && (s.Ready? && HasPhone(old(store.Stored()), s.phone) ==>
            error == Some(PhoneExistsMessage) && store.entry == old(store.entry))
      && (s.Ready? && !HasPhone(old(store.Stored()), s.phone) ==>
            error == None && store.entry == Some(old(store.Stored()) + [Contact(id, s.name, s.phone)]))
  {
    var s := PrepareContact(rawName, rawPhone);
    if !s.Ready? {
      error := Some(RejectionMessage(s));
      return;
    }
    var outcome := store.AddContact(id, s.name, s.phone);
    error := if outcome.Failed? then Some(outcome.message) else None;
  }

  /** The save handler of the edit form for the contact with this id. Returns
      None when the contact was rewritten, else the message shown; a rejected
      form or a phone held by another contact writes nothing. */
  method SaveEdit(store: ContactStore, id: int, rawName: string, rawPhone: string)
    returns (error: Option<string>)
    modifies store
    ensures var s := PrepareContact(rawName, rawPhone);
      && (!s.Ready? ==> error == Some(RejectionMessage(s)) && store.entry == old(store.entry))
      && (s.Ready? && PhoneTakenByOther(old(store.Stored()), id, s.phone) ==>
            error == Some(PhoneExistsMessage) && store.entry == old(store.entry))
      && (s.Ready? && !PhoneTakenByOther(old(store.Stored()), id, s.phone) ==>
            error == None && store.entry == Some(Rewrite(old(store.Stored()), id, s.name, s.phone)))
  {
    var s := PrepareContact(rawName, rawPhone);
    if !s.Ready? {
      error := Some(RejectionMessage(s));
      return;
    }
    var outcome := store.UpdateContact(id, s.name, s.phone);
    error := if outcome.Failed? then Some(outcome.message) else None;
  }
}
