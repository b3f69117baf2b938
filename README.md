# Contact list manager — a Dafny model of its core

The system is a browser page that keeps a list of contacts (a name and an
Indian mobile number each) in one local-storage entry named `contacts`.
Its core, all in `script.js`, is:

- **validation** — `validatePhone` (an anchored pattern: an optional `+91`,
  `91` or `0` prefix, then a digit 6–9 and nine more digits) and
  `validateName` (at least two characters);
- **formatting** — `formatPhone`, which deletes white space, hyphens and
  parentheses, drops one leading `+91`, `91` or `0`, keeps the last ten
  characters and puts `+91 ` in front;
- **the contact service** — `addContact`, `deleteContact` and
  `updateContact`, each a read-modify-write of the stored list, with a
  duplicate-phone check on add and update;
- **the form handlers** — the add form's submit handler and the edit form's
  save handler, which trim both fields, check the name, check the phone,
  format the phone and call the service.

The model, module by module:

| file | module | what it holds |
|---|---|---|
| `text.dfy` | `Wrappers`, `Text` | `Option`; JavaScript white space and `trim` |
| `validation.dfy` | `Validation` | `ValidatePhone`, `ValidateName` as predicates |
| `formatting.dfy` | `Formatting` | `FormatPhone` as written, the corrected `CanonicalPhone`, their lemmas |
| `contacts.dfy` | `Contacts` | the `Contact` record, the `some`/`filter`/`map` steps as functions, the uniqueness invariants |
| `store.dfy` | `Store` | class `ContactStore` whose field `entry` is the storage entry, with the three service operations as methods |
| `handlers.dfy` | `Handlers` | the trim→validate→format pipeline and the two handlers as methods over a store |

White space is the exact set that JavaScript's `\s` and `String.prototype.trim`
use (tab, line feed, vertical tab, form feed, carriage return, space, U+00A0,
U+1680, U+2000–U+200A, U+2028, U+2029, U+202F, U+205F, U+3000, U+FEFF); it is
used for the separator after a country code, for the characters
`formatPhone` deletes and for trimming. `\d` is `0`–`9`.

The storage entry is `Option<seq<Contact>>`: `None` stands for an entry that
is absent or empty, and reading it gives the empty list, as every operation
of the source does. Every successful operation writes `Some(list)` back, even
a delete of an id that is not there; a rejected add or update writes nothing.

## Model

| member | source | states |
|---|---|---|
| `Text.TrimStart` | script.js:16-17 | the result is the longest suffix not starting with white space, and only white space was dropped |
| `Text.TrimEnd` | script.js:16-17 | the result is the longest prefix not ending with white space, and only white space was dropped |
| `Text.Trim` | script.js:170-171 | neither end of the result is white space, and already trimmed text is unchanged |
| `Text.TrimIsSlice` | script.js:16-17 | the trimmed text is a contiguous slice of the input with only white space outside it |
| `Validation.ValidatePhoneSplit` | script.js:44-47 | the pattern matches exactly when the last ten characters are a digit 6–9 and nine digits and what precedes them is empty, `0`, `+91` or `91` (the last two with at most one hyphen or white-space character after); an accepted string has 10 to 14 characters |
| `Validation.ValidationExamples` | script.js:44-52 | 9876543210, +91 9876543210 and 09876543210 are accepted, 12345 and 5876543210 rejected; a one-letter name is rejected and a two-letter one accepted |
| `Formatting.RemoveSeparators` | script.js:215 | the result has no white space, hyphen or parenthesis, holds only characters of the input, is no longer than it, and text without separators is returned unchanged |
| `Formatting.RemoveSeparatorsAppend` | script.js:215 | deleting separators distributes over concatenation, so the kept characters stay in order |
| `Formatting.StripCountryCode` | script.js:216-223 | the result is a suffix of the input, shorter exactly when the input starts with `+91`, `91` or `0`, and what is dropped is one whole code (`+91`, `91` or `0`) or nothing |
| `Formatting.KeepLast` | script.js:224-225 | the result is a suffix of at most ten characters, exactly ten when the input has ten or more, the whole input otherwise |
| `Formatting.FormatPhone` | script.js:213-228 | for every input the result starts with `+91 ` and is followed by at most ten characters, none a separator |
| `Formatting.FormatPhoneIdempotent` | script.js:213-228 | formatting a formatted value gives it back, for every input |
| `Formatting.FormatValidPhone` | script.js:213-228 | for an accepted P + D (D the last ten digits) the result is `+91 ` + D if and only if P is non-empty or D does not start with 91; otherwise it is `+91 ` + the last eight digits of D; the result is accepted again exactly in the first case |
| `Formatting.FormatPhoneDropsDigits` | script.js:219-220 | every bare ten-digit number D starting with 91 is accepted, formats to `+91 ` + the last eight digits of D, and that result is not accepted |
| `Formatting.BareNinetyOneExample` | script.js:45 | 9123456789 is a mobile number starting with 91, so the case above occurs |
| `Formatting.CanonicalPhone` | script.js:224-227 | the corrected formatter's result starts with `+91 ` followed by at most ten characters, none a separator |
| `Formatting.CanonicalPhoneKeepsDigits` | script.js:224-227 | for every accepted P + D the corrected formatter gives `+91 ` + D, which is accepted again and formats to itself; it agrees with `formatPhone` exactly when P is non-empty or D does not start with 91 |
| `Contacts.HasPhone` | script.js:87 | true exactly when some stored contact has this phone |
| `Contacts.PhoneTakenByOther` | script.js:202 | true exactly when some stored contact with a different id has this phone |
| `Contacts.RemoveId` | script.js:102 | no survivor has the id, the survivors are exactly the entries with other ids, and a list without the id is returned unchanged |
| `Contacts.RemoveIdAppend` | script.js:102 | the filter distributes over concatenation, so survivors keep their relative order |
| `Contacts.RemoveIdIdempotent` | script.js:97-103 | deleting an id twice gives the same list as deleting it once |
| `Contacts.Rewrite` | script.js:205-207 | same length and same id at every position; entries with the id become `{id, name, phone}` with the new values; every other entry is untouched |
| `Contacts.AppendKeepsUnique` | script.js:87-91 | appending a contact whose phone is not stored keeps phones unique; appending one with a fresh id keeps ids unique |
| `Contacts.RemoveIdKeepsUniquePhones` | script.js:102 | the delete filter keeps phones unique |
| `Contacts.RemoveIdKeepsUniqueIds` | script.js:102 | the delete filter keeps ids unique |
| `Contacts.RewriteKeepsUniquePhones` | script.js:202-207 | when ids and phones are unique and no other id holds the new phone, phones stay unique after the update map |
| `Contacts.RewriteKeepsUniqueIds` | script.js:205-207 | the update map leaves ids unique if and only if they were |
| `Contacts.RewriteNeedsUniqueIds` | script.js:202-207 | two entries sharing an id both receive the new phone, so phone uniqueness needs unique ids |
| `Contacts.ResaveOwnPhone` | script.js:201-204 | while phones are unique, a contact's own current phone never counts as taken by another |
| `Store.ContactStore.AddContact` | script.js:79-94 | fails with "Phone number already exists." and writes nothing exactly when the phone is stored; otherwise the list becomes old + [{id, name, phone}], one longer with every earlier entry in place; keeps phones unique, and ids unique when the id is fresh |
| `Store.ContactStore.DeleteContact` | script.js:97-105 | never fails; the entry becomes the old list without the id's entries; an absent id leaves the list as it was; keeps both uniqueness invariants |
| `Store.ContactStore.UpdateContact` | script.js:198-210 | fails and writes nothing exactly when another id holds the phone; otherwise the list becomes the update map of the old one; ids stay unique if and only if they were; phones stay unique when ids are unique |
| `Handlers.PrepareContact` | script.js:16-29 | the name is rejected exactly when its trimmed form is shorter than two; the phone is rejected exactly when the name passes and the trimmed phone fails the pattern; otherwise the contact carries the trimmed name and the formatted trimmed phone |
| `Handlers.EditStoredPhone` | script.js:156-183 | saving the edit form with the stored phone it was filled with succeeds the checks and leaves the phone as it is, except for a phone formatted from a bare number starting with 91, which is then rejected as invalid |
| `Handlers.SubmitContact` | script.js:12-41 | a rejected form returns the name or phone message and writes nothing; a duplicate formatted phone returns the service's message and writes nothing; otherwise the formatted contact is appended |
| `Handlers.SaveEdit` | script.js:168-189 | a rejected form returns its message and writes nothing; a phone held by another id returns the service's message and writes nothing; otherwise the id's entries are rewritten with the trimmed name and formatted phone |

## Findings

| source | as written | input that shows it | evidently intended | confidence | as-written member | corrected member |
|---|---|---|---|---|---|---|
| script.js:219-220 | `formatPhone` drops a leading `91` even when no country code was typed, although the pattern at line 45 accepts a bare ten-digit number starting with 9 | `9123456789` is accepted and stored as `+91 23456789` (eight digits), which the pattern then rejects, so that contact cannot be re-saved unchanged | `+91 9123456789`: keep the last ten digits | not executed; follows from the code read as written | `Formatting.FormatPhoneDropsDigits` | `Formatting.CanonicalPhoneKeepsDigits` |

`Formatting.CanonicalPhone` is the corrected formatter: `+91 ` and the last
ten characters once separators are deleted. The handlers keep calling
`FormatPhone`, because they model the page as it behaves; the consequence is
stated by `Handlers.EditStoredPhone`.

## Left out

- Rendering (`renderContacts`, `enterEditMode` markup, `showError`/`clearError`), `confirm` dialogs, event wiring and form resets: presentation only.
- `escapeHTML`: it relies on the browser's `textContent`/`innerHTML` behaviour, which is not in the source.
- The `setTimeout` latency and `async`/`await`: each service operation is one atomic step, so the lost update between two concurrent `addContact` calls (both pass the duplicate check before either writes) is not modelled.
- `localStorage` and JSON: the entry holds the list itself; serialisation, parse errors and the difference between an absent and an empty-string entry (both read as the empty list) are not modelled.
- `Date.now()`: the new id is a parameter of `AddContact` and `SubmitContact`; clock uniqueness is not modelled, which is why id uniqueness is a hypothesis.
- `loadContacts` and the cancel button only read and render the list.
- JavaScript strings are UTF-16 code units and Dafny strings are Unicode scalar values; lengths agree for text without characters outside the Basic Multilingual Plane.
- `Validation.ValidateName` and `Validation.ValidatePhone` are predicates without contracts of their own; what they accept is stated by `Validation.ValidatePhoneSplit`, `Validation.ValidationExamples` and `Handlers.PrepareContact`.
