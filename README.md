# Address book contact store, modelled in Dafny

This project models the contact store of a small console address book. The
store is the `AddressBook` class of `AddressBook.py`. It keeps an ordered list
of contact records. Each record holds a name, a list of phones, an optional
birthday, an email, a status and a note. The store adds records at the end.
It searches a text field for a case-insensitive substring. It edits one field
of the first record with a given name, case ignored, and removes the first
record whose name contains a pattern. It lists the records whose birthday
falls in the current Monday-to-Sunday week. It also logs every change.

Files and modules:

- `options.dfy` (`Options`): `Option` for Python's `None`, and `Result` for
  an operation that may raise.
- `seqs.dfy` (`Seqs`): the list operations the store uses. `Filter` is the
  loop that appends matches to a fresh list. `FirstIndex` is the loop with an
  early `return`. `DeleteFirst` is Python's `list.remove`.
- `text.dfy` (`Text`): `str.lower` (ASCII only), the `in` operator on
  strings (`Contains`) and `str.join`.
- `dates.dfy` (`Dates`): dates as Python ordinals, `date.weekday`, and the
  current week.
- `contacts.dfy` (`Contacts`): the contact record and access to its fields
  by key.
- `store.dfy` (`Store`): the class `AddressBook`, the functions that specify
  its operations, and the lemmas about them.
- `display.dfy` (`Display`): the text of one rendered record, with the
  rules for its `Phones:` and `Birthday:` lines.
- `examples.dfy` (`Scenarios`): worked cases on two-record address books.

How the source maps to the model:

- The source shows results through a user-interface object. Here each
  operation returns a `Reply` instead: `Silent`, `Shown(records)` or
  `Message(text)`. The messages are the source's own strings.
- The source reads today's date from the clock. Here `Congratulate` takes
  `today` as a parameter.
- A date is its proleptic Gregorian ordinal, as Python's `date.toordinal`
  gives it. Day 1 is 1 January of year 1, a Monday, so
  `Weekday(d) == (d + 6) % 7` agrees with `date.weekday`.
- `search` takes the category as a raw key string, as the source does. A
  text key filters the records. The keys `phones` and `birthday` raise
  `AttributeError`, since a list, a date or `None` has no `lower`. Any other
  key raises `KeyError`. Both are raised only when the store holds a record,
  because the loop never looks a key up on an empty list.
- `remove` calls `list.remove(account)`, which deletes the first record
  *equal* to the match, not necessarily the match itself. `Remove` models
  that call as written. It proves that the deleted record is the match: an
  equal record earlier in the list would have matched first.
- The activity log is the sequence of action texts one address book has
  appended to `log.txt`. The timestamp and the file are not modelled.
- `load` receives the file as an `Option`: `None` when the file does not
  exist, otherwise the records stored in it. `save` returns the records it
  writes.
- `congratulate` compares a birthday's full date with the week window, as
  the code does. It does not re-anchor the year, so only a birthday dated in
  the current week matches.

## Model

| member | source | states |
|---|---|---|
| Store.AddressBook.constructor | AddressBook.py:63-66 | a new address book has no records and an empty log |
| Store.AddressBook.Add | AddressBook.py:116-118 | the record list becomes the old list with the new record appended last, so it is one longer and earlier records are unchanged; "Added contact" is logged |
| Store.AddressBook.Save | AddressBook.py:120-123 | the payload written is exactly the current record list, the list is unchanged, and "Saved address book" is logged |
| Store.AddressBook.Load | AddressBook.py:125-131 | a present file replaces the whole list and logs "Loaded address book"; a missing file leaves the list and the log unchanged and replies "File not found." |
| Store.AddressBook.Search | AddressBook.py:133-141 | the reply equals `Searched` on the current records, proved through the loop invariant that the records found so far are the filter of the prefix scanned; the method changes nothing |
| Store.SearchListsMatches | AddressBook.py:133-141 | on a text field the search succeeds; it replies "No contacts found." exactly when no record matches, and otherwise lists exactly the records whose lower-cased field contains the lower-cased pattern |
| Store.Searched | AddressBook.py:133-141 | the search, whose test `Matches` asks whether the lower-cased pattern occurs in the lower-cased field, raises exactly when the key is not a text field and the store is not empty; it raises `KeyError` exactly when the key names no field and `AttributeError` exactly when the key is "phones" or "birthday"; a successful search always replies, and a listing comes only from a text field and holds at most as many records as the store |
| Seqs.FilterStep | AddressBook.py:134-137 | scanning one more record extends the matches found so far by that record exactly when it passes the test |
| Seqs.FilterSingleton | AddressBook.py:134-137 | a one-record list keeps its record exactly when it passes the test |
| Seqs.Filter | AddressBook.py:134-137 | the kept records are at most as many as the input, and a record is kept exactly when it is in the input and passes the test |
| Seqs.FilterAppend | AddressBook.py:134-137 | filtering a concatenation is the concatenation of the filtered parts, so results keep list order |
| Store.AddressBook.Edit | AddressBook.py:143-149 | the new list is `Edited` of the old one; on a name match the reply is silent and "Edited contact" is logged, otherwise the reply is "Contact not found." and the log is unchanged |
| Store.Edited | AddressBook.py:143-148 | editing keeps the length, only a record whose lower-cased name equals the lower-cased name given (the test `NamedAs`) can change, and a record's name changes only to the new value when the name field is edited |
| Store.EditChangesFirstMatchOnly | AddressBook.py:143-148 | when record i is the first whose lower-cased name equals the lower-cased name given, editing keeps the length, keeps every other record, sets the chosen field of record i to the new value and leaves its other fields unchanged |
| Store.EditWithoutMatch | AddressBook.py:144-149 | when no name matches, editing leaves the list unchanged |
| Seqs.FirstIndex | AddressBook.py:144-148 | the index found is the first whose record passes the test, and none is found exactly when no record passes |
| Store.AddressBook.Remove | AddressBook.py:151-158 | the new list is `Removed` of the old one; on a match the reply is "Contact removed." and "Removed contact" is logged, otherwise the reply is "Contact not found." and the log is unchanged |
| Store.Removed | AddressBook.py:151-157 | removing, with the name test `Matches` on the name field, drops at most one record, a list of the same length is the list unchanged, and every record left was in the list |
| Store.RemoveDropsFirstMatchOnly | AddressBook.py:151-157 | when record i is the first whose lower-cased name contains the lower-cased pattern, removing gives a list one shorter, keeps the records before i, shifts the later ones down by one, and the multiset loses exactly record i |
| Store.ListRemoveDropsMatch | AddressBook.py:152-154 | `list.remove(account)` on the first record whose name contains the pattern deletes that very record, so the result is `Removed` of the list |
| Seqs.Without | AddressBook.py:154 | cutting out position i gives a list one shorter, with the earlier elements in place, the later ones moved down by one, and exactly the element at i taken out of the multiset |
| Store.RemoveWithoutMatch | AddressBook.py:152-158 | when no name contains the pattern, removing leaves the list unchanged |
| Seqs.DeleteFirstAt | AddressBook.py:154 | removing the value at position i, when no earlier element equals it, deletes exactly position i |
| Seqs.DeleteFirst | AddressBook.py:154 | `list.remove` of a present value shortens the list by one |
| Dates.Weekday | AddressBook.py:162 | the weekday of a date is between 0 (Monday) and 6 (Sunday) |
| Dates.OrdinalOneIsMonday | AddressBook.py:162 | day 1, 1 January of year 1, is a Monday, which anchors the weekday formula to `date.weekday` |
| Dates.WeekdayNext | AddressBook.py:162 | the weekday advances by one each day and wraps from Sunday (6) to Monday (0), so with day 1 a Monday it agrees with `date.weekday` on every day |
| Dates.CurrentWeek | AddressBook.py:160-164 | the window starts on a Monday, ends six days later and contains today |
| Dates.CurrentWeekUnique | AddressBook.py:160-164 | any Monday-to-Sunday range that contains today is the current week |
| Store.AddressBook.Congratulate | AddressBook.py:166-177 | the reply lists the records of `Celebrated`, or says "No birthdays this week." when there are none, proved through the loop invariant on the prefix scanned |
| Store.Report | AddressBook.py:174-177 | the reply is the "none" message exactly when nothing was found, and otherwise lists what was found |
| Store.Celebrated | AddressBook.py:166-173 | the birthday list is no longer than the store, and every record in it is in the store and has a birthday inside the current week, ends included, which is the test `BornIn` |
| Store.CelebratedExactly | AddressBook.py:166-173 | a record is listed exactly when it is in the store and has a birthday from today minus its weekday to six days later |
| Store.CelebratedBoundary | AddressBook.py:170-173 | a birthday on the window's Monday or Sunday is listed; one a day before the Monday, a day after the Sunday, or no birthday at all is not |
| Contacts.WithText | AddressBook.py:146 | writing a text field sets that field to the value and leaves every other field unchanged |
| Contacts.KeyOf | AddressBook.py:136 | the text keys are exactly "name", "email", "status" and "note", "phones" names the phone list, "birthday" names the birthday, and every other key names no field |
| Contacts.KeyNamesField | AddressBook.py:136 | "name", "email", "status" and "note" each name the text field of the same name and no other key does |
| Text.LowerChar | AddressBook.py:136 | a lower-cased character is never an upper-case letter; an upper-case letter becomes the lower-case letter at the same place in the alphabet, and every other character is kept |
| Text.Lower | AddressBook.py:136 | lower-casing keeps the length, lower-cases each character in place, and leaves no upper-case letter |
| Text.Contains | AddressBook.py:136 | the empty pattern occurs in every text, and a pattern that occurs is no longer than the text |
| Text.ContainsIff | AddressBook.py:136 | the left-to-right scan for `p in s` holds exactly when `p` occurs at some position of `s` |
| Text.MissingCharNotContained | AddressBook.py:136 | a pattern with a character missing from the text does not occur in it |
| Text.ContainsMiddle | AddressBook.py:136 | a string occurs in any text built around it |
| Text.Join | AddressBook.py:35 | joining no parts gives the empty text, and a join begins with its first part and ends with its last |
| Text.JoinPartAt | AddressBook.py:35 | every part occurs in the joined text at some position |
| Text.JoinShowsPart | AddressBook.py:35 | every part occurs in the joined text |
| Text.JoinEmptyIff | AddressBook.py:35 | a join of non-empty parts is empty exactly when there are no parts |
| Display.FormatPhones | AddressBook.py:30-37 | the loop builds exactly `PhonesText`, the non-empty phones in order joined with ", " as `PhonesTextCons` and `PhonesSkipEmpty` establish, and the empty text when there are no phones |
| Display.PhonesText | AddressBook.py:30-37 | the phone text is blank exactly when every phone entry is empty |
| Display.BirthdayText | AddressBook.py:26-29 | a missing birthday prints as the empty text, and a set one prints as the renderer's text for that date |
| Display.Card | AddressBook.py:38-39 | a rendered record begins and ends with a line of 50 underscores and holds more than those two lines |
| Display.PhonesTextCons | AddressBook.py:30-37 | a non-empty first phone opens the phone text, followed by ", " and the text of the other phones when that is not blank; with `PhonesSkipEmpty` and the empty list this fixes the text as the shown phones in order, separated by ", " |
| Display.PhoneShown | AddressBook.py:30-37 | every non-empty phone entry appears in the phone text |
| Display.PhonesSkipEmpty | AddressBook.py:32-34 | an empty phone entry anywhere leaves the phone text unchanged |
| Display.CardNameAndPhones | AddressBook.py:38-39 | a rendered record holds its name unchanged on the `Name:` line, followed by the `Phones:` line carrying the phone text up to the line break |
| Display.CardBirthday | AddressBook.py:38-39 | a rendered record holds the `Birthday:` line with the birthday text, up to the line break before `Email:` |
| Display.CardEmailStatusNote | AddressBook.py:38-39 | a rendered record holds its email, status and note unchanged on the `Email:`, `Status:` and `Note:` lines, in that order |
| Display.BlankBirthdayLine | AddressBook.py:26-29 | a record without a birthday is printed with a blank `Birthday:` line, whatever the date renderer |
| Scenarios.SearchFindsAlice | AddressBook.py:133-139 | searching names for "alice" lists "Alice Smith" |
| Scenarios.SearchMissesXyz | AddressBook.py:133-141 | searching names for "xyz" replies "No contacts found." |
| Scenarios.EditReachesFirstBob | AddressBook.py:143-148 | with "Bob" before "bob", editing "BOB" changes only the first record's email |
| Scenarios.RemoveAnnKeepsAnna | AddressBook.py:151-157 | with "Ann" before "Anna", removing "ann" drops "Ann" and keeps "Anna" |

## Left out

- `save` and `load` serialise with `pickle`. The file format and the file
  system are not modelled: a stored file is the record list it holds.
- `log` appends to `log.txt` with a time from the clock. Only the action text
  is kept, and only for the entries this address book appends: the file's
  earlier contents, which persist across runs, are not part of the state.
- `dt.now()` in the week computation: today's date is a parameter.
- The date range of Python's `date`, years 1 to 9999, is not modelled. An
  overflow at either end of that range cannot happen in the model.
- `strptime` and `strftime`: parsing `YYYY-MM-DD` and printing `DD/MM/YYYY`
  are library calls. The printed date is a caller-supplied `render` function.
- `str.lower` is modelled for ASCII letters only. Unicode case mapping is not
  modelled.
- Store.AddressBook.Edit: takes only the four text fields. The source also
  stores raw text into `phones`, into `birthday` or under a new key, and
  those writes are not modelled. Text in `phones` is still displayed: the
  phone loop walks its characters and joins them with ", ". `congratulate`
  never reads `phones`. A new key affects neither display nor
  `congratulate`. Only non-empty text in `birthday` raises, at `strftime`
  when the record is displayed and at `.date()` in `congratulate`; empty
  text counts as no birthday. After such a write, `search` on "phones", on
  "birthday" or on the new key no longer raises at that record.
- Records are values. The source edits a record dictionary in place, so an
  object listed twice would change in both places. That aliasing is not
  modelled.
- `__next__` and `__iter__`, the display iterator, are not modelled.
- `__getitem__` and `__setitem__` are plain list access and are not modelled.
- The console user interface is not modelled: `ConsoleUI.display_contacts`
  printing, `display_message`, `display_commands` and `get_input`. Neither is
  the `main` command loop. The text of one rendered record is modelled in
  `Display.Card`, both rules and every field line included. The `'\n'.join`
  of several records and the `print` are not.
