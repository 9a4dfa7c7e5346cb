/** The in-memory contact store: an ordered list of contact records and the
    activity log of its changes. What the store hands to the user interface
    is returned as a `Reply` instead of being displayed. */
module Store {
  import opened Options
  import opened Seqs
  import opened Text
  import opened Dates
  import opened Contacts

  /** What an operation passes to the user interface: nothing, a listing of
      records, or a one-line message. */
  datatype Reply = Silent | Shown(contacts: seq<Contact>) | Message(text: string)

  /** The exceptions `search` raises on a key that is not a text field. */
  datatype SearchError = KeyError(key: string) | AttributeError(key: string)

  const NoContactsFound := "No contacts found."
  const ContactNotFound := "Contact not found."
  const ContactRemoved := "Contact removed."
  const NoBirthdays := "No birthdays this week."
  const FileNotFound := "File not found."

  // Action texts of the activity log.
  const AddedContact := "Added contact"
  const SavedBook := "Saved address book"
  const LoadedBook := "Loaded address book"
  const EditedContact := "Edited contact"
  const RemovedContact := "Removed contact"

  /** A non-empty result is listed; an empty one becomes the message `none`. */
  function Report(found: seq<Contact>, none: string): (r: Reply)
    ensures r == Message(none) <==> found == []
    ensures r != Message(none) ==> r == Shown(found)
  {
    if found == [] then Message(none) else Shown(found)
  }

  /** The search test: the lower-cased pattern occurs in the lower-cased
      text of field `f`. `remove` uses it on the name. */
  function Matches(pattern: string, f: TextField): Contact -> bool
  {
    (c: Contact) => Contains(Lower(pattern), Lower(FieldText(c, f)))
  }

  /** The edit test: the name equals `contactName` once both are lower-cased. */
  function NamedAs(contactName: string): Contact -> bool
  {
    (c: Contact) => Lower(c.name) == Lower(contactName)
  }

  /** The birthday test: a birthday is set and lies in week `w`, ends included. */
  function BornIn(w: Week): Contact -> bool
  {
    (c: Contact) => c.birthday.Some? && w.start <= c.birthday.value <= w.end
  }

  /** What `search(pattern, category)` does with the records `data`: a key
      that is not a text field raises as soon as the first record is looked
      at, so it raises only on a non-empty store: `KeyError` for a key no
      record has, `AttributeError` for the list and date fields, which have
      no `lower`. A listing only comes from a text field and never holds more
      records than the store. */
  function Searched(data: seq<Contact>, pattern: string, category: string): (r: Result<Reply, SearchError>)
    ensures r.Failure? <==> !KeyOf(category).TextKey? && data != []
    ensures r == Failure(KeyError(category)) <==> KeyOf(category) == UnknownKey && data != []
    ensures r == Failure(AttributeError(category)) <==>
      (KeyOf(category) == PhonesKey || KeyOf(category) == BirthdayKey) && data != []
    ensures r.Success? ==> r.value != Silent
    ensures r.Success? && r.value.Shown? ==> KeyOf(category).TextKey? && |r.value.contacts| <= |data|
  {
    match KeyOf(category)
    case TextKey(f) => Success(Report(Filter(data, Matches(pattern, f)), NoContactsFound))
    case PhonesKey => if data == [] then Success(Message(NoContactsFound)) else Failure(AttributeError(category))
    case BirthdayKey => if data == [] then Success(Message(NoContactsFound)) else Failure(AttributeError(category))
    case UnknownKey => if data == [] then Success(Message(NoContactsFound)) else Failure(KeyError(category))
  }

  /** The records after `edit(contactName, f, value)`: the first record whose
      name matches gets `value` in field `f`. */
  function Edited(data: seq<Contact>, contactName: string, f: TextField, value: string): (r: seq<Contact>)
    ensures |r| == |data|
    ensures forall j :: 0 <= j < |data| && r[j] != data[j] ==> NamedAs(contactName)(data[j])
    ensures forall j :: 0 <= j < |data| ==> r[j].name == data[j].name || (f == Name && r[j].name == value)
  {
    match FirstIndex(data, NamedAs(contactName))
    case None => data
    case Some(i) => data[i := WithText(data[i], f, value)]
  }

  /** The records after `remove(pattern)`: the first record whose name
      contains the pattern is dropped. */
  function Removed(data: seq<Contact>, pattern: string): (r: seq<Contact>)
    ensures |r| == |data| ==> r == data
    ensures |r| == |data| || |r| == |data| - 1
    ensures forall k :: 0 <= k < |r| ==> r[k] in data
  {
    match FirstIndex(data, Matches(pattern, Name))
    case None => data
    case Some(i) => Without(data, i)
  }

  /** The records `congratulate` lists on day `today`. */
  function Celebrated(data: seq<Contact>, today: Date): (r: seq<Contact>)
    ensures |r| <= |data|
    ensures forall k :: 0 <= k < |r| ==>
      (r[k] in data && r[k].birthday.Some? &&
       CurrentWeek(today).start <= r[k].birthday.value <= CurrentWeek(today).end)
  {
    Filter(data, BornIn(CurrentWeek(today)))
  }


  /** A search on a text field lists exactly the records that match, or
      reports that none was found when no record matches. */
  lemma SearchListsMatches(data: seq<Contact>, pattern: string, category: string)
    requires KeyOf(category).TextKey?
    ensures var f, r := KeyOf(category).field, Searched(data, pattern, category);
      && r.Success?
      && (r.value == Message(NoContactsFound) <==> forall j :: 0 <= j < |data| ==> !Matches(pattern, f)(data[j]))
      && (r.value.Shown? ==> forall c :: c in r.value.contacts <==> c in data && Matches(pattern, f)(c))
  {
    var f := KeyOf(category).field;
    var hits := Filter(data, Matches(pattern, f));
    if hits == [] {
      forall j | 0 <= j < |data| ensures !Matches(pattern, f)(data[j]) {
        assert data[j] in data;
      }
    } else {
      assert hits[0] in hits;
    }
  }

  /** `edit` changes only field `f` of the first record whose name matches
      `contactName` ignoring case; length, order and every other record stay. */
  lemma EditChangesFirstMatchOnly(data: seq<Contact>, contactName: string, f: TextField, value: string, i: nat)
    requires i < |data| && NamedAs(contactName)(data[i])
    requires forall j :: 0 <= j < i ==> !NamedAs(contactName)(data[j])
    ensures var r := Edited(data, contactName, f, value);
      && |r| == |data|
      && (forall j :: 0 <= j < |data| && j != i ==> r[j] == data[j])
      && FieldText(r[i], f) == value
      && (forall g :: g != f ==> FieldText(r[i], g) == FieldText(data[i], g))
      && r[i].phones == data[i].phones && r[i].birthday == data[i].birthday
  {
  }

  /** `edit` with no record of that name changes nothing. */
  lemma EditWithoutMatch(data: seq<Contact>, contactName: string, f: TextField, value: string)
    requires forall j :: 0 <= j < |data| ==> !NamedAs(contactName)(data[j])
    ensures Edited(data, contactName, f, value) == data
  {
  }

  /** `remove` deletes exactly one record, the first whose name contains
      the pattern; the others keep their relative order. */
  lemma RemoveDropsFirstMatchOnly(data: seq<Contact>, pattern: string, i: nat)
    requires i < |data| && Matches(pattern, Name)(data[i])
    requires forall j :: 0 <= j < i ==> !Matches(pattern, Name)(data[j])
    ensures var r := Removed(data, pattern);
      && |r| == |data| - 1
      && (forall j :: 0 <= j < i ==> r[j] == data[j])
      && (forall j :: i <= j < |r| ==> r[j] == data[j + 1])
      && multiset(r) + multiset{data[i]} == multiset(data)
  {
    FirstIndexIs(data, Matches(pattern, Name), i);
  }

  /** `list.remove(account)` on the first record whose name contains the
      pattern drops that very record: an equal record earlier in the list
      would have matched first. */
  lemma ListRemoveDropsMatch(data: seq<Contact>, pattern: string, i: nat)
    requires i < |data| && Matches(pattern, Name)(data[i])
    requires forall j :: 0 <= j < i ==> !Matches(pattern, Name)(data[j])
    ensures data[i] in data && DeleteFirst(data, data[i]) == Removed(data, pattern)
  {
    var hit := Matches(pattern, Name);
    FirstIndexIs(data, hit, i);
    assert Removed(data, pattern) == Without(data, i);
    forall j | 0 <= j < i ensures data[j] != data[i] {
      assert !hit(data[j]) && hit(data[i]);
    }
    DeleteFirstAt(data, i);
    assert Without(data, i) == data[..i] + data[i + 1..];
  }

  /** `remove` with no matching name changes nothing. */
  lemma RemoveWithoutMatch(data: seq<Contact>, pattern: string)
    requires forall j :: 0 <= j < |data| ==> !Matches(pattern, Name)(data[j])
    ensures Removed(data, pattern) == data
  {
  }

  /** `congratulate` keeps exactly the records with a birthday from the
      Monday on or before `today` to the Sunday after it, ends included. */
  lemma CelebratedExactly(data: seq<Contact>, today: Date, c: Contact)
    ensures var monday := today - Weekday(today);
      c in Celebrated(data, today) <==>
        c in data && c.birthday.Some? && monday <= c.birthday.value <= monday + 6
  {
  }

  /** The window's ends: a birthday on its Monday or Sunday is listed, one a
      day outside either end is not. */
  lemma CelebratedBoundary(c: Contact, today: Date)
    ensures var w := CurrentWeek(today);
      && (c.birthday == Some(w.start) ==> Celebrated([c], today) == [c])
      && (c.birthday == Some(w.end) ==> Celebrated([c], today) == [c])
      && (c.birthday == Some(w.start - 1) ==> Celebrated([c], today) == [])
      && (c.birthday == Some(w.end + 1) ==> Celebrated([c], today) == [])
      && (c.birthday == None ==> Celebrated([c], today) == [])
  {
  }

  class AddressBook {
    /** The contact records, in the order they were added. */
    var data: seq<Contact>
    /** The action texts this address book has appended to the activity log
        file, oldest first; the lines the file already held from earlier
        runs are not part of the state. */
    var log: seq<string>

    /** A new address book holds no records and has appended nothing to the
        log file yet. */
    constructor ()
      ensures data == [] && log == []
    {
      data := [];
      log := [];
    }

    /** Appends `record` at the end and logs the addition. */
    method Add(record: Contact)
      modifies this
      ensures data == old(data) + [record]
      ensures log == old(log) + [AddedContact]
    {
      data := data + [record];
      log := log + [AddedContact];
    }

    /** Writes every record out; the written payload is returned. */
    method Save() returns (written: seq<Contact>)
      modifies this
      ensures written == data == old(data)
      ensures log == old(log) + [SavedBook]
    {
      written := data;
      log := log + [SavedBook];
    }

    /** Replaces all records by the ones stored in the file, or reports that
        the file is missing (`stored` is `None`) and changes nothing. */
    method Load(stored: Option<seq<Contact>>) returns (reply: Reply)
      modifies this
      ensures stored.Some? ==> data == stored.value && log == old(log) + [LoadedBook] && reply == Silent
      ensures stored.None? ==> data == old(data) && log == old(log) && reply == Message(FileNotFound)
    {
      if stored.Some? {
        data := stored.value;
        log := log + [LoadedBook];
        reply := Silent;
      } else {
        reply := Message(FileNotFound);
      }
    }

    /** Lists, in store order, the records whose field `category` contains
        `pattern`, both lower-cased. */
    method Search(pattern: string, category: string) returns (r: Result<Reply, SearchError>)
      ensures r == Searched(data, pattern, category)
    {
      var key := KeyOf(category);
      var hit := Matches(pattern, if key.TextKey? then key.field else Name);
      var found: seq<Contact> := [];
      var i := 0;
      while i < |data|
        invariant 0 <= i <= |data|
        invariant key.TextKey? ==> found == Filter(data[..i], hit)
        invariant !key.TextKey? ==> i == 0 && found == []
      {
        var account := data[i];
        match key {
          case TextKey(f) =>
            FilterStep(data, i, hit);
            if hit(account) {
              found := found + [account];
            }
          case PhonesKey =>
            return Failure(AttributeError(category));
          case BirthdayKey =>
            return Failure(AttributeError(category));
          case UnknownKey =>
            return Failure(KeyError(category));
        }
        i := i + 1;
      }
      assert data[..i] == data;
      r := Success(Report(found, NoContactsFound));
    }

    /** Overwrites field `f` of the first record whose name equals
        `contactName`, case ignored. */
    method Edit(contactName: string, f: TextField, value: string) returns (reply: Reply)
      modifies this
      ensures data == Edited(old(data), contactName, f, value)
      ensures FirstIndex(old(data), NamedAs(contactName)).Some? ==>
        reply == Silent && log == old(log) + [EditedContact]
      ensures FirstIndex(old(data), NamedAs(contactName)).None? ==>
        reply == Message(ContactNotFound) && log == old(log)
    {
      var i := 0;
      while i < |data|
        invariant 0 <= i <= |data|
        invariant data == old(data) && log == old(log)
        invariant forall j :: 0 <= j < i ==> !NamedAs(contactName)(data[j])
      {
        if Lower(data[i].name) == Lower(contactName) {
          FirstIndexIs(data, NamedAs(contactName), i);
          data := data[i := WithText(data[i], f, value)];
          log := log + [EditedContact];
          return Silent;
        }
        i := i + 1;
      }
      return Message(ContactNotFound);
    }

    /** Deletes the first record whose name contains `pattern`, case ignored. */
    method Remove(pattern: string) returns (reply: Reply)
      modifies this
      ensures data == Removed(old(data), pattern)
      ensures FirstIndex(old(data), Matches(pattern, Name)).Some? ==>
        reply == Message(ContactRemoved) && log == old(log) + [RemovedContact]
      ensures FirstIndex(old(data), Matches(pattern, Name)).None? ==>
        reply == Message(ContactNotFound) && log == old(log)
    {
      var i := 0;
      while i < |data|
        invariant 0 <= i <= |data|
        invariant data == old(data) && log == old(log)
        invariant forall j :: 0 <= j < i ==> !Matches(pattern, Name)(data[j])
      {
        var account := data[i];
        if Contains(Lower(pattern), Lower(account.name)) {
          FirstIndexIs(data, Matches(pattern, Name), i);
          ListRemoveDropsMatch(data, pattern, i);
          data := DeleteFirst(data, account);
          log := log + [RemovedContact];
          return Message(ContactRemoved);
        }
        i := i + 1;
      }
      return Message(ContactNotFound);
    }

    /** Lists, in store order, the records whose birthday falls in the
        Monday-to-Sunday week holding `today`. */
    method Congratulate(today: Date) returns (reply: Reply)
      ensures reply == Report(Celebrated(data, today), NoBirthdays)
    {
      var week := CurrentWeek(today);
      var found: seq<Contact> := [];
      var i := 0;
      while i < |data|
        invariant 0 <= i <= |data|
        invariant found == Filter(data[..i], BornIn(week))
      {
        var account := data[i];
        assert data[..i + 1] == data[..i] + [account];
        if account.birthday.Some? {
          var birth := account.birthday.value;
          if week.start <= birth <= week.end {
            found := found + [account];
          }
        }
        i := i + 1;
      }
      assert data[..i] == data;
      reply := Report(found, NoBirthdays);
    }
  }
}
