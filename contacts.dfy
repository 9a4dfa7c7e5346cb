/** One contact record and access to its fields by key. */
module Contacts {
  import opened Options
  import opened Dates

  /** A contact record: the dictionary with keys `name`, `phones`,
      `birthday`, `email`, `status` and `note`. */
  datatype Contact = Contact(
    name: string,
    phones: seq<string>,
    birthday: Option<Date>,
    email: string,
    status: string,
    note: string)

  /** The fields that hold plain text. */
  datatype TextField = Name | Email | Status | Note

  /** What a dictionary key names in a contact record. */
  datatype Key = TextKey(field: TextField) | PhonesKey | BirthdayKey | UnknownKey

  /** The value of a text field. */
  function FieldText(c: Contact, f: TextField): string
  {
    match f
    case Name => c.name
    case Email => c.email
    case Status => c.status
    case Note => c.note
  }

  /** `account[f] = value` for a text field: that field now holds `value`
      and every other field keeps what it had. */
  function WithText(c: Contact, f: TextField, value: string): (r: Contact)
    ensures FieldText(r, f) == value
    ensures forall g :: g != f ==> FieldText(r, g) == FieldText(c, g)
    ensures r.phones == c.phones && r.birthday == c.birthday
  {
    match f
    case Name => c.(name := value)
    case Email => c.(email := value)
    case Status => c.(status := value)
    case Note => c.(note := value)
  }

  /** The field a key string names; keys are compared exactly, case included. */
  function KeyOf(key: string): (k: Key)
    ensures k.TextKey? <==> key in {"name", "email", "status", "note"}
    ensures k == PhonesKey <==> key == "phones"
    ensures k == BirthdayKey <==> key == "birthday"
  {
    if key == "name" then TextKey(Name)
    else if key == "email" then TextKey(Email)
    else if key == "status" then TextKey(Status)
    else if key == "note" then TextKey(Note)
    else if key == "phones" then PhonesKey
    else if key == "birthday" then BirthdayKey
    else UnknownKey
  }

  /** Each text key names the field of the same name, so `account[key]`
      reads that field. */
  lemma KeyNamesField(key: string)
    ensures KeyOf(key) == TextKey(Name) <==> key == "name"
    ensures KeyOf(key) == TextKey(Email) <==> key == "email"
    ensures KeyOf(key) == TextKey(Status) <==> key == "status"
    ensures KeyOf(key) == TextKey(Note) <==> key == "note"
  {
  }
}
