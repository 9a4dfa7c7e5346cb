/** How a contact record is rendered for the console: phones joined by ", "
    with empty entries skipped, and a blank birthday when none is set. */
module Display {
  import opened Options
  import opened Seqs
  import opened Text
  import opened Dates
  import opened Contacts

  const PhoneSeparator: string := ", "

  /** The rule of 50 underscores drawn before and after each record. */
  const Rule: string := "__________________________________________________"

  /** The phone entries that are shown: the non-empty ones. */
  predicate Present(phone: string)
  {
    phone != ""
  }

  /** The text of the `Phones:` line: the non-empty entries joined by ", ".
      It is blank exactly when every entry is empty. */
  function PhonesText(phones: seq<string>): (r: string)
    ensures r == "" <==> forall k :: 0 <= k < |phones| ==> phones[k] == ""
  {
    var kept := Filter(phones, Present);
    assert forall k :: 0 <= k < |kept| ==> kept[k] != "" by {
      forall k | 0 <= k < |kept| ensures kept[k] != "" {
        assert kept[k] in kept;
      }
    }
    JoinEmptyIff(kept, PhoneSeparator);
    assert kept != [] ==> kept[0] in kept;
    assert kept == [] ==> forall k :: 0 <= k < |phones| ==> phones[k] == "" by {
      if kept == [] {
        forall k | 0 <= k < |phones| ensures phones[k] == "" {
          assert phones[k] in phones;
        }
      }
    }
    Join(kept, PhoneSeparator)
  }

  /** Builds the `Phones:` text: keeps the non-empty entries in order and
      joins them with ", "; an empty list gives the empty text. */
  method FormatPhones(phones: seq<string>) returns (text: string)
    ensures text == PhonesText(phones)
  {
    if |phones| > 0 {
      var kept: seq<string> := [];
      for k := 0 to |phones|
        invariant kept == Filter(phones[..k], Present)
      {
        assert phones[..k + 1] == phones[..k] + [phones[k]];
        if phones[k] != "" {
          kept := kept + [phones[k]];
        }
      }
      assert phones[..|phones|] == phones;
      text := Join(kept, PhoneSeparator);
    } else {
      text := "";
    }
  }

  /** Every non-empty phone entry appears in the `Phones:` line. */
  lemma PhoneShown(phones: seq<string>, k: nat)
    requires k < |phones| && phones[k] != ""
    ensures Contains(phones[k], PhonesText(phones))
  {
    var kept := Filter(phones, Present);
    assert phones[k] in phones;
    assert phones[k] in kept;
    var m :| 0 <= m < |kept| && kept[m] == phones[k];
    JoinShowsPart(kept, PhoneSeparator, m);
  }

  /** An empty entry anywhere in the list leaves the `Phones:` line as it was. */
  lemma PhonesSkipEmpty(front: seq<string>, back: seq<string>)
    ensures PhonesText(front + [""] + back) == PhonesText(front + back)
  {
    var blank: seq<string> := [""];
    assert blank[..0] == [];
    assert Filter(blank, Present) == [];
    FilterAppend(front + blank, back, Present);
    FilterAppend(front, blank, Present);
    FilterAppend(front, back, Present);
    assert Filter(front + blank, Present) == Filter(front, Present);
  }

  /** A non-empty first entry opens the `Phones:` line, followed by ", " and
      the text of the remaining entries when that text is not blank. With
      `PhonesSkipEmpty` for an empty entry and the empty list giving "", this
      fixes the text of every list: the shown entries in order, separated
      by ", ". */
  lemma PhonesTextCons(p: string, rest: seq<string>)
    requires p != ""
    ensures PhonesText([p] + rest) == if PhonesText(rest) == "" then p else p + ", " + PhonesText(rest)
  {
    var kept := Filter(rest, Present);
    FilterAppend([p], rest, Present);
    FilterSingleton(p, Present);
    var all := [p] + kept;
    assert Filter([p] + rest, Present) == all;
    if kept == [] {
      assert Join(all, PhoneSeparator) == p;
    } else {
      assert kept[0] in kept;
      assert all[1..] == kept;
      assert Join(all, PhoneSeparator) == p + PhoneSeparator + Join(kept, PhoneSeparator);
    }
  }

  /** The text of the `Birthday:` line; how a date is written (`DD/MM/YYYY`)
      is the caller's `render`. */
  function BirthdayText(birthday: Option<Date>, render: Date -> string): (r: string)
    ensures birthday.None? ==> r == ""
    ensures birthday.Some? ==> r == render(birthday.value)
  {
    match birthday
    case None => ""
    case Some(d) => render(d)
  }

  /** The block printed for one record: a line holding the rule, the lines
      `Name:`, `Phones:`, `Birthday:`, `Email:`, `Status:` and `Note:`, and
      the rule again. */
  function Card(c: Contact, render: Date -> string): (r: string)
    ensures |r| > 2 * (|Rule| + 1)
    ensures r[..|Rule| + 1] == Rule + "\n"
    ensures r[|r| - |Rule| - 1..] == Rule + "\n"
  {
    var rule := Rule + "\n";
    var head := "Name: " + c.name + " \nPhones: " + PhonesText(c.phones);
    var birth := " \nBirthday: " + BirthdayText(c.birthday, render);
    var fields := " \nEmail: " + (c.email + " \nStatus: " + c.status + " \nNote: " + c.note + "\n");
    var front := rule + head + birth + fields;
    var r := front + rule;
    assert r[..|rule|] == front[..|rule|] == rule;
    r
  }

  /** The `Name:` line carries the record's name unchanged, and the
      `Phones:` line after it carries the phone text up to the line break. */
  lemma CardNameAndPhones(c: Contact, render: Date -> string)
    ensures Contains("Name: " + c.name + " \nPhones: " + PhonesText(c.phones) + " \nBirthday: ", Card(c, render))
  {
    var rule := Rule + "\n";
    var head := "Name: " + c.name + " \nPhones: " + PhonesText(c.phones);
    var fields := " \nEmail: " + (c.email + " \nStatus: " + c.status + " \nNote: " + c.note + "\n");
    var bd := BirthdayText(c.birthday, render);
    ContainsSeam(rule, head, " \nBirthday: ", bd);
    ContainsExtend(head + " \nBirthday: ", (rule + head) + (" \nBirthday: " + bd), fields);
    ContainsExtend(head + " \nBirthday: ", (rule + head) + (" \nBirthday: " + bd) + fields, rule);
  }

  /** The `Birthday:` line carries the rendered birthday, or nothing when
      none is set, up to the line break. */
  lemma CardBirthday(c: Contact, render: Date -> string)
    ensures Contains(" \nBirthday: " + BirthdayText(c.birthday, render) + " \nEmail: ", Card(c, render))
  {
    var rule := Rule + "\n";
    var front := rule + ("Name: " + c.name + " \nPhones: " + PhonesText(c.phones));
    var birth := " \nBirthday: " + BirthdayText(c.birthday, render);
    var rest := c.email + " \nStatus: " + c.status + " \nNote: " + c.note + "\n";
    ContainsSeam(front, birth, " \nEmail: ", rest);
    ContainsExtend(birth + " \nEmail: ", (front + birth) + (" \nEmail: " + rest), rule);
  }

  /** The `Email:`, `Status:` and `Note:` lines carry those fields unchanged,
      in that order. */
  lemma CardEmailStatusNote(c: Contact, render: Date -> string)
    ensures Contains(" \nEmail: " + (c.email + " \nStatus: " + c.status + " \nNote: " + c.note + "\n"), Card(c, render))
  {
    var rule := Rule + "\n";
    var front := rule + ("Name: " + c.name + " \nPhones: " + PhonesText(c.phones)) + (" \nBirthday: " + BirthdayText(c.birthday, render));
    ContainsMiddle(front, " \nEmail: " + (c.email + " \nStatus: " + c.status + " \nNote: " + c.note + "\n"), rule);
  }

  /** A record without a birthday is printed with a blank `Birthday:` line,
      whatever the date renderer is. */
  lemma BlankBirthdayLine(c: Contact, render: Date -> string)
    requires c.birthday.None?
    ensures Contains(" \nBirthday:  \nEmail: ", Card(c, render))
  {
    CardBirthday(c, render);
    assert " \nBirthday: " + BirthdayText(c.birthday, render) + " \nEmail: " == " \nBirthday:  \nEmail: ";
  }
}
