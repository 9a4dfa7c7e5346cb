/** Worked cases of the store's rules on small address books. */
module Scenarios {
  import opened Options
  import opened Seqs
  import opened Text
  import opened Dates
  import opened Contacts
  import opened Store

  /** A record holding only a name. */
  function Person(name: string): Contact
  {
    Contact(name, [], None, "", "", "")
  }

  /** Searching names for "alice" finds "Alice Smith". */
  lemma SearchFindsAlice()
    ensures Searched([Person("Alice Smith")], "alice", "name") == Success(Shown([Person("Alice Smith")]))
  {
    var data := [Person("Alice Smith")];
    assert Lower("Alice Smith") == "alice smith";
    assert Lower("alice") == "alice";
    assert "alice smith"[..5] == "alice";
    assert Contains("alice", "alice smith");
    assert Matches("alice", Name)(data[0]);
    assert data[..0] == [];
    assert Filter(data, Matches("alice", Name)) == data;
    assert KeyOf("name") == TextKey(Name);
  }

  /** Searching names for "xyz" finds nothing and says so. */
  lemma SearchMissesXyz()
    ensures Searched([Person("Alice Smith")], "xyz", "name") == Success(Message(NoContactsFound))
  {
    var data := [Person("Alice Smith")];
    assert !Matches("xyz", Name)(data[0]) by {
      assert Lower("Alice Smith") == "alice smith";
      assert Lower("xyz")[0] == 'x';
      MissingCharNotContained(Lower("xyz"), "alice smith", 0);
    }
    assert data[..0] == [];
    assert Filter(data, Matches("xyz", Name)) == [];
  }

  /** With two records named "Bob" and "bob", editing "BOB" reaches only the first. */
  lemma EditReachesFirstBob()
    ensures Edited([Person("Bob"), Person("bob")], "BOB", Email, "new@x.com")
      == [Person("Bob").(email := "new@x.com"), Person("bob")]
  {
  }

  /** With "Ann" before "Anna", removing "ann" drops "Ann" only. */
  lemma RemoveAnnKeepsAnna()
    ensures Removed([Person("Ann"), Person("Anna")], "ann") == [Person("Anna")]
  {
  }
}
