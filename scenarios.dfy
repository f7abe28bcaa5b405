/** Worked examples of the pipeline and the suggestions on two records. */
module Scenarios {
  import opened Text
  import opened Sorting
  import opened Doctors
  import opened Pipeline

  function Alice(): Doctor
  {
    Doctor("1", "Alice", "A", [Speciality("Dentist")], "500", "10 years", true, false)
  }

  function Bob(): Doctor
  {
    Doctor("2", "Bob", "B", [Speciality("ENT")], "300", "5 years", false, true)
  }

  /** The two fees read back as the numbers they spell. */
  lemma ScenarioFees()
    ensures Fee(Alice()) == Some(500) && Fee(Bob()) == Some(300)
  {
    assert DigitChar(0) == '0' && DigitChar(3) == '3' && DigitChar(5) == '5';
    assert ShowNat(5) == "5" && ShowNat(3) == "3";
    assert ShowNat(50) == "50" && ShowNat(30) == "30";
    assert ShowNat(500) == "500" && ShowNat(300) == "300";
    assert ShowInt(500) + "" == "500" && ShowInt(300) + "" == "300";
    ParseShowInt(500, "");
    ParseShowInt(300, "");
  }

  /** Two records whose fee keys are out of order are swapped by the fee sort. */
  lemma FeeSortSwaps(a: Doctor, b: Doctor)
    requires !RankLe(SortKey(ByFees, a), SortKey(ByFees, b))
    ensures FilteredList([a, b], Criteria("", [], "", "fees")) == [b, a]
  {
    var key := KeyOf(ByFees);
    var docs := [a, b];
    assert docs[..1] == [a];
    assert [a][..0] == [];
    assert SortedBy(key, [a]) == [a];
    assert !RankLe(key(a), key(b));
    assert SortedBy(key, docs) == Insert(key, b, [a]);
    assert Insert(key, b, []) == [b];
    assert Insert(key, b, [a]) == Insert(key, b, []) + [a];
    var c := Criteria("", [], "", "fees");
    assert SearchStep(c.searchQuery, docs) == docs;
    assert SpecialityStep(c.specialtyFilters, docs) == docs;
    assert ModeStep(c.consultationMode, docs) == docs;
    assert SortOrderOf(c.sortOption) == Some(ByFees);
    assert SortStep(c.sortOption, docs) == SortedBy(key, docs);
  }

  /** Sorting two records by fees puts the cheaper one first. */
  lemma TwoRecordsByFees(a: Doctor, b: Doctor)
    requires Fee(a).Some? && Fee(b).Some? && Fee(b).value < Fee(a).value
    ensures FilteredList([a, b], Criteria("", [], "", "fees")) == [b, a]
  {
    FeeSortSwaps(a, b);
  }

  /** The model's policy for a fee that does not parse (`NaN`): that record
      goes after one whose fee parses, whatever their input order. */
  lemma UnparsedFeeSortsLast(a: Doctor, b: Doctor)
    requires Fee(a).None? && Fee(b).Some?
    ensures FilteredList([a, b], Criteria("", [], "", "fees")) == [b, a]
  {
    FeeSortSwaps(a, b);
  }

  /** Sorting Alice and Bob by fees puts Bob, the cheaper, first. */
  lemma SortByFeesScenario()
    ensures FilteredList([Alice(), Bob()], Criteria("", [], "", "fees")) == [Bob(), Alice()]
  {
    ScenarioFees();
    TwoRecordsByFees(Alice(), Bob());
  }

  /** The video mode keeps only the record that offers video consults. */
  lemma VideoModeScenario()
    ensures FilteredList([Alice(), Bob()], Criteria("", [], "video", "")) == [Alice()]
  {
    assert [Alice(), Bob()][1..] == [Bob()];
  }

  /** Typing "ali" suggests Alice only. */
  lemma SuggestAliScenario()
    ensures Suggestions([Alice(), Bob()], "ali") == [Alice()]
  {
    assert ToLower("Alice")[..3] == "ali";
    assert IsPrefix(ToLower("ali"), ToLower("Alice"));
    assert NameMatches(Alice(), "ali");
    assert ToLower("Bob") == "bob" && ToLower("ali") == "ali";
    assert "bob"[..3][0] != "ali"[0];
    ContainsNoLonger("bob"[1..], "ali");
    assert !NameMatches(Bob(), "ali");
    assert [Alice(), Bob()][1..] == [Bob()];
  }
}
