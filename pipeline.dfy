/** The directory's filter pipeline, its autocomplete suggestions and the
    speciality toggle, as functions of the record list and the criteria,
    with the properties the page relies on. */
module Pipeline {
  import opened Text
  import opened Seqs
  import opened Sorting
  import opened Doctors

  /** The filter criteria the page keeps in its state. The consultation mode
      and the sort option are the strings the widgets send. */
  datatype Criteria = Criteria(
    searchQuery: string,
    specialtyFilters: seq<string>,
    consultationMode: string,
    sortOption: string)

  // ---------------------------------------------------------------------
  // The pipeline, step by step in the page's order

  /** Search step: only a non-empty query filters. */
  function SearchStep(query: string, s: seq<Doctor>): seq<Doctor>
  {
    if query != "" then Filter((d: Doctor) => MatchesSearch(d, query), s) else s
  }

  /** Speciality step: only a non-empty selection filters. */
  function SpecialityStep(selected: seq<string>, s: seq<Doctor>): seq<Doctor>
  {
    if |selected| > 0 then Filter((d: Doctor) => HasSelectedSpeciality(d, selected), s) else s
  }

  /** Consultation-mode step: "video" and "inClinic" filter, any other
      string leaves the list as it is. */
  function ModeStep(mode: string, s: seq<Doctor>): seq<Doctor>
  {
    if mode == "video" then Filter((d: Doctor) => d.videoConsult, s)
    else if mode == "inClinic" then Filter((d: Doctor) => d.inClinic, s)
    else s
  }

  /** The sort order a sort option selects: "fees", "experience", or none. */
  function SortOrderOf(option: string): Option<SortOrder>
  {
    if option == "fees" then Some(ByFees)
    else if option == "experience" then Some(ByExperience)
    else None
  }

  /** Sort step: the stable sort by the selected key, or no change. */
  function SortStep(option: string, s: seq<Doctor>): seq<Doctor>
  {
    match SortOrderOf(option)
    case Some(order) => SortedBy(KeyOf(order), s)
    case None => s
  }

  /** The list the page shows: search, speciality, mode, then sort. */
  function FilteredList(doctors: seq<Doctor>, c: Criteria): seq<Doctor>
  {
    SortStep(c.sortOption,
      ModeStep(c.consultationMode,
        SpecialityStep(c.specialtyFilters,
          SearchStep(c.searchQuery, doctors))))
  }

  // ---------------------------------------------------------------------
  // The reference: one filter by the conjunction of the active tests

  /** A record passes every active filter. */
  predicate Admits(c: Criteria, d: Doctor)
  {
    && (c.searchQuery != "" ==> MatchesSearch(d, c.searchQuery))
    && (|c.specialtyFilters| > 0 ==> HasSelectedSpeciality(d, c.specialtyFilters))
    && (c.consultationMode == "video" ==> d.videoConsult)
    && (c.consultationMode == "inClinic" ==> d.inClinic)
  }

  /** The records that pass every active filter, in source order. */
  function Selected(doctors: seq<Doctor>, c: Criteria): seq<Doctor>
  {
    Filter((d: Doctor) => Admits(c, d), doctors)
  }

  /** The search step as a filter by a test that an empty query passes. */
  lemma {:induction false} SearchStepIsFilter(q: string, s: seq<Doctor>, p: Doctor -> bool)
    requires forall d :: p(d) == (q != "" ==> MatchesSearch(d, q))
    ensures SearchStep(q, s) == Filter(p, s)
  {
    if q != "" {
      FilterCongruent((d: Doctor) => MatchesSearch(d, q), p, s);
    } else {
      FilterKeepsAll(p, s);
    }
  }

  /** The speciality step as a filter by a test that an empty selection passes. */
  lemma {:induction false} SpecialityStepIsFilter(sel: seq<string>, s: seq<Doctor>, p: Doctor -> bool)
    requires forall d :: p(d) == (|sel| > 0 ==> HasSelectedSpeciality(d, sel))
    ensures SpecialityStep(sel, s) == Filter(p, s)
  {
    if |sel| > 0 {
      FilterCongruent((d: Doctor) => HasSelectedSpeciality(d, sel), p, s);
    } else {
      FilterKeepsAll(p, s);
    }
  }

  /** The mode step as a filter by a test that other modes pass. */
  lemma {:induction false} ModeStepIsFilter(mode: string, s: seq<Doctor>, p: Doctor -> bool)
    requires forall d :: p(d) == ((mode == "video" ==> d.videoConsult) && (mode == "inClinic" ==> d.inClinic))
    ensures ModeStep(mode, s) == Filter(p, s)
  {
    if mode == "video" {
      FilterCongruent((d: Doctor) => d.videoConsult, p, s);
    } else if mode == "inClinic" {
      FilterCongruent((d: Doctor) => d.inClinic, p, s);
    } else {
      FilterKeepsAll(p, s);
    }
  }

  /** The three filter steps in a row select exactly what the reference
      selects, in the same order. */
  lemma {:induction false} FilterStepsSelect(doctors: seq<Doctor>, c: Criteria)
    ensures ModeStep(c.consultationMode,
              SpecialityStep(c.specialtyFilters,
                SearchStep(c.searchQuery, doctors))) == Selected(doctors, c)
  {
    var q, sel, mode := c.searchQuery, c.specialtyFilters, c.consultationMode;
    var p1 := (d: Doctor) => q != "" ==> MatchesSearch(d, q);
    var p2 := (d: Doctor) => |sel| > 0 ==> HasSelectedSpeciality(d, sel);
    var p3 := (d: Doctor) => (mode == "video" ==> d.videoConsult) && (mode == "inClinic" ==> d.inClinic);
    var p12 := (d: Doctor) => p1(d) && p2(d);
    var s1 := SearchStep(q, doctors);
    SearchStepIsFilter(q, doctors, p1);
    SpecialityStepIsFilter(sel, s1, p2);
    FilterFilter(p1, p2, p12, doctors);
    ModeStepIsFilter(mode, SpecialityStep(sel, s1), p3);
    FilterFilter(p12, p3, (d: Doctor) => Admits(c, d), doctors);
  }

  /** Without a sort option the page shows the selected records in source
      order; with one, the stable sort of them. */
  lemma FilteredListIsSortedSelection(doctors: seq<Doctor>, c: Criteria)
    ensures SortOrderOf(c.sortOption).None? ==> FilteredList(doctors, c) == Selected(doctors, c)
    ensures SortOrderOf(c.sortOption).Some? ==>
              FilteredList(doctors, c) == SortedBy(KeyOf(SortOrderOf(c.sortOption).value), Selected(doctors, c))
  {
    FilterStepsSelect(doctors, c);
  }

  /** The shown list holds each selected record exactly as often as the
      record list does, and nothing else. */
  lemma {:induction false} FilteredListCounts(doctors: seq<Doctor>, c: Criteria, d: Doctor)
    ensures multiset(FilteredList(doctors, c))[d] == if Admits(c, d) then multiset(doctors)[d] else 0
  {
    FilteredListIsSortedSelection(doctors, c);
    var o := SortOrderOf(c.sortOption);
    if o.Some? {
      SortedBySortsAndPermutes(KeyOf(o.value), Selected(doctors, c));
    }
    FilterCount((d: Doctor) => Admits(c, d), doctors, d);
  }

  /** A record is shown exactly when it is in the record list and passes
      every active filter. */
  lemma {:induction false} FilteredListMembers(doctors: seq<Doctor>, c: Criteria, d: Doctor)
    ensures d in FilteredList(doctors, c) <==> d in doctors && Admits(c, d)
  {
    FilteredListCounts(doctors, c, d);
  }

  /** Each shown record meets each active filter on its own terms. */
  lemma {:induction false} FilteredListSound(doctors: seq<Doctor>, c: Criteria, d: Doctor)
    requires d in FilteredList(doctors, c)
    ensures d in doctors
    ensures c.searchQuery != "" ==>
              ContainsIgnoringCase(d.name, c.searchQuery) ||
              exists k :: 0 <= k < |d.specialities| && ContainsIgnoringCase(d.specialities[k].name, c.searchQuery)
    ensures |c.specialtyFilters| > 0 ==>
              exists k :: 0 <= k < |d.specialities| && d.specialities[k].name in c.specialtyFilters
    ensures c.consultationMode == "video" ==> d.videoConsult
    ensures c.consultationMode == "inClinic" ==> d.inClinic
  {
    FilteredListMembers(doctors, c, d);
  }

  /** With no query, no speciality, no recognised mode and no recognised
      sort option, the page shows the record list as it is. */
  lemma {:induction false} NoCriteriaShowsAll(doctors: seq<Doctor>, c: Criteria)
    requires c.searchQuery == "" && c.specialtyFilters == []
    requires c.consultationMode != "video" && c.consultationMode != "inClinic"
    requires c.sortOption != "fees" && c.sortOption != "experience"
    ensures FilteredList(doctors, c) == doctors
  {
  }

  /** Sorted by fees: fees that parse come first, in ascending order. */
  lemma {:induction false} FeesAscending(doctors: seq<Doctor>, c: Criteria, i: int, j: int)
    requires c.sortOption == "fees"
    requires 0 <= i < j < |FilteredList(doctors, c)|
    ensures var r := FilteredList(doctors, c);
            Fee(r[j]).Some? ==> Fee(r[i]).Some? && Fee(r[i]).value <= Fee(r[j]).value
  {
    FilteredListIsSortedSelection(doctors, c);
    SortedBySortsAndPermutes(KeyOf(ByFees), Selected(doctors, c));
    var r := FilteredList(doctors, c);
    assert RankLe(KeyOf(ByFees)(r[i]), KeyOf(ByFees)(r[j]));
  }

  /** Sorted by experience: experience that parses comes first, most years
      first. */
  lemma {:induction false} ExperienceDescending(doctors: seq<Doctor>, c: Criteria, i: int, j: int)
    requires c.sortOption == "experience"
    requires 0 <= i < j < |FilteredList(doctors, c)|
    ensures var r := FilteredList(doctors, c);
            Experience(r[j]).Some? ==> Experience(r[i]).Some? && Experience(r[i]).value >= Experience(r[j]).value
  {
    FilteredListIsSortedSelection(doctors, c);
    SortedBySortsAndPermutes(KeyOf(ByExperience), Selected(doctors, c));
    var r := FilteredList(doctors, c);
    assert RankLe(KeyOf(ByExperience)(r[i]), KeyOf(ByExperience)(r[j]));
  }

  /** Records with equal sort keys keep their source order. */
  lemma {:induction false} EqualKeysKeepOrder(doctors: seq<Doctor>, c: Criteria, k: Rank)
    requires SortOrderOf(c.sortOption).Some?
    ensures var key := KeyOf(SortOrderOf(c.sortOption).value);
            WithKey(key, k, FilteredList(doctors, c)) == WithKey(key, k, Selected(doctors, c))
  {
    FilteredListIsSortedSelection(doctors, c);
    SortedByStable(KeyOf(SortOrderOf(c.sortOption).value), Selected(doctors, c), k);
  }

  /** Running the pipeline again on the list it shows, with the same
      criteria, gives that list back. */
  lemma {:induction false} FilteredListFixedPoint(doctors: seq<Doctor>, c: Criteria)
    ensures FilteredList(FilteredList(doctors, c), c) == FilteredList(doctors, c)
  {
    var shown := FilteredList(doctors, c);
    FilteredListIsSortedSelection(doctors, c);
    FilteredListIsSortedSelection(shown, c);
    forall i | 0 <= i < |shown| ensures Admits(c, shown[i]) {
      FilteredListMembers(doctors, c, shown[i]);
    }
    FilterKeepsAll((d: Doctor) => Admits(c, d), shown);
    var o := SortOrderOf(c.sortOption);
    if o.Some? {
      SortedBySortsAndPermutes(KeyOf(o.value), Selected(doctors, c));
      SortedBySorted(KeyOf(o.value), shown);
    }
  }

  // ---------------------------------------------------------------------
  // Autocomplete suggestions

  function Min(a: int, b: int): int { if a < b then a else b }

  /** The records whose name contains the query, ignoring case, in source
      order. */
  function NameHits(doctors: seq<Doctor>, query: string): seq<Doctor>
  {
    Filter((d: Doctor) => NameMatches(d, query), doctors)
  }

  /** The suggestion list for a query: the first three name hits, none for
      an empty query. */
  function Suggestions(doctors: seq<Doctor>, query: string): (r: seq<Doctor>)
    ensures query == "" ==> r == []
    ensures |r| <= 3
    ensures forall i :: 0 <= i < |r| ==> NameMatches(r[i], query) && r[i] in doctors
    ensures query != "" ==> r <= NameHits(doctors, query) && |r| == Min(3, |NameHits(doctors, query)|)
  {
    if query != "" then
      var hits := NameHits(doctors, query);
      FilterAllSatisfy((d: Doctor) => NameMatches(d, query), doctors);
      hits[..Min(3, |hits|)]
    else []
  }

  /** Every suggestion is also a hit of the search filter for that query. */
  lemma {:induction false} SuggestionsAreSearchHits(doctors: seq<Doctor>, query: string, d: Doctor)
    requires d in Suggestions(doctors, query)
    ensures d in SearchStep(query, doctors)
  {
    var r := Suggestions(doctors, query);
    var i :| 0 <= i < |r| && r[i] == d;
    assert NameMatches(d, query);
    FilterMember((d: Doctor) => MatchesSearch(d, query), doctors, d);
  }

  // ---------------------------------------------------------------------
  // Speciality checkbox toggle

  /** The selection after clicking a speciality checkbox: every copy of a
      selected label is removed, an unselected one is appended. */
  function Toggled(selected: seq<string>, speciality: string): seq<string>
  {
    if speciality in selected then Filter((item: string) => item != speciality, selected)
    else selected + [speciality]
  }

  /** The clicked label is selected afterwards exactly when it was not
      before; every other label keeps its state. */
  lemma {:induction false} ToggledMembers(selected: seq<string>, speciality: string, t: string)
    ensures t in Toggled(selected, speciality) <==>
              if t == speciality then speciality !in selected else t in selected
  {
    if speciality in selected {
      FilterMember((item: string) => item != speciality, selected, t);
    }
  }

  /** Clicking an unselected speciality twice restores the selection. */
  lemma {:induction false} ToggleTwice(selected: seq<string>, speciality: string)
    requires speciality !in selected
    ensures Toggled(Toggled(selected, speciality), speciality) == selected
  {
    var p := (item: string) => item != speciality;
    FilterConcat(p, selected, [speciality]);
    FilterKeepsAll(p, selected);
    assert [speciality][1..] == [];
  }
}
