/** The state of the directory page and its event handlers. Each handler
    ends by re-running the filter pipeline, as the page's effect does after
    every change to the record list or the criteria. */
module Page {
  import opened Seqs
  import opened Sorting
  import opened Doctors
  import opened Pipeline

  class Home {
    var doctors: seq<Doctor>
    var filteredDoctors: seq<Doctor>
    var searchQuery: string
    var specialtyFilters: seq<string>
    var consultationMode: string
    var sortOption: string
    var suggestions: seq<Doctor>

    /** The criteria the pipeline reads from the state. */
    function CurrentCriteria(): Criteria
      reads this
    {
      Criteria(searchQuery, specialtyFilters, consultationMode, sortOption)
    }

    /** What every handler keeps: at most three suggestions, each matching
        the query, none for an empty query; a query and a speciality
        selection are never active together; and the shown list is the
        pipeline's output for the current state. */
    ghost predicate Valid()
      reads this
    {
      && |suggestions| <= 3
      && (forall i :: 0 <= i < |suggestions| ==> NameMatches(suggestions[i], searchQuery))
      && (searchQuery == "" ==> suggestions == [])
      && (searchQuery == "" || specialtyFilters == [])
      && filteredDoctors == FilteredList(doctors, CurrentCriteria())
    }

    /** The initial state: no records, no criteria. */
    constructor()
      ensures Valid()
      ensures doctors == [] && filteredDoctors == [] && suggestions == []
      ensures searchQuery == "" && specialtyFilters == []
      ensures consultationMode == "" && sortOption == ""
    {
      doctors, filteredDoctors, suggestions := [], [], [];
      searchQuery, specialtyFilters := "", [];
      consultationMode, sortOption := "", "";
    }

    /** The fetched record list replaces the stored one. */
    method ReceiveRecords(data: seq<Doctor>)
      requires Valid()
      modifies this
      ensures Valid()
      ensures doctors == data
      ensures CurrentCriteria() == old(CurrentCriteria()) && suggestions == old(suggestions)
    {
      doctors := data;
      ApplyFilters();
    }

    /** Recomputes the shown list from a copy of the record list: the three
        filters in order, then an in-place sort of the copy. */
    method ApplyFilters()
      modifies this`filteredDoctors
      ensures filteredDoctors == FilteredList(doctors, CurrentCriteria())
      ensures doctors == old(doctors)
    {
      var list := doctors;
      var query := searchQuery;
      if query != "" {
        list := Filter((d: Doctor) => MatchesSearch(d, query), list);
      }
      assert list == SearchStep(searchQuery, doctors);
      var selected := specialtyFilters;
      if |selected| > 0 {
        list := Filter((d: Doctor) => HasSelectedSpeciality(d, selected), list);
      }
      assert list == SpecialityStep(specialtyFilters, SearchStep(searchQuery, doctors));
      if consultationMode == "video" {
        list := Filter((d: Doctor) => d.videoConsult, list);
      } else if consultationMode == "inClinic" {
        list := Filter((d: Doctor) => d.inClinic, list);
      }
      ghost var filtered := list;
      assert filtered == ModeStep(consultationMode, SpecialityStep(specialtyFilters, SearchStep(searchQuery, doctors)));
      if sortOption == "fees" || sortOption == "experience" {
        var order := if sortOption == "fees" then ByFees else ByExperience;
        var a := new Doctor[|list|](i requires 0 <= i < |list| => list[i]);
        assert a[..] == list;
        SortInPlace(a, KeyOf(order));
        list := a[..];
      }
      assert list == SortStep(sortOption, filtered);
      filteredDoctors := list;
    }

    /** A speciality checkbox was clicked: the query and the suggestions are
        cleared, and the speciality is toggled in the selection. */
    method HandleSpecialtyFilterChange(speciality: string)
      requires Valid()
      modifies this
      ensures Valid()
      ensures searchQuery == "" && suggestions == []
      ensures specialtyFilters == Toggled(old(specialtyFilters), speciality)
      ensures doctors == old(doctors)
      ensures consultationMode == old(consultationMode) && sortOption == old(sortOption)
    {
      searchQuery := "";
      suggestions := [];
      if speciality in specialtyFilters {
        specialtyFilters := Filter((item: string) => item != speciality, specialtyFilters);
      } else {
        specialtyFilters := specialtyFilters + [speciality];
      }
      ApplyFilters();
    }

    /** A consultation-mode radio button was chosen. */
    method HandleConsultationModeChange(mode: string)
      requires Valid()
      modifies this
      ensures Valid()
      ensures consultationMode == mode
      ensures doctors == old(doctors) && suggestions == old(suggestions)
      ensures searchQuery == old(searchQuery) && specialtyFilters == old(specialtyFilters)
      ensures sortOption == old(sortOption)
    {
      consultationMode := mode;
      ApplyFilters();
    }

    /** A sort button was clicked. */
    method HandleSortOptionChange(option: string)
      requires Valid()
      modifies this
      ensures Valid()
      ensures sortOption == option
      ensures doctors == old(doctors) && suggestions == old(suggestions)
      ensures searchQuery == old(searchQuery) && specialtyFilters == old(specialtyFilters)
      ensures consultationMode == old(consultationMode)
    {
      sortOption := option;
      ApplyFilters();
    }

    /** The search box changed: the query is stored, the suggestions are
        recomputed from the whole record list, and the speciality selection
        is cleared. */
    method HandleSearchQueryChange(query: string)
      requires Valid()
      modifies this
      ensures Valid()
      ensures searchQuery == query
      ensures suggestions == Suggestions(doctors, query)
      ensures specialtyFilters == []
      ensures doctors == old(doctors)
      ensures consultationMode == old(consultationMode) && sortOption == old(sortOption)
    {
      searchQuery := query;
      if query != "" {
        var hits := Filter((d: Doctor) => NameMatches(d, query), doctors);
        suggestions := hits[..Min(3, |hits|)];
      } else {
        suggestions := [];
      }
      assert suggestions == Suggestions(doctors, query);
      specialtyFilters := [];
      ApplyFilters();
    }

    /** A suggestion was clicked: its name becomes the query, and the
        suggestions and the speciality selection are cleared. */
    method HandleSuggestionClick(doctorName: string)
      requires Valid()
      modifies this
      ensures Valid()
      ensures searchQuery == doctorName
      ensures suggestions == [] && specialtyFilters == []
      ensures doctors == old(doctors)
      ensures consultationMode == old(consultationMode) && sortOption == old(sortOption)
    {
      searchQuery := doctorName;
      suggestions := [];
      specialtyFilters := [];
      ApplyFilters();
    }
  }
}
