/** A doctor record as the directory's data source delivers it, and the
    per-record tests the filter steps and the sort apply to it. */
module Doctors {
  import opened Text
  import opened Sorting

  datatype Speciality = Speciality(name: string)

  /** The fields the directory's logic reads; the photo, introduction,
      languages and clinic are display-only and not modelled. */
  datatype Doctor = Doctor(
    id: string,
    name: string,
    nameInitials: string,
    specialities: seq<Speciality>,
    fees: string,
    experience: string,
    videoConsult: bool,
    inClinic: bool)

  /** The autocomplete test: the name contains the query, ignoring case. */
  predicate NameMatches(d: Doctor, query: string)
  {
    ContainsIgnoringCase(d.name, query)
  }

  /** The search-box test: the name or some speciality name contains the
      query, ignoring case. */
  predicate MatchesSearch(d: Doctor, query: string)
  {
    NameMatches(d, query) ||
    exists k :: 0 <= k < |d.specialities| && ContainsIgnoringCase(d.specialities[k].name, query)
  }

  /** The speciality-checkbox test: some speciality name is one of the
      selected labels, compared exactly. */
  predicate HasSelectedSpeciality(d: Doctor, selected: seq<string>)
  {
    exists k :: 0 <= k < |d.specialities| && d.specialities[k].name in selected
  }

  /** The two sort orders the sort buttons select. */
  datatype SortOrder = ByFees | ByExperience

  /** The parsed fee, as `parseFloat(d.fees)`. */
  function Fee(d: Doctor): Option<int>
  {
    ParseLeadingInt(d.fees)
  }

  /** The parsed years of experience, as `parseInt(d.experience)`. */
  function Experience(d: Doctor): Option<int>
  {
    ParseLeadingInt(d.experience)
  }

  /** The key the sort compares: fees ascending, or experience descending
      (as ascending negated experience). */
  function SortKey(order: SortOrder, d: Doctor): (k: Rank)
    ensures order == ByFees ==> (k.Parsed? <==> Fee(d).Some?)
    ensures order == ByFees && k.Parsed? ==> k.value == Fee(d).value
    ensures order == ByExperience ==> (k.Parsed? <==> Experience(d).Some?)
    ensures order == ByExperience && k.Parsed? ==> k.value == -Experience(d).value
  {
    match order
    case ByFees => (match Fee(d) case Some(v) => Parsed(v) case None => Unparsed)
    case ByExperience => (match Experience(d) case Some(v) => Parsed(-v) case None => Unparsed)
  }

  /** The sort key of `order` as a function the sort can be handed. */
  function KeyOf(order: SortOrder): Doctor -> Rank
  {
    d => SortKey(order, d)
  }
}
