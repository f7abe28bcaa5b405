# Doctor directory: filter pipeline, suggestions and criteria state

This project models the client-side logic of a single-page doctor directory
(`src/app/page.tsx`). The page holds a list of doctor records and a set of
filter criteria. From these it computes the list it shows. Four steps run in
a fixed order:

- a case-insensitive search over the name and the speciality names;
- an exact-match speciality selection, OR-combined;
- a consultation-mode filter (`"video"` or `"inClinic"`);
- a stable sort, by fee ascending or by years of experience descending.

While the user types, the page also derives up to three autocomplete
suggestions. Event handlers update the criteria.

Modules, one per component of the page:

- `Text`: ASCII `toLowerCase`, `includes` as a substring test, and the
  leading-integer parse that stands for `parseInt` / `parseFloat`.
- `Seqs`: `Array.prototype.filter` on sequences and its laws.
- `Doctors`: the `Doctor` record, the per-record tests, and the sort key.
- `Sorting`: the stable sort `SortedBy` (insertion sort, as a function) and
  `SortInPlace`, an in-place sort of an array proved to produce it.
- `Pipeline`: the pipeline step by step (`FilteredList`). It also holds a
  one-filter reference definition (`Selected`), the suggestions and the
  speciality toggle, with the lemmas that relate them.
- `Page`: class `Home`, whose fields are the component's state. It has
  `ApplyFilters` (the imperative `applyFilters`) and the event handlers. Its
  `Valid()` invariant is kept by every handler.
- `Scenarios`: worked examples on two records (sort by fee, video mode, the
  "ali" suggestion).

Design decisions:

- The criteria keep the strings the widgets send. `"video"` / `"inClinic"`
  and `"fees"` / `"experience"` act; any other string is a no-op, as in the
  code.
- The sort key of a record that does not parse (JavaScript `NaN`) is
  `Unparsed`. It sorts after every number, in both orders.
- Experience descending is sorted as ascending negated experience. Like the
  code's comparator, it never reorders records with equal keys.
- JavaScript's sort is stable. When every key in the list parses, the
  comparator is consistent and the shown order is fully determined. The
  model's sort is proved equal to `SortedBy`, and stability is proved
  separately. Once a key fails to parse, the comparator returns `NaN`. The
  order JavaScript then gives is up to the engine, for the parsed records too.
  The model fixes its own order instead (see "## Left out").
- The page re-runs `applyFilters` from an effect after every state change.
  Here each handler calls `ApplyFilters()` last. `Valid()` states that the
  shown list always equals `FilteredList(doctors, criteria)`.

The two inputs clear each other. `handleSearchQueryChange` also empties the
speciality selection (src/app/page.tsx:138). `handleSpecialtyFilterChange`
clears the query (src/app/page.tsx:106). So `Home.Valid()` holds a conjunct
saying that a non-empty query and a non-empty selection are never active
together.

## Model

| member | source | states |
|---|---|---|
| `Text.ContainsIff` | src/app/page.tsx:75-76 | the scanning `includes` holds exactly when the query occurs at some index of the text |
| `Text.ContainsEmpty` | src/app/page.tsx:73-76 | the empty string is contained in every string, with or without case folding |
| `Text.ContainsNoLonger` | src/app/page.tsx:75-76 | a string longer than the text never occurs in it |
| `Text.ToLowerIdempotent` | src/app/page.tsx:75 | lower-casing leaves no upper-case letter and is idempotent |
| `Text.ContainsIgnoringCaseFoldedQuery` | src/app/page.tsx:75-76 | calling `toLowerCase()` on the query first, as the page does, changes no match |
| `Text.ParseLeadingInt` | src/app/page.tsx:96-98 | the parse fails (`NaN`) exactly when no digit follows the leading white space and optional sign |
| `Text.ParseLeadingIntValue` | src/app/page.tsx:96-98 | white space, an optional `+` or `-`, a run of digits (leading zeros allowed) and any text not starting with a digit parse to the digits' value, negated after `-` |
| `Text.ParseShowInt` | src/app/page.tsx:96-98 | round trip: a string made of an integer's decimal form followed by non-digit text (such as "10 years") parses back to that integer |
| `Seqs.FilterCount` | src/app/page.tsx:74-91 | `filter` keeps each passing record exactly as often as it occurs and drops every failing one |
| `Seqs.FilterMember` | src/app/page.tsx:74-91 | a record is in the filtered list exactly when it is in the input and passes the test |
| `Seqs.FilterConcat` | src/app/page.tsx:74-91 | `filter` preserves order: it distributes over concatenation |
| `Seqs.FilterKeepsAll` | src/app/page.tsx:74-91 | a filter that every element passes returns its input unchanged |
| `Seqs.FilterFilter` | src/app/page.tsx:73-92 | two filters in a row equal one filter by the conjunction of their tests |
| `Sorting.RankLeTotalPreorder` | src/app/page.tsx:96-98 | the key order is reflexive, total and transitive, and two keys are equivalent only when equal |
| `Sorting.SortedBySortsAndPermutes` | src/app/page.tsx:95-99 | the sort's output is in key order and is a permutation of its input |
| `Sorting.SortedByStable` | src/app/page.tsx:95-99 | for every key value, the records with that key keep their input order |
| `Sorting.SortedBySorted` | src/app/page.tsx:95-99 | sorting a list that is already in key order returns it unchanged |
| `Sorting.InsertLast` | src/app/page.tsx:96-98 | one in-place pass moves the next element left past the greater keys of the sorted prefix; the rest of the array is untouched |
| `Sorting.SortInPlace` | src/app/page.tsx:95-99 | the in-place array sort leaves the array holding the stable sort of its old contents |
| `Pipeline.SearchStepIsFilter` | src/app/page.tsx:73-78 | the search step filters by name or speciality match, and only when the query is non-empty |
| `Pipeline.SpecialityStepIsFilter` | src/app/page.tsx:81-85 | the speciality step filters by an exactly matching selected label, and only when the selection is non-empty |
| `Pipeline.ModeStepIsFilter` | src/app/page.tsx:88-92 | `"video"` keeps video-consult records, `"inClinic"` keeps in-clinic records, any other mode keeps all |
| `Pipeline.FilterStepsSelect` | src/app/page.tsx:70-92 | the three filter steps in their order select exactly the reference selection, in source order |
| `Pipeline.FilteredListIsSortedSelection` | src/app/page.tsx:70-99 | without a recognised sort option the shown list is the selection in source order; with one it is the stable sort of the selection |
| `Pipeline.FilteredListCounts` | src/app/page.tsx:70-99 | the shown list holds every record that passes all active filters, as often as the record list does, and nothing else |
| `Pipeline.FilteredListMembers` | src/app/page.tsx:70-99 | a record is shown exactly when it is in the record list and passes every active filter |
| `Pipeline.FilteredListSound` | src/app/page.tsx:73-92 | each shown record has the query in its lower-cased name or in a lower-cased speciality name (when there is a query); it has a selected speciality (when there is a selection); and it offers the chosen mode |
| `Pipeline.NoCriteriaShowsAll` | src/app/page.tsx:70-99 | with an empty query and selection, an unrecognised mode and an unrecognised sort option, the shown list is the record list in its original order |
| `Pipeline.FeesAscending` | src/app/page.tsx:95-96 | sorted by fees, a record whose fee parses is preceded only by records whose fees parse and are not greater |
| `Pipeline.ExperienceDescending` | src/app/page.tsx:97-98 | sorted by experience, a record whose experience parses is preceded only by records whose experience parses and is not smaller |
| `Pipeline.EqualKeysKeepOrder` | src/app/page.tsx:94-99 | under either sort, records with equal keys appear in the order the filters left them |
| `Pipeline.FilteredListFixedPoint` | src/app/page.tsx:69-102 | running the pipeline on its own output with the same criteria returns that output |
| `Pipeline.Suggestions` | src/app/page.tsx:130-137 | at most three suggestions; none for an empty query; each name contains the query ignoring case and each comes from the record list; they are the first min(3, n) of the n name matches, in source order |
| `Pipeline.SuggestionsAreSearchHits` | src/app/page.tsx:130-133 | every suggestion also passes the search filter for the same query |
| `Pipeline.ToggledMembers` | src/app/page.tsx:108-112 | after a toggle the clicked label is selected exactly when it was not before; every other label keeps its state |
| `Pipeline.ToggleTwice` | src/app/page.tsx:108-112 | toggling a label that is not selected twice restores the selection |
| `Page.Home.constructor` | src/app/page.tsx:39-45 | the initial state has no records, no criteria, no suggestions, and satisfies the invariant |
| `Page.Home.ReceiveRecords` | src/app/page.tsx:54 | storing the fetched list replaces the record list, keeps criteria and suggestions, and refreshes the shown list |
| `Page.Home.ApplyFilters` | src/app/page.tsx:69-102 | the imperative pipeline (filter reassignments, then an in-place sort of a fresh array) sets the shown list to `FilteredList` of the state and leaves the record list unchanged |
| `Page.Home.HandleSpecialtyFilterChange` | src/app/page.tsx:105-113 | clears the query and the suggestions, toggles the speciality, leaves records, mode and sort unchanged, keeps the invariant |
| `Page.Home.HandleConsultationModeChange` | src/app/page.tsx:116-118 | overwrites the mode and changes nothing else in the criteria, keeping the invariant |
| `Page.Home.HandleSortOptionChange` | src/app/page.tsx:121-123 | overwrites the sort option and changes nothing else in the criteria, keeping the invariant |
| `Page.Home.HandleSearchQueryChange` | src/app/page.tsx:126-139 | stores the query, sets the suggestions from the whole record list, always empties the speciality selection, keeps the invariant |
| `Page.Home.HandleSuggestionClick` | src/app/page.tsx:141-145 | sets the query to the clicked name and empties the suggestions and the speciality selection, keeping the invariant |
| `Scenarios.TwoRecordsByFees` | src/app/page.tsx:95-96 | sorting two records by fee puts the cheaper one first |
| `Scenarios.UnparsedFeeSortsLast` | src/app/page.tsx:95-96 | the model's policy: sorted by fees, a record whose fee does not parse goes after one whose fee parses, in either input order |
| `Scenarios.SortByFeesScenario` | src/app/page.tsx:95-96 | Alice (fee 500) and Bob (fee 300) sorted by fees come out Bob, Alice |
| `Scenarios.VideoModeScenario` | src/app/page.tsx:88-89 | with mode `"video"` only Alice, who offers video consults, is shown |
| `Scenarios.SuggestAliScenario` | src/app/page.tsx:130-134 | the query "ali" suggests exactly Alice |

## Left out

- The asynchronous fetch, JSON decoding and error logging (src/app/page.tsx:49-61) are network I/O. The record list is an input, and `Home.ReceiveRecords` stands for the `setDoctors(data)` call only.
- React's scheduling is not modelled: the effect, `useCallback` and re-rendering. Each handler instead ends by calling `ApplyFilters()`. The brief moment between a state change and the effect's re-run is not represented.
- Rendering, `DoctorCard`, styling and the sidebar toggle (src/app/page.tsx:154-302) are presentation only.
- The hard-coded speciality label list (src/app/page.tsx:147-152) is UI data. Any string can be toggled.
- Display-only record fields are not part of `Doctor`: photo, introduction, languages and clinic.
- Doctors.Fee: `parseFloat` is modelled by the leading-integer parse. A fractional part, an exponent and `Infinity` are not read, so fees such as "500.50" compare by their integer part. A fee with no digit before the point (".5") is unparsed in the model, where `parseFloat` gives 0.5. Keys above 2^53 compare as doubles in JavaScript but exactly in the model.
- Doctors.Experience: `parseInt`'s hexadecimal `0x` prefix is not modelled.
- Doctors.SortKey: a `NaN` comparison result is not modelled. ECMAScript treats such a comparator as inconsistent. With even one unparseable fee or experience in the list, the order of the whole list is up to the engine, including the parsed records. V8, for one, reads `NaN` as 0, so `[fee "N/A", fee "500"]` stays in input order. The model fixes one policy: unparsed keys sort last, in their filtered order (`Scenarios.UnparsedFeeSortsLast`).
- Pipeline.FeesAscending, Pipeline.ExperienceDescending, Pipeline.EqualKeysKeepOrder: they describe the program only when every key in the list parses. Otherwise they describe the model's policy above.
- Sorting.SortInPlace: the engine's own sort algorithm is replaced by insertion sort. Both are stable. When every key parses, the comparator is consistent and the resulting order is the same. When a key does not parse, the engine's order is not determined, and the model's order is its own policy.
- Text.ToLower: only ASCII letters are lower-cased. Full Unicode case folding is not modelled.
- Text.TrimStart: only ASCII white space is skipped. Other Unicode space characters are not.
