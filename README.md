# Case-study catalogue: filtering, facet options, entry form and cards

This project models the front-end logic of a catalogue of customer case studies kept in a hosted
table `case_studies`. It also proves properties of that model. The modelled parts are:

- **The listing query** (`CaseStudyQuery`, `query.dfy`). The home page's filter state becomes a
  chain of query clauses:
  - a case-insensitive search over heading, content and client name;
  - an `in` test per categorical facet;
  - one `contains` per selected AWS service;
  - an mrr lower and/or upper bound, each only away from its slider end.

  The store keeps the rows matching every clause and returns them newest first. The hook then
  records the rows or the error. `BuildQuery` is the step-by-step chain-building code, with its
  loop over the selected services. `Clauses` is its specification. `Admits` reads the filter
  state field by field, and `Result` is the listing.
- **The facet options** (`FacetOptions`, `facets.dfy`). For each categorical facet the hook derives
  the distinct non-empty values of its column, in first-occurrence order. For services it derives
  the distinct tokens of the flattened service arrays; no panel displays that list. A failed read
  leaves every list empty.
- **The entry form** (`CaseStudyForm`, `form.dfy`), which covers:
  - validation by one conditional assignment per required field;
  - the per-field change handlers, which clear a message for some fields but not others;
  - which inputs display their message: the use case, account segment and availability selectors
    never do, but they are marked `required`, so the browser stops a submit while any is blank and
    their messages never reach `formErrors` from the page;
  - the row handed to `insert`;
  - the submit handler's loading/error/success state, behind the browser's own check;
  - any sequence of edits and submits, along which every held message stays displayed.
- **The filter panel** (`FilterPanel`, `panel.dfy`), which covers:
  - check (append) and uncheck (remove every occurrence);
  - the mrr slider, and the invariant that no sequence of panel actions moves the pair out of
    [0, 1000] or touches the search text;
  - "Clear All";
  - the static default lists three facets fall back on.
- **The card** (`CaseStudyCard`, `card.dfy`), which covers:
  - `truncateText`;
  - the three chip rows, including the first two services and the "+N" overflow chip;
  - the colour rule for availability;
  - the mrr line, which a missing mrr omits and a zero mrr replaces by a bare "0".

`Records` (`records.dfy`) holds the shared shapes: the table row, the filter state and its
initial value, and the store's answer to a read. The store's answer is the rows, a null payload,
or an error message.

## Model

| member | source | states |
|---|---|---|
| Records.WithSelection | src/components/Filters/FilterPanel.jsx:92-100 | Replacing one facet's selection changes that selection only; search, services and the mrr pair are untouched |
| CaseStudyQuery.LowerStr | src/hooks/useCaseStudies.js:20-26 | Lower-casing for the case-insensitive match keeps the length of the text |
| CaseStudyQuery.IsSubstringAt | src/hooks/useCaseStudies.js:22-24 | A copy of the search text at any offset of a column makes `%text%` match |
| CaseStudyQuery.IsSubstringWitness | src/hooks/useCaseStudies.js:22-24 | A `%text%` match has an offset where the text occurs |
| CaseStudyQuery.ContainsClausesMeaning | src/hooks/useCaseStudies.js:59-63 | The chained `contains` clauses hold exactly when the row has every selected service |
| CaseStudyQuery.ContainsClausesLength | src/hooks/useCaseStudies.js:60-62 | One `contains` clause is appended per selected service |
| CaseStudyQuery.InClausesMeaning | src/hooks/useCaseStudies.js:28-56 | The `in` clause of a facet holds exactly when the selection is empty or the row's non-null value is selected |
| CaseStudyQuery.RangeClausesMeaning | src/hooks/useCaseStudies.js:66-73 | The mrr clauses hold exactly when each bound away from its slider end is met by a non-null mrr |
| CaseStudyQuery.Clauses | src/hooks/useCaseStudies.js:19-73 | The clause chain a filter state produces, in the hook's order; its meaning is `ClausesAdmit` and `NeutralIffNoClauses` |
| CaseStudyQuery.Matches | src/hooks/useCaseStudies.js:21-72 | What each clause means for one row: `ilike '%t%'` on three columns, `in`, `contains`, `gte`, `lte`, with null failing all but the search |
| CaseStudyQuery.Admits | src/hooks/useCaseStudies.js:19-73 | The filter state read field by field; the reference that the clause chain is proved against |
| CaseStudyQuery.ClausesAdmit | src/hooks/useCaseStudies.js:19-73 | A row satisfies the whole chain exactly when it passes every filter field by field |
| CaseStudyQuery.NeutralIffNoClauses | src/hooks/useCaseStudies.js:14-73 | No clause is added exactly when the search is empty, every selection is empty and the slider spans 0 to 1000 |
| CaseStudyQuery.AppendContains | src/hooks/useCaseStudies.js:59-63 | The `forEach` loop appends one `contains` per service, in selection order |
| CaseStudyQuery.ChainMeaning | src/hooks/useCaseStudies.js:14-73 | The chain means the field-by-field reading of the filters, and is empty exactly for neutral filters |
| CaseStudyQuery.ApplyIn | src/hooks/useCaseStudies.js:28-31 | An `in` clause is appended exactly when the facet's selection is non-empty |
| CaseStudyQuery.ApplyRange | src/hooks/useCaseStudies.js:66-73 | `gte` is appended only above 0 and `lte` only below 1000 |
| CaseStudyQuery.BuildQuery | src/hooks/useCaseStudies.js:14-73 | The reassigned query is the specified chain, admits exactly the rows that pass every filter, and is empty exactly for neutral filters |
| CaseStudyQuery.Select | src/hooks/useCaseStudies.js:75 | The store returns each matching row with its multiplicity and drops every other row |
| CaseStudyQuery.Insert | src/hooks/useCaseStudies.js:17 | Placing a row into a list adds exactly that row |
| CaseStudyQuery.InsertKeepsNewestFirst | src/hooks/useCaseStudies.js:17 | Placing a row into a newest-first list keeps it newest first |
| CaseStudyQuery.SortNewestFirst | src/hooks/useCaseStudies.js:17 | Ordering by `created_at` descending gives a permutation of its input, newest first |
| CaseStudyQuery.Result | src/hooks/useCaseStudies.js:14-78 | The listing is newest first and holds only stored rows, each at most as often as stored |
| CaseStudyQuery.ResultSpec | src/hooks/useCaseStudies.js:14-78 | The listing holds every admitted row with its multiplicity and nothing else, newest first |
| CaseStudyQuery.ResultCount | src/hooks/useCaseStudies.js:14-78 | A row is listed as often as it is stored if it passes the filters, otherwise not at all |
| CaseStudyQuery.NeutralListsAll | src/hooks/useCaseStudies.js:14-17 | Neutral filters add no clause and list the whole collection, newest first |
| CaseStudyQuery.ResultMember | src/hooks/useCaseStudies.js:14-78 | A row is listed exactly when it is stored and passes every filter |
| CaseStudyQuery.SearchAlone | src/hooks/useCaseStudies.js:20-26 | A non-empty search alone lists exactly the rows whose heading, content or client name contains it, ignoring case |
| CaseStudyQuery.SelectionAlone | src/hooks/useCaseStudies.js:28-56 | One facet's selection alone lists exactly the rows whose value is selected, or every row for an empty selection |
| CaseStudyQuery.ServicesAlone | src/hooks/useCaseStudies.js:58-63 | A service selection alone lists exactly the rows whose services include every selected one |
| CaseStudyQuery.RangeAlone | src/hooks/useCaseStudies.js:65-73 | The slider alone lists exactly the rows whose mrr meets each bound away from its end; a null mrr fails an active bound |
| CaseStudyQuery.IsSubstringTransitive | src/hooks/useCaseStudies.js:22-24 | A piece of a piece of a text is a piece of that text |
| CaseStudyQuery.SearchNarrower | src/hooks/useCaseStudies.js:20-26 | A row found by a search text is found by every piece of it, ignoring case |
| CaseStudyQuery.LongerSearchIsNarrower | src/hooks/useCaseStudies.js:20-26 | Typing one more letter into the search box tightens the filters |
| CaseStudyQuery.NarrowerAdmitsLess | src/hooks/useCaseStudies.js:19-73 | A row that passes stricter filters passes the looser ones; stricter includes a search extended to contain the old one |
| CaseStudyQuery.NarrowerListsLess | src/hooks/useCaseStudies.js:19-73 | Tightening the filters never adds a row to the listing |
| CaseStudyQuery.LowerBoundExample | src/hooks/useCaseStudies.js:67-69 | With the slider at [200, 1000], mrr 150 and a missing mrr are out and 500 is in |
| CaseStudyQuery.SearchExample | src/hooks/useCaseStudies.js:20-26 | "alpha" finds "Alpha Bank Migration" in a heading and "Alpha Corp" in a client name |
| CaseStudyQuery.ServicesAreConjunctive | src/hooks/useCaseStudies.js:59-63 | Selecting EC2 and RDS keeps only rows having both |
| CaseStudyQuery.FetchCaseStudies | src/hooks/useCaseStudies.js:11-84 | The fetch leaves the state `Settle` specifies: nothing is loading; rows replace the list, a null payload empties it, and an error keeps the old list and records its message; a success keeps an earlier error |
| CaseStudyQuery.FirstFetch | src/hooks/useCaseStudies.js:6-8 | From the initial state, a fetch stops loading, lists the rows with no error, or lists nothing; an error is recorded exactly when the store fails |
| CaseStudyQuery.ErrorOutlivesRecovery | src/hooks/useCaseStudies.js:75-83 | A failed fetch followed by a successful one lists the rows yet still reports the first error |
| FacetOptions.Distinct | src/hooks/useFilterOptions.js:26-31 | `[...new Set(s)]` holds each value of its input exactly once and nothing else |
| FacetOptions.FirstIndex | src/hooks/useFilterOptions.js:26-31 | Locates the first occurrence of a value, which the order of the options is stated against |
| FacetOptions.DistinctKeepsFirstOccurrenceOrder | src/hooks/useFilterOptions.js:26-31 | The distinct values come in the order of their first occurrence |
| FacetOptions.TruthyValuesSpec | src/hooks/useFilterOptions.js:26-31 | `map(...).filter(Boolean)` keeps exactly the non-null, non-empty values of the column |
| FacetOptions.AllServicesSpec | src/hooks/useFilterOptions.js:34-36 | The flattened services are exactly the tokens of some row, and a null array contributes none |
| FacetOptions.DeriveOptions | src/hooks/useFilterOptions.js:25-47 | No derived list holds a value twice |
| FacetOptions.FetchOptions | src/hooks/useFilterOptions.js:17-50 | The options after the one read; its cases are stated by `FailedFetchKeepsEmpty` and `CategoryOptionsSpec` |
| FacetOptions.CategoryOptionsSpec | src/hooks/useFilterOptions.js:26-31 | A facet offers exactly the distinct non-empty values of its column, each once, in first-occurrence order |
| FacetOptions.ServiceOptionsSpec | src/hooks/useFilterOptions.js:33-37 | The hook's services list holds every token of every row once, in first-occurrence order |
| FacetOptions.FailedFetchKeepsEmpty | src/hooks/useFilterOptions.js:6-14 | A failed read, or one with a null payload, leaves every option list empty |
| FacetOptions.PuneExample | src/hooks/useFilterOptions.js:26 | Cities "Pune", "Pune" and null give the single option "Pune" |
| FacetOptions.EmptyTokenIsDerived | src/hooks/useFilterOptions.js:34-37 | An empty service token reaches the hook's services list, though an empty category value is dropped |
| CaseStudyForm.MissingMeansBlank | src/components/CaseStudy/CaseStudyForm.jsx:102-112 | The eleven tests are one rule: a field with a message is missing exactly when its value is blank; mrr is never tested |
| CaseStudyForm.WithMessage | src/components/CaseStudy/CaseStudyForm.jsx:123-126 | Setting one key of the messages changes that key alone |
| CaseStudyForm.RequiredErrors | src/components/CaseStudy/CaseStudyForm.jsx:102-112 | Each field's message is its required message when the field is missing, and absent otherwise |
| CaseStudyForm.RequiredErrorsMeaning | src/components/CaseStudy/CaseStudyForm.jsx:99-114 | `formErrors` holds a message exactly for the missing fields, and no key is set exactly when nothing is missing |
| CaseStudyForm.CheckResultMeaning | src/components/CaseStudy/CaseStudyForm.jsx:102-112 | One test leaves a message exactly when its field is missing |
| CaseStudyForm.ValidateForm | src/components/CaseStudy/CaseStudyForm.jsx:99-115 | The successive assignments build exactly the specified messages, and the form is valid exactly when no key was set |
| CaseStudyForm.UntouchedFormMissesEverything | src/components/CaseStudy/CaseStudyForm.jsx:78-112 | The form as it opens misses every field but mrr and the check would set all eleven messages, yet pressing "Create" on it is stopped by the browser and changes nothing |
| CaseStudyForm.ShownMeaning | src/components/CaseStudy/CaseStudyForm.jsx:187-361 | After a check, a message is seen exactly under the missing fields whose input binds `error` and `helperText` |
| CaseStudyForm.OnlyClientNameMissing | src/components/CaseStudy/CaseStudyForm.jsx:102 | With only the client name empty, "Client Name is required" is the only message |
| CaseStudyForm.ClearError | src/components/CaseStudy/CaseStudyForm.jsx:122-127 | A held message is reset and nothing else changes; with no message held the object is left as it is |
| CaseStudyForm.SetValue | src/components/CaseStudy/CaseStudyForm.jsx:118-121 | The spread update gives the field its new value and leaves every other field as it was |
| CaseStudyForm.HandleChange | src/components/CaseStudy/CaseStudyForm.jsx:117-128 | `handleChange` and the content box's handler; its effect is stated by `HandleChangeEffect` |
| CaseStudyForm.ChangeChoice | src/components/CaseStudy/CaseStudyForm.jsx:226-230 | A selector's `onChange`; its effect is stated by `ChoiceKeepsOrClears` |
| CaseStudyForm.ChangeServices | src/components/CaseStudy/CaseStudyForm.jsx:334-338 | The services selector's `onChange`; its effect is stated by `ChangeServicesEffect` |
| CaseStudyForm.HandleChangeEffect | src/components/CaseStudy/CaseStudyForm.jsx:117-128 | Editing a text box sets that field alone and leaves no message on it; other messages are kept |
| CaseStudyForm.ChoiceKeepsOrClears | src/components/CaseStudy/CaseStudyForm.jsx:226-230 | A selector sets its field alone; industry, sub-industry and city clear their message, the other three leave the messages untouched, no other message changes, and nothing changes when no message was held |
| CaseStudyForm.ChangeServicesEffect | src/components/CaseStudy/CaseStudyForm.jsx:334-338 | The services selector sets the list alone and clears its message; no other message changes, and nothing changes when no message was held |
| CaseStudyForm.UseCaseMessageIsSticky | src/components/CaseStudy/CaseStudyForm.jsx:288-289 | Were "Use Case is required" held, picking a use case would keep it in `formErrors`, where no input displays it; `PageHoldsOnlyShownMessages` shows the page never holds it |
| CaseStudyForm.InsertRow | src/components/CaseStudy/CaseStudyForm.jsx:140-153 | The row handed to `insert`; its columns are stated by `InsertRowCarriesFields` |
| CaseStudyForm.InsertRowCarriesFields | src/components/CaseStudy/CaseStudyForm.jsx:140-153 | Every inserted column carries its form field unchanged; mrr is null exactly for an empty box, and `created_at` is the submission instant |
| CaseStudyForm.ValidFormGivesCompleteRow | src/components/CaseStudy/CaseStudyForm.jsx:132-153 | A row is inserted only from a valid form, so every required column is set and the services are non-empty |
| CaseStudyForm.HandleSubmit | src/components/CaseStudy/CaseStudyForm.jsx:130-167 | Messages are recomputed on every submit; nothing is inserted and the status is kept exactly when a field is missing; otherwise the row is inserted, loading ends, and success or the error message is recorded |
| CaseStudyForm.Submitted | src/components/CaseStudy/CaseStudyForm.jsx:183 | A press of "Create" leaves the form unchanged while a `required` selector (lines 296, 311, 326) is blank; otherwise the check sets a message exactly for each missing field, and every one it sets is displayed |
| CaseStudyForm.SubmitForm | src/components/CaseStudy/CaseStudyForm.jsx:130-183 | The browser's check before `handleSubmit`: a blank `required` selector keeps the form, the status and the store untouched; otherwise the row is inserted exactly when nothing is missing, with the status `handleSubmit` gives |
| CaseStudyForm.NativeCheckBlocksSubmit | src/components/CaseStudy/CaseStudyForm.jsx:286-328 | A form missing a use case, account segment or availability would fail the check, but its submit is stopped before the check runs and nothing changes |
| CaseStudyForm.StepKeepsAllShown | src/components/CaseStudy/CaseStudyForm.jsx:117-338 | No edit, pick or submit makes the page hold a message it does not display |
| CaseStudyForm.RunKeepsAllShown | src/components/CaseStudy/CaseStudyForm.jsx:117-338 | Along any sequence of edits, picks and submits, every held message stays displayed |
| CaseStudyForm.PageHoldsOnlyShownMessages | src/components/CaseStudy/CaseStudyForm.jsx:80-98 | From the opening form, no sequence of actions ever puts a use case, account segment or availability message into `formErrors` |
| FilterPanel.ShownOptions | src/components/Filters/FilterPanel.jsx:154 | The three facets with a static list always show some checkbox, and every label shown is derived or static |
| FilterPanel.ShownOptionsSpec | src/components/Filters/FilterPanel.jsx:154 | A non-empty derived list is shown; use case, account segment and availability fall back on their static list, and the other three on nothing |
| FilterPanel.FailedFetchShowsDefaults | src/components/Filters/FilterPanel.jsx:18-26 | Without options, exactly the three facets with a static list offer checkboxes |
| FilterPanel.DerivedReplacesDefaults | src/components/Filters/FilterPanel.jsx:154 | A non-empty derived list replaces the static list rather than being merged with it |
| FilterPanel.RemoveAll | src/components/Filters/FilterPanel.jsx:99 | Filtering out a value never makes the selection longer |
| FilterPanel.RemoveAllCounts | src/components/Filters/FilterPanel.jsx:99 | `filter(x => x !== v)` removes every occurrence of `v` and keeps every other value as often as before |
| FilterPanel.RemoveAllAppend | src/components/Filters/FilterPanel.jsx:99 | Filtering distributes over concatenation |
| FilterPanel.RemoveAllAbsent | src/components/Filters/FilterPanel.jsx:99 | Filtering out an absent value changes nothing |
| FilterPanel.RemoveAllKeepsOrder | src/components/Filters/FilterPanel.jsx:99 | The values left keep their relative order |
| FilterPanel.IsChecked | src/components/Filters/FilterPanel.jsx:89 | A box is shown checked exactly when its value is in the facet's selection; `Check`, `Uncheck` and `Toggle` state how it changes |
| FilterPanel.Check | src/components/Filters/FilterPanel.jsx:91-95 | Checking appends the value to the end of that facet's selection and changes nothing else |
| FilterPanel.Uncheck | src/components/Filters/FilterPanel.jsx:96-100 | Unchecking removes every occurrence of the value, keeps the other values' counts, and changes nothing else |
| FilterPanel.Toggle | src/components/Filters/FilterPanel.jsx:90-102 | After a checkbox's change, the box is shown checked exactly when it was checked |
| FilterPanel.UncheckUndoesCheck | src/components/Filters/FilterPanel.jsx:92-100 | Checking an unchecked box and unchecking it again restores the filter state |
| FilterPanel.UncheckRemovesDuplicates | src/components/Filters/FilterPanel.jsx:96-100 | A value selected twice is gone after one uncheck, so check then uncheck does not restore a state already holding it |
| FilterPanel.UncheckKeepsOrder | src/components/Filters/FilterPanel.jsx:96-100 | Unchecking keeps the other selected values in the order they were checked |
| FilterPanel.CheckNarrowsOrWidens | src/components/Filters/FilterPanel.jsx:91-95 | Checking a facet's first box shrinks the listing, and checking a further box enlarges it |
| FilterPanel.SetMrrRange | src/components/Filters/FilterPanel.jsx:292-296 | The slider replaces the mrr pair and nothing else |
| FilterPanel.ClearFilters | src/components/Filters/FilterPanel.jsx:54-66 | Every selection and the services list become empty, the slider spans 0 to 1000, and the search is kept |
| FilterPanel.ClearFiltersSpec | src/components/Filters/FilterPanel.jsx:54-66 | "Clear All" gives the home page's initial state with the search carried over, keeps the slider in bounds, and is idempotent |
| FilterPanel.ClearedListing | src/components/Filters/FilterPanel.jsx:54-66 | After clearing, only the search text restricts the listing |
| FilterPanel.ClearedListsAll | src/components/Filters/FilterPanel.jsx:54-66 | Clearing with an empty search lists the whole collection |
| FilterPanel.PanelKeepsSliderBounds | src/components/Filters/FilterPanel.jsx:54-296 | Along any sequence of checkbox changes, slider moves (ordered pairs within 0 and 1000, as the slider gives) and clears, the mrr pair stays ordered within 0 and 1000 and the search text is unchanged |
| CaseStudyCard.TruncateText | src/components/CaseStudy/CaseStudyCard.jsx:17-21 | The shortened text is never longer than the text itself or `maxLength` plus three |
| CaseStudyCard.TruncateFalsy | src/components/CaseStudy/CaseStudyCard.jsx:18 | A null or empty text gives "" |
| CaseStudyCard.TruncateShort | src/components/CaseStudy/CaseStudyCard.jsx:19 | A text within `maxLength` is returned unchanged |
| CaseStudyCard.TruncateLong | src/components/CaseStudy/CaseStudyCard.jsx:20 | A longer text gives its first `maxLength` characters followed by "...", of length `maxLength + 3` |
| CaseStudyCard.TruncateIdempotent | src/components/CaseStudy/CaseStudyCard.jsx:17-21 | Shortening a shortened text changes nothing |
| CaseStudyCard.NatToString | src/components/CaseStudy/CaseStudyCard.jsx:127 | The numeral of the "+N" chip is non-empty, all digits, and without a leading zero |
| CaseStudyCard.ParseNatToString | src/components/CaseStudy/CaseStudyCard.jsx:127 | The numeral reads back as the number it was written from |
| CaseStudyCard.ChipIf | src/components/CaseStudy/CaseStudyCard.jsx:76-78 | A chip appears exactly for a truthy value and carries that value |
| CaseStudyCard.AvailabilityColor | src/components/CaseStudy/CaseStudyCard.jsx:107 | The availability chip is "success" exactly for "Public", and "warning" otherwise |
| CaseStudyCard.ShowMrr | src/components/CaseStudy/CaseStudyCard.jsx:66-70 | The "MRR" line appears exactly for a non-null, non-zero mrr and shows that value; a zero mrr renders a bare "0"; a null one renders nothing |
| CaseStudyCard.ServiceChips | src/components/CaseStudy/CaseStudyCard.jsx:113-131 | The third row never holds more than three chips |
| CaseStudyCard.Render | src/components/CaseStudy/CaseStudyCard.jsx:23-137 | What a card displays; its parts are stated by `ShowMrr` and the chip lemmas |
| CaseStudyCard.ServiceChipsSpec | src/components/CaseStudy/CaseStudyCard.jsx:113-131 | The first two services are named in order, and a "+N" chip with N = length − 2 follows exactly when there are more than two |
| CaseStudyCard.ServiceChipsCountAll | src/components/CaseStudy/CaseStudyCard.jsx:124-128 | The named chips and the number on the "+N" chip add up to the number of services |
| CaseStudyCard.NoServicesNoRow | src/components/CaseStudy/CaseStudyCard.jsx:113 | A null or empty services array leaves the third row out |
| CaseStudyCard.LocationChipsSpec | src/components/CaseStudy/CaseStudyCard.jsx:75-85 | The first row has one plain chip per truthy industry, sub-industry and city, each showing that value |
| CaseStudyCard.TagChipsSpec | src/components/CaseStudy/CaseStudyCard.jsx:88-110 | No second-row chip is empty, and a truthy availability ends the row with its coloured chip |
| CaseStudyCard.ZeroMrrShowsBareZero | src/components/CaseStudy/CaseStudyCard.jsx:66 | A zero mrr gets no "MRR" line but leaves a bare "0"; a missing one shows nothing |
| CaseStudyCard.FiveServicesExample | src/components/CaseStudy/CaseStudyCard.jsx:115-128 | With five services, "EC2" and "S3" are named and "+3" stands for the rest |

## Left out

- The hosted store's client is replaced by the `Backend` answer and in-memory rows. This covers `from`/`select`/`insert`, the PostgREST filter syntax and authentication.
- In the real `or(...)` filter string, `%`, `_` and `*` in the search text act as wildcards, and a comma or a parenthesis breaks the logic-tree expression. The model gives the search its intended meaning, a literal case-insensitive substring.
- Case-insensitivity covers ASCII letters only. Unicode case folding is not modelled.
- Rows with equal `created_at` come out in one fixed order here; the store promises no order among them.
- `useEffect` re-runs and overlapping fetches that overwrite one another are concurrency. Each fetch is one atomic step, and the `loading := true` stage is not observable.
- `console.error` logging is not modelled.
- `parseFloat` of the mrr box is the parameter `parse`, and mrr values are integers. Floating point, `NaN`, and fractional mrr are not modelled.
- `created_at` is an integer instant. `new Date().toISOString()` is the parameter `now`.
- The two-second redirect after a successful insert is left out, and so is routing. This includes the card's navigation to the detail page and the detail page itself.
- The `if (filters.mrrRange)` guard is always true here: the filter state always holds a pair.
- The optional chaining on `filters.<col>?.length` and `filterOptions.<list>?.map` is not modelled. Both are always arrays here.
- CaseStudyForm.FormErrors: a key reset to `undefined` and a key never set are both `None`. They differ only in `Object.keys`, which `validateForm` applies to a fresh object holding only messages.
- CaseStudyForm.ValidateForm: each `if (...) errors.x = '...'` is written as an unconditional update with the message or nothing. On the fresh, empty `errors` object this has the same effect.
- The services filter has no control: no panel offers the hook's services list, and only the initial state and "Clear All" write `filters.awsServices`, both as `[]`. The `contains` chain is modelled for any selection all the same.
- `DEFAULT_OPTIONS` also lists industries, sub-industries, cities and services. No facet ever reads those lists, so they are not modelled.
- `truncateText` is declared in the card but no element calls it. It is modelled on its own.
- Text lengths are counted in characters rather than UTF-16 code units.
- NativeCheckPasses: the browser's check reads the text in each `required` input; the model reads the form's values instead. They differ only while text typed into one of those selectors has not been picked as an option, and a submit at that moment is not modelled.
- The browser's own "please fill in this field" bubble, and its check of the number box for mrr, are not modelled.
- The layout, styling and component library of every screen are not modelled.
