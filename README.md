# frappe_search in Dafny

This project models the core of frappe_search, a full-text search add-on for
the Frappe framework, and proves properties of that model. The core has two
halves.

**Reading the index.** `tantivy_search` in
`frappe_search/frappe_search/doctype/search/search.py` resolves a query in
three tiers:

1. the addresses every query token matches (a fuzzy match per token);
2. otherwise, the top `target // 3` hits of a fuzzy whole-query search;
3. otherwise, the first `target // len(tokens)` hits of every token.

It then keeps the highlight records of the chosen addresses. It ranks them by
(title highlights, content highlights), largest first, with a stable sort. It
returns them either cut to the budget, or grouped by DocType by
`groupby_and_trim_results`. That function gives every DocType an equal share
of the budget and orders the groups by size.

**Writing the index.**
- `update_index` replaces one record's document with the protocol delete by
  id, commit, add, commit.
- `build_complete_index` empties the index and re-adds every eligible record.

The DocType's hook profile, or its metadata, decides which attribute is the
title, which attributes make up the content (joined with `|||`), and which are
passed through as extra fields.

**The browser side.** From `search.js`, the project models the occurrence
finder `getIndicesOf`, and the part of `showResult` that shows the `|||`
separators as ` · `.

## Modules

- `Common`: Option, Result, the Python exceptions raised, values that may be
  `None`, and `str.join`.
- `Ranking`: `sorted(..., reverse=True)` on pair keys, as a stable descending
  insertion sort.
- `Records`: addresses and highlight records.
- `Grouping`: `groupby_and_trim_results`, as two loops and a sort, proved
  against the function `GroupedSpec`.
- `Query`: `tantivy_search`, as a method whose result is proved equal to the
  function `SearchSpec`. Lemmas state each tier's properties and the
  properties of the page returned.
- `IndexStore`: the index as a class. `docs` is what a searcher sees, that is,
  the last commit. `staged` is the writer's view.
- `Profiles`: how the profile of a DocType is chosen or derived.
- `Sync`: `update_index` and `build_complete_index` as methods on an `Index`.
- `IndicesOf`: `getIndicesOf` as a loop, proved against the function
  `Occurrences`.
- `Display`: `replaceAll("|||", " · ")` and `showResult`.

## Behaviour worth knowing

- Ungrouped, the reported total is the budget itself (`search.py:104-108`).
  It is not the number of records returned.
- The whole-query tier filters its hits against `results`. That list is still
  empty when the comprehension runs, so the filter keeps every hit.
- If the rebuild raises after the reset was committed, nothing else has been
  committed yet. The index is therefore left empty; it does not keep a
  partial rebuild.
- Grouping an empty ranking divides by zero (`search.py:123`). This happens
  exactly when the search falls through to tier 3 with a budget smaller than
  the number of tokens (`Query.GroupedFailsExactly`).

## Model

| member | source | states |
|---|---|---|
| Ranking.SortDesc | frappe_search/frappe_search/doctype/search/search.py:97-101 | the sorted records are a permutation of the input, ordered by key non-increasingly |
| Ranking.SortDescStable | frappe_search/frappe_search/doctype/search/search.py:97-101 | records with equal keys keep their input order, as Python's stable sort with `reverse=True` does |
| Ranking.SortDescSameElements | frappe_search/frappe_search/doctype/search/search.py:97-101 | sorting keeps the length and exactly the same elements |
| Grouping.DoctypesDistinct | frappe_search/frappe_search/doctype/search/search.py:119-121 | each DocType is a key of the grouping once |
| Grouping.DoctypesExact | frappe_search/frappe_search/doctype/search/search.py:119-121 | the keys are exactly the DocTypes of the records |
| Grouping.OfDoctypeExact | frappe_search/frappe_search/doctype/search/search.py:119-121 | a DocType's list holds exactly the records of that DocType |
| Grouping.Take | frappe_search/frappe_search/doctype/search/search.py:128 | `xs[:n]` has length `min(n, len(xs))` |
| Grouping.GroupByDoctype | frappe_search/frappe_search/doctype/search/search.py:119-121 | the loop builds the keys in first-seen order, and under each key the records of that DocType in input order |
| Grouping.TrimGroups | frappe_search/frappe_search/doctype/search/search.py:124-129 | the loop cuts every group to the share and counts the records kept |
| Grouping.GroupAndTrim | frappe_search/frappe_search/doctype/search/search.py:118-133 | the method returns what `GroupedSpec` prescribes: the count, and the trimmed groups sorted by size |
| Grouping.GroupedSpec | frappe_search/frappe_search/doctype/search/search.py:118-133 | definition: the trimmed groups of every DocType, cut to `target // g` records each, with their total, sorted by size largest first |
| Grouping.ShareBound | frappe_search/frappe_search/doctype/search/search.py:123 | the shares of all groups together never exceed the budget |
| Grouping.ShareZero | frappe_search/frappe_search/doctype/search/search.py:123 | a budget smaller than the number of groups gives every group a share of zero |
| Grouping.ShareAtLeastOne | frappe_search/frappe_search/doctype/search/search.py:88 | a budget at least the number of parts gives each part one or more |
| Grouping.TotalSizeSorted | frappe_search/frappe_search/doctype/search/search.py:129-133 | ordering the groups does not change the number of records they hold |
| Grouping.GroupedTotalWithinBudget | frappe_search/frappe_search/doctype/search/search.py:123-133 | the reported count is the number of records returned, and it is at most the budget |
| Grouping.GroupsAreFairPrefixes | frappe_search/frappe_search/doctype/search/search.py:123-129 | every group is a prefix of its DocType's records, holds only that DocType, and holds at most `target // g` records |
| Grouping.GroupForEveryDoctype | frappe_search/frappe_search/doctype/search/search.py:119-133 | every DocType of the input has a group, even an empty one |
| Grouping.GroupDoctypesDistinct | frappe_search/frappe_search/doctype/search/search.py:131-133 | no DocType has two groups |
| Grouping.GroupsLargestFirst | frappe_search/frappe_search/doctype/search/search.py:131-133 | groups are ordered largest first, and groups of equal size keep first-seen order |
| Query.HighlightAll | frappe_search/frappe_search/doctype/search/search.py:136-167 | one highlight record per address, in order, carrying the address and the engine's view of it |
| Query.Resolve | frappe_search/frappe_search/doctype/search/search.py:42-90 | definition: the tier reached (0 for no hit at all), the result addresses of tiers 1 to 3, and the highlight records gathered on the way |
| Query.SearchTokens | frappe_search/frappe_search/doctype/search/search.py:42-53 | the token loop yields one hit set per token, and the highlight records of every hit set |
| Query.NoHitsShortCircuit | frappe_search/frappe_search/doctype/search/search.py:55-63 | the early return happens exactly when no token matched anything, including for an empty query, and gives no results with total 0 |
| Query.KeepInAllExact | frappe_search/frappe_search/doctype/search/search.py:65 | the intersection keeps exactly the addresses found in every hit set |
| Query.TierOneIsIntersection | frappe_search/frappe_search/doctype/search/search.py:65-68 | tier 1 answers exactly the common addresses; tiers 2 and 3 run only when there are none |
| Query.UnseenHits | frappe_search/frappe_search/doctype/search/search.py:74-83 | the comprehension keeps exactly the hits not already in `results`, which is all of them when `results` is empty |
| Query.TierTwoBounded | frappe_search/frappe_search/doctype/search/search.py:67-84 | tier 2 is a prefix of the whole-query ranking of at most `target // 3` addresses, with no duplicates when the ranking has none |
| Query.MergePerToken | frappe_search/frappe_search/doctype/search/search.py:88-90 | the loop concatenates the first `per_token` addresses of every hit set |
| Query.PerTokenMergeLength | frappe_search/frappe_search/doctype/search/search.py:88-90 | the merge holds at most `per_token` addresses per hit set |
| Query.PerTokenMergeNone | frappe_search/frappe_search/doctype/search/search.py:88-90 | a share of zero merges nothing |
| Query.PerTokenMergeOrigin | frappe_search/frappe_search/doctype/search/search.py:88-90 | every merged address comes from the first `per_token` of some hit set |
| Query.MergeHasHead | frappe_search/frappe_search/doctype/search/search.py:88-90 | with a positive share, the first address of every non-empty hit set is merged |
| Query.TierThreeBounded | frappe_search/frappe_search/doctype/search/search.py:86-90 | tier 3 yields at most `target` addresses, each among the first `target // len(hits)` of some hit set |
| Query.Collect | frappe_search/frappe_search/doctype/search/search.py:92-95 | the kept records are exactly the highlight records whose address is a result, without duplicates |
| Query.CollectResultDocs | frappe_search/frappe_search/doctype/search/search.py:92-95 | the loop keeps each such record once, in first-seen order |
| Query.CollectNothing | frappe_search/frappe_search/doctype/search/search.py:92-95 | with no result addresses, no record is kept |
| Query.TokenHighlightsFromView | frappe_search/frappe_search/doctype/search/search.py:42-53 | every token's matches have their highlight record, and every record is the engine's view of its address |
| Query.ResolveFromView | frappe_search/frappe_search/doctype/search/search.py:42-84 | every highlight record of every tier is the engine's view of its address |
| Query.RankedRecords | frappe_search/frappe_search/doctype/search/search.py:92-101 | the ranked records are the highlights of the results, one per address, ranked by highlight counts, with ties in found order |
| Query.ShapePage | frappe_search/frappe_search/doctype/search/search.py:103-115 | definition: grouped, the page of `groupby_and_trim_results` or ZeroDivisionError on no records; ungrouped, the first `target` records with the budget as total |
| Query.SurvivorIsRanked | frappe_search/frappe_search/doctype/search/search.py:92-101 | a highlight record of a result address makes the ranking non-empty |
| Query.SomeRecordSurvives | frappe_search/frappe_search/doctype/search/search.py:65-101 | tiers 1 and 2, and tier 3 with a budget at least the number of tokens, always rank some record |
| Query.NoRecordSurvives | frappe_search/frappe_search/doctype/search/search.py:86-101 | tier 3 with a budget smaller than the number of tokens ranks nothing |
| Query.GroupedFailsExactly | frappe_search/frappe_search/doctype/search/search.py:86-123 | grouped search raises ZeroDivisionError exactly when tier 3 is reached with fewer budget units than tokens |
| Query.SearchRespectsBudget | frappe_search/frappe_search/doctype/search/search.py:103-115 | the records returned never exceed the budget; grouped, the reported total is their number |
| Query.UngroupedTotalIsBudget | frappe_search/frappe_search/doctype/search/search.py:104-108 | ungrouped, once a token matched, the reported total is the budget itself |
| Query.SearchSpec | frappe_search/frappe_search/doctype/search/search.py:30-115 | definition: the page `tantivy_search` returns, from the token hit sets, the whole-query ranking and the engine's view, apart from the clock |
| Query.TantivySearch | frappe_search/frappe_search/doctype/search/search.py:30-115 | the search returns exactly the page, or the error, that `SearchSpec` prescribes |
| IndexStore.WithoutId | frappe_search/frappe_search/doctype/search/search.py:208 | deleting by id keeps exactly the documents with another id, in order |
| IndexStore.WithoutIdIdempotent | frappe_search/frappe_search/doctype/search/search.py:208 | deleting the same id twice is deleting it once |
| IndexStore.WithoutIdRemovesAll | frappe_search/frappe_search/doctype/search/search.py:208 | after the delete no document carries the id |
| IndexStore.ReplacedHasOneCopy | frappe_search/frappe_search/doctype/search/search.py:207-229 | after the replace protocol exactly one document carries the id |
| IndexStore.ReplacedKeepsOthers | frappe_search/frappe_search/doctype/search/search.py:207-229 | the replace leaves every document with another id as it was |
| IndexStore.ReplaceTwice | frappe_search/frappe_search/doctype/search/search.py:207-229 | two updates of one record leave only the later document |
| IndexStore.ReplacedKeepsUniqueIds | frappe_search/frappe_search/doctype/search/search.py:207-229 | the replace keeps ids unique |
| IndexStore.UniqueSubsequence | frappe_search/frappe_search/doctype/search/search.py:208 | the delete keeps ids unique |
| IndexStore.Index.Open | frappe_search/frappe_search/doctype/search/search.py:187 | opening the index pends no operation |
| IndexStore.Index.DeleteDocuments | frappe_search/frappe_search/doctype/search/search.py:208 | the delete is pending in the writer, and searchers see no change |
| IndexStore.Index.DeleteAllDocuments | frappe_search/frappe_search/doctype/search/search.py:248 | the reset is pending in the writer |
| IndexStore.Index.AddDocument | frappe_search/frappe_search/doctype/search/search.py:214-228 | the added document is pending at the end of the writer's view |
| IndexStore.Index.Commit | frappe_search/frappe_search/doctype/search/search.py:209 | searchers now see the writer's view |
| IndexStore.Index.Discard | frappe_search/frappe_search/doctype/search/search.py:211-228 | an exception drops what the writer did since the last commit |
| Profiles.AutoTitleField | frappe_search/frappe_search/doctype/search/search.py:194 | the title is the DocType's title field, or `name` when unset; never empty |
| Profiles.SearchableFieldsExact | frappe_search/frappe_search/doctype/search/search.py:197-201 | the automatic content is exactly the fields flagged for global search other than the title |
| Profiles.AutoProfile | frappe_search/frappe_search/doctype/search/search.py:194-203 | the derived profile has the title alone as title, no extra fields, and a content list that leaves the title out |
| Profiles.UpdateProfile | frappe_search/frappe_search/doctype/search/search.py:188-205 | definition: with a hook, the hook's profile of a listed DocType; without one, the derived profile of an indexable DocType; otherwise none |
| Profiles.UpdateProfileChoice | frappe_search/frappe_search/doctype/search/search.py:188-205 | with a hook, exactly its DocTypes get their profile; without one, exactly the indexable DocTypes get the derived profile |
| Profiles.ContentFields | frappe_search/frappe_search/doctype/search/search.py:212 | a profile without `content` raises KeyError |
| Profiles.TitleList | frappe_search/frappe_search/doctype/search/search.py:211 | a profile without `title` lists `name` |
| Profiles.UpdateTitleField | frappe_search/frappe_search/doctype/search/search.py:211 | the update takes the first listed title, and raises IndexError on an empty list |
| Profiles.RebuildTitleField | frappe_search/frappe_search/doctype/search/search.py:280-281 | the rebuild takes the last listed title, or `name` when that is empty, and raises IndexError on an empty list |
| Profiles.TitleChoicesAgree | frappe_search/frappe_search/doctype/search/search.py:211-281 | with one non-empty title, or none, both read the same title |
| Profiles.TitleChoicesDiffer | frappe_search/frappe_search/doctype/search/search.py:211-281 | when the first listed title differs from the last and the last is not empty, the update and the rebuild read different titles |
| Profiles.TitleChoicesDifferExample | frappe_search/frappe_search/doctype/search/search.py:211-281 | an instance: with `subject` and `title` listed, the update reads `subject` and the rebuild reads `title` |
| Profiles.ExtraFields | frappe_search/frappe_search/doctype/search/search.py:213 | a profile without `fields` passes no extra fields |
| Sync.GetAttr | frappe_search/frappe_search/doctype/search/search.py:219 | `name` is always readable, and any other missing attribute raises AttributeError |
| Sync.GetAttrs | frappe_search/frappe_search/doctype/search/search.py:223 | reading the content attributes succeeds exactly when each can be read, and gives their values in order |
| Sync.ExtraMap | frappe_search/frappe_search/doctype/search/search.py:226 | the extra-field dict has exactly the listed keys with the record's values, or raises on a missing one |
| Sync.UpdateDoc | frappe_search/frappe_search/doctype/search/search.py:207-228 | definition: the document `update_index` adds, with id `{doctype}-{name}`, the first title, the joined content and the extra fields, or the first exception raised |
| Sync.UpdateDocExact | frappe_search/frappe_search/doctype/search/search.py:207-228 | the document is built exactly when the profile and the record have what it names; it is keyed by the record's identity |
| Sync.UpdateIndex | frappe_search/frappe_search/doctype/search/search.py:186-231 | without a profile the index is untouched; otherwise searchers first see the record deleted, then replaced, or still deleted if building raises |
| Sync.Pop | frappe_search/frappe_search/doctype/search/search.py:289 | `pop` gives the value and the row without the key, and raises KeyError when the key is missing |
| Sync.PopExtrasSucceeds | frappe_search/frappe_search/doctype/search/search.py:290-292 | popping the extras succeeds exactly when all are in the row and none is listed twice |
| Sync.PopExtrasResult | frappe_search/frappe_search/doctype/search/search.py:290-292 | the popped dict holds exactly the extras with their row values, and the row loses them |
| Sync.Columns | frappe_search/frappe_search/doctype/search/search.py:283-286 | the rows are read with the title and `name` columns |
| Sync.RebuildPlan | frappe_search/frappe_search/doctype/search/search.py:253-281 | definition: per DocType, nothing when it is skipped, else the title field, the content list (corrected: the title field name is left out) and the extras, or KeyError / IndexError |
| Sync.RebuildPlanExact | frappe_search/frappe_search/doctype/search/search.py:253-281 | a DocType is indexed exactly when eligible, and the error cases are a missing `content` or an empty title list; the title is never empty and, in automatic mode, not a content field |
| Sync.RowDoc | frappe_search/frappe_search/doctype/search/search.py:288-307 | each row's document carries its DocType and the id built from the record's name |
| Sync.RowDocExact | frappe_search/frappe_search/doctype/search/search.py:288-307 | a row yields a document exactly when it has the title and the extra columns; the document carries the title and the extra values |
| Sync.UpdateAfterRebuildKeepsOneCopy | frappe_search/frappe_search/doctype/search/search.py:294 | a rebuilt document and the one an update writes share an id, so an update after a rebuild leaves one copy |
| Sync.RowsDocsSucceeds | frappe_search/frappe_search/doctype/search/search.py:288-309 | one bad row fails the whole DocType |
| Sync.RowsDocsInOrder | frappe_search/frappe_search/doctype/search/search.py:288-309 | the documents follow the rows one for one, in order |
| Sync.RowsErrSticks | frappe_search/frappe_search/doctype/search/search.py:288-309 | the first row that raises decides the DocType's outcome |
| Sync.RebuildErrSticks | frappe_search/frappe_search/doctype/search/search.py:253-309 | the first DocType that raises decides the rebuild's outcome |
| Sync.RebuildOnlyEligible | frappe_search/frappe_search/doctype/search/search.py:253-309 | the rebuild writes only documents of eligible, enumerated DocTypes, each with id `{doctype}-{name}` for the `name` column of some row |
| Sync.RebuildDocsFromRows | frappe_search/frappe_search/doctype/search/search.py:253-309 | every rebuilt document is the document of one row `get_all` returned for its DocType, under that DocType's plan |
| Sync.RebuildStep | frappe_search/frappe_search/doctype/search/search.py:253-309 | rebuilding one more DocType extends the documents of the earlier ones |
| Sync.RebuildDocs | frappe_search/frappe_search/doctype/search/search.py:253-311 | definition: the documents of every eligible DocType in turn, or the first exception raised |
| Sync.IndexRows | frappe_search/frappe_search/doctype/search/search.py:288-309 | the row loop adds each row's document to the writer and counts them, or raises |
| Sync.IndexDoctype | frappe_search/frappe_search/doctype/search/search.py:254-309 | one DocType's round adds that DocType's documents, or raises |
| Sync.BuildCompleteIndex | frappe_search/frappe_search/doctype/search/search.py:234-312 | the index ends up holding exactly the rebuilt documents and the count is their number; if the rebuild raises, the index is left empty |
| Sync.RebuildAsWrittenDuplicatesOnUpdate | frappe_search/frappe_search/doctype/search/search.py:289-294 | as written, with `name` as the title, the id ends in `None` and a later update leaves two documents for one record |
| Sync.RowDocAsWritten | frappe_search/frappe_search/doctype/search/search.py:288-294 | definition, as written: the row's document with `name` read after the title and extra columns were popped |
| Sync.RebuildAsWrittenIdEndsInNone | frappe_search/frappe_search/doctype/search/search.py:288-294 | as written, whenever the title field is `name` and the row has a `name` column, the id is `{doctype}-None` |
| Sync.AutoContentAsWritten | frappe_search/frappe_search/doctype/search/search.py:261-266 | definition, as written: the content comprehension reading the enclosing `title`, raising NameError while it is unbound and otherwise comparing with its value |
| Sync.AutoContentAsWrittenFailsUnbound | frappe_search/frappe_search/doctype/search/search.py:261-266 | as written, before any row has been read, the content comprehension raises exactly when some field is flagged for global search |
| Sync.AutoContentAsWrittenCounterexample | frappe_search/frappe_search/doctype/search/search.py:261-266 | as written it raises NameError first, and later lets a stale title through; the corrected list does neither |
| IndicesOf.IndexOf | frappe_search/frappe_search/doctype/search/search.js:53 | `indexOf` answers -1, or a position at or after the start where the pattern fits |
| IndicesOf.IndexOfFound | frappe_search/frappe_search/doctype/search/search.js:53 | a position `indexOf` answers is an occurrence |
| IndicesOf.IndexOfFirst | frappe_search/frappe_search/doctype/search/search.js:53 | no occurrence comes before the one answered, and there is none at all when it answers -1 |
| IndicesOf.Lower | frappe_search/frappe_search/doctype/search/search.js:49-52 | lower-casing keeps the length |
| IndicesOf.Fold | frappe_search/frappe_search/doctype/search/search.js:49-52 | the compared text has the input's length |
| IndicesOf.GetIndicesOf | frappe_search/frappe_search/doctype/search/search.js:41-58 | an empty pattern gives `[]`; otherwise the result is the leftmost non-overlapping occurrences in the (case-folded) text |
| IndicesOf.FindAll | frappe_search/frappe_search/doctype/search/search.js:46-57 | the search loop collects exactly `Occurrences` |
| IndicesOf.OccurrencesAdvance | frappe_search/frappe_search/doctype/search/search.js:53-56 | one round records the occurrence found and resumes after its end |
| IndicesOf.Occurrences | frappe_search/frappe_search/doctype/search/search.js:53-56 | definition: starting at `from`, the first occurrence `indexOf` finds, then the occurrences after its end; none once `indexOf` answers -1 |
| IndicesOf.OccurrencesStep | frappe_search/frappe_search/doctype/search/search.js:53-56 | the occurrences start with the one `indexOf` finds, and there are none when it answers -1 |
| IndicesOf.OccurrencesAreMatches | frappe_search/frappe_search/doctype/search/search.js:53-56 | every reported index is an occurrence at or after the start |
| IndicesOf.OccurrencesSpaced | frappe_search/frappe_search/doctype/search/search.js:55 | the reported indices increase by at least the pattern's length, so occurrences do not overlap |
| IndicesOf.OccurrencesLeftmost | frappe_search/frappe_search/doctype/search/search.js:53-56 | no occurrence is skipped: each one is reported or overlaps a reported one |
| Display.ReplaceAllSkipsPrefix | frappe_search/frappe_search/doctype/search/search.js:63 | text without `\|` passes through `replaceAll` unchanged |
| Display.ShowsSeparatorsAsDots | frappe_search/frappe_search/doctype/search/search.js:63 | `\|`-free fields joined with `\|\|\|` show as the same fields joined with ` · ` |
| Display.NoSeparatorLeft | frappe_search/frappe_search/doctype/search/search.js:63 | after the rewrite no `\|\|\|` is left |
| Display.ReplaceAll | frappe_search/frappe_search/doctype/search/search.js:63 | definition: the left-to-right, non-overlapping `replaceAll` of a non-empty pattern |
| Display.ShownTitle | frappe_search/frappe_search/doctype/search/search.js:62 | the highlighted title, or the plain title when it is empty |
| Display.ShowResult | frappe_search/frappe_search/doctype/search/search.js:60-64 | definition: the result's HTML, a link to its url with the shown title, and its content with `\|\|\|` shown as ` · ` |
| Display.ShowResultOfFields | frappe_search/frappe_search/doctype/search/search.js:60-64 | a result whose content is `\|`-free fields shows them separated by ` · ` under its shown title |

## Left out

- The search engine itself is a parameter. This covers tokenising, fuzzy matching, scoring, snippet generation, and the counts of highlighted spans. `searcher.search(q, n)` is modelled as the first `n` of a given ranking.
- The order in which a Python set is enumerated is a parameter: each token's hit set is given as a sequence. The intersection is listed in the order of the first hit set.
- The clock and the `duration` field are left out.
- `markdownify` is a parameter. So are `get_absolute_url` and the `<b>` to `<mark>` rewrite of the snippets, which arrive already applied.
- The filesystem, the index path and `frappe.get_hooks` / `frappe.get_doc` / `frappe.get_all` become parameters. What columns `get_all` returns is not constrained.
- The document schema (`get_schema`, `search.py:174-182`) is the field list of `IndexStore.Doc`. How tantivy stores and tokenises fields is left out. In particular, `id` is declared as a text field with the default tokenizer, and `delete_documents("id", ...)` is modelled as removing exactly the documents whose whole id equals the given string; `IndexStore.ReplacedHasOneCopy` and `Sync.UpdateAfterRebuildKeepsOneCopy` rely on the engine's term delete matching the whole id in that way.
- Concurrency between writers and readers is left out, beyond the commit points the class makes visible.
- The budget is a natural number. A negative `target_number` gives Python's negative slicing and floor division, which are not modelled.
- A Python dict in key order (the grouped results) is modelled as a sequence of groups.
- IndicesOf.GetIndicesOf: indices and lengths count characters (Unicode scalar values), not the UTF-16 code units of JavaScript strings; for text with characters outside the Basic Multilingual Plane, such as emoji, the source's indices are larger than the model's.
- IndicesOf.Lower: `toLowerCase` is a per-character map that keeps the length. Unicode case mappings that change the length are not modelled.
- The rest of `showResult`'s HTML is modelled as plain string concatenation, without escaping.
- Sync.RowDoc: models the corrected code of the first Findings row (`name` read before the pops); the code as written is `Sync.RowDocAsWritten`.
- Sync.RebuildPlan: models the corrected code of the second Findings row (the content list compares with the title field name); the code as written is `Sync.AutoContentAsWritten`. As written, an automatic rebuild raises NameError at the first DocType that is not excluded and has a flagged field, when that DocType is reached before any row has been read; later DocTypes compare with a stale row title instead. `Sync.RebuildPlanExact` promises neither.
- Sync.BuildCompleteIndex: rebuilds with `Sync.RowDoc` and `Sync.RebuildPlan`, so it models the program with both Findings corrected; the as-written halves are `Sync.RowDocAsWritten` and `Sync.AutoContentAsWritten`. The hooks file of this repository lists no DocTypes, so when no installed app defines `frappe_search_doctypes` the program as written rebuilds in automatic mode and can raise as above.
- The UI code of `search.js` outside lines 41-64 (the page setup, the input handling and the rendering loop) is not part of this model. Nor are `frappe_search/core.py` and the hooks file.

## Findings

| source | as written | input that shows it | evidently intended | confidence | as-written member | corrected member |
|---|---|---|---|---|---|---|
| frappe_search/frappe_search/doctype/search/search.py:289-294 | the title column is popped before `record.name` is read, so when the title field is `name` the id is `{doctype}-None` | DocType `Note` with no title field, row `{name: "N1"}`: the rebuild writes id `Note-None`, and `update_index` on `N1` then adds `Note-N1` beside it | the id is built from the record's name, as `update_index` builds it | not executed | Sync.RebuildAsWrittenDuplicatesOnUpdate | Sync.UpdateAfterRebuildKeepsOneCopy |
| frappe_search/frappe_search/doctype/search/search.py:261-266 | the automatic content comprehension compares field names with `title`, a local the row loop binds later: unbound at first (NameError), then the previous row's title value | an automatic rebuild raises NameError at the first DocType that is not excluded and has a field flagged for global search, such as `subject`, when it is reached before any row has been read, whether or not that DocType is indexable; once a row has been read, a stale title such as `Welcome` lets the title field `subject` into the content | compare with the DocType's title field name, so the title field is left out of the content | not executed | Sync.AutoContentAsWrittenCounterexample | Sync.RebuildPlanExact |
