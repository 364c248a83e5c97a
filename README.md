# Noted: the note filter, the editor's tag selection and the note lookup

Noted is a browser note-taking application written with React. Almost all of
it is rendering; this project models the three places where it decides
something, and proves what they do:

- **The note list's filter** (`filteredNotes`): which notes the list shows
  for a title query and a selection of tags. It is modelled as written,
  including its defect (below), and beside it as its own comment describes it.
- **The note editor's tag selection**: a class `NoteForm.NoteForm` whose
  `selectedTags` field starts from the `tags` prop, grows by one when the
  user creates a tag, is replaced when the select changes, and is packed with
  the title and body inputs into the payload on submit.
- **The note layout's lookup**: the first note whose id equals the route's
  `id` parameter, or a redirect to `/` when there is none.

The tag ↔ select-option conversion (`{id, label}` ↔ `{label, value}`) that
both views use is modelled once, with both round trips proved.

Files:

- `Js.dfy`: the JavaScript built-ins the code relies on (`filter`, `every`,
  `some`, `find`, `includes`, `toLowerCase`, truthiness of `undefined`), each with a contract stating the built-in's meaning.
- `App.dfy`: the `Tag`, `NoteData` and `Note` records.
- `SelectOptions.dfy`: the tag ↔ option conversion.
- `NoteList.dfy`: the filter.
- `NoteForm.dfy`: the editor's state.
- `NoteLayout.dfy`: the lookup and the redirect.

A tag's `label` field is called `labelText` here, because `label` is a
reserved word in Dafny.

## Behaviour of the filter as written

- The `every` callback computes its `some` lookup but does not return it.
  Its block body has no `return`, so it returns `undefined`.
  `undefined` is falsy, so `every` is false for any non-empty selection.
  Together with a non-empty query, the list then shows no notes at all. The
  model follows the code (`KeepAsWritten`, `SelectionShowsNothing`).
- The condition is `title === "" || (...)`, and its comment agrees: an
  empty query shows every note, and the tag clause is then never looked at.
  The tag clause applies only together with a non-empty query. The model follows
  the code. The corrected predicate `KeepIntended` keeps this short-circuit
  and changes only the callback, so even corrected, a tag selection with no
  query shows every note (`TagOnlyExampleShowsAll`). Reading the filter as a
  title filter AND a tag filter that applies on its own is a different
  predicate, `KeepBothFilters`; `BothFiltersVersusIntended` shows the two
  readings differ only when the query is empty.

## Model

| member | source | states |
|---|---|---|
| `Js.ArrayFilter` | src/NoteList.tsx:51 | `filter` keeps a subsequence of its input: every kept element is an input element that passes, and each element occurs in the result exactly as often as in the input if it passes, and not at all otherwise |
| `Js.FilterSingle` | src/NoteList.tsx:51 | when exactly one element passes, filtering gives a list of just that element |
| `Js.FilterKeepsAll` | src/NoteList.tsx:51 | filtering a list whose every element passes gives the list back unchanged |
| `Js.FilterIdempotent` | src/NoteList.tsx:51 | filtering twice with the same callback is filtering once |
| `Js.ArrayEvery` | src/NoteList.tsx:59-62 | `every` is true exactly when every callback result is truthy; `undefined` is not truthy |
| `Js.ArraySome` | src/NoteList.tsx:61 | `some` is true exactly when some element satisfies the predicate |
| `Js.ArrayFind` | src/NoteLayout.tsx:17 | `find` returns an element at the first index that satisfies the predicate, and returns nothing exactly when no element does |
| `Js.StringIncludes` | src/NoteList.tsx:56 | `includes` is true exactly when the needle occurs at some index of the haystack; the empty needle always does |
| `Js.ToLowerCase` | src/NoteList.tsx:56 | lowercasing keeps the length and lowercases each ASCII letter in place |
| `Js.SameIgnoringCaseLower` | src/NoteList.tsx:56 | two strings that differ only in letter case lowercase to the same string |
| `NoteList.NoteHasTag` | src/NoteList.tsx:61 | the lookup is true exactly when one of the note's tags has the selected tag's id |
| `NoteList.EveryCallbackAsWritten` | src/NoteList.tsx:59-62 | the callback as written never yields a truthy value, whatever the note and tag |
| `NoteList.EveryCallbackIntended` | src/NoteList.tsx:59-62 | the corrected callback is truthy exactly when the note carries a tag with the selected tag's id |
| `NoteList.TitleMatches` | src/NoteList.tsx:56 | the title clause holds exactly when the lowercased query occurs at some index of the lowercased title |
| `NoteList.KeepWith` | src/NoteList.tsx:54-63 | for a given `every` callback, a note is kept exactly when the query is empty, or the title matches and the callback is truthy for every selected tag |
| `NoteList.KeepAsWritten` | src/NoteList.tsx:54-63 | as written, a note is kept exactly when the query is empty, or the title matches and no tag is selected; `AsWrittenVersusIntended` and `SelectionRejectsAsWritten` state its consequences |
| `NoteList.KeepIntended` | src/NoteList.tsx:54-63 | corrected, a note is kept exactly when the query is empty, or the title matches and the note carries every selected tag; `IntendedTagSubset` and `AsWrittenVersusIntended` compare it with the code |
| `NoteList.FilteredNotes` | src/NoteList.tsx:48-65 | the shown notes are a subsequence of the notes (order kept, no more of them); each passes the filter as written; a passing note is shown as many times as it occurs in the notes, and a failing one never |
| `NoteList.FilteredNotesIntended` | src/NoteList.tsx:57-62 | the same for the filter whose callback returns its lookup |
| `NoteList.IntendedShowsOnly` | src/NoteList.tsx:57-62 | corrected, when exactly one note passes, the list shows just that note |
| `NoteList.EmptyQueryShowsAll` | src/NoteList.tsx:55 | an empty query shows every note, in order, whatever tags are selected, both as written and corrected |
| `NoteList.NoTagsTitleDecides` | src/NoteList.tsx:56-58 | with a non-empty query and no tag selected, a note is kept exactly when its lowercased title contains the lowercased query |
| `NoteList.SelectionRejectsAsWritten` | src/NoteList.tsx:58-62 | as written, a non-empty query with a non-empty selection rejects every note |
| `NoteList.SelectionShowsNothing` | src/NoteList.tsx:51-64 | as written, a non-empty query with a non-empty selection shows an empty list |
| `NoteList.IntendedTagSubset` | src/NoteList.tsx:57-62 | corrected, with a non-empty query, a note is kept exactly when its title matches and every selected tag's id is among the note's tag ids |
| `NoteList.AsWrittenVersusIntended` | src/NoteList.tsx:57-62 | a note kept as written is kept when corrected; the two disagree exactly when the query and the selection are non-empty, the title matches and the note carries every selected tag |
| `NoteList.TaggedNoteDropped` | src/NoteList.tsx:57-62 | a note titled "Work log" carrying the selected tag is kept when corrected but dropped as written for the query "work" |
| `NoteList.QueryCaseInsensitive` | src/NoteList.tsx:56 | changing only the letter case of the query does not change whether a note is kept |
| `NoteList.TitleCaseInsensitive` | src/NoteList.tsx:56 | changing only the letter case of a note's title does not change whether it is kept |
| `NoteList.FilterIdempotentAsWritten` | src/NoteList.tsx:51-64 | filtering the shown notes again with the same query and selection shows the same notes |
| `NoteList.TitleQueryExample` | src/NoteList.tsx:55-56 | of the notes "Alpha" and "beta", the query "AL" shows exactly "Alpha" |
| `NoteList.TagSubsetExample` | src/NoteList.tsx:57-62 | corrected, of notes tagged [x], [x, y] and [] whose titles match, the selection [x, y] shows exactly the second, for any tags x and y with different ids |
| `NoteList.KeepBothFilters` | src/NoteList.tsx:54-63 | the filter read as two filters joined by AND: a note is kept exactly when the query is empty or the title matches, and, whatever the query, the note carries every selected tag; the code does not do this |
| `NoteList.BothFiltersVersusIntended` | src/NoteList.tsx:55-62 | with a non-empty query the AND reading and the corrected predicate agree; with an empty query the corrected predicate keeps every note, and the AND reading keeps exactly the notes carrying every selected tag |
| `NoteList.TagOnlyExampleShowsAll` | src/NoteList.tsx:55 | with no query, the selection [x, y] over notes tagged [x], [x, y] and [] shows all three notes, as written and corrected |
| `NoteList.TagOnlyExampleBothFilters` | src/NoteList.tsx:55-62 | under the AND reading, the same notes and selection with no query show only the note tagged [x, y] |
| `SelectOptions.ToOption` | src/NoteList.tsx:114-117 | a tag shown as an option reads back as the same tag |
| `SelectOptions.FromOption` | src/NoteList.tsx:125-128 | an option read as a tag takes the option's value as its id and its label as its label; `ToOption`, `OptionsRoundTrip` and `TagsRoundTrip` state that it inverts the option conversion |
| `SelectOptions.ToOptions` | src/NoteList.tsx:114-121 | the options for a tag list have its length and order, each option's value being the tag's id and its label the tag's label |
| `SelectOptions.FromOptions` | src/NoteList.tsx:122-129 | the tags for chosen options have their length and order, each tag's id being the option's value and its label the option's label |
| `SelectOptions.TagsRoundTrip` | src/NoteList.tsx:118-128 | showing tags as options and reading them back gives the original tags |
| `SelectOptions.OptionsRoundTrip` | src/NoteForm.tsx:69-79 | reading options as tags and showing them again gives the original options |
| `NoteForm.NoteForm.constructor` | src/NoteForm.tsx:15-27 | the selection starts as the `tags` prop, or empty when it is omitted; the inputs start as the title and body props or empty; no callback has been called |
| `NoteForm.NoteForm.Options` | src/NoteForm.tsx:65-67 | the menu offers one option per available tag, in order, whose value is the tag's id |
| `NoteForm.NoteForm.Value` | src/NoteForm.tsx:69-71 | the select shows options that read back as exactly the current selection |
| `NoteForm.NoteForm.EditTitle` | src/NoteForm.tsx:51 | the title input holds what the user typed |
| `NoteForm.NoteForm.EditMarkdown` | src/NoteForm.tsx:88-94 | the body input holds what the user typed |
| `NoteForm.NoteForm.OnCreateOption` | src/NoteForm.tsx:58-63 | creating an option makes a tag with the typed label and the fresh id, passes that same tag to `onAddTag` and appends it to the end of the selection, earlier entries unchanged |
| `NoteForm.NoteForm.OnChange` | src/NoteForm.tsx:73-80 | a select change replaces the selection by the chosen options, same length and order, value as id and label as label |
| `NoteForm.NoteForm.HandleSubmit` | src/NoteForm.tsx:30-42 | the payload passed to `onSubmit` holds the current title input, body input and selection; then the form navigates to ".." |
| `NoteForm.NoteForm.Submit` | src/NoteForm.tsx:45-98 | the required inputs block the submit exactly when the title or the body is empty; a blocked submit calls nothing |
| `NoteForm.NoteForm.Cancel` | src/NoteForm.tsx:100-104 | cancelling navigates to ".." and calls no `onSubmit` |
| `NoteForm.ReselectShownValue` | src/NoteForm.tsx:69-80 | choosing exactly the shown options leaves the selection unchanged |
| `NoteLayout.HasRouteId` | src/NoteLayout.tsx:17 | the `find` callback `n.id === id`, with an undefined `id` matching nothing; `FindNote` and `NoteLayout` state the lookup in its terms |
| `NoteLayout.FindNote` | src/NoteLayout.tsx:15-17 | a found note is one of the notes and has the route id, and no earlier note has it; nothing is found exactly when no note has the route id |
| `NoteLayout.FindNoteFirst` | src/NoteLayout.tsx:17 | the first note with the route id is the one found, so later notes with the same id are never chosen |
| `NoteLayout.NoteLayout` | src/NoteLayout.tsx:13-23 | the layout redirects to "/" (replacing history) exactly when no note has the route id; otherwise it renders a note of the list with that id |
| `NoteLayout.PresentIdRenders` | src/NoteLayout.tsx:17-22 | when the note at index k has the route id, the layout does not redirect: it renders the note at the first index with that id, which is at most k |
| `NoteLayout.MissingRouteIdRedirects` | src/NoteLayout.tsx:15-19 | a route without an `id` parameter always redirects |

## Findings

| source | as written | input that shows it | evidently intended | confidence | as-written member | corrected member |
|---|---|---|---|---|---|---|
| src/NoteList.tsx:59-62 | the `every` callback has a block body without `return`, so it yields `undefined` and `every` fails on the first selected tag | query "work", selection [tag t1], a note titled "Work log" carrying t1: not shown | the callback returns the `some` lookup, so a note is shown when it carries every selected tag (the comment at line 57) | high, not executed | `NoteList.TaggedNoteDropped` (with `NoteList.SelectionShowsNothing`) | `NoteList.IntendedTagSubset` (on `NoteList.KeepIntended`) |

## Left out

- `src/useLocalStorage.ts`: browser storage and JSON encoding are foreign calls; the stored collections are not modelled.
- `src/App.tsx`: only its record types are modelled; the route table is routing configuration.
- `src/EditNote.tsx`: it only passes the found note's fields to the editor and binds its id into `onSubmit`.
- The handlers that create and update notes, rename and delete tags, and resolve tag ids into tags are not part of this model: their code is not among the modelled files.
- `NoteCard`, `EditTagsModal` and all other rendering, styling and widget behaviour.
- The list's own `title` and `selectedTags` React state: the filter takes them as parameters; its select change uses `SelectOptions.FromOptions`.
- `useMemo` memoization: the filter is a pure function, so recomputing it gives the same result.
- `useNote` and the outlet context: the layout's `Outlet` value carries the note.
- Props are fixed when the form is built: `availableTags` is a constant of the form, so the tag that `onAddTag` adds to the application's tags does not appear among the form's options until the form is built again.
- `NoteList.KeepIntended`: keeps the code's `title === ""` short-circuit, so a tag selection without a query filters nothing, even corrected. Notes tagged [x], [x, y] and [] with the selection [x, y] and no query all show (`TagOnlyExampleShowsAll`). The list is not filtered by the tags alone, as the AND reading (`KeepBothFilters`) would do (`TagOnlyExampleBothFilters`). The code and its comment at line 55 agree on the short-circuit, so the model follows them.
- `uuidV4()`: the fresh id is a parameter of `OnCreateOption`; its uniqueness is not modelled.
- `toLowerCase` is modelled for ASCII letters only; other characters are left unchanged, unlike JavaScript's full Unicode case mapping.
- The callbacks `onAddTag` and `onSubmit` and `navigate` are recorded as call logs in the form; what the application does with them is not modelled.
