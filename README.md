# Notes app: filter, sort and save logic

A Dafny model of the sequential logic inside an Android note-taking app.
Persistence, sign-in and image storage are all handled by Firebase, and most of
the code is Compose UI. What is left, and what is modelled here:

- **The note record** (`NoteModel`, `note.dfy`). A note has seven fields with
  Kotlin defaults. An `id` of `""` means "not stored yet".
- **The filter/sort pipeline** `applyFilters` (`ViewModel`, `note_view_model.dfy`,
  with the comparator and stable sort in `NoteSort`, `note_sort.dfy`). It runs a
  case-insensitive title search. When `ALL` is active it stops there. Otherwise
  it applies the FAVORITE and COMPLETED filters and then a stable four-tier sort.
- **The filter-map state machine** `toggleFilter`. It is a method on the class
  `NoteViewModel`, which holds the filter map, the search query and the visible
  list. Its contract is the declarative function `Toggled`.
- **The note updates** `toggleFavorite` / `toggleComplete`, and the id choice
  `upsertNote` makes when it writes a note.
- **The selected-label list of the note screen** (`NoteScreen`, `note_screen.dfy`).
  `updateFilters` edits this list in place, using clear, append and
  first-occurrence remove on the class `SelectedFilters`. The screen forwards
  each key to `toggleFilter`. The menu's label/key table and the caption rule
  `selectedText` are also here.
- **The save rule** `saveNote` / `saveAndExit` (`NoteDetails`,
  `note_details_screen.dfy`). These are pure functions. They return the write
  to perform and say which callbacks fire.
- **Worked examples** (`Scenarios`, `scenarios.dfy`). Two notes go through one
  filter or one query at a time.

`List.filter` is in `Lists` (`lists.dfy`). Kotlin string behaviour (`isBlank`, `lowercase`, `contains(ignoreCase = true)`,
`compareTo`, `joinToString`) is in `Text` (`text.dfy`). `isBlank` uses the
JVM's full whitespace set. Case folding is ASCII only.

The label list and the filter map are separate states, and the model does not
claim they agree. One example where they differ: unchecking "Tất cả" clears the
label list, so the caption shows "Sắp xếp". But `toggleFilter("ALL")` always
leaves `{ALL: true}` in the map.

Sorting: `sortedWith` is a stable sort, and the model uses insertion sort. The
lemmas prove three things about the result: it is a permutation of the filtered
list, it is in comparator order, and notes with equal keys keep their input
order (`WithKey` gives the notes with one key, in order). Any stable sort with a
total comparator gives the same output, but that uniqueness is not proved here.

## Model

| member | source | states |
|---|---|---|
| `NoteModel.DefaultsOfNote` | app/src/main/java/com/example/notesapp_sqlitedatabase/Model/Note.kt:6-14 | A note built from a timestamp alone has id "" (not stored), empty title and content, both flags false and no images |
| `Text.LexLessIrreflexive` | app/src/main/java/com/example/notesapp_sqlitedatabase/ViewModel/NoteViewModel.kt:80 | String order on titles: no string comes before itself |
| `Text.LexLessTransitive` | app/src/main/java/com/example/notesapp_sqlitedatabase/ViewModel/NoteViewModel.kt:80 | String order on titles is transitive |
| `Text.LexLessTotal` | app/src/main/java/com/example/notesapp_sqlitedatabase/ViewModel/NoteViewModel.kt:80 | Of two different strings, one comes before the other |
| `Text.JoinInOrder` | app/src/main/java/com/example/notesapp_sqlitedatabase/View/NoteScreen.kt:80 | `joinToString` contains every label in list order, at the computed offset, with the separator between labels and nothing after the last |
| `NoteSort.KeyLessTransitive` | app/src/main/java/com/example/notesapp_sqlitedatabase/ViewModel/NoteViewModel.kt:77-81 | The four-tier comparator is transitive |
| `NoteSort.KeyLessTotal` | app/src/main/java/com/example/notesapp_sqlitedatabase/ViewModel/NoteViewModel.kt:77-81 | The four-tier comparator orders any two different keys |
| `NoteSort.NotLessTransitive` | app/src/main/java/com/example/notesapp_sqlitedatabase/ViewModel/NoteViewModel.kt:77-81 | "May precede" (not strictly after) is transitive |
| `NoteSort.Insert` | app/src/main/java/com/example/notesapp_sqlitedatabase/ViewModel/NoteViewModel.kt:77-82 | One insertion step of the sort adds exactly the inserted note to the list's contents |
| `NoteSort.SortNotes` | app/src/main/java/com/example/notesapp_sqlitedatabase/ViewModel/NoteViewModel.kt:77-82 | `sortedWith` only reorders: the result is a permutation of its input |
| `NoteSort.InsertSorted` | app/src/main/java/com/example/notesapp_sqlitedatabase/ViewModel/NoteViewModel.kt:77-82 | Inserting into a sorted list keeps it sorted |
| `NoteSort.SortNotesSorted` | app/src/main/java/com/example/notesapp_sqlitedatabase/ViewModel/NoteViewModel.kt:77-82 | The sorted list is in comparator order for every pair of positions |
| `NoteSort.InsertStable` | app/src/main/java/com/example/notesapp_sqlitedatabase/ViewModel/NoteViewModel.kt:77-82 | An inserted note ends up ahead of every note with an equal key |
| `NoteSort.SortNotesStable` | app/src/main/java/com/example/notesapp_sqlitedatabase/ViewModel/NoteViewModel.kt:77-82 | Stability: for every key, the notes with that key come out in input order |
| `NoteSort.SortNotesOfSorted` | app/src/main/java/com/example/notesapp_sqlitedatabase/ViewModel/NoteViewModel.kt:77-82 | Sorting a list that is already sorted returns it unchanged |
| `NoteSort.SortNotesOfEqualKeys` | app/src/main/java/com/example/notesapp_sqlitedatabase/ViewModel/NoteViewModel.kt:77-82 | When all keys are equal, the sort is the identity |
| `Lists.FilterCount` | app/src/main/java/com/example/notesapp_sqlitedatabase/ViewModel/NoteViewModel.kt:61-73 | `List.filter` keeps each note that passes, as often as it occurs, and drops each one that fails |
| `Lists.FilterPasses` | app/src/main/java/com/example/notesapp_sqlitedatabase/ViewModel/NoteViewModel.kt:61-73 | Everything `List.filter` returns passes the test, and the result is never longer than the input |
| `ViewModel.SearchedCount` | app/src/main/java/com/example/notesapp_sqlitedatabase/ViewModel/NoteViewModel.kt:60-62 | After the search, a note's count is its input count if it matches the query, otherwise 0 |
| `ViewModel.FlaggedCount` | app/src/main/java/com/example/notesapp_sqlitedatabase/ViewModel/NoteViewModel.kt:68-74 | After the flag filters, a note's count is its input count if it has every active flag, otherwise 0 |
| `ViewModel.ApplyFiltersCount` | app/src/main/java/com/example/notesapp_sqlitedatabase/ViewModel/NoteViewModel.kt:56-83 | The result holds exactly the input notes that match the query and, unless ALL is active, the active flags, each with its input count (so the sort is a permutation of the filtered list) |
| `ViewModel.ApplyFiltersOnlyMatching` | app/src/main/java/com/example/notesapp_sqlitedatabase/ViewModel/NoteViewModel.kt:60-74 | Every returned note contains a non-blank query in its title ignoring case. Without ALL it is also a favourite under FAVORITE and completed under COMPLETED |
| `ViewModel.ApplyFiltersAll` | app/src/main/java/com/example/notesapp_sqlitedatabase/ViewModel/NoteViewModel.kt:65 | With ALL active, the result is the search result in input order, whatever the other flags are |
| `ViewModel.BlankQuerySearchesNothing` | app/src/main/java/com/example/notesapp_sqlitedatabase/ViewModel/NoteViewModel.kt:60-62 | A blank or whitespace-only query filters nothing |
| `ViewModel.FlagTiersConstant` | app/src/main/java/com/example/notesapp_sqlitedatabase/ViewModel/NoteViewModel.kt:68-79 | After flag filtering, the completed and favourite tiers have the same value for every note |
| `ViewModel.ApplyFiltersKeepsOrder` | app/src/main/java/com/example/notesapp_sqlitedatabase/ViewModel/NoteViewModel.kt:77-82 | Without TITLE_A-Z and TIME (and without ALL), the filtered list comes back in input order |
| `ViewModel.ApplyFiltersNoFilter` | app/src/main/java/com/example/notesapp_sqlitedatabase/ViewModel/NoteViewModel.kt:56-83 | An empty filter map with a blank query returns the notes unchanged |
| `ViewModel.ApplyFiltersStable` | app/src/main/java/com/example/notesapp_sqlitedatabase/ViewModel/NoteViewModel.kt:77-82 | Notes with equal sort keys keep their relative order from the filtered list |
| `ViewModel.SortedAndFlagged` | app/src/main/java/com/example/notesapp_sqlitedatabase/ViewModel/NoteViewModel.kt:68-82 | Without ALL, the result is in comparator order and every note passes the active flags |
| `ViewModel.ApplyFiltersTitleOrder` | app/src/main/java/com/example/notesapp_sqlitedatabase/ViewModel/NoteViewModel.kt:80 | With TITLE_A-Z active, lower-cased titles never decrease along the result |
| `ViewModel.ApplyFiltersTimeOrder` | app/src/main/java/com/example/notesapp_sqlitedatabase/ViewModel/NoteViewModel.kt:81 | With TIME active and TITLE_A-Z not, timestamps never increase along the result |
| `Lists.FilterAllPass` | app/src/main/java/com/example/notesapp_sqlitedatabase/ViewModel/NoteViewModel.kt:61-73 | Filtering a list whose every element passes returns the list |
| `ViewModel.ApplyFiltersIdempotent` | app/src/main/java/com/example/notesapp_sqlitedatabase/ViewModel/NoteViewModel.kt:56-83 | Filtering and sorting the result again gives the same list |
| `ViewModel.Toggled` | app/src/main/java/com/example/notesapp_sqlitedatabase/ViewModel/NoteViewModel.kt:86-103 | Toggling ALL gives exactly {ALL: true}. Any other key removes ALL and the key's sort counterpart, flips whether the key is present (true when present), and leaves every other key and value unchanged |
| `ViewModel.ToggledValid` | app/src/main/java/com/example/notesapp_sqlitedatabase/ViewModel/NoteViewModel.kt:86-103 | Toggling keeps three facts true: all values are true, ALL appears only alone, and TITLE_A-Z and TIME are never both present |
| `ViewModel.ToggleTwice` | app/src/main/java/com/example/notesapp_sqlitedatabase/ViewModel/NoteViewModel.kt:93-102 | Toggling a non-ALL key twice restores the map, minus ALL and that key's counterpart |
| `ViewModel.TitleThenTime` | app/src/main/java/com/example/notesapp_sqlitedatabase/ViewModel/NoteViewModel.kt:95-101 | TITLE_A-Z then TIME leaves TIME active and TITLE_A-Z absent |
| `ViewModel.AllThenOther` | app/src/main/java/com/example/notesapp_sqlitedatabase/ViewModel/NoteViewModel.kt:89-101 | ALL then any other key k leaves exactly {k: true} |
| `ViewModel.NoteViewModel.constructor` | app/src/main/java/com/example/notesapp_sqlitedatabase/ViewModel/NoteViewModel.kt:15-22 | The view model starts with no filters, an empty query and an empty list |
| `ViewModel.NoteViewModel.ToggleFilter` | app/src/main/java/com/example/notesapp_sqlitedatabase/ViewModel/NoteViewModel.kt:86-105 | The step-by-step edit (clear/remove/put) of a copied map sets the map to `Toggled` of the old map and keeps the map's invariant |
| `ViewModel.NoteViewModel.OnSearchQueryChanged` | app/src/main/java/com/example/notesapp_sqlitedatabase/ViewModel/NoteViewModel.kt:110-113 | The query is replaced by the new one |
| `ViewModel.NoteViewModel.OnNotesFetched` | app/src/main/java/com/example/notesapp_sqlitedatabase/ViewModel/NoteViewModel.kt:49 | A completed fetch sets the visible list to the fetched notes run through the current filters and query |
| `ViewModel.ToggleFavorite` | app/src/main/java/com/example/notesapp_sqlitedatabase/ViewModel/NoteViewModel.kt:122-125 | The written note has the favourite flag flipped and every other field, id included, unchanged |
| `ViewModel.ToggleComplete` | app/src/main/java/com/example/notesapp_sqlitedatabase/ViewModel/NoteViewModel.kt:116-119 | The written note has the completed flag flipped and every other field, id included, unchanged |
| `ViewModel.ToggleFavoriteTwice` | app/src/main/java/com/example/notesapp_sqlitedatabase/ViewModel/NoteViewModel.kt:122-125 | Flipping the favourite flag twice restores the note |
| `ViewModel.ToggleCompleteTwice` | app/src/main/java/com/example/notesapp_sqlitedatabase/ViewModel/NoteViewModel.kt:116-119 | Flipping the completed flag twice restores the note |
| `ViewModel.StoredNote` | app/src/main/java/com/example/notesapp_sqlitedatabase/ViewModel/NoteViewModel.kt:156-162 | A note with an id is stored exactly as it is. A note with id "" is stored under the generated id. Nothing besides the id changes |
| `ViewModel.ToggleOverwritesSameNote` | app/src/main/java/com/example/notesapp_sqlitedatabase/ViewModel/NoteViewModel.kt:116-125 | A flag flip on a stored note is written back under the same id |
| `NoteScreen.FilterOptionsBijective` | app/src/main/java/com/example/notesapp_sqlitedatabase/View/NoteScreen.kt:68-74 | The menu table has five pairs with distinct labels and distinct keys. Label-to-key and key-to-label lookups are inverse to each other |
| `NoteScreen.LookupDistinct` | app/src/main/java/com/example/notesapp_sqlitedatabase/View/NoteScreen.kt:68-74 | In a one-to-one table, looking up an entry's first component gives its second |
| `NoteScreen.RemoveFirstCount` | app/src/main/java/com/example/notesapp_sqlitedatabase/View/NoteScreen.kt:253-264 | `remove(x)` lowers the count of x by one when x is present and changes no other count |
| `NoteScreen.RemoveFirstAt` | app/src/main/java/com/example/notesapp_sqlitedatabase/View/NoteScreen.kt:253-264 | `remove(x)` drops exactly the first occurrence. Elements before and after it stay where they were |
| `NoteScreen.RemoveFirstAbsent` | app/src/main/java/com/example/notesapp_sqlitedatabase/View/NoteScreen.kt:253-264 | `remove(x)` leaves a list without x unchanged |
| `NoteScreen.SubsequenceTransitive` | app/src/main/java/com/example/notesapp_sqlitedatabase/View/NoteScreen.kt:253-264 | A subsequence of a subsequence is a subsequence (so successive removals keep order) |
| `NoteScreen.RemoveFirstSubsequence` | app/src/main/java/com/example/notesapp_sqlitedatabase/View/NoteScreen.kt:253-264 | `remove(x)` keeps every other element in its order |
| `NoteScreen.SelectedFilters.constructor` | app/src/main/java/com/example/notesapp_sqlitedatabase/View/NoteScreen.kt:65 | The selected-label list starts empty |
| `NoteScreen.SelectedFilters.IndexOf` | app/src/main/java/com/example/notesapp_sqlitedatabase/View/NoteScreen.kt:253-264 | Finds the first position of x, or the length of the list when x is absent |
| `NoteScreen.SelectedFilters.Clear` | app/src/main/java/com/example/notesapp_sqlitedatabase/View/NoteScreen.kt:249 | `clear()` empties the list |
| `NoteScreen.SelectedFilters.Add` | app/src/main/java/com/example/notesapp_sqlitedatabase/View/NoteScreen.kt:250-261 | `add(x)` appends x at the end |
| `NoteScreen.SelectedFilters.Remove` | app/src/main/java/com/example/notesapp_sqlitedatabase/View/NoteScreen.kt:253-264 | In-place `remove(x)` makes the list `RemoveFirst` of the old list and reports whether x was present |
| `NoteScreen.UpdateFilters` | app/src/main/java/com/example/notesapp_sqlitedatabase/View/NoteScreen.kt:246-270 | The in-place edits give `EditedLabels` of the old list. Then the key is forwarded to `toggleFilter` once, so the map becomes `Toggled` of the old map |
| `NoteScreen.EditAllEntry` | app/src/main/java/com/example/notesapp_sqlitedatabase/View/NoteScreen.kt:247-250 | The ALL entry leaves exactly ["Tất cả"] when checked and [] when not |
| `NoteScreen.EditedLabelsCount` | app/src/main/java/com/example/notesapp_sqlitedatabase/View/NoteScreen.kt:251-265 | Counted with multiplicity, a non-ALL edit removes one "Tất cả" and one counterpart label, then adds the label (checked) or removes one copy of it (unchecked) |
| `NoteScreen.CheckedLabelIsLast` | app/src/main/java/com/example/notesapp_sqlitedatabase/View/NoteScreen.kt:260-261 | A checked non-ALL entry's label becomes the last element |
| `NoteScreen.AllLabelAtMostOnce` | app/src/main/java/com/example/notesapp_sqlitedatabase/View/NoteScreen.kt:247-253 | "Tất cả" never occurs twice: every edit keeps its count at most one |
| `NoteScreen.OtherEntryDropsAllLabel` | app/src/main/java/com/example/notesapp_sqlitedatabase/View/NoteScreen.kt:253 | Choosing any entry other than ALL leaves no "Tất cả" in the list |
| `NoteScreen.SortEntriesExclusive` | app/src/main/java/com/example/notesapp_sqlitedatabase/View/NoteScreen.kt:255-259 | The A-Z entry removes "Mới nhất", and the "Mới nhất" entry removes "A-Z" |
| `NoteScreen.EditedLabelsKeepOrder` | app/src/main/java/com/example/notesapp_sqlitedatabase/View/NoteScreen.kt:251-265 | Labels a non-ALL edit does not remove keep their relative order. The result is a subsequence of the old list, with the label appended when checked |
| `NoteScreen.SelectedTextCases` | app/src/main/java/com/example/notesapp_sqlitedatabase/View/NoteScreen.kt:77-79 | The caption is "Tất cả" whenever that label is in the list, and "Sắp xếp" when the list is empty |
| `NoteScreen.SelectedTextListsLabels` | app/src/main/java/com/example/notesapp_sqlitedatabase/View/NoteScreen.kt:77-81 | Otherwise the caption lists every label in list order, joined by ", " and nothing else |
| `NoteDetails.SaveNote` | app/src/main/java/com/example/notesapp_sqlitedatabase/View/NoteDetailsScreen.kt:224-259 | Blank title and content: no write, no lookup, no `onSaved`. Blank id: insert a note with id "", the given fields and both flags false. Otherwise look up the note and rewrite it only if found, keeping its id and flags and replacing the four edited fields. `onSaved` fires exactly when the input is non-blank |
| `NoteDetails.SavedNoteStoredUnder` | app/src/main/java/com/example/notesapp_sqlitedatabase/View/NoteDetailsScreen.kt:235-253 | A new note is stored under the generated id. A rewrite is stored under the id it was looked up by |
| `NoteDetails.SaveAndExit` | app/src/main/java/com/example/notesapp_sqlitedatabase/View/NoteDetailsScreen.kt:205-221 | Already saved: go back, write nothing. Not saved: write what `saveNote` writes, and go back exactly when the input is non-blank |
| `Scenarios.FavoriteScenario` | app/src/main/java/com/example/notesapp_sqlitedatabase/ViewModel/NoteViewModel.kt:68-70 | FAVORITE on [Banana, Apple(favourite)] gives [Apple] |
| `Scenarios.TitleScenario` | app/src/main/java/com/example/notesapp_sqlitedatabase/ViewModel/NoteViewModel.kt:80 | TITLE_A-Z gives [Apple, Banana] |
| `Scenarios.TimeScenario` | app/src/main/java/com/example/notesapp_sqlitedatabase/ViewModel/NoteViewModel.kt:81 | TIME gives the newer Apple (200) before Banana (100) |
| `Scenarios.SearchScenario` | app/src/main/java/com/example/notesapp_sqlitedatabase/ViewModel/NoteViewModel.kt:60-62 | The query "ban" gives [Banana] only |

## Left out

- Firestore and Storage calls are not modelled: `fetchAllNotes`'s query, the network write of `upsertNote`, `delete`, `getNoteById`, `uploadImages`, `deleteImageFromFirebase`. These are foreign SDK calls. What the model keeps of them: the fetched list is a parameter of `OnNotesFetched`, the looked-up note is a parameter of `SaveNote`, and the store's generated id is a parameter of `StoredNote`.
- `System.currentTimeMillis()` is not read: the timestamp is a parameter. For the same reason the note record has no default timestamp.
- Coroutines are not modelled: the launches, `await`, the order in which back-to-back writes complete, and the delayed `getNoteById` callback. `toggleFilter` and `onSearchQueryChanged` start a re-fetch. In the model that re-fetch is the separate method `OnNotesFetched`. It is not called from those methods.
- Compose layout, dialogs and widgets are not modelled. This includes the dropdown item handlers (NoteScreen.kt:120-138) and the toolbar save button, which calls `onBack()` whatever `saveNote` decides (NoteDetailsScreen.kt:80-87). The screen's `uploadedImageUrls` list (NoteDetailsScreen.kt:170-171) is UI state, and is also not modelled.
- Lower and ContainsIgnoreCase: ASCII case folding only (A-Z to a-z), where Kotlin's `lowercase()` and `contains(ignoreCase = true)` fold all of Unicode.
- LexLess: compares Dafny characters, which are Unicode scalar values. Kotlin compares UTF-16 code units. The two orders differ only for characters above U+FFFF.
- Timestamps are unbounded integers. The source only compares them, so 64-bit overflow plays no part.
- `formatDate`, `NoteRepository`, the login and register screens and `MainActivity` are not part of this model. They are a locale-dependent formatter, unused Firestore wrappers, FirebaseAuth callbacks and navigation wiring.
