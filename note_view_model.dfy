/**
 * The logic of ViewModel/NoteViewModel.kt: the filter/sort pipeline
 * `applyFilters`, the filter-map state machine `toggleFilter`, the note
 * updates made by `toggleFavorite` and `toggleComplete`, and the id that
 * `upsertNote` writes a note under. The Firestore reads and writes around
 * them are not modelled; the notes a fetch delivers come in as a parameter.
 */
module ViewModel {
  import opened Text
  import opened Lists
  import opened NoteModel
  import opened FilterKeys
  import opened NoteSort

  // ---------------------------------------------------------------------
  // applyFilters
  // ---------------------------------------------------------------------

  /** The search test of `applyFilters`: a blank query lets every note
      through, any other query keeps the titles that contain it up to case. */
  predicate MatchesQuery(q: string, n: Note)
  {
    IsBlank(q) || ContainsIgnoreCase(n.title, q)
  }

  /** The flag test applied when ALL is not active. */
  predicate PassesFlags(f: Filters, n: Note)
  {
    (Active(f, FAVORITE) ==> n.isFavorite) && (Active(f, COMPLETED) ==> n.isCompleted)
  }

  /** The three filter tests as function values. */
  function TitleContains(q: string): Note -> bool
  {
    (n: Note) => ContainsIgnoreCase(n.title, q)
  }

  const IsFavorite: Note -> bool := (n: Note) => n.isFavorite
  const IsCompleted: Note -> bool := (n: Note) => n.isCompleted

  /** Step 1: the keyword search, skipped for a blank query. */
  function Searched(notes: seq<Note>, q: string): seq<Note>
  {
    if IsBlank(q) then notes else Filter(notes, TitleContains(q))
  }

  /** Step 3: the FAVORITE and then the COMPLETED filter. */
  function Flagged(notes: seq<Note>, f: Filters): seq<Note>
  {
    var favourites := if Active(f, FAVORITE) then Filter(notes, IsFavorite) else notes;
    if Active(f, COMPLETED) then Filter(favourites, IsCompleted) else favourites
  }

  /** `applyFilters(notes, filters, query)`: search, then return at once when
      ALL is active, else filter by the flags and sort. */
  function ApplyFilters(notes: seq<Note>, f: Filters, q: string): seq<Note>
  {
    var searched := Searched(notes, q);
    if Active(f, ALL) then searched else SortNotes(f, Flagged(searched, f))
  }

  lemma SearchedCount(notes: seq<Note>, q: string)
    ensures forall n :: multiset(Searched(notes, q))[n] == if MatchesQuery(q, n) then multiset(notes)[n] else 0
  {
    if !IsBlank(q) {
      FilterCount(notes, TitleContains(q));
    }
  }

  lemma FlaggedCount(notes: seq<Note>, f: Filters)
    ensures forall n :: multiset(Flagged(notes, f))[n] == if PassesFlags(f, n) then multiset(notes)[n] else 0
  {
    var favourites := if Active(f, FAVORITE) then Filter(notes, IsFavorite) else notes;
    FilterCount(notes, IsFavorite);
    FilterCount(favourites, IsCompleted);
  }

  /** What comes back, counted with multiplicity: exactly the notes that match
      the query and, unless ALL is active, the active flags, each as often as
      in the input. So the final sort only reorders the filtered notes, and a
      note that fails the search or a flag is never returned. */
  lemma ApplyFiltersCount(notes: seq<Note>, f: Filters, q: string)
    ensures forall n :: multiset(ApplyFilters(notes, f, q))[n] ==
                        if MatchesQuery(q, n) && (Active(f, ALL) || PassesFlags(f, n))
                        then multiset(notes)[n] else 0
  {
    SearchedCount(notes, q);
    FlaggedCount(Searched(notes, q), f);
  }

  /** Every returned note matches the query and, unless ALL is active, the flags. */
  lemma ApplyFiltersOnlyMatching(notes: seq<Note>, f: Filters, q: string)
    ensures forall i :: 0 <= i < |ApplyFilters(notes, f, q)| ==>
      var n := ApplyFilters(notes, f, q)[i];
      && (!IsBlank(q) ==> ContainsIgnoreCase(n.title, q))
      && (!Active(f, ALL) && Active(f, FAVORITE) ==> n.isFavorite)
      && (!Active(f, ALL) && Active(f, COMPLETED) ==> n.isCompleted)
  {
    var r := ApplyFilters(notes, f, q);
    ApplyFiltersCount(notes, f, q);
    forall i | 0 <= i < |r|
      ensures MatchesQuery(q, r[i]) && (Active(f, ALL) || PassesFlags(f, r[i]))
    {
      assert r[i] in multiset(r);
    }
  }

  /** With ALL active the result is the search result in input order; the
      other flags play no part. */
  lemma ApplyFiltersAll(notes: seq<Note>, f: Filters, g: Filters, q: string)
    requires Active(f, ALL) && Active(g, ALL)
    ensures ApplyFilters(notes, f, q) == Searched(notes, q) == ApplyFilters(notes, g, q)
  {
  }

  /** A blank query filters nothing. */
  lemma BlankQuerySearchesNothing(notes: seq<Note>, q: string)
    requires IsBlank(q)
    ensures Searched(notes, q) == notes
  {
  }

  /** Notes that passed the flag filters all have the same two flag tier keys. */
  lemma FlagTiersConstant(f: Filters, s: seq<Note>)
    requires forall i :: 0 <= i < |s| ==> PassesFlags(f, s[i])
    ensures forall i :: 0 <= i < |s| ==>
      KeyOf(f, s[i]).completed == Active(f, COMPLETED) && KeyOf(f, s[i]).favorite == Active(f, FAVORITE)
  {
  }

  /** Without TITLE_A-Z and TIME every tier of the comparator is constant on
      the filtered notes, so the stable sort hands them back in input order. */
  lemma ApplyFiltersKeepsOrder(notes: seq<Note>, f: Filters, q: string)
    requires !Active(f, ALL) && !Active(f, TITLE_AZ) && !Active(f, TIME)
    ensures ApplyFilters(notes, f, q) == Flagged(Searched(notes, q), f)
  {
    var s := Flagged(Searched(notes, q), f);
    FlaggedCount(Searched(notes, q), f);
    forall i | 0 <= i < |s|
      ensures PassesFlags(f, s[i])
    {
      assert s[i] in multiset(s);
    }
    FlagTiersConstant(f, s);
    SortNotesOfEqualKeys(f, s, SortKey(Active(f, COMPLETED), Active(f, FAVORITE), "", 0));
  }

  /** No filter and a blank query: the notes come back unchanged. */
  lemma ApplyFiltersNoFilter(notes: seq<Note>, q: string)
    requires IsBlank(q)
    ensures ApplyFilters(notes, map[], q) == notes
  {
    ApplyFiltersKeepsOrder(notes, map[], q);
  }

  /** Stability of the final sort: notes with equal sort keys keep the
      relative order they had after filtering. */
  lemma ApplyFiltersStable(notes: seq<Note>, f: Filters, q: string, k: SortKey)
    requires !Active(f, ALL)
    ensures WithKey(f, ApplyFilters(notes, f, q), k) == WithKey(f, Flagged(Searched(notes, q), f), k)
  {
    SortNotesStable(f, Flagged(Searched(notes, q), f), k);
  }

  /** The result is in comparator order, and the filtered notes that reach the
      sort all share the two flag tiers. */
  lemma SortedAndFlagged(notes: seq<Note>, f: Filters, q: string)
    requires !Active(f, ALL)
    ensures SortedBy(f, ApplyFilters(notes, f, q))
    ensures forall i :: 0 <= i < |ApplyFilters(notes, f, q)| ==>
      PassesFlags(f, ApplyFilters(notes, f, q)[i])
  {
    SortNotesSorted(f, Flagged(Searched(notes, q), f));
    ApplyFiltersOnlyMatching(notes, f, q);
  }

  /** With TITLE_A-Z active the lower-cased titles never decrease. */
  lemma ApplyFiltersTitleOrder(notes: seq<Note>, f: Filters, q: string)
    requires !Active(f, ALL) && Active(f, TITLE_AZ)
    ensures var r := ApplyFilters(notes, f, q);
      forall i, j :: 0 <= i < j < |r| ==> !LexLess(Lower(r[j].title), Lower(r[i].title))
  {
    var r := ApplyFilters(notes, f, q);
    SortedAndFlagged(notes, f, q);
    FlagTiersConstant(f, r);
    forall i, j | 0 <= i < j < |r|
      ensures !LexLess(Lower(r[j].title), Lower(r[i].title))
    {
      assert !KeyLess(KeyOf(f, r[j]), KeyOf(f, r[i]));
      LexLessIrreflexive(Lower(r[i].title));
    }
  }

  /** With TIME active and TITLE_A-Z not, the timestamps never increase. */
  lemma ApplyFiltersTimeOrder(notes: seq<Note>, f: Filters, q: string)
    requires !Active(f, ALL) && Active(f, TIME) && !Active(f, TITLE_AZ)
    ensures var r := ApplyFilters(notes, f, q);
      forall i, j :: 0 <= i < j < |r| ==> r[i].timestamp >= r[j].timestamp
  {
    var r := ApplyFilters(notes, f, q);
    SortedAndFlagged(notes, f, q);
    FlagTiersConstant(f, r);
    forall i, j | 0 <= i < j < |r|
      ensures r[i].timestamp >= r[j].timestamp
    {
      assert !KeyLess(KeyOf(f, r[j]), KeyOf(f, r[i]));
    }
  }

  /** Filtering and sorting the result once more changes nothing. */
  lemma ApplyFiltersIdempotent(notes: seq<Note>, f: Filters, q: string)
    ensures ApplyFilters(ApplyFilters(notes, f, q), f, q) == ApplyFilters(notes, f, q)
  {
    var r := ApplyFilters(notes, f, q);
    ApplyFiltersOnlyMatching(notes, f, q);
    if !IsBlank(q) {
      FilterAllPass(r, TitleContains(q));
    }
    assert Searched(r, q) == r;
    if !Active(f, ALL) {
      SortedAndFlagged(notes, f, q);
      if Active(f, FAVORITE) {
        FilterAllPass(r, IsFavorite);
      }
      if Active(f, COMPLETED) {
        FilterAllPass(r, IsCompleted);
      }
      assert Flagged(r, f) == r;
      SortNotesOfSorted(f, r);
    }
  }

  // ---------------------------------------------------------------------
  // toggleFilter
  // ---------------------------------------------------------------------

  /** The sort key that selecting `key` switches off. */
  function SortCounterpart(key: string): set<string>
  {
    if key == TITLE_AZ then {TIME} else if key == TIME then {TITLE_AZ} else {}
  }

  /** The filter map after `toggleFilter(key)`, defined key by key: ALL alone
      when ALL is chosen; otherwise every key but ALL and the counterpart of
      `key` as it was, and `key` itself present exactly when it was absent. */
  function Toggled(m: Filters, key: string): (r: Filters)
    ensures key == ALL ==> r == map[ALL := true]
    ensures key != ALL ==> ALL !in r && SortCounterpart(key) !! r.Keys
    ensures key != ALL ==> (key in r <==> key !in m) && (key in r ==> r[key])
    ensures key != ALL ==> forall k :: k != ALL && k != key && k !in SortCounterpart(key) ==>
      (k in r <==> k in m) && (k in r ==> r[k] == m[k])
  {
    if key == ALL then map[ALL := true]
    else
      map k | k in m.Keys + {key} && k != ALL && k !in SortCounterpart(key) && (k == key ==> key !in m)
        :: if k == key then true else m[k]
  }

  /** The shape every reachable filter map has: only true values, ALL only on
      its own, and never both sort keys. */
  predicate ValidFilters(m: Filters)
  {
    && (forall k :: k in m ==> m[k])
    && (ALL in m ==> m.Keys == {ALL})
    && !(TITLE_AZ in m && TIME in m)
  }

  /** `toggleFilter` keeps the shape; the empty start map has it. */
  lemma ToggledValid(m: Filters, key: string)
    requires ValidFilters(m)
    ensures ValidFilters(Toggled(m, key))
  {
    var r := Toggled(m, key);
    if key != ALL {
      forall k | k in r
        ensures r[k]
      {
        if k != key {
          assert k in m;
        }
      }
    }
  }

  /** Two toggles of the same key other than ALL undo each other, once ALL and
      the counterpart are gone. */
  lemma ToggleTwice(m: Filters, key: string)
    requires key != ALL && ValidFilters(m)
    ensures Toggled(Toggled(m, key), key) == m - {ALL} - SortCounterpart(key)
  {
    var r := Toggled(Toggled(m, key), key);
    var e := m - {ALL} - SortCounterpart(key);
    assert r.Keys == e.Keys;
    forall k | k in r
      ensures r[k] == e[k]
    {
    }
  }

  /** TITLE_A-Z and then TIME leaves TIME on and TITLE_A-Z off. */
  lemma TitleThenTime(m: Filters)
    ensures var r := Toggled(Toggled(m, TITLE_AZ), TIME);
      Active(r, TIME) && TITLE_AZ !in r
  {
  }

  /** ALL and then any other key leaves that key alone in the map. */
  lemma AllThenOther(m: Filters, key: string)
    requires key != ALL
    ensures Toggled(Toggled(m, ALL), key) == map[key := true]
  {
    var r := Toggled(Toggled(m, ALL), key);
    assert r.Keys == {key};
  }

  /** The note view model's own state: the filter map, the search query and
      the last list handed to the screen. */
  class NoteViewModel {
    var filters: Filters
    var searchQuery: string
    var filteredNotes: seq<Note>

    ghost predicate Valid()
      reads this
    {
      ValidFilters(filters)
    }

    constructor ()
      ensures Valid()
      ensures filters == map[] && searchQuery == "" && filteredNotes == []
    {
      filters := map[];
      searchQuery := "";
      filteredNotes := [];
    }

    /** `toggleFilter(filter)`: copy the map, edit the copy step by step,
        write it back. The re-fetch it then starts is `OnNotesFetched`. */
    method ToggleFilter(key: string)
      requires Valid()
      modifies this`filters
      ensures Valid()
      ensures filters == Toggled(old(filters), key)
    {
      var current := filters;
      if key == ALL {
        current := map[];
        current := current[ALL := true];
      } else {
        current := current - {ALL};
        if key == TITLE_AZ {
          current := current - {TIME};
        } else if key == TIME {
          current := current - {TITLE_AZ};
        }
        if key in current {
          current := current - {key};
        } else {
          current := current[key := true];
        }
      }
      assert current.Keys == Toggled(filters, key).Keys;
      ToggledValid(filters, key);
      filters := current;
    }

    /** `onSearchQueryChanged(query)`. */
    method OnSearchQueryChanged(query: string)
      modifies this`searchQuery
      ensures searchQuery == query
    {
      searchQuery := query;
    }

    /** The successful end of `fetchAllNotes`: the fetched notes, run through
        the current filters and query, become the visible list. */
    method OnNotesFetched(fetched: seq<Note>)
      modifies this`filteredNotes
      ensures filteredNotes == ApplyFilters(fetched, filters, searchQuery)
    {
      filteredNotes := ApplyFilters(fetched, filters, searchQuery);
    }
  }

  // ---------------------------------------------------------------------
  // toggleFavorite, toggleComplete, upsertNote
  // ---------------------------------------------------------------------

  /** The note `toggleFavorite` writes: the favourite flag flipped, every
      other field as it was. */
  function ToggleFavorite(n: Note): (r: Note)
    ensures r.isFavorite == !n.isFavorite
    ensures r.(isFavorite := n.isFavorite) == n
  {
    n.(isFavorite := !n.isFavorite)
  }

  /** The note `toggleComplete` writes: the completed flag flipped, every
      other field as it was. */
  function ToggleComplete(n: Note): (r: Note)
    ensures r.isCompleted == !n.isCompleted
    ensures r.(isCompleted := n.isCompleted) == n
  {
    n.(isCompleted := !n.isCompleted)
  }

  lemma ToggleFavoriteTwice(n: Note)
    ensures ToggleFavorite(ToggleFavorite(n)) == n
  {
  }

  lemma ToggleCompleteTwice(n: Note)
    ensures ToggleComplete(ToggleComplete(n)) == n
  {
  }

  /** The note `upsertNote` stores: under its own id when it has one, under
      the id the store generates (`freshId`) when its id is "". */
  function StoredNote(n: Note, freshId: string): (r: Note)
    ensures n.id != "" ==> r == n
    ensures n.id == "" ==> r.id == freshId
    ensures r.(id := n.id) == n
  {
    n.(id := if n.id != "" then n.id else freshId)
  }

  /** A flag flip on a persisted note overwrites that same note. */
  lemma ToggleOverwritesSameNote(n: Note, freshId: string)
    requires n.IsPersisted()
    ensures StoredNote(ToggleFavorite(n), freshId).id == n.id
    ensures StoredNote(ToggleComplete(n), freshId).id == n.id
  {
  }
}
