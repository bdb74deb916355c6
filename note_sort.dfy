/** The filter keys and the filter map shared by the view model and the screen. */
module FilterKeys {
  const ALL := "ALL"
  const FAVORITE := "FAVORITE"
  const COMPLETED := "COMPLETED"
  const TITLE_AZ := "TITLE_A-Z"
  const TIME := "TIME"

  /** The view model's `Map<String, Boolean>` of active filters. */
  type Filters = map<string, bool>

  /** `filters[key] == true`: a missing key and a key mapped to false are both inactive. */
  predicate Active(f: Filters, key: string)
  {
    key in f && f[key]
  }
}

/**
 * The comparator of `applyFilters` (ViewModel/NoteViewModel.kt) and the stable
 * sort that `sortedWith` performs with it. The comparator is four tiers, each
 * breaking the ties of the previous one: completed first (only while COMPLETED
 * is active), favourite first (only while FAVORITE is active), lower-cased
 * title ascending (only while TITLE_A-Z is active), timestamp descending (only
 * while TIME is active). An inactive tier has a constant key.
 *
 * `sortedWith` is a stable sort; it is modelled here by insertion sort, which
 * is stable too, and the lemmas below say what makes the result unique:
 * a permutation, in order, with equal keys kept in input order.
 */
module NoteSort {
  import opened Text
  import opened Lists
  import opened NoteModel
  import opened FilterKeys

  /** The four tier keys of one note under one filter map. */
  datatype SortKey = SortKey(completed: bool, favorite: bool, title: string, time: int)

  function KeyOf(f: Filters, n: Note): SortKey
  {
    SortKey(
      Active(f, COMPLETED) && n.isCompleted,
      Active(f, FAVORITE) && n.isFavorite,
      if Active(f, TITLE_AZ) then Lower(n.title) else "",
      if Active(f, TIME) then n.timestamp else 0)
  }

  /** `a` strictly precedes `b`: true before false on the two flag tiers,
      ascending on the title tier, descending on the time tier. */
  predicate KeyLess(a: SortKey, b: SortKey)
  {
    if a.completed != b.completed then a.completed
    else if a.favorite != b.favorite then a.favorite
    else if a.title != b.title then LexLess(a.title, b.title)
    else a.time > b.time
  }

  lemma KeyLessIrreflexive(a: SortKey)
    ensures !KeyLess(a, a)
  {
  }

  lemma KeyLessTransitive(a: SortKey, b: SortKey, c: SortKey)
    requires KeyLess(a, b) && KeyLess(b, c)
    ensures KeyLess(a, c)
  {
    if a.completed == b.completed == c.completed && a.favorite == b.favorite == c.favorite {
      if a.title != b.title && b.title != c.title {
        LexLessTransitive(a.title, b.title, c.title);
        if a.title == c.title {
          LexLessAsymmetric(a.title, b.title);
        }
      }
    }
  }

  lemma KeyLessTotal(a: SortKey, b: SortKey)
    ensures a == b || KeyLess(a, b) || KeyLess(b, a)
  {
    LexLessTotal(a.title, b.title);
  }

  lemma KeyLessAsymmetric(a: SortKey, b: SortKey)
    requires KeyLess(a, b)
    ensures !KeyLess(b, a)
  {
    if KeyLess(b, a) {
      KeyLessTransitive(a, b, a);
    }
  }

  /** "Not after" is transitive: what may precede the middle may precede the last. */
  lemma NotLessTransitive(a: SortKey, b: SortKey, c: SortKey)
    requires !KeyLess(b, a) && !KeyLess(c, b)
    ensures !KeyLess(c, a)
  {
    if KeyLess(c, a) {
      KeyLessTotal(a, b);
      if a != b {
        if KeyLess(a, b) {
          KeyLessTransitive(c, a, b);
        }
      }
    }
  }

  /** Every note may precede every later one: the comparator never says a
      later note should come first. */
  predicate SortedBy(f: Filters, s: seq<Note>)
  {
    forall i, j :: 0 <= i < j < |s| ==> !KeyLess(KeyOf(f, s[j]), KeyOf(f, s[i]))
  }

  /** The test "has key `k`" as a function value. */
  function HasKey(f: Filters, k: SortKey): Note -> bool
  {
    (n: Note) => KeyOf(f, n) == k
  }

  /** The notes of `s` whose key is `k`, in their order in `s`. */
  function WithKey(f: Filters, s: seq<Note>, k: SortKey): seq<Note>
  {
    Filter(s, HasKey(f, k))
  }

  /** Inserts `x` in front of the first note it may precede. */
  function Insert(f: Filters, x: Note, s: seq<Note>): (r: seq<Note>)
    ensures multiset(r) == multiset(s) + multiset{x}
  {
    if s == [] then [x]
    else if !KeyLess(KeyOf(f, s[0]), KeyOf(f, x)) then [x] + s
    else
      assert s == [s[0]] + s[1..];
      [s[0]] + Insert(f, x, s[1..])
  }

  /** `notes.sortedWith(comparator)`. */
  function SortNotes(f: Filters, s: seq<Note>): (r: seq<Note>)
    ensures multiset(r) == multiset(s)
    ensures |r| == |s|
  {
    if s == [] then []
    else
      assert s == [s[0]] + s[1..];
      Insert(f, s[0], SortNotes(f, s[1..]))
  }

  lemma WithKeyAppend(f: Filters, a: seq<Note>, b: seq<Note>, k: SortKey)
    ensures WithKey(f, a + b, k) == WithKey(f, a, k) + WithKey(f, b, k)
  {
    FilterAppend(a, b, HasKey(f, k));
  }

  /** A note that may precede every note of a sorted list may be put in front of it. */
  lemma PrependSorted(f: Filters, y: Note, t: seq<Note>)
    requires SortedBy(f, t)
    requires forall j :: 0 <= j < |t| ==> !KeyLess(KeyOf(f, t[j]), KeyOf(f, y))
    ensures SortedBy(f, [y] + t)
  {
    var r := [y] + t;
    forall i, j | 0 <= i < j < |r|
      ensures !KeyLess(KeyOf(f, r[j]), KeyOf(f, r[i]))
    {
      assert r[j] == t[j - 1];
      if i > 0 {
        assert r[i] == t[i - 1];
      }
    }
  }

  lemma TailSorted(f: Filters, s: seq<Note>)
    requires SortedBy(f, s) && s != []
    ensures SortedBy(f, s[1..])
  {
    forall i, j | 0 <= i < j < |s[1..]|
      ensures !KeyLess(KeyOf(f, s[1..][j]), KeyOf(f, s[1..][i]))
    {
      assert s[1..][i] == s[i + 1] && s[1..][j] == s[j + 1];
    }
  }

  lemma {:induction false} InsertSorted(f: Filters, x: Note, s: seq<Note>)
    requires SortedBy(f, s)
    ensures SortedBy(f, Insert(f, x, s))
    decreases |s|
  {
    var kx := KeyOf(f, x);
    if s == [] {
    } else if !KeyLess(KeyOf(f, s[0]), kx) {
      forall j | 0 <= j < |s|
        ensures !KeyLess(KeyOf(f, s[j]), kx)
      {
        if j > 0 {
          NotLessTransitive(kx, KeyOf(f, s[0]), KeyOf(f, s[j]));
        }
      }
      PrependSorted(f, x, s);
    } else {
      var t := Insert(f, x, s[1..]);
      TailSorted(f, s);
      InsertSorted(f, x, s[1..]);
      var k0 := KeyOf(f, s[0]);
      KeyLessAsymmetric(k0, kx);
      forall j | 0 <= j < |t|
        ensures !KeyLess(KeyOf(f, t[j]), k0)
      {
        assert t[j] in multiset(t);
        if t[j] != x {
          assert t[j] in multiset(s[1..]);
          var m :| 0 <= m < |s[1..]| && s[1..][m] == t[j];
          assert s[m + 1] == t[j];
        }
      }
      PrependSorted(f, s[0], t);
    }
  }

  /** The sort puts the notes in comparator order. */
  lemma {:induction false} SortNotesSorted(f: Filters, s: seq<Note>)
    ensures SortedBy(f, SortNotes(f, s))
    decreases |s|
  {
    if s != [] {
      SortNotesSorted(f, s[1..]);
      InsertSorted(f, s[0], SortNotes(f, s[1..]));
    }
  }

  /** `WithKey` of a single note: the note itself or nothing. */
  lemma WithKeySingleton(f: Filters, y: Note, k: SortKey)
    ensures WithKey(f, [y], k) == if KeyOf(f, y) == k then [y] else []
  {
    assert [y][0] == y && [y][1..] == [];
    assert HasKey(f, k)(y) == (KeyOf(f, y) == k);
    assert Filter([y], HasKey(f, k)) == (if HasKey(f, k)(y) then [y] else []) + Filter([], HasKey(f, k));
  }

  /** Two lists of which at most one is non-empty commute in front of a third. */
  lemma SwapEmptyFront(a: seq<Note>, b: seq<Note>, c: seq<Note>)
    requires a == [] || b == []
    ensures a + (b + c) == b + (a + c)
  {
    if a == [] {
      assert a + (b + c) == b + c == b + (a + c);
    } else {
      assert a + (b + c) == a + c == b + (a + c);
    }
  }

  lemma {:induction false} InsertStable(f: Filters, x: Note, s: seq<Note>, k: SortKey)
    ensures WithKey(f, Insert(f, x, s), k) == WithKey(f, [x], k) + WithKey(f, s, k)
    decreases |s|
  {
    if s == [] {
    } else if !KeyLess(KeyOf(f, s[0]), KeyOf(f, x)) {
      WithKeyAppend(f, [x], s, k);
    } else {
      InsertStable(f, x, s[1..], k);
      var wx, w0 := WithKey(f, [x], k), WithKey(f, [s[0]], k);
      WithKeyAppend(f, [s[0]], Insert(f, x, s[1..]), k);
      assert s == [s[0]] + s[1..];
      WithKeyAppend(f, [s[0]], s[1..], k);
      // the two keys differ, so at most one of the two singletons survives
      KeyLessIrreflexive(KeyOf(f, x));
      WithKeySingleton(f, x, k);
      WithKeySingleton(f, s[0], k);
      SwapEmptyFront(w0, wx, WithKey(f, s[1..], k));
    }
  }

  /** Stability: among notes with equal keys the sort keeps input order. */
  lemma {:induction false} SortNotesStable(f: Filters, s: seq<Note>, k: SortKey)
    ensures WithKey(f, SortNotes(f, s), k) == WithKey(f, s, k)
    decreases |s|
  {
    if s != [] {
      InsertStable(f, s[0], SortNotes(f, s[1..]), k);
      SortNotesStable(f, s[1..], k);
      assert s == [s[0]] + s[1..];
      WithKeyAppend(f, [s[0]], s[1..], k);
    }
  }

  /** Sorting a list that is already in comparator order changes nothing. */
  lemma {:induction false} SortNotesOfSorted(f: Filters, s: seq<Note>)
    requires SortedBy(f, s)
    ensures SortNotes(f, s) == s
    decreases |s|
  {
    if s != [] {
      TailSorted(f, s);
      SortNotesOfSorted(f, s[1..]);
      assert s == [s[0]] + s[1..];
    }
  }

  /** When every note has the same key the sort returns its input unchanged. */
  lemma SortNotesOfEqualKeys(f: Filters, s: seq<Note>, k: SortKey)
    requires forall i :: 0 <= i < |s| ==> KeyOf(f, s[i]) == k
    ensures SortNotes(f, s) == s
  {
    KeyLessIrreflexive(k);
    SortNotesOfSorted(f, s);
  }
}
