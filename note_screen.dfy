/**
 * The non-layout logic of View/NoteScreen.kt: the table of filter labels and
 * keys behind the filter menu, the list of selected labels that
 * `updateFilters` edits in place (a Compose `SnapshotStateList`), and the
 * button caption `selectedText` derived from that list.
 *
 * The label list and the view model's filter map are two separate states:
 * `updateFilters` edits both, but nothing here claims that they agree.
 */
module NoteScreen {
  import opened Text
  import opened Optional
  import opened FilterKeys
  import opened ViewModel

  const ALL_LABEL := "Tất cả"
  const FAVORITE_LABEL := "Yêu thích"
  const COMPLETED_LABEL := "Hoàn thành"
  const TITLE_LABEL := "A-Z"
  const TIME_LABEL := "Mới nhất"
  /** The caption shown while no label is selected. */
  const PLACEHOLDER := "Sắp xếp"

  /** `filterOptions`: (menu label, filter key), in menu order. */
  const FilterOptions: seq<(string, string)> := [
    (ALL_LABEL, ALL),
    (FAVORITE_LABEL, FAVORITE),
    (COMPLETED_LABEL, COMPLETED),
    (TITLE_LABEL, TITLE_AZ),
    (TIME_LABEL, TIME)
  ]

  /** The second component of the first pair whose first component is `x`. */
  function Lookup(table: seq<(string, string)>, x: string): (r: Option<string>)
    ensures r.Some? <==> exists i :: 0 <= i < |table| && table[i].0 == x
    ensures r.Some? ==> exists i :: 0 <= i < |table| && table[i] == (x, r.value)
  {
    if table == [] then None
    else if table[0].0 == x then Some(table[0].1)
    else
      var r := Lookup(table[1..], x);
      assert forall i :: 0 <= i < |table[1..]| ==> table[1..][i] == table[i + 1];
      r
  }

  function Swapped(table: seq<(string, string)>): (r: seq<(string, string)>)
    ensures |r| == |table|
    ensures forall i :: 0 <= i < |table| ==> r[i] == (table[i].1, table[i].0)
  {
    seq(|table|, i requires 0 <= i < |table| => (table[i].1, table[i].0))
  }

  /** The filter key behind a menu label. */
  function KeyForLabel(filterLabel: string): Option<string>
  {
    Lookup(FilterOptions, filterLabel)
  }

  /** The menu label of a filter key. */
  function LabelForKey(key: string): Option<string>
  {
    Lookup(Swapped(FilterOptions), key)
  }

  /** A table whose first components are distinct and whose second components
      are distinct pairs them one to one. */
  predicate OneToOne(table: seq<(string, string)>)
  {
    forall i, j :: 0 <= i < j < |table| ==> table[i].0 != table[j].0 && table[i].1 != table[j].1
  }

  lemma {:induction false} LookupDistinct(table: seq<(string, string)>, i: nat)
    requires OneToOne(table) && i < |table|
    ensures Lookup(table, table[i].0) == Some(table[i].1)
    decreases |table|
  {
    if i > 0 {
      assert table[1..][i - 1] == table[i];
      assert OneToOne(table[1..]) by {
        forall a, b | 0 <= a < b < |table[1..]|
          ensures table[1..][a].0 != table[1..][b].0 && table[1..][a].1 != table[1..][b].1
        {
          assert table[1..][a] == table[a + 1] && table[1..][b] == table[b + 1];
        }
      }
      LookupDistinct(table[1..], i - 1);
    }
  }

  /** The menu table is a bijection between its five labels and its five
      keys: each label maps to the key beside it and back. */
  lemma FilterOptionsBijective()
    ensures |FilterOptions| == 5 && OneToOne(FilterOptions)
    ensures forall i :: 0 <= i < |FilterOptions| ==>
      KeyForLabel(FilterOptions[i].0) == Some(FilterOptions[i].1) &&
      LabelForKey(FilterOptions[i].1) == Some(FilterOptions[i].0)
    ensures forall l :: KeyForLabel(l).Some? ==> LabelForKey(KeyForLabel(l).value) == Some(l)
  {
    var t := FilterOptions;
    assert OneToOne(t);
    var u := Swapped(t);
    assert OneToOne(u);
    forall i | 0 <= i < |t|
      ensures KeyForLabel(t[i].0) == Some(t[i].1) && LabelForKey(t[i].1) == Some(t[i].0)
    {
      LookupDistinct(t, i);
      LookupDistinct(u, i);
    }
  }

  // ---------------------------------------------------------------------
  // The selected-label list
  // ---------------------------------------------------------------------

  /** `list.remove(x)`: drop the first occurrence of `x`, if any. */
  function RemoveFirst(s: seq<string>, x: string): seq<string>
  {
    if s == [] then []
    else if s[0] == x then s[1..]
    else [s[0]] + RemoveFirst(s[1..], x)
  }

  /** `remove(x)` takes one `x` away when there is one and changes no other count. */
  lemma {:induction false} RemoveFirstCount(s: seq<string>, x: string)
    ensures multiset(RemoveFirst(s, x)) == multiset(s) - multiset{x}
    decreases |s|
  {
    if s != [] {
      assert s == [s[0]] + s[1..];
      if s[0] != x {
        RemoveFirstCount(s[1..], x);
      }
    }
  }

  /** `remove(x)` passes over a prefix that does not hold `x`. */
  lemma {:induction false} RemoveFirstPast(a: seq<string>, b: seq<string>, x: string)
    requires x !in a
    ensures RemoveFirst(a + b, x) == a + RemoveFirst(b, x)
    decreases |a|
  {
    if a == [] {
      assert a + b == b;
    } else {
      assert (a + b)[0] == a[0] && (a + b)[1..] == a[1..] + b;
      RemoveFirstPast(a[1..], b, x);
      assert a == [a[0]] + a[1..];
    }
  }

  /** Removing the first occurrence at index `i` leaves the elements before
      and after it in place. */
  lemma RemoveFirstAt(s: seq<string>, x: string, i: nat)
    requires i < |s| && s[i] == x && x !in s[..i]
    ensures RemoveFirst(s, x) == s[..i] + s[i + 1..]
  {
    assert s == s[..i] + s[i..];
    RemoveFirstPast(s[..i], s[i..], x);
    assert s[i..][0] == x && s[i..][1..] == s[i + 1..];
  }

  lemma {:induction false} RemoveFirstAbsent(s: seq<string>, x: string)
    requires x !in s
    ensures RemoveFirst(s, x) == s
    decreases |s|
  {
    if s != [] {
      RemoveFirstAbsent(s[1..], x);
    }
  }

  /** `a` is `b` with some elements left out, the rest in the same order. */
  predicate Subsequence(a: seq<string>, b: seq<string>)
    decreases |b|
  {
    a == [] || (b != [] && ((a[0] == b[0] && Subsequence(a[1..], b[1..])) || Subsequence(a, b[1..])))
  }

  lemma {:induction false} SubsequenceReflexive(a: seq<string>)
    ensures Subsequence(a, a)
    decreases |a|
  {
    if a != [] {
      SubsequenceReflexive(a[1..]);
    }
  }

  lemma {:induction false} SubsequenceTransitive(a: seq<string>, b: seq<string>, c: seq<string>)
    requires Subsequence(a, b) && Subsequence(b, c)
    ensures Subsequence(a, c)
    decreases |c|
  {
    if a != [] {
      if Subsequence(b, c[1..]) {
        SubsequenceTransitive(a, b, c[1..]);
      } else if a[0] == b[0] && Subsequence(a[1..], b[1..]) {
        SubsequenceTransitive(a[1..], b[1..], c[1..]);
      } else {
        SubsequenceTransitive(a, b[1..], c[1..]);
      }
    }
  }

  lemma {:induction false} SubsequenceSnoc(a: seq<string>, b: seq<string>, x: string)
    requires Subsequence(a, b)
    ensures Subsequence(a + [x], b + [x])
    decreases |b|
  {
    if a == [] {
      if b == [] {
      } else {
        assert (b + [x])[1..] == b[1..] + [x];
        SubsequenceSnoc(a, b[1..], x);
      }
    } else {
      assert (a + [x])[1..] == a[1..] + [x] && (b + [x])[1..] == b[1..] + [x];
      if a[0] == b[0] && Subsequence(a[1..], b[1..]) {
        SubsequenceSnoc(a[1..], b[1..], x);
      } else {
        SubsequenceSnoc(a, b[1..], x);
      }
    }
  }

  /** Removing the first occurrence keeps every other element in order. */
  lemma {:induction false} RemoveFirstSubsequence(s: seq<string>, x: string)
    ensures Subsequence(RemoveFirst(s, x), s)
    decreases |s|
  {
    if s != [] {
      if s[0] == x {
        SubsequenceReflexive(s[1..]);
      } else {
        RemoveFirstSubsequence(s[1..], x);
      }
    }
  }

  /** The `SnapshotStateList<String>` of selected labels, with the three list
      operations `updateFilters` uses. */
  class SelectedFilters {
    var labels: seq<string>

    constructor ()
      ensures labels == []
    {
      labels := [];
    }

    /** `indexOf(x)`, answering `|labels|` when `x` is absent. */
    method IndexOf(x: string) returns (i: nat)
      ensures i <= |labels|
      ensures i < |labels| ==> labels[i] == x
      ensures x !in labels[..i]
    {
      i := 0;
      while i < |labels| && labels[i] != x
        invariant i <= |labels|
        invariant x !in labels[..i]
      {
        i := i + 1;
      }
    }

    /** `clear()`. */
    method Clear()
      modifies this`labels
      ensures labels == []
    {
      labels := [];
    }

    /** `add(x)`: append at the end. */
    method Add(x: string)
      modifies this`labels
      ensures labels == old(labels) + [x]
    {
      labels := labels + [x];
    }

    /** `remove(x)`: drop the first occurrence, answering whether there was one. */
    method Remove(x: string) returns (removed: bool)
      modifies this`labels
      ensures removed == (x in old(labels))
      ensures labels == RemoveFirst(old(labels), x)
    {
      var i := IndexOf(x);
      if i < |labels| {
        RemoveFirstAt(labels, x, i);
        labels := labels[..i] + labels[i + 1..];
        removed := true;
      } else {
        assert labels[..i] == labels;
        RemoveFirstAbsent(labels, x);
        removed := false;
      }
    }
  }

  /** The label of the sort key that choosing `key` deselects, if any. */
  function CounterpartLabel(key: string): Option<string>
  {
    if key == TITLE_AZ then Some(TIME_LABEL) else if key == TIME then Some(TITLE_LABEL) else None
  }

  /** The label list once `updateFilters(label, key, checked, ...)` has edited
      it: for ALL, cleared and then holding the label when checked; for any
      other key, the first ALL label and the first counterpart label dropped,
      then the label appended when checked or its first occurrence dropped
      when not. */
  function EditedLabels(s: seq<string>, filterLabel: string, key: string, checked: bool): seq<string>
  {
    if key == ALL then (if checked then [filterLabel] else [])
    else
      var withoutAll := RemoveFirst(s, ALL_LABEL);
      var cleared := if CounterpartLabel(key).Some? then RemoveFirst(withoutAll, CounterpartLabel(key).value) else withoutAll;
      if checked then cleared + [filterLabel] else RemoveFirst(cleared, filterLabel)
  }

  /** `updateFilters`: edit the label list in place, then forward the key to
      the view model's `toggleFilter`, once. */
  method UpdateFilters(filterLabel: string, key: string, checked: bool, selected: SelectedFilters, vm: NoteViewModel)
    requires vm.Valid()
    modifies selected`labels, vm`filters
    ensures vm.Valid()
    ensures selected.labels == EditedLabels(old(selected.labels), filterLabel, key, checked)
    ensures vm.filters == Toggled(old(vm.filters), key)
  {
    if key == ALL {
      selected.Clear();
      if checked {
        selected.Add(filterLabel);
      }
    } else {
      var _ := selected.Remove(ALL_LABEL);
      if key == TITLE_AZ {
        var _ := selected.Remove(TIME_LABEL);
      } else if key == TIME {
        var _ := selected.Remove(TITLE_LABEL);
      }
      if checked {
        selected.Add(filterLabel);
      } else {
        var _ := selected.Remove(filterLabel);
      }
    }
    vm.ToggleFilter(key);
  }

  /** The ALL entry leaves exactly its own label when checked and nothing when not. */
  lemma EditAllEntry(s: seq<string>, checked: bool)
    ensures EditedLabels(s, ALL_LABEL, ALL, checked) == if checked then [ALL_LABEL] else []
  {
  }

  /** The counterpart label a sort entry removes, as a multiset (empty for the other keys). */
  function CounterpartLabels(key: string): multiset<string>
  {
    if CounterpartLabel(key).Some? then multiset{CounterpartLabel(key).value} else multiset{}
  }

  /** What the edit keeps, counted with multiplicity: one ALL label and one
      counterpart label fewer, then the label added once or removed once. */
  lemma EditedLabelsCount(s: seq<string>, filterLabel: string, key: string, checked: bool)
    requires key != ALL
    ensures var cleared := multiset(s) - multiset{ALL_LABEL} - CounterpartLabels(key);
      multiset(EditedLabels(s, filterLabel, key, checked)) ==
        if checked then cleared + multiset{filterLabel} else cleared - multiset{filterLabel}
  {
    var withoutAll := RemoveFirst(s, ALL_LABEL);
    RemoveFirstCount(s, ALL_LABEL);
    var cleared := withoutAll;
    if CounterpartLabel(key).Some? {
      cleared := RemoveFirst(withoutAll, CounterpartLabel(key).value);
      RemoveFirstCount(withoutAll, CounterpartLabel(key).value);
    }
    assert multiset(cleared) == multiset(s) - multiset{ALL_LABEL} - CounterpartLabels(key);
    if !checked {
      RemoveFirstCount(cleared, filterLabel);
    }
  }

  /** A checked entry other than ALL ends up last. */
  lemma CheckedLabelIsLast(s: seq<string>, filterLabel: string, key: string)
    requires key != ALL
    ensures var r := EditedLabels(s, filterLabel, key, true);
      |r| > 0 && r[|r| - 1] == filterLabel
  {
  }

  /** The ALL label never appears twice: every edit keeps it at most once. */
  lemma AllLabelAtMostOnce(s: seq<string>, filterLabel: string, key: string, checked: bool)
    requires multiset(s)[ALL_LABEL] <= 1
    ensures multiset(EditedLabels(s, filterLabel, key, checked))[ALL_LABEL] <= 1
  {
    if key != ALL {
      EditedLabelsCount(s, filterLabel, key, checked);
    }
  }

  /** Choosing any entry but ALL drops the ALL label. */
  lemma OtherEntryDropsAllLabel(s: seq<string>, filterLabel: string, key: string, checked: bool)
    requires multiset(s)[ALL_LABEL] <= 1
    requires key != ALL && filterLabel != ALL_LABEL
    ensures ALL_LABEL !in EditedLabels(s, filterLabel, key, checked)
  {
    EditedLabelsCount(s, filterLabel, key, checked);
    assert multiset(EditedLabels(s, filterLabel, key, checked))[ALL_LABEL] == 0;
  }

  /** Choosing A-Z drops the time label, and choosing the time entry drops A-Z. */
  lemma SortEntriesExclusive(s: seq<string>, checked: bool)
    requires multiset(s)[TIME_LABEL] <= 1 && multiset(s)[TITLE_LABEL] <= 1
    ensures TIME_LABEL !in EditedLabels(s, TITLE_LABEL, TITLE_AZ, checked)
    ensures TITLE_LABEL !in EditedLabels(s, TIME_LABEL, TIME, checked)
  {
    SortEntryDropsCounterpart(s, TITLE_LABEL, TITLE_AZ, TIME_LABEL, checked);
    SortEntryDropsCounterpart(s, TIME_LABEL, TIME, TITLE_LABEL, checked);
  }

  lemma SortEntryDropsCounterpart(s: seq<string>, filterLabel: string, key: string, other: string, checked: bool)
    requires key != ALL && CounterpartLabel(key) == Some(other)
    requires multiset(s)[other] <= 1 && other != ALL_LABEL && other != filterLabel
    ensures other !in EditedLabels(s, filterLabel, key, checked)
  {
    EditedLabelsCount(s, filterLabel, key, checked);
    assert multiset(EditedLabels(s, filterLabel, key, checked))[other] == 0;
  }

  /** Labels the edit does not remove keep their relative order: the result
      is a subsequence of the old list, with the label appended when checked. */
  lemma EditedLabelsKeepOrder(s: seq<string>, filterLabel: string, key: string, checked: bool)
    requires key != ALL
    ensures Subsequence(EditedLabels(s, filterLabel, key, checked), if checked then s + [filterLabel] else s)
  {
    var withoutAll := RemoveFirst(s, ALL_LABEL);
    RemoveFirstSubsequence(s, ALL_LABEL);
    var cleared := withoutAll;
    if CounterpartLabel(key).Some? {
      cleared := RemoveFirst(withoutAll, CounterpartLabel(key).value);
      RemoveFirstSubsequence(withoutAll, CounterpartLabel(key).value);
      SubsequenceTransitive(cleared, withoutAll, s);
    }
    if checked {
      SubsequenceSnoc(cleared, s, filterLabel);
    } else {
      RemoveFirstSubsequence(cleared, filterLabel);
      SubsequenceTransitive(RemoveFirst(cleared, filterLabel), cleared, s);
    }
  }

  // ---------------------------------------------------------------------
  // selectedText
  // ---------------------------------------------------------------------

  /** The caption of the filter button. */
  function SelectedText(labels: seq<string>): string
  {
    if ALL_LABEL in labels then ALL_LABEL
    else if labels == [] then PLACEHOLDER
    else Join(labels, ", ")
  }

  /** The ALL label wins over everything else in the list; an empty list shows
      the placeholder. */
  lemma SelectedTextCases(labels: seq<string>)
    ensures ALL_LABEL in labels ==> SelectedText(labels) == ALL_LABEL
    ensures labels == [] ==> SelectedText(labels) == PLACEHOLDER
  {
  }

  /** Otherwise the caption lists every label in list order, each but the last
      followed by ", ", and nothing else. */
  lemma SelectedTextListsLabels(labels: seq<string>, i: nat)
    requires ALL_LABEL !in labels && i < |labels|
    ensures OccursAt(labels[i], SelectedText(labels), JoinOffset(labels, ", ", i))
    ensures i + 1 < |labels| ==> OccursAt(", ", SelectedText(labels), JoinOffset(labels, ", ", i) + |labels[i]|)
    ensures i + 1 == |labels| ==> |SelectedText(labels)| == JoinOffset(labels, ", ", i) + |labels[i]|
  {
    JoinInOrder(labels, ", ", i);
  }
}
