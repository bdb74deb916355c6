/**
 * The worked examples of the filter pipeline: two notes, "Banana" (plain,
 * timestamp 100) and "Apple" (favourite, timestamp 200), run through one
 * filter or one query at a time.
 */
module Scenarios {
  import opened Text
  import opened Lists
  import opened NoteModel
  import opened FilterKeys
  import opened NoteSort
  import opened ViewModel

  const Banana := Note(title := "Banana", timestamp := 100)
  const Apple := Note(title := "Apple", timestamp := 200, isFavorite := true)

  /** FAVORITE keeps only the favourite note. */
  lemma FavoriteScenario()
    ensures ApplyFilters([Banana, Apple], map[FAVORITE := true], "") == [Apple]
  {
    var f := map[FAVORITE := true];
    var notes := [Banana, Apple];
    assert Searched(notes, "") == notes;
    assert !Active(f, ALL) && Active(f, FAVORITE) && !Active(f, COMPLETED);
    assert notes[1..] == [Apple] && [Apple][1..] == [];
    var p := IsFavorite;
    assert Filter([Apple], p) == [Apple];
    assert Filter(notes, p) == [Apple];
    assert Flagged(notes, f) == [Apple];
    assert SortNotes(f, [Apple]) == Insert(f, Apple, SortNotes(f, []));
  }

  /** TITLE_A-Z puts "Apple" before "Banana". */
  lemma TitleScenario()
    ensures ApplyFilters([Banana, Apple], map[TITLE_AZ := true], "") == [Apple, Banana]
  {
    var f := map[TITLE_AZ := true];
    var notes := [Banana, Apple];
    assert Searched(notes, "") == notes;
    assert !Active(f, ALL) && !Active(f, FAVORITE) && !Active(f, COMPLETED) && Active(f, TITLE_AZ) && !Active(f, TIME);
    assert Flagged(notes, f) == notes;
    assert Lower(Apple.title)[0] == 'a' && Lower(Banana.title)[0] == 'b';
    assert KeyLess(KeyOf(f, Apple), KeyOf(f, Banana));
    assert notes[1..] == [Apple];
    assert SortNotes(f, [Apple]) == [Apple];
    assert SortNotes(f, notes) == Insert(f, Banana, [Apple]);
    assert [Apple][1..] == [];
  }

  /** TIME puts the newer note first. */
  lemma TimeScenario()
    ensures ApplyFilters([Banana, Apple], map[TIME := true], "") == [Apple, Banana]
  {
    var f := map[TIME := true];
    var notes := [Banana, Apple];
    assert Searched(notes, "") == notes;
    assert !Active(f, ALL) && !Active(f, FAVORITE) && !Active(f, COMPLETED) && !Active(f, TITLE_AZ) && Active(f, TIME);
    assert Flagged(notes, f) == notes;
    assert KeyLess(KeyOf(f, Apple), KeyOf(f, Banana));
    assert notes[1..] == [Apple];
    assert SortNotes(f, [Apple]) == [Apple];
    assert SortNotes(f, notes) == Insert(f, Banana, [Apple]);
    assert [Apple][1..] == [];
  }

  /** The query "ban" matches "Banana", ignoring case, and not "Apple". */
  lemma SearchScenario()
    ensures ApplyFilters([Banana, Apple], map[], "ban") == [Banana]
  {
    var f: Filters := map[];
    var notes := [Banana, Apple];
    assert "ban"[0] == 'b';
    assert !IsBlank("ban");
    BananaMatchesBan();
    AppleLacksBan();
    var p := TitleContains("ban");
    assert notes[1..] == [Apple] && [Apple][1..] == [];
    assert Filter([Apple], p) == [];
    assert Searched(notes, "ban") == [Banana];
    assert Flagged([Banana], f) == [Banana];
    assert SortNotes(f, [Banana]) == Insert(f, Banana, SortNotes(f, []));
  }

  lemma BananaMatchesBan()
    ensures ContainsIgnoreCase(Banana.title, "ban")
  {
    assert Lower("Banana")[..3] == Lower("ban");
    assert OccursAt(Lower("ban"), Lower(Banana.title), 0);
  }

  lemma AppleLacksBan()
    ensures !ContainsIgnoreCase(Apple.title, "ban")
  {
    forall i | 0 <= i <= 2 ensures !OccursAt(Lower("ban"), Lower("Apple"), i) {
      assert Lower("Apple")[i] != 'b';
      assert Lower("ban")[0] == 'b';
    }
  }
}
