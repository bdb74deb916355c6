/**
 * The save rule of View/NoteDetailsScreen.kt: `saveNote` decides whether to
 * write anything and what, and `saveAndExit` decides whether to save before
 * navigating back. The store calls and the callbacks become a returned
 * outcome; the clock reading and the note that `getNoteById` delivers come in
 * as parameters.
 */
module NoteDetails {
  import opened Text
  import opened Optional
  import opened NoteModel
  import opened ViewModel

  /** The note `saveNote` hands to `viewModel.insert` (and so to
      `upsertNote`): a brand-new note, a changed copy of an existing one, or
      nothing at all. */
  datatype Write = NoWrite | Insert(note: Note) | Update(note: Note)

  /** One `saveNote` call: what it writes, whether it asked the store for the
      old note, and whether it called `onSaved`. */
  datatype SaveOutcome = SaveOutcome(write: Write, looksUp: bool, onSaved: bool)

  /** The guard of `saveNote`: only a note with some non-blank text is saved. */
  predicate HasText(title: string, content: string)
  {
    !IsBlank(title) || !IsBlank(content)
  }

  /** `saveNote(viewModel, noteId, title, content, imageUrls, onSaved)`, with
      `now` the clock reading and `oldNote` what the lookup of `noteId`
      delivers (it is only consulted when `noteId` is not blank). */
  function SaveNote(noteId: string, title: string, content: string, imageUrls: seq<string>,
                    now: int, oldNote: Option<Note>): (r: SaveOutcome)
    // blank input: no write, no lookup, no callback
    ensures r.onSaved <==> HasText(title, content)
    ensures !HasText(title, content) ==> r.write == NoWrite && !r.looksUp
    // new note: blank id, the given fields, both flags at their false default
    ensures HasText(title, content) && IsBlank(noteId) ==>
      && !r.looksUp && r.write.Insert?
      && !r.write.note.IsPersisted()
      && r.write.note.title == title && r.write.note.content == content
      && r.write.note.timestamp == now && r.write.note.imageUrls == imageUrls
      && !r.write.note.isFavorite && !r.write.note.isCompleted
    // existing note: looked up, and rewritten only when the lookup found it
    ensures HasText(title, content) && !IsBlank(noteId) ==>
      && r.looksUp
      && (oldNote.None? ==> r.write == NoWrite)
      && (oldNote.Some? ==> r.write.Update?)
    // the rewrite keeps id and flags and replaces exactly the four edited fields
    ensures r.write.Update? ==>
      && oldNote.Some?
      && r.write.note.title == title && r.write.note.content == content
      && r.write.note.timestamp == now && r.write.note.imageUrls == imageUrls
      && r.write.note.(title := oldNote.value.title, content := oldNote.value.content,
                       timestamp := oldNote.value.timestamp, imageUrls := oldNote.value.imageUrls)
         == oldNote.value
  {
    if !HasText(title, content) then SaveOutcome(NoWrite, false, false)
    else if IsBlank(noteId) then
      SaveOutcome(Insert(Note(id := "", title := title, content := content, timestamp := now,
                              imageUrls := imageUrls)), false, true)
    else
      var write := match oldNote
        case None => NoWrite
        case Some(previous) => Update(previous.(title := title, content := content, timestamp := now,
                                      imageUrls := imageUrls));
      SaveOutcome(write, true, true)
  }

  /** Once stored by `upsertNote`, a new note lands under the freshly
      generated id, and a rewritten note under the id it was looked up by. */
  lemma SavedNoteStoredUnder(noteId: string, title: string, content: string, imageUrls: seq<string>,
                             now: int, oldNote: Option<Note>, freshId: string)
    requires oldNote.Some? ==> oldNote.value.id == noteId
    ensures var w := SaveNote(noteId, title, content, imageUrls, now, oldNote).write;
      && (w.Insert? ==> StoredNote(w.note, freshId).id == freshId)
      && (w.Update? ==> StoredNote(w.note, freshId).id == noteId)
  {
    var w := SaveNote(noteId, title, content, imageUrls, now, oldNote).write;
    if w.Update? {
      assert !IsBlank(noteId);
      assert noteId != "";
    }
  }

  /** One `saveAndExit` call: what it writes and whether it called `onBack`. */
  datatype ExitOutcome = ExitOutcome(write: Write, onBack: bool)

  /** `saveAndExit(...)`: when the note is already saved just go back;
      otherwise save, and go back only from the save's `onSaved` callback. */
  function SaveAndExit(noteId: string, title: string, content: string, imageUrls: seq<string>,
                       isSaved: bool, now: int, oldNote: Option<Note>): (r: ExitOutcome)
    ensures isSaved ==> r.onBack && r.write == NoWrite
    ensures !isSaved ==> r.write == SaveNote(noteId, title, content, imageUrls, now, oldNote).write
    ensures !isSaved ==> (r.onBack <==> HasText(title, content))
  {
    if !isSaved then
      var saved := SaveNote(noteId, title, content, imageUrls, now, oldNote);
      ExitOutcome(saved.write, saved.onSaved)
    else ExitOutcome(NoWrite, true)
  }
}
