/** A value that may be absent: Kotlin's nullable `T?`. */
module Optional {
  datatype Option<T> = None | Some(value: T)
}

/**
 * The note record of Model/Note.kt. The Kotlin data class has a default for
 * every field; the default of `timestamp` reads the clock, so here the
 * timestamp has no default and every caller passes one in.
 */
module NoteModel {

  /** An `id` of "" marks a note that has not been persisted yet; the store
      assigns a real one on the first write. `timestamp` is milliseconds since
      the epoch (a Kotlin `Long`; it is only ever compared, so it is an `int`
      here). `imageUrls` is kept in the order given, which is display order.
      Equality of two notes is structural over all seven fields, as for a
      Kotlin data class. */
  datatype Note = Note(
    id: string := "",
    title: string := "",
    content: string := "",
    timestamp: int,
    isFavorite: bool := false,
    isCompleted: bool := false,
    imageUrls: seq<string> := [])
  {
    predicate IsPersisted()
    {
      id != ""
    }
  }

  /** A note built from the timestamp alone gets every other default:
      not persisted, empty text, no flag set, no image. */
  lemma DefaultsOfNote(now: int)
    ensures var n := Note(timestamp := now);
      && !n.IsPersisted() && n.title == "" && n.content == ""
      && n.timestamp == now && !n.isFavorite && !n.isCompleted && n.imageUrls == []
  {
  }
}
