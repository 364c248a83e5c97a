/** The record shapes the application passes between its views. */
module App {

  /** A tag: an opaque identifier and a display label (labels may collide).
      The source calls the label `label`, a reserved word in Dafny. */
  datatype Tag = Tag(id: string, labelText: string)

  /** The editable part of a note, as the editor submits it. */
  datatype NoteData = NoteData(title: string, markdown: string, tags: seq<Tag>)

  /** A note: its identifier together with its data. */
  datatype Note = Note(id: string, title: string, markdown: string, tags: seq<Tag>)
}
