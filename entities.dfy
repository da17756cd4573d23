/** The two entities the client mirrors, as the server returns them. */
module Entities {

  /** A server-assigned `_id`. */
  type Id = string

  datatype Label = Label(id: Id, name: string, color: string)

  /** A note holds embedded copies of its labels (`labels` is populated by the server). The fields
      the store never inspects (title, description, color, order, updatedAt) are carried along. */
  datatype Note = Note(
    id: Id,
    title: string,
    description: string,
    color: string,
    labels: seq<Label>,
    isPinned: bool,
    isArchived: bool,
    order: int,
    updatedAt: string)
}
