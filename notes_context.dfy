/** The client store of src/contexts/NotesContext.jsx: the state `notes`, `labels` and `filters`,
    and the operations that replace it. The network is not modelled: every operation receives the
    server's answer as a parameter and applies the transition the code performs on it. */
module NotesContext {
  import opened Wrappers
  import opened Entities
  import opened NoteFilters
  import opened NoteUpdates

  class NotesStore {
    var notes: seq<Note>
    var labels: seq<Label>
    var filters: Filters

    /** `useState([])`, `useState([])` and the initial filter object. */
    constructor ()
      ensures notes == [] && labels == [] && filters == DefaultFilters
    {
      notes := [];
      labels := [];
      filters := DefaultFilters;
    }

    /** `fetchNotes`: derives the query from the current filter; a successful answer replaces `notes`,
        a failed one leaves it as it was. */
    method FetchNotes(response: Response<seq<Note>>) returns (params: Params)
      modifies this`notes
      ensures params == RequestParams(filters)
      ensures notes == if response.Ok? then response.data else old(notes)
    {
      params := RequestParams(filters);
      if response.Ok? {
        notes := response.data;
      }
    }

    /** `fetchLabels`. */
    method FetchLabels(response: Response<seq<Label>>)
      modifies this`labels
      ensures labels == if response.Ok? then response.data else old(labels)
    {
      if response.Ok? {
        labels := response.data;
      }
    }

    /** `createNote`. */
    method CreateNote(response: Response<Note>) returns (outcome: Outcome<Note>)
      modifies this`notes
      ensures response.Ok? ==> notes == AfterCreate(old(notes), response.data) && outcome == Success(Some(response.data))
      ensures response.Err? ==> notes == old(notes) && outcome == Failure(Some(ErrorText(response.message, "Failed to create note")))
      ensures old(filters.isArchived) == Some(false) && InView(old(notes), Some(false)) ==> InView(notes, filters.isArchived)
    {
      match response
      case Ok(created) =>
        if InView(notes, Some(false)) {
          CreateKeepsActiveView(notes, created);
        }
        notes := AfterCreate(notes, created);
        outcome := Success(Some(created));
      case Err(message) =>
        outcome := Failure(Some(ErrorText(message, "Failed to create note")));
    }

    /** `updateNote`: the request body is the server's concern; its answer replaces the note. */
    method UpdateNote(noteId: Id, response: Response<Note>) returns (outcome: Outcome<Note>)
      modifies this`notes
      ensures response.Ok? ==> notes == ReplaceNote(old(notes), noteId, response.data) && outcome == Success(Some(response.data))
      ensures response.Err? ==> notes == old(notes) && outcome == Failure(Some(ErrorText(response.message, "Failed to update note")))
    {
      match response
      case Ok(updated) =>
        notes := ReplaceNote(notes, noteId, updated);
        outcome := Success(Some(updated));
      case Err(message) =>
        outcome := Failure(Some(ErrorText(message, "Failed to update note")));
    }

    /** `deleteNote`: local state changes only once the server confirmed. */
    method DeleteNote(noteId: Id, response: Response<()>) returns (outcome: Outcome<()>)
      modifies this`notes
      ensures response.Ok? ==> notes == WithoutNote(old(notes), noteId) && outcome == Success(None)
      ensures response.Err? ==> notes == old(notes) && outcome == Failure(Some(ErrorText(response.message, "Failed to delete note")))
      ensures Synced(old(notes), labels) && InView(old(notes), filters.isArchived) ==>
        Synced(notes, labels) && InView(notes, filters.isArchived)
    {
      if Synced(notes, labels) && InView(notes, filters.isArchived) {
        RemoveKeepsInvariants(notes, labels, filters.isArchived, noteId);
      }
      match response
      case Ok(_) =>
        notes := WithoutNote(notes, noteId);
        outcome := Success(None);
      case Err(message) =>
        outcome := Failure(Some(ErrorText(message, "Failed to delete note")));
    }

    /** `togglePin`: the server flips the flag; its answer replaces the note. Failures carry no message. */
    method TogglePin(noteId: Id, response: Response<Note>) returns (outcome: Outcome<Note>)
      modifies this`notes
      ensures response.Ok? ==> notes == ReplaceNote(old(notes), noteId, response.data) && outcome == Success(Some(response.data))
      ensures response.Err? ==> notes == old(notes) && outcome == Failure(None)
    {
      match response
      case Ok(updated) =>
        notes := ReplaceNote(notes, noteId, updated);
        outcome := Success(Some(updated));
      case Err(_) =>
        outcome := Failure(None);
    }

    /** `toggleArchive`: a note that left the current view is dropped, otherwise replaced. */
    method ToggleArchive(noteId: Id, response: Response<Note>) returns (outcome: Outcome<Note>)
      modifies this`notes
      ensures response.Ok? ==> notes == AfterArchiveToggle(old(notes), filters.isArchived, noteId, response.data)
      ensures response.Ok? ==> outcome == Success(Some(response.data))
      ensures response.Err? ==> notes == old(notes) && outcome == Failure(None)
      ensures InView(old(notes), filters.isArchived) ==> InView(notes, filters.isArchived)
    {
      match response
      case Ok(updated) =>
        if InView(notes, filters.isArchived) {
          ArchiveToggleKeepsView(notes, filters.isArchived, noteId, updated);
        }
        notes := AfterArchiveToggle(notes, filters.isArchived, noteId, updated);
        outcome := Success(Some(updated));
      case Err(_) =>
        outcome := Failure(None);
    }

    /** `reorderNotes`: the server reorders, then the notes are fetched again. `fetchNotes` catches its
        own failure, so a failed refetch still reports success and keeps the old list. */
    method ReorderNotes(noteId: Id, newOrder: int, response: Response<()>, refetch: Response<seq<Note>>)
      returns (outcome: Outcome<()>)
      modifies this`notes
      ensures response.Ok? ==> notes == (if refetch.Ok? then refetch.data else old(notes)) && outcome == Success(None)
      ensures response.Err? ==> notes == old(notes) && outcome == Failure(None)
    {
      if response.Ok? {
        var _ := FetchNotes(refetch);
        outcome := Success(None);
      } else {
        outcome := Failure(None);
      }
    }

    /** `createLabel`: `[...prev, newLabel]`. */
    method CreateLabel(response: Response<Label>) returns (outcome: Outcome<Label>)
      modifies this`labels
      ensures response.Ok? ==> labels == old(labels) + [response.data] && outcome == Success(Some(response.data))
      ensures response.Err? ==> labels == old(labels) && outcome == Failure(Some(ErrorText(response.message, "Failed to create label")))
      ensures Synced(notes, old(labels)) ==> Synced(notes, labels)
    {
      match response
      case Ok(created) =>
        if Synced(notes, labels) {
          AppendLabelKeepsSynced(notes, labels, created);
        }
        labels := labels + [created];
        outcome := Success(Some(created));
      case Err(message) =>
        outcome := Failure(Some(ErrorText(message, "Failed to create label")));
    }

    /** `updateLabel`: replaces the label and every embedded copy of it. */
    method UpdateLabel(labelId: Id, response: Response<Label>) returns (outcome: Outcome<Label>)
      modifies this`labels, this`notes
      ensures response.Ok? ==> labels == ReplaceLabel(old(labels), labelId, response.data)
      ensures response.Ok? ==> notes == RelabelNotes(old(notes), labelId, response.data)
      ensures response.Ok? ==> outcome == Success(Some(response.data))
      ensures response.Err? ==> labels == old(labels) && notes == old(notes)
      ensures response.Err? ==> outcome == Failure(Some(ErrorText(response.message, "Failed to update label")))
      ensures Synced(old(notes), old(labels)) ==> Synced(notes, labels)
    {
      match response
      case Ok(updated) =>
        if Synced(notes, labels) {
          RelabelKeepsSynced(notes, labels, labelId, updated);
        }
        labels := ReplaceLabel(labels, labelId, updated);
        notes := RelabelNotes(notes, labelId, updated);
        outcome := Success(Some(updated));
      case Err(message) =>
        outcome := Failure(Some(ErrorText(message, "Failed to update label")));
    }

    /** `deleteLabel`: removes the label and strips it from every note. */
    method DeleteLabel(labelId: Id, response: Response<()>) returns (outcome: Outcome<()>)
      modifies this`labels, this`notes
      ensures response.Ok? ==> labels == WithoutLabel(old(labels), labelId) && notes == StripLabel(old(notes), labelId)
      ensures response.Ok? ==> outcome == Success(None)
      ensures response.Ok? ==> labelId !in LabelIds(labels)
      ensures response.Err? ==> labels == old(labels) && notes == old(notes)
      ensures response.Err? ==> outcome == Failure(Some(ErrorText(response.message, "Failed to delete label")))
      ensures Synced(old(notes), old(labels)) ==> Synced(notes, labels)
    {
      match response
      case Ok(_) =>
        if Synced(notes, labels) {
          StripKeepsSynced(notes, labels, labelId);
        }
        StripLeavesNoReference(notes, labels, labelId);
        labels := WithoutLabel(labels, labelId);
        notes := StripLabel(notes, labelId);
        outcome := Success(None);
      case Err(message) =>
        outcome := Failure(Some(ErrorText(message, "Failed to delete label")));
    }

    /** `updateFilters`. */
    method UpdateFilters(patch: FilterPatch)
      modifies this`filters
      ensures filters == Merge(old(filters), patch)
    {
      filters := Merge(filters, patch);
    }
  }
}
