/** The new values the store computes from the previous ones on a successful server answer
    (the `setNotes` / `setLabels` updaters of src/contexts/NotesContext.jsx), and the invariants
    that relate `notes`, `labels` and the current filter. */
module NoteUpdates {
  import opened Wrappers
  import opened Entities
  import opened Seqs

  /** `error.response?.data?.error || fallback`: a missing or empty server message falls back. */
  function ErrorText(message: Option<string>, fallback: string): (r: string)
    ensures message.Some? && message.value != "" ==> r == message.value
    ensures message.None? || message.value == "" ==> r == fallback
    ensures fallback != "" ==> r != ""
  {
    if message.Some? && message.value != "" then message.value else fallback
  }

  // ---- notes ----

  /** `createNote`: `[newNote, ...prev]` when the created note is not archived, else `prev`. */
  function AfterCreate(notes: seq<Note>, created: Note): (r: seq<Note>)
    ensures created.isArchived ==> r == notes
    ensures !created.isArchived ==> |r| == |notes| + 1 && r[0] == created && r[1..] == notes
  {
    if !created.isArchived then [created] + notes else notes
  }

  /** `prev.map(note => note._id === id ? updated : note)` (`updateNote`, `togglePin`). */
  function ReplaceNote(notes: seq<Note>, id: Id, updated: Note): (r: seq<Note>)
    ensures |r| == |notes|
    ensures forall i :: 0 <= i < |notes| && notes[i].id == id ==> r[i] == updated
    ensures forall i :: 0 <= i < |notes| && notes[i].id != id ==> r[i] == notes[i]
  {
    Map(notes, (n: Note) => if n.id == id then updated else n)
  }

  /** `prev.filter(note => note._id !== id)` (`deleteNote`, `toggleArchive`). */
  function WithoutNote(notes: seq<Note>, id: Id): (r: seq<Note>)
    ensures forall n :: n in r ==> n.id != id
    ensures forall n :: multiset(r)[n] == if n.id == id then 0 else multiset(notes)[n]
    ensures IsSubsequence(r, notes)
  {
    Filter(notes, (n: Note) => n.id != id)
  }

  /** `toggleArchive`: a note whose archived flag no longer equals the filter's leaves the list,
      otherwise it is replaced in place. */
  function AfterArchiveToggle(notes: seq<Note>, viewArchived: Option<bool>, id: Id, updated: Note): (r: seq<Note>)
    ensures viewArchived != Some(updated.isArchived) ==> r == WithoutNote(notes, id)
    ensures viewArchived == Some(updated.isArchived) ==> r == ReplaceNote(notes, id, updated)
    ensures forall n :: n in r && n.id == id ==> viewArchived == Some(n.isArchived)
    ensures forall n :: n in notes && n.id != id ==> n in r
    ensures forall n :: n in r ==> n in notes || n == updated
  {
    if viewArchived != Some(updated.isArchived) then
      WithoutNote(notes, id)
    else
      var r := ReplaceNote(notes, id, updated);
      assert forall n :: n in notes && n.id != id ==> n in r by {
        forall n | n in notes && n.id != id ensures n in r {
          var k :| 0 <= k < |notes| && notes[k] == n;
          assert r[k] == n;
        }
      }
      r
  }

  // ---- labels and their embedded copies ----

  /** `prev.map(label => label._id === id ? updated : label)`. */
  function ReplaceLabel(labels: seq<Label>, id: Id, updated: Label): (r: seq<Label>)
    ensures |r| == |labels|
    ensures forall j :: 0 <= j < |labels| && labels[j].id == id ==> r[j] == updated
    ensures forall j :: 0 <= j < |labels| && labels[j].id != id ==> r[j] == labels[j]
  {
    Map(labels, (l: Label) => if l.id == id then updated else l)
  }

  /** `prev.filter(label => label._id !== id)`. */
  function WithoutLabel(labels: seq<Label>, id: Id): (r: seq<Label>)
    ensures forall l :: l in r ==> l.id != id
    ensures forall l :: multiset(r)[l] == if l.id == id then 0 else multiset(labels)[l]
    ensures IsSubsequence(r, labels)
  {
    Filter(labels, (l: Label) => l.id != id)
  }

  /** `updateLabel`'s cascade: in every note, every embedded copy of label `id` becomes `updated`;
      nothing else about the note changes. */
  function RelabelNotes(notes: seq<Note>, id: Id, updated: Label): (r: seq<Note>)
    ensures |r| == |notes|
    ensures forall i :: 0 <= i < |notes| ==> r[i] == notes[i].(labels := ReplaceLabel(notes[i].labels, id, updated))
  {
    Map(notes, (n: Note) => n.(labels := ReplaceLabel(n.labels, id, updated)))
  }

  /** `deleteLabel`'s cascade: every embedded copy of label `id` is dropped from every note. */
  function StripLabel(notes: seq<Note>, id: Id): (r: seq<Note>)
    ensures |r| == |notes|
    ensures forall i :: 0 <= i < |notes| ==> r[i] == notes[i].(labels := WithoutLabel(notes[i].labels, id))
    ensures forall i, j :: 0 <= i < |r| && 0 <= j < |r[i].labels| ==> r[i].labels[j].id != id
  {
    var r := Map(notes, (n: Note) => n.(labels := WithoutLabel(n.labels, id)));
    assert forall i, j :: 0 <= i < |r| && 0 <= j < |r[i].labels| ==> r[i].labels[j] in r[i].labels;
    r
  }

  // ---- invariants ----

  /** Every embedded label copy is a label the store currently knows, name and color included. */
  predicate Synced(notes: seq<Note>, labels: seq<Label>)
  {
    forall i, j :: 0 <= i < |notes| && 0 <= j < |notes[i].labels| ==> notes[i].labels[j] in labels
  }

  function LabelIds(labels: seq<Label>): set<Id>
  {
    set l | l in labels :: l.id
  }

  /** Referential integrity: every id a note refers to names a known label. */
  predicate RefsKnown(notes: seq<Note>, labels: seq<Label>)
  {
    forall i, j :: 0 <= i < |notes| && 0 <= j < |notes[i].labels| ==> notes[i].labels[j].id in LabelIds(labels)
  }

  /** Every cached note belongs to the view the filter asked the server for. */
  predicate InView(notes: seq<Note>, viewArchived: Option<bool>)
  {
    forall i :: 0 <= i < |notes| ==> viewArchived.Some? ==> notes[i].isArchived == viewArchived.value
  }

  lemma SyncedRefsKnown(notes: seq<Note>, labels: seq<Label>)
    requires Synced(notes, labels)
    ensures RefsKnown(notes, labels)
  {
    forall i, j | 0 <= i < |notes| && 0 <= j < |notes[i].labels|
      ensures notes[i].labels[j].id in LabelIds(labels)
    {
      var l := notes[i].labels[j];
      assert l in labels;
    }
  }

  /** A rename keeps every embedded copy equal to the label it refers to. */
  lemma RelabelKeepsSynced(notes: seq<Note>, labels: seq<Label>, id: Id, updated: Label)
    requires Synced(notes, labels)
    ensures Synced(RelabelNotes(notes, id, updated), ReplaceLabel(labels, id, updated))
  {
    var notes', labels' := RelabelNotes(notes, id, updated), ReplaceLabel(labels, id, updated);
    forall i, j | 0 <= i < |notes'| && 0 <= j < |notes'[i].labels|
      ensures notes'[i].labels[j] in labels'
    {
      var l := notes[i].labels[j];
      var k :| 0 <= k < |labels| && labels[k] == l;
      assert notes'[i].labels == ReplaceLabel(notes[i].labels, id, updated);
      assert labels'[k] == notes'[i].labels[j];
    }
  }

  /** A deletion keeps every remaining embedded copy a known label. */
  lemma StripKeepsSynced(notes: seq<Note>, labels: seq<Label>, id: Id)
    requires Synced(notes, labels)
    ensures Synced(StripLabel(notes, id), WithoutLabel(labels, id))
  {
    var notes', labels' := StripLabel(notes, id), WithoutLabel(labels, id);
    forall i, j | 0 <= i < |notes'| && 0 <= j < |notes'[i].labels|
      ensures notes'[i].labels[j] in labels'
    {
      var l := notes'[i].labels[j];
      assert notes'[i].labels == WithoutLabel(notes[i].labels, id);
      assert l in notes[i].labels;
      var k :| 0 <= k < |notes[i].labels| && notes[i].labels[k] == l;
    }
  }

  /** After a label is deleted, neither the label list nor any note refers to its id. */
  lemma StripLeavesNoReference(notes: seq<Note>, labels: seq<Label>, id: Id)
    ensures id !in LabelIds(WithoutLabel(labels, id))
    ensures forall i, j :: 0 <= i < |notes| && 0 <= j < |StripLabel(notes, id)[i].labels| ==>
      StripLabel(notes, id)[i].labels[j].id != id
  {
  }

  /** Appending a new label keeps the notes in sync. */
  lemma AppendLabelKeepsSynced(notes: seq<Note>, labels: seq<Label>, created: Label)
    requires Synced(notes, labels)
    ensures Synced(notes, labels + [created])
  {
  }

  /** Replacing a note by a server answer whose labels are known keeps the notes in sync. */
  lemma ReplaceKeepsSynced(notes: seq<Note>, labels: seq<Label>, id: Id, updated: Note)
    requires Synced(notes, labels)
    requires forall j :: 0 <= j < |updated.labels| ==> updated.labels[j] in labels
    ensures Synced(ReplaceNote(notes, id, updated), labels)
  {
  }

  /** Removing notes keeps the rest in sync and in view. */
  lemma RemoveKeepsInvariants(notes: seq<Note>, labels: seq<Label>, view: Option<bool>, id: Id)
    requires Synced(notes, labels) && InView(notes, view)
    ensures Synced(WithoutNote(notes, id), labels) && InView(WithoutNote(notes, id), view)
  {
    var r := WithoutNote(notes, id);
    forall i | 0 <= i < |r| ensures r[i] in notes {
      assert r[i] in r;
    }
  }

  /** `toggleArchive` keeps the cache inside the current view, whatever the server answers. */
  lemma ArchiveToggleKeepsView(notes: seq<Note>, view: Option<bool>, id: Id, updated: Note)
    requires InView(notes, view)
    ensures InView(AfterArchiveToggle(notes, view, id, updated), view)
  {
    var r := AfterArchiveToggle(notes, view, id, updated);
    forall i | 0 <= i < |r| ensures view.Some? ==> r[i].isArchived == view.value {
      assert r[i] in r;
      if r[i] != updated {
        var k :| 0 <= k < |notes| && notes[k] == r[i];
      }
    }
  }

  /** In the active view, `createNote` keeps the cache inside the view. */
  lemma CreateKeepsActiveView(notes: seq<Note>, created: Note)
    requires InView(notes, Some(false))
    ensures InView(AfterCreate(notes, created), Some(false))
  {
  }

  /** In the archive view it does not: a created note that is not archived is still prepended. */
  lemma CreateLeavesArchiveView(notes: seq<Note>, created: Note)
    requires !created.isArchived
    ensures !InView(AfterCreate(notes, created), Some(true))
  {
  }

  /** Applying the same answer twice is applying it once, whatever id the answer carries. */
  lemma ReplaceNoteIdempotent(notes: seq<Note>, id: Id, updated: Note)
    ensures ReplaceNote(ReplaceNote(notes, id, updated), id, updated) == ReplaceNote(notes, id, updated)
  {
  }

  /** Replacing a note by one with the same id keeps every position's id. */
  lemma ReplaceKeepsIds(notes: seq<Note>, id: Id, updated: Note)
    requires updated.id == id
    ensures forall i :: 0 <= i < |notes| ==> ReplaceNote(notes, id, updated)[i].id == notes[i].id
  {
  }
}
