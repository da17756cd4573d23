# Notes-Canvas client store, modelled in Dafny

This project models the client-side note and label store of Notes-Canvas, a browser note-taking
client. The store is the React context in `src/contexts/NotesContext.jsx`. It keeps three pieces of
state: `notes`, `labels` and `filters`. The model also covers two pure helpers beside it. One is the
view partition of `src/pages/Dashboard.jsx` (pinned-active, unpinned-active and archived groups and
the displayed sequence). The other is the label toggle of `src/components/LabelSelector.jsx`.

The network is not modelled. Each store operation takes the server's answer as a parameter, either
`Ok(entity)` or `Err(optional message)`. It then applies the state change the code performs.

Files:
- `wrappers.dfy` (`Wrappers`): `Option`, the server `Response`, and the `Outcome` object each
  operation returns (`{ success, data?, error? }`).
- `seqs.dfy` (`Seqs`): `Map` and `Filter` on sequences, with `IsSubsequence` (dropped elements,
  kept order).
- `entities.dfy` (`Entities`): `Label` (`id`, `name`, `color`) and `Note` (`id`, embedded `labels`,
  `isPinned`, `isArchived`, plus other fields the store only carries along).
- `filters.dfy` (`NoteFilters`): the filter state, the `updateFilters` merge, and the request
  parameters `fetchNotes` derives. `Split` is the inverse of the comma join. It is used to state that joining the
  selected label ids loses no information when no id contains a comma.
- `note_updates.dfy` (`NoteUpdates`): each new `notes`/`labels` value as a pure function of the old
  one. Also two invariants, `Synced` and `InView`, with the lemmas showing which operations keep
  them. `Synced` says every embedded label copy is a current label. `InView` says every cached note
  matches the filter's archived flag.
- `notes_context.dfy` (`NotesContext`): class `NotesStore` with fields `notes`, `labels`, `filters`.
  Each operation is a method whose `modifies` names only the fields it replaces.
- `dashboard.dfy` (`Dashboard`), `label_selector.dfy` (`LabelSelector`).

The model keeps these behaviours of the code, which a reader might not expect:
- `createNote` prepends the created note when it is not archived (`!newNote.isArchived`). It does
  not compare against the filter's archived flag. In the archive view this puts an active note into
  the cache; `CreateLeavesArchiveView` states it, `CreateKeepsActiveView` shows the active view is fine.
- `reorderNotes` awaits `fetchNotes`, and `fetchNotes` catches its own failure. So a reorder whose
  refetch fails still returns `{ success: true }` and keeps the old list.
- A failure message is `error.response?.data?.error || fallback`, so an empty server message also
  falls back to the operation's default text (`ErrorText`).
- `filters.isArchived` and `filters.isPinned` may be `undefined` (`None`). When `isArchived` is
  `undefined`, `toggleArchive` drops every note it toggles, because no flag equals `undefined`.

## Model

| member | source | states |
|---|---|---|
| `NotesContext.NotesStore.constructor` | src/contexts/NotesContext.jsx:16-24 | The store starts with no notes, no labels, and the default filter (no search, no labels, pin unconstrained, active notes only). |
| `NotesContext.NotesStore.FetchNotes` | src/contexts/NotesContext.jsx:27-45 | Returns the request parameters derived from the current filter; a successful answer replaces `notes`, a failed one leaves it; nothing else changes. |
| `NotesContext.NotesStore.FetchLabels` | src/contexts/NotesContext.jsx:48-56 | A successful answer replaces `labels`; a failure leaves it; nothing else changes. |
| `NotesContext.NotesStore.CreateNote` | src/contexts/NotesContext.jsx:59-76 | On success, the note is prepended exactly when it is not archived, and the outcome carries it. On failure, `notes` is unchanged and the error is the server message or 'Failed to create note'. In the active view the cache stays inside the view. |
| `NotesContext.NotesStore.UpdateNote` | src/contexts/NotesContext.jsx:79-95 | On success every note with that id is replaced by the answer; on failure `notes` is unchanged and the error is the server message or 'Failed to update note'. |
| `NotesContext.NotesStore.DeleteNote` | src/contexts/NotesContext.jsx:98-109 | On success exactly the notes with that id are removed; on failure `notes` is untouched and the error is the server message or 'Failed to delete note'; label sync and view membership are kept. |
| `NotesContext.NotesStore.TogglePin` | src/contexts/NotesContext.jsx:112-127 | On success notes with that id are replaced by the answer; on failure `notes` is unchanged and the outcome has no message. |
| `NotesContext.NotesStore.ToggleArchive` | src/contexts/NotesContext.jsx:130-150 | On success the note is dropped when its new flag differs from the filter's, else replaced in place; on failure nothing changes; the cache stays inside the current view. |
| `NotesContext.NotesStore.ReorderNotes` | src/contexts/NotesContext.jsx:153-163 | On success `notes` becomes the refetched list, or stays as it was if the refetch failed, and the outcome is success either way; on failure `notes` is unchanged. |
| `NotesContext.NotesStore.CreateLabel` | src/contexts/NotesContext.jsx:166-178 | On success the label is appended; on failure `labels` is unchanged and the error is the server message or 'Failed to create label'; label sync is kept. |
| `NotesContext.NotesStore.UpdateLabel` | src/contexts/NotesContext.jsx:181-205 | On success the label and every embedded copy of it are replaced; on failure nothing changes and the error is the server message or 'Failed to update label'; label sync is kept. |
| `NotesContext.NotesStore.DeleteLabel` | src/contexts/NotesContext.jsx:208-226 | On success the label is removed and stripped from every note, and its id is no longer known; on failure nothing changes and the error is the server message or 'Failed to delete label'; label sync is kept. |
| `NotesContext.NotesStore.UpdateFilters` | src/contexts/NotesContext.jsx:229-231 | The filter becomes the old filter merged with the supplied fields. |
| `NoteFilters.Merge` | src/contexts/NotesContext.jsx:229-231 | Each supplied field overrides, including an explicitly `undefined` pin or archive flag; every field not supplied keeps its old value. |
| `NoteFilters.MergeNoChangeAndIdempotent` | src/contexts/NotesContext.jsx:229-231 | An empty patch leaves the filter as it was; applying the same patch twice equals applying it once. |
| `NoteFilters.MergeThen` | src/contexts/NotesContext.jsx:229-231 | Two successive merges equal one merge in which the later call's fields win. |
| `NoteFilters.RequestParams` | src/contexts/NotesContext.jsx:30-35 | `search` is sent exactly when non-empty. `labels` is sent exactly when the list is non-empty, and splitting it at commas gives the list back. `isPinned` and `isArchived` are sent exactly when defined. |
| `NoteFilters.DefaultRequest` | src/contexts/NotesContext.jsx:19-35 | With the initial filter, the only parameter sent is `isArchived=false`. |
| `NoteFilters.Join` | src/contexts/NotesContext.jsx:33 | The empty list joins to the empty string. Otherwise the result starts with the first id, and for comma-free ids it holds exactly one comma fewer than there are ids. |
| `NoteFilters.SplitJoin` | src/contexts/NotesContext.jsx:33 | For a non-empty id list without commas, splitting the comma-joined list gives back the list. |
| `NoteUpdates.ErrorText` | src/contexts/NotesContext.jsx:72 | A non-empty server message is used as given; a missing or empty one falls back; with a non-empty fallback the text is never empty. |
| `NoteUpdates.AfterCreate` | src/contexts/NotesContext.jsx:64-67 | An archived created note leaves the list unchanged; any other is put first, with the old list after it, unchanged. |
| `NoteUpdates.CreateKeepsActiveView` | src/contexts/NotesContext.jsx:64-67 | If the cache holds only active notes, it still does after a create. |
| `NoteUpdates.CreateLeavesArchiveView` | src/contexts/NotesContext.jsx:64-67 | A created active note always takes the cache out of the archive view. |
| `NoteUpdates.ReplaceNote` | src/contexts/NotesContext.jsx:84-86 | The length is kept; every position whose note has the id holds the answer; every other position is unchanged. |
| `NoteUpdates.ReplaceNoteIdempotent` | src/contexts/NotesContext.jsx:117-119 | Applying the same answer twice equals applying it once, for any answer. |
| `NoteUpdates.ReplaceKeepsIds` | src/contexts/NotesContext.jsx:84-86 | An answer with the same id leaves the id at every position unchanged. |
| `NoteUpdates.ReplaceKeepsSynced` | src/contexts/NotesContext.jsx:84-86 | If the answer's embedded labels are current, replacing keeps every embedded copy current. |
| `NoteUpdates.WithoutNote` | src/contexts/NotesContext.jsx:101 | No note with the id remains. Every other note keeps its number of occurrences, and the rest stay in order. |
| `NoteUpdates.RemoveKeepsInvariants` | src/contexts/NotesContext.jsx:101 | Removing notes keeps the remaining embedded labels current and the cache inside the view. |
| `NoteUpdates.AfterArchiveToggle` | src/contexts/NotesContext.jsx:136-142 | A flag differing from the filter's removes the note, an equal one replaces it. Afterwards no note with that id disagrees with the filter. Every other note survives, and nothing new appears but the answer. |
| `NoteUpdates.ArchiveToggleKeepsView` | src/contexts/NotesContext.jsx:136-142 | If the cache was inside the view, it still is, whatever the server answered. |
| `NoteUpdates.ReplaceLabel` | src/contexts/NotesContext.jsx:186-188 | The length is kept; every label with the id becomes the answer; every other label is unchanged. |
| `NoteUpdates.RelabelNotes` | src/contexts/NotesContext.jsx:191-196 | Note count and every other note field are unchanged; each note's label list has its copies of the id replaced and nothing else changed. |
| `NoteUpdates.RelabelKeepsSynced` | src/contexts/NotesContext.jsx:186-196 | If every embedded copy was a current label before a rename, it still is after it. |
| `NoteUpdates.WithoutLabel` | src/contexts/NotesContext.jsx:211 | No label with the id remains; every other label keeps its multiplicity and order. |
| `NoteUpdates.StripLabel` | src/contexts/NotesContext.jsx:214-217 | Note count and every other note field are unchanged; no embedded label with the id remains (a label list may become empty). |
| `NoteUpdates.StripKeepsSynced` | src/contexts/NotesContext.jsx:211-217 | If every embedded copy was a current label before a deletion, it still is after it. |
| `NoteUpdates.StripLeavesNoReference` | src/contexts/NotesContext.jsx:211-217 | After a deletion neither the label ids nor any note's embedded labels contain the id. |
| `NoteUpdates.AppendLabelKeepsSynced` | src/contexts/NotesContext.jsx:170 | Appending a label keeps every embedded copy current. |
| `NoteUpdates.SyncedRefsKnown` | src/contexts/NotesContext.jsx:191-217 | When embedded copies are current, every id a note refers to names a known label (referential integrity). |
| `Dashboard.PinnedNotes` | src/pages/Dashboard.jsx:39 | Exactly the notes that are pinned and not archived, as an order-preserving subsequence. |
| `Dashboard.UnpinnedNotes` | src/pages/Dashboard.jsx:40 | Exactly the notes that are neither pinned nor archived, as an order-preserving subsequence. |
| `Dashboard.ArchivedNotes` | src/pages/Dashboard.jsx:41 | Exactly the archived notes, as an order-preserving subsequence. |
| `Dashboard.PartitionExact` | src/pages/Dashboard.jsx:39-41 | The three groups together hold every note exactly as often as `notes` does; their lengths sum to the note count. |
| `Dashboard.PartitionDisjointAndCovering` | src/pages/Dashboard.jsx:39-41 | The groups are pairwise disjoint and every note is in one of them. |
| `Dashboard.PinnedArchivedIsArchived` | src/pages/Dashboard.jsx:39-41 | A pinned and archived note appears only among the archived notes. |
| `Dashboard.DisplayNotes` | src/pages/Dashboard.jsx:43 | In archive view it is the archived group. Otherwise its first part is the pinned group and the rest the unpinned group, each in its own order. So it holds the active notes, every pinned one before every unpinned one, and its length is the sum of the two groups. |
| `Dashboard.ActiveViewShowsAll` | src/pages/Dashboard.jsx:39-43 | When the cache holds only active notes, the active view displays every one of them. |
| `Dashboard.ArchiveViewShowsAll` | src/pages/Dashboard.jsx:41-43 | When the cache holds only archived notes, the archive view displays exactly the cache. |
| `Dashboard.IsArchiveView` | src/pages/Dashboard.jsx:20 | The archive view is on exactly when the `archived` parameter is present and equals 'true'; an absent parameter means the active view. |
| `Dashboard.ViewPatch` | src/pages/Dashboard.jsx:24-28 | The effect's patch supplies only `isArchived`, set to whether the parameter is 'true'; search, labels and the pin flag are not supplied. |
| `Dashboard.ViewPatchSetsArchived` | src/pages/Dashboard.jsx:20-28 | The filter's archived flag becomes true exactly when the `archived` parameter is 'true', else false; no other field changes. |
| `LabelSelector.IsSelected` | src/components/LabelSelector.jsx:22 | An id is selected exactly when some position of the list holds it. |
| `LabelSelector.Unselect` | src/components/LabelSelector.jsx:7 | Every occurrence of the id is removed; the other ids keep their multiplicity and order. |
| `LabelSelector.ToggleLabel` | src/components/LabelSelector.jsx:5-11 | A selected id is removed everywhere, an unselected one appended at the end. The id's membership (`isSelected`, line 22) flips, and every other id's is unchanged. |
| `LabelSelector.UnselectAppended` | src/components/LabelSelector.jsx:6-9 | Removing an id that was only appended at the end gives back the original list. |
| `LabelSelector.ToggleTwiceAbsent` | src/components/LabelSelector.jsx:5-11 | Toggling an unselected id twice returns the original list. |
| `LabelSelector.ToggleTwicePresent` | src/components/LabelSelector.jsx:5-11 | Toggling a selected id twice restores which ids are selected; the order may change. |

## Left out

- HTTP transport, authentication and the 401 redirect (`src/contexts/AuthContext.jsx`): server answers are method parameters.
- Request bodies (`noteData`, `updates`, `labelData`, the `newOrder` sent by a reorder): they only go to the server, which is not part of this model; the store never reads them.
- What the server does (flipping pin or archive flags, assigning ids, ordering, populating embedded labels): only the client's handling of its answer is modelled.
- `toast` and `console` calls and the `loading` flag: presentation effects.
- The `useEffect` triggers: the refetch on every filter change, the initial label fetch, the `localStorage` token test, and the Dashboard effect that calls `updateFilters`. `ViewPatch` models only that effect's argument.
- Interleaving of asynchronous calls. This includes out-of-order `fetchNotes` answers (the code has no guard against a stale answer) and the filter captured by the closure `reorderNotes` calls. Each method applies one answer atomically to the current state.
- `filters.search` and `filters.labels` are modelled as a string and a list. The model does not follow a caller that supplies `undefined` for them: in the code, `filters.labels.length` would then throw and `fetchNotes` would report a failure.
- Rendering, routing and the other components (`App.jsx`, `PrivateRoute.jsx`, `Dropdown.jsx`, `NoteCard.jsx`, `LabelManager.jsx`, `CreateNoteModal.jsx`, `ColorPicker.jsx`, `Textarea.jsx`, `LoadingSpinner.jsx`): markup and form state only.
