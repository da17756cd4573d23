/** The view partition of src/pages/Dashboard.jsx: pinned-active, unpinned-active and archived groups
    of the store's `notes`, the sequence the page displays, and the `archived` query flag. */
module Dashboard {
  import opened Wrappers
  import opened Entities
  import opened Seqs
  import opened NoteFilters
  import opened NoteUpdates

  predicate IsPinnedActive(n: Note) { n.isPinned && !n.isArchived }
  predicate IsUnpinnedActive(n: Note) { !n.isPinned && !n.isArchived }
  predicate IsArchivedNote(n: Note) { n.isArchived }

  /** `notes.filter(note => note.isPinned && !note.isArchived)`. */
  function PinnedNotes(notes: seq<Note>): (r: seq<Note>)
    ensures forall n :: n in r <==> n in notes && n.isPinned && !n.isArchived
    ensures forall i :: 0 <= i < |r| ==> r[i].isPinned && !r[i].isArchived
    ensures IsSubsequence(r, notes)
  {
    Filter(notes, IsPinnedActive)
  }

  /** `notes.filter(note => !note.isPinned && !note.isArchived)`. */
  function UnpinnedNotes(notes: seq<Note>): (r: seq<Note>)
    ensures forall n :: n in r <==> n in notes && !n.isPinned && !n.isArchived
    ensures forall i :: 0 <= i < |r| ==> !r[i].isPinned && !r[i].isArchived
    ensures IsSubsequence(r, notes)
  {
    Filter(notes, IsUnpinnedActive)
  }

  /** `notes.filter(note => note.isArchived)`. */
  function ArchivedNotes(notes: seq<Note>): (r: seq<Note>)
    ensures forall n :: n in r <==> n in notes && n.isArchived
    ensures IsSubsequence(r, notes)
  {
    Filter(notes, IsArchivedNote)
  }

  /** The three groups split `notes` exactly: every note lands in one group, as often as it occurs. */
  lemma PartitionExact(notes: seq<Note>)
    ensures multiset(PinnedNotes(notes)) + multiset(UnpinnedNotes(notes)) + multiset(ArchivedNotes(notes)) == multiset(notes)
    ensures |PinnedNotes(notes)| + |UnpinnedNotes(notes)| + |ArchivedNotes(notes)| == |notes|
  {
    var p, u, a := PinnedNotes(notes), UnpinnedNotes(notes), ArchivedNotes(notes);
    forall n ensures (multiset(p) + multiset(u) + multiset(a))[n] == multiset(notes)[n] {
      assert multiset(p)[n] == if IsPinnedActive(n) then multiset(notes)[n] else 0;
      assert multiset(u)[n] == if IsUnpinnedActive(n) then multiset(notes)[n] else 0;
      assert multiset(a)[n] == if IsArchivedNote(n) then multiset(notes)[n] else 0;
    }
    assert multiset(p) + multiset(u) + multiset(a) == multiset(notes);
    assert |multiset(p) + multiset(u) + multiset(a)| == |p| + |u| + |a|;
  }

  /** No note is in two groups, and every note is in one. */
  lemma PartitionDisjointAndCovering(notes: seq<Note>)
    ensures forall n :: !(n in PinnedNotes(notes) && n in UnpinnedNotes(notes))
    ensures forall n :: !(n in PinnedNotes(notes) && n in ArchivedNotes(notes))
    ensures forall n :: !(n in UnpinnedNotes(notes) && n in ArchivedNotes(notes))
    ensures forall n :: n in notes ==> n in PinnedNotes(notes) || n in UnpinnedNotes(notes) || n in ArchivedNotes(notes)
  {
  }

  /** A note both pinned and archived is shown only among the archived ones. */
  lemma PinnedArchivedIsArchived(notes: seq<Note>, n: Note)
    requires n in notes && n.isPinned && n.isArchived
    ensures n in ArchivedNotes(notes) && n !in PinnedNotes(notes) && n !in UnpinnedNotes(notes)
  {
  }

  /** `isArchiveView ? archivedNotes : [...pinnedNotes, ...unpinnedNotes]`. In the archive view it
      is the archived group; otherwise it lists exactly the active notes, every pinned one before
      every unpinned one, and its count is the sum of the two groups. */
  function DisplayNotes(notes: seq<Note>, isArchiveView: bool): (r: seq<Note>)
    ensures isArchiveView ==> r == ArchivedNotes(notes)
    ensures !isArchiveView ==> |r| == |PinnedNotes(notes)| + |UnpinnedNotes(notes)|
    ensures !isArchiveView ==> r[..|PinnedNotes(notes)|] == PinnedNotes(notes)
    ensures !isArchiveView ==> r[|PinnedNotes(notes)|..] == UnpinnedNotes(notes)
    ensures !isArchiveView ==> forall n :: n in r <==> n in notes && !n.isArchived
    ensures !isArchiveView ==> forall i, j :: 0 <= i < j < |r| && !r[i].isPinned ==> !r[j].isPinned
  {
    if isArchiveView then ArchivedNotes(notes)
    else
      PinnedFirst(PinnedNotes(notes), UnpinnedNotes(notes));
      PinnedNotes(notes) + UnpinnedNotes(notes)
  }

  lemma PinnedFirst(p: seq<Note>, u: seq<Note>)
    requires forall k :: 0 <= k < |p| ==> p[k].isPinned
    requires forall k :: 0 <= k < |u| ==> !u[k].isPinned
    ensures forall i, j :: 0 <= i < j < |p + u| && !(p + u)[i].isPinned ==> !(p + u)[j].isPinned
  {
    var d := p + u;
    assert forall k :: |p| <= k < |d| ==> d[k] == u[k - |p|];
  }

  /** When the cache holds only active notes, the active view hides none of them. */
  lemma ActiveViewShowsAll(notes: seq<Note>)
    requires InView(notes, Some(false))
    ensures multiset(DisplayNotes(notes, false)) == multiset(notes)
  {
    PartitionExact(notes);
    var a := ArchivedNotes(notes);
    forall n ensures multiset(a)[n] == 0 {
      assert n in notes ==> !n.isArchived;
    }
    assert multiset(a) == multiset{};
  }

  /** When the cache holds only archived notes, the archive view shows exactly the cache. */
  lemma ArchiveViewShowsAll(notes: seq<Note>)
    requires InView(notes, Some(true))
    ensures DisplayNotes(notes, true) == notes
  {
    FilterKeepsAll(notes, IsArchivedNote);
  }

  /** `searchParams.get('archived') === 'true'`; `None` is an absent parameter, which means the
      active view, as does every value other than the exact string 'true'. */
  function IsArchiveView(archivedParam: Option<string>): (r: bool)
    ensures archivedParam.None? ==> !r
    ensures archivedParam.Some? ==> (r <==> archivedParam.value == "true")
  {
    archivedParam == Some("true")
  }

  /** The effect of the view flag on the filter: `updateFilters({ isArchived: isArchiveView })`. */
  function ViewPatch(archivedParam: Option<string>): (r: FilterPatch)
    ensures r.search.None? && r.labels.None? && r.isPinned.None?
    ensures r.isArchived == Some(Some(archivedParam == Some("true")))
  {
    FilterPatch(None, None, None, Some(Some(IsArchiveView(archivedParam))))
  }

  /** The filter asks for archived notes exactly when the parameter is the string 'true', and the
      view switch leaves every other filter field alone. */
  lemma ViewPatchSetsArchived(f: Filters, archivedParam: Option<string>)
    ensures Merge(f, ViewPatch(archivedParam)).isArchived == Some(true) <==> archivedParam == Some("true")
    ensures Merge(f, ViewPatch(archivedParam)).isArchived == Some(false) <==> archivedParam != Some("true")
    ensures Merge(f, ViewPatch(archivedParam)) == f.(isArchived := Merge(f, ViewPatch(archivedParam)).isArchived)
  {
  }
}
