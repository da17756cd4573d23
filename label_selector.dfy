/** The selection logic of src/components/LabelSelector.jsx: the ids ticked for a note being edited. */
module LabelSelector {
  import opened Entities
  import opened Seqs

  /** `selected.includes(labelId)`: some position of the list holds the id. */
  predicate IsSelected(selected: seq<Id>, labelId: Id)
    ensures IsSelected(selected, labelId) <==> exists k :: 0 <= k < |selected| && selected[k] == labelId
  {
    labelId in selected
  }

  /** `selected.filter(id => id !== labelId)`. */
  function Unselect(selected: seq<Id>, labelId: Id): (r: seq<Id>)
    ensures !IsSelected(r, labelId)
    ensures forall x :: multiset(r)[x] == if x == labelId then 0 else multiset(selected)[x]
    ensures IsSubsequence(r, selected)
  {
    Filter(selected, (x: Id) => x != labelId)
  }

  /** `toggleLabel`: a selected id is removed (every occurrence), any other is appended. */
  function ToggleLabel(selected: seq<Id>, labelId: Id): (r: seq<Id>)
    ensures IsSelected(selected, labelId) ==> r == Unselect(selected, labelId)
    ensures !IsSelected(selected, labelId) ==> r == selected + [labelId]
    ensures IsSelected(r, labelId) <==> !IsSelected(selected, labelId)
    ensures forall other :: other != labelId ==> (IsSelected(r, other) <==> IsSelected(selected, other))
  {
    if labelId in selected then Unselect(selected, labelId) else selected + [labelId]
  }

  /** Unselecting an id that was only appended at the end restores the list. */
  lemma {:induction false} UnselectAppended(selected: seq<Id>, labelId: Id)
    requires !IsSelected(selected, labelId)
    ensures Unselect(selected + [labelId], labelId) == selected
  {
    if selected == [] {
      assert [] + [labelId] == [labelId];
    } else {
      assert (selected + [labelId])[1..] == selected[1..] + [labelId];
      UnselectAppended(selected[1..], labelId);
      assert [selected[0]] + selected[1..] == selected;
    }
  }

  /** Ticking an unselected label and unticking it again gives back the original list. */
  lemma ToggleTwiceAbsent(selected: seq<Id>, labelId: Id)
    requires !IsSelected(selected, labelId)
    ensures ToggleLabel(ToggleLabel(selected, labelId), labelId) == selected
  {
    UnselectAppended(selected, labelId);
  }

  /** Unticking and ticking again restores which ids are selected (the order may change). */
  lemma ToggleTwicePresent(selected: seq<Id>, labelId: Id)
    requires IsSelected(selected, labelId)
    ensures forall x :: IsSelected(ToggleLabel(ToggleLabel(selected, labelId), labelId), x) <==> IsSelected(selected, x)
  {
  }
}
