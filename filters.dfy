/** The store's query criteria and the request parameters `fetchNotes` derives from them
    (src/contexts/NotesContext.jsx, lines 19-35 and 229-231). */
module NoteFilters {
  import opened Wrappers
  import opened Entities
  import opened Seqs

  /** `filters`: `isPinned` and `isArchived` may be `undefined` (`None`). */
  datatype Filters = Filters(search: string, labels: seq<Id>, isPinned: Option<bool>, isArchived: Option<bool>)

  /** The initial state: no search, no labels, pin unconstrained, active notes only. */
  const DefaultFilters: Filters := Filters("", [], None, Some(false))

  /** The object passed to `updateFilters`: `None` is a field the caller did not supply. A supplied
      `isPinned` or `isArchived` may itself be `undefined`, which the spread copies over. */
  datatype FilterPatch = FilterPatch(
    search: Option<string>,
    labels: Option<seq<Id>>,
    isPinned: Option<Option<bool>>,
    isArchived: Option<Option<bool>>)

  const NoChange: FilterPatch := FilterPatch(None, None, None, None)

  function Override<T>(current: T, given: Option<T>): T
  {
    if given.Some? then given.value else current
  }

  /** `{ ...prev, ...newFilters }`: every supplied field wins, every other field is kept. */
  function Merge(prev: Filters, patch: FilterPatch): (r: Filters)
    ensures patch.search.Some? ==> r.search == patch.search.value
    ensures patch.search.None? ==> r.search == prev.search
    ensures patch.labels.Some? ==> r.labels == patch.labels.value
    ensures patch.labels.None? ==> r.labels == prev.labels
    ensures patch.isPinned.Some? ==> r.isPinned == patch.isPinned.value
    ensures patch.isPinned.None? ==> r.isPinned == prev.isPinned
    ensures patch.isArchived.Some? ==> r.isArchived == patch.isArchived.value
    ensures patch.isArchived.None? ==> r.isArchived == prev.isArchived
  {
    Filters(
      Override(prev.search, patch.search),
      Override(prev.labels, patch.labels),
      Override(prev.isPinned, patch.isPinned),
      Override(prev.isArchived, patch.isArchived))
  }

  /** The patch that supplies `q`'s fields and, where `q` is silent, `p`'s. */
  function Then(p: FilterPatch, q: FilterPatch): FilterPatch
  {
    FilterPatch(
      if q.search.Some? then q.search else p.search,
      if q.labels.Some? then q.labels else p.labels,
      if q.isPinned.Some? then q.isPinned else p.isPinned,
      if q.isArchived.Some? then q.isArchived else p.isArchived)
  }

  /** An empty patch changes nothing, and applying a patch twice is applying it once. */
  lemma MergeNoChangeAndIdempotent(f: Filters, p: FilterPatch)
    ensures Merge(f, NoChange) == f
    ensures Merge(Merge(f, p), p) == Merge(f, p)
  {
  }

  /** Two successive `updateFilters` calls equal one call with the later fields winning. */
  lemma MergeThen(f: Filters, p: FilterPatch, q: FilterPatch)
    ensures Merge(Merge(f, p), q) == Merge(f, Then(p, q))
  {
  }

  /** The query object of `GET /notes`; a `None` key is absent from the request. */
  datatype Params = Params(search: Option<string>, labels: Option<string>, isPinned: Option<bool>, isArchived: Option<bool>)

  predicate IsComma(c: char) { c == ',' }

  /** How many commas `s` holds. */
  function CommaCount(s: string): nat
  {
    |Filter(s, IsComma)|
  }

  /** `Array.prototype.join(',')`: the empty list gives the empty string; otherwise the result starts
      with the first id, and for comma-free ids it holds exactly one separator fewer than ids. */
  function Join(ids: seq<Id>): (r: string)
    ensures |ids| == 0 ==> r == ""
    ensures |ids| > 0 ==> ids[0] <= r
    ensures NoCommas(ids) ==> CommaCount(r) == if |ids| == 0 then 0 else |ids| - 1
  {
    if |ids| == 0 then ""
    else if |ids| == 1 then
      ids[0]
    else
      var rest := Join(ids[1..]);
      var r := ids[0] + "," + rest;
      assert NoCommas(ids) ==> CommaCount(r) == |ids| - 1 by {
        if NoCommas(ids) {
          assert NoCommas(ids[1..]);
          FilterConcat(ids[0] + ",", rest, IsComma);
          FilterConcat(ids[0], ",", IsComma);
          assert Filter(",", IsComma) == [','];
        }
      }
      assert ids[0] <= r;
      r
  }

  /** `String.prototype.split(',')`: the inverse of the comma join, used to state that joining the
      selected label ids loses no information. */
  function Split(s: string): (r: seq<string>)
    ensures |r| >= 1
  {
    if s == [] then [""]
    else
      var rest := Split(s[1..]);
      if s[0] == ',' then [""] + rest
      else [[s[0]] + rest[0]] + rest[1..]
  }

  predicate NoCommas(ids: seq<Id>)
  {
    forall k :: 0 <= k < |ids| ==> ',' !in ids[k]
  }

  /** The derivation at the top of `fetchNotes`: `search` only when non-empty, `labels` joined with
      commas only when some label is selected, `isPinned` and `isArchived` whenever defined. */
  function RequestParams(f: Filters): (r: Params)
    ensures r.search.Some? <==> f.search != ""
    ensures r.search.Some? ==> r.search.value == f.search
    ensures r.labels.Some? <==> |f.labels| > 0
    ensures r.labels.Some? && NoCommas(f.labels) ==> Split(r.labels.value) == f.labels
    ensures r.isPinned == f.isPinned
    ensures r.isArchived == f.isArchived
  {
    var labels := if |f.labels| > 0 then Some(Join(f.labels)) else None;
    assert labels.Some? && NoCommas(f.labels) ==> Split(labels.value) == f.labels by {
      if |f.labels| > 0 && NoCommas(f.labels) {
        SplitJoin(f.labels);
      }
    }
    Params(if f.search != "" then Some(f.search) else None, labels, f.isPinned, f.isArchived)
  }

  /** With the initial filters only `isArchived=false` is sent. */
  lemma DefaultRequest()
    ensures RequestParams(DefaultFilters) == Params(None, None, None, Some(false))
  {
  }

  lemma {:induction false} SplitWithoutComma(x: string)
    requires ',' !in x
    ensures Split(x) == [x]
  {
    if x != [] {
      assert x[0] != ',' && x[0] in x;
      SplitWithoutComma(x[1..]);
      assert [x[0]] + x[1..] == x;
    }
  }

  lemma {:induction false} SplitAtFirstComma(x: string, t: string)
    requires ',' !in x
    ensures Split(x + "," + t) == [x] + Split(t)
  {
    if x == [] {
      assert x + "," + t == [','] + t;
      assert (x + "," + t)[1..] == t;
    } else {
      assert (x + "," + t)[1..] == x[1..] + "," + t;
      SplitAtFirstComma(x[1..], t);
      assert [x[0]] + x[1..] == x;
    }
  }

  /** Joining loses no information: splitting the joined list gives the list back, provided no id
      contains a comma and the list is not empty (`[''].join(',')` is `''` too). */
  lemma {:induction false} SplitJoin(ids: seq<Id>)
    requires |ids| > 0 && NoCommas(ids)
    ensures Split(Join(ids)) == ids
  {
    if |ids| == 1 {
      SplitWithoutComma(ids[0]);
    } else {
      SplitJoin(ids[1..]);
      SplitAtFirstComma(ids[0], Join(ids[1..]));
      assert [ids[0]] + ids[1..] == ids;
    }
  }
}
