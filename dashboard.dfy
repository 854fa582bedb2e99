/** The saved-workflow list of src/pages/Dashboard.tsx: the list state, the
    search term, deletion by identifier and the case-insensitive search. The
    dashboard reads the list the editor page writes, so its rows are the
    stored workflow records; the source's `WorkflowListItem` view names only
    the fields used here (`id`, `name`, `type` as `typeName`, `updatedAt`). */
module Dashboard {
  import opened Seqs
  import opened Text
  import opened WorkflowTypes
  import EditorPage

  /** The list without the items whose identifier is `id`; a record without
      an identifier is never deleted (see
      DeleteByIdKeepsOrder for the order). */
  function DeleteById(items: seq<WorkflowData>, id: string): (r: seq<WorkflowData>)
    ensures forall w :: w in r <==> w in items && w.id != Some(id)
    ensures |r| <= |items|
  {
    Filter(items, (w: WorkflowData) => w.id != Some(id))
  }

  /** Deletion keeps the other items in their original order and with all their
      occurrences, and removes every occurrence of an item with that id. */
  lemma DeleteByIdKeepsOrder(items: seq<WorkflowData>, id: string)
    ensures Subseq(DeleteById(items, id), items)
    ensures forall w :: multiset(DeleteById(items, id))[w] ==
                        (if w.id != Some(id) then multiset(items)[w] else 0)
  {
    FilterOrder(items, (w: WorkflowData) => w.id != Some(id));
  }

  /** Deleting an identifier no item has leaves the list as it was. */
  lemma DeleteAbsentIdIsNoOp(items: seq<WorkflowData>, id: string)
    requires forall w :: w in items ==> w.id != Some(id)
    ensures DeleteById(items, id) == items
  {
    FilterKeepsAll(items, (w: WorkflowData) => w.id != Some(id));
  }

  /** The search predicate: the lower-cased term occurs in the lower-cased
      name or in the lower-cased type. */
  predicate Matches(w: WorkflowData, term: string) {
    Includes(ToLower(w.name), ToLower(term)) || Includes(ToLower(w.typeName), ToLower(term))
  }

  /** The items shown for a search term (see SearchKeepsOrder for the order):
      an item is shown exactly when it is in the list and the lower-cased term
      is a substring of its lower-cased name or of its lower-cased type. */
  function Search(items: seq<WorkflowData>, term: string): (r: seq<WorkflowData>)
    ensures forall w :: w in r <==>
      w in items &&
      ((exists i :: OccursAt(ToLower(w.name), ToLower(term), i)) ||
       (exists i :: OccursAt(ToLower(w.typeName), ToLower(term), i)))
    ensures |r| <= |items|
  {
    Filter(items, (w: WorkflowData) => Matches(w, term))
  }

  /** The shown items are a sub-sequence of the list, each with all its
      occurrences. */
  lemma SearchKeepsOrder(items: seq<WorkflowData>, term: string)
    ensures Subseq(Search(items, term), items)
    ensures forall w :: multiset(Search(items, term))[w] ==
                        (if Matches(w, term) then multiset(items)[w] else 0)
  {
    FilterOrder(items, (w: WorkflowData) => Matches(w, term));
  }

  /** An empty search term shows the whole list. */
  lemma SearchEmptyTerm(items: seq<WorkflowData>)
    ensures Search(items, "") == items
  {
    forall w | w in items ensures Matches(w, "") {
      IncludesEmpty(ToLower(w.name));
    }
    FilterKeepsAll(items, (w: WorkflowData) => Matches(w, ""));
  }

  /** The search ignores the case of the term. */
  lemma SearchIgnoresTermCase(items: seq<WorkflowData>, term: string)
    ensures Search(items, ToLower(term)) == Search(items, term)
  {
    ToLowerIdempotent(term);
    FilterSameOn(items, (w: WorkflowData) => Matches(w, ToLower(term)), (w: WorkflowData) => Matches(w, term));
  }

  /** The dashboard component: the saved list and the search box. */
  class DashboardPage {
    var workflows: seq<WorkflowData>
    var searchTerm: string

    /** Mounting reads the stored list; `None` stands for nothing stored. */
    constructor (stored: Option<seq<WorkflowData>>)
      ensures workflows == (if stored.Some? then stored.value else [])
      ensures searchTerm == ""
    {
      workflows := if stored.Some? then stored.value else [];
      searchTerm := "";
    }

    method SetSearchTerm(term: string)
      modifies this`searchTerm
      ensures searchTerm == term
    {
      searchTerm := term;
    }

    /** Deleting after the confirmation dialog; `confirmed` is the user's
        answer, and a refusal leaves the list unchanged. */
    method HandleDelete(id: string, confirmed: bool)
      modifies this`workflows
      ensures workflows == if confirmed then DeleteById(old(workflows), id) else old(workflows)
      ensures forall w :: w in workflows ==> w in old(workflows)
      ensures confirmed ==> forall w :: w in workflows ==> w.id != Some(id)
    {
      if confirmed {
        workflows := DeleteById(workflows, id);
      }
    }

    /** The rows the table shows: an order-preserving selection of the list,
        the whole list while the search box is empty. */
    function Filtered(): (r: seq<WorkflowData>)
      reads this
      ensures Subseq(r, workflows)
      ensures forall w :: w in r ==> w in workflows
      ensures searchTerm == "" ==> r == workflows
    {
      SearchKeepsOrder(workflows, searchTerm);
      SearchEmptyTerm(workflows);
      Search(workflows, searchTerm)
    }
  }

  /** A stored record shows up when searching for its own name. */
  lemma SearchFindsOwnName(items: seq<WorkflowData>, w: WorkflowData)
    requires w in items
    ensures w in Search(items, w.name)
  {
    var s := ToLower(w.name);
    assert s[0..|s|] == s;
    assert OccursAt(s, s, 0);
  }

  /** A workflow saved from the editor page shows up on the dashboard when
      searching for the name it was saved under. */
  lemma SaveThenSearch(saved: seq<WorkflowData>, routeId: string, w: WorkflowData, freshId: string,
                       name: string, sel: EditorPage.Categories, now: string)
    requires routeId != "new" ==> EditorPage.FindSaved(saved, routeId).Some?
    ensures var data := EditorPage.BuildRecord(w, routeId, freshId, name, sel, now);
            data in Search(EditorPage.Upsert(saved, routeId, data), name)
  {
    var data := EditorPage.BuildRecord(w, routeId, freshId, name, sel, now);
    var r := EditorPage.Upsert(saved, routeId, data);
    if routeId == "new" {
      EditorPage.UpsertNewAppends(saved, data);
      assert r[|saved|] == data;
    } else {
      var k :| 0 <= k < |saved| && saved[k] == EditorPage.FindSaved(saved, routeId).value;
      EditorPage.UpsertReplaces(saved, routeId, data);
      assert r[k] == data;
    }
    SearchFindsOwnName(r, data);
  }

  /** Deleting a newly saved workflow from the dashboard gives back the list
      as it was before the save, when its fresh identifier was unused. */
  lemma SaveNewThenDelete(saved: seq<WorkflowData>, w: WorkflowData, freshId: string,
                          name: string, sel: EditorPage.Categories, now: string)
    requires EditorPage.FindSaved(saved, freshId).None?
    ensures var data := EditorPage.BuildRecord(w, "new", freshId, name, sel, now);
            DeleteById(EditorPage.Upsert(saved, "new", data), freshId) == saved
  {
    var data := EditorPage.BuildRecord(w, "new", freshId, name, sel, now);
    var p := (x: WorkflowData) => x.id != Some(freshId);
    FilterAppend(saved, [data], p);
    FilterKeepsAll(saved, p);
    FilterDropsAll([data], p);
  }
}
