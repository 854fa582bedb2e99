/** The editor page of src/pages/WorkflowEditor.tsx: the name and category
    selection, the load effect that reopens a saved workflow, and the save
    handler with its validation chain and upsert into the saved list. */
module EditorPage {
  import opened Seqs
  import opened Text
  import opened WorkflowTypes
  import Graph

  /** The selected category and subcategory. */
  datatype Categories = Categories(category: string, subcategory: string)

  /** Why a save was refused, in the order the handler checks. */
  datatype SaveError = NameMissing | CategoryMissing | WorkflowMissing

  /** A refused save (the stored list stays as it was) or the list to store. */
  datatype SaveOutcome = Rejected(error: SaveError) | Saved(workflows: seq<WorkflowData>)

  /** The stored `type` string: category and subcategory joined by '/'. */
  function TypeOf(sel: Categories): (r: string)
    ensures '/' !in sel.category && '/' !in sel.subcategory ==>
              Split(r, '/') == [sel.category, sel.subcategory]
  {
    var parts := [sel.category, sel.subcategory];
    assert Join(parts, '/') == sel.category + "/" + sel.subcategory;
    assert '/' !in sel.category && '/' !in sel.subcategory ==> Split(Join(parts, '/'), '/') == parts by {
      if '/' !in sel.category && '/' !in sel.subcategory { SplitJoin(parts, '/'); }
    }
    sel.category + "/" + sel.subcategory
  }

  /** Destructuring the first two pieces of `type.split('/')`; a missing second
      piece stands as the empty string, which the save guard refuses like the
      source's `undefined`. */
  function ParseType(t: string): (r: Categories)
    ensures '/' !in r.category && '/' !in r.subcategory
    ensures '/' !in t ==> r == Categories(t, "")
  {
    var parts := Split(t, '/');
    assert '/' !in t ==> parts == [t] by {
      if '/' !in t { SplitNoSeparator(t, '/'); }
    }
    Categories(parts[0], if |parts| >= 2 then parts[1] else "")
  }

  /** Splitting the joined type recovers the selection when neither part
      contains '/'. */
  lemma ParseTypeOf(sel: Categories)
    requires '/' !in sel.category && '/' !in sel.subcategory
    ensures ParseType(TypeOf(sel)) == sel
  {
  }

  /** The saved workflow with identifier `id`, as `find` returns it. */
  function FindSaved(saved: seq<WorkflowData>, id: string): (r: Option<WorkflowData>)
    ensures r.Some? ==> r.value in saved && r.value.id == Some(id)
    ensures r.Some? ==> exists i :: 0 <= i < |saved| && saved[i] == r.value &&
                                    forall j :: 0 <= j < i ==> saved[j].id != Some(id)
    ensures r.None? <==> forall w :: w in saved ==> w.id != Some(id)
  {
    FindFirst(saved, (w: WorkflowData) => w.id == Some(id))
  }

  /** The record a save stores: the edited workflow with its identifier (a
      fresh one for a new workflow, otherwise the route's), the entered name,
      the joined type and the timestamps. The graph itself is kept. */
  function BuildRecord(w: WorkflowData, routeId: string, freshId: string, name: string,
                       sel: Categories, now: string): (r: WorkflowData)
    ensures r.id == Some(if routeId == "new" then freshId else routeId)
    ensures r.name == name
    ensures r.typeName == sel.category + "/" + sel.subcategory
    ensures '/' !in sel.category && '/' !in sel.subcategory ==> ParseType(r.typeName) == sel
    ensures r.createdAt == OrElse(Some(w.createdAt), now) && r.updatedAt == now
    ensures r.elements == w.elements && r.connections == w.connections
    ensures r.workflowKey == w.workflowKey
  {
    assert '/' !in sel.category && '/' !in sel.subcategory ==> ParseType(TypeOf(sel)) == sel by {
      if '/' !in sel.category && '/' !in sel.subcategory { ParseTypeOf(sel); }
    }
    w.(id := Some(if routeId == "new" then freshId else routeId),
       name := name,
       typeName := TypeOf(sel),
       createdAt := if w.createdAt != "" then w.createdAt else now,
       updatedAt := now)
  }

  /** The list written back: a new workflow is appended, an existing one
      replaces every saved item with the route's identifier. */
  function Upsert(saved: seq<WorkflowData>, routeId: string, data: WorkflowData): (r: seq<WorkflowData>)
    ensures routeId == "new" ==> |r| == |saved| + 1
    ensures routeId != "new" ==> |r| == |saved|
  {
    if routeId == "new" then saved + [data]
    else seq(|saved|, i requires 0 <= i < |saved| =>
               if saved[i].id == Some(routeId) then data else saved[i])
  }

  /** A new workflow goes after every saved one, which are kept as they were. */
  lemma UpsertNewAppends(saved: seq<WorkflowData>, data: WorkflowData)
    ensures Upsert(saved, "new", data)[..|saved|] == saved
    ensures Upsert(saved, "new", data)[|saved|] == data
  {
  }

  /** Saving an existing workflow replaces, position by position, exactly the
      items with its identifier. */
  lemma UpsertReplaces(saved: seq<WorkflowData>, routeId: string, data: WorkflowData)
    requires routeId != "new"
    ensures forall i :: 0 <= i < |saved| && saved[i].id == Some(routeId) ==>
              Upsert(saved, routeId, data)[i] == data
    ensures forall i :: 0 <= i < |saved| && saved[i].id != Some(routeId) ==>
              Upsert(saved, routeId, data)[i] == saved[i]
  {
  }

  /** Saving under an identifier no saved item has changes nothing. */
  lemma UpsertAbsentIsNoOp(saved: seq<WorkflowData>, routeId: string, data: WorkflowData)
    requires routeId != "new" && FindSaved(saved, routeId).None?
    ensures Upsert(saved, routeId, data) == saved
  {
    forall i | 0 <= i < |saved| ensures Upsert(saved, routeId, data)[i] == saved[i] {
      assert saved[i] in saved;
    }
  }

  /** After a save that stores `data` under its identifier, looking that
      identifier up finds `data`: a new workflow needs an identifier no saved
      item has, an existing one needs to be in the list. */
  lemma UpsertThenFind(saved: seq<WorkflowData>, routeId: string, data: WorkflowData)
    requires data.id.Some?
    requires routeId == "new" ==> FindSaved(saved, data.id.value).None?
    requires routeId != "new" ==> data.id == Some(routeId) && FindSaved(saved, routeId).Some?
    ensures FindSaved(Upsert(saved, routeId, data), data.id.value) == Some(data)
  {
    var r := Upsert(saved, routeId, data);
    var id := data.id.value;
    if routeId == "new" {
      assert r[|saved|] == data;
      forall i | 0 <= i < |saved| ensures r[i].id != Some(id) {
        assert r[i] == saved[i] && saved[i] in saved;
      }
    } else {
      var w := FindSaved(saved, routeId).value;
      var k :| 0 <= k < |saved| && saved[k] == w;
      assert r[k] == data;
      assert forall i :: 0 <= i < |r| && r[i].id == Some(id) ==> r[i] == data;
    }
  }

  /** The editor page's state. `routeId` is the `:id` route parameter. */
  class EditorPage {
    const routeId: string
    var name: string
    var selected: Categories
    /** The edited workflow; `None` before anything was loaded or drawn. */
    var workflow: Option<WorkflowData>

    constructor (routeId: string)
      ensures this.routeId == routeId
      ensures name == "" && selected == Categories("", "") && workflow.None?
    {
      this.routeId := routeId;
      name, selected, workflow := "", Categories("", ""), None;
    }

    /** The load effect: for an existing route, a saved workflow with the
        route's identifier fills the workflow, the name and the selection. */
    method Load(saved: seq<WorkflowData>)
      modifies this`workflow, this`name, this`selected
      ensures routeId == "new" || FindSaved(saved, routeId).None? ==>
                workflow == old(workflow) && name == old(name) && selected == old(selected)
      ensures routeId != "new" && FindSaved(saved, routeId).Some? ==>
                workflow == FindSaved(saved, routeId) && name == workflow.value.name &&
                selected == ParseType(workflow.value.typeName)
    {
      if routeId != "new" {
        var existing := FindSaved(saved, routeId);
        if existing.Some? {
          workflow := existing;
          name := existing.value.name;
          selected := ParseType(existing.value.typeName);
        }
      }
    }

    method SetName(n: string)
      modifies this`name
      ensures name == n
    {
      name := n;
    }

    /** Choosing a category clears the subcategory. */
    method SelectCategory(c: string)
      modifies this`selected
      ensures selected == Categories(c, "")
    {
      selected := Categories(c, "");
    }

    method SelectSubcategory(s: string)
      modifies this`selected
      ensures selected == old(selected).(subcategory := s)
    {
      selected := selected.(subcategory := s);
    }

    /** The embedded editor reports a changed workflow. */
    method WorkflowChange(w: WorkflowData)
      modifies this`workflow
      ensures workflow == Some(w)
    {
      workflow := Some(w);
    }

    /** The save handler. The guards run in order (name, then category and
        subcategory, then workflow) and the first that fails decides the
        refusal; otherwise the built record is upserted into `saved`.
        `freshId` and `now` stand for the random identifier and the clock. */
    method HandleSave(saved: seq<WorkflowData>, freshId: string, now: string) returns (r: SaveOutcome)
      ensures name == "" ==> r == Rejected(NameMissing)
      ensures name != "" && (selected.category == "" || selected.subcategory == "") ==>
                r == Rejected(CategoryMissing)
      ensures name != "" && selected.category != "" && selected.subcategory != "" && workflow.None? ==>
                r == Rejected(WorkflowMissing)
      ensures r.Saved? <==>
                name != "" && selected.category != "" && selected.subcategory != "" && workflow.Some?
      ensures r.Saved? ==>
                r.workflows == Upsert(saved, routeId,
                                      BuildRecord(workflow.value, routeId, freshId, name, selected, now))
    {
      if name == "" {
        return Rejected(NameMissing);
      }
      if selected.category == "" || selected.subcategory == "" {
        return Rejected(CategoryMissing);
      }
      if workflow.None? {
        return Rejected(WorkflowMissing);
      }
      var data := BuildRecord(workflow.value, routeId, freshId, name, selected, now);
      r := Saved(Upsert(saved, routeId, data));
    }
  }

  /** The page hands the embedded editor the joined selection as its workflow
      type, which is "/" before anything is selected: a workflow started on a
      fresh page gets "/" as both its key and its type, not "approval". */
  lemma FreshPageWorkflow(now: string)
    ensures var w := Graph.InitialWorkflow(None, Some(TypeOf(Categories("", ""))), now);
            w.workflowKey == "/" && w.typeName == "/"
  {
  }

  /** Reopening what a save stored loads the saved record back: the same
      record, name and selection (when neither part contains '/'). */
  lemma SaveThenReload(saved: seq<WorkflowData>, routeId: string, w: WorkflowData,
                       freshId: string, name: string, sel: Categories, now: string)
    requires '/' !in sel.category && '/' !in sel.subcategory
    requires routeId == "new" ==> FindSaved(saved, freshId).None?
    requires routeId != "new" ==> FindSaved(saved, routeId).Some?
    ensures var data := BuildRecord(w, routeId, freshId, name, sel, now);
            var found := FindSaved(Upsert(saved, routeId, data), data.id.value);
            found == Some(data) && found.value.name == name && ParseType(found.value.typeName) == sel
  {
    var data := BuildRecord(w, routeId, freshId, name, sel, now);
    UpsertThenFind(saved, routeId, data);
  }
}
