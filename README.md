# workflowEdit in Dafny

A model of the logic of the workflowEdit editor. workflowEdit is a React app for
drawing workflows as graphs: circle, arrow and text elements joined by
directed connections. It keeps a list of saved workflows and exports a
workflow as a tree. The model covers:

- **The graph store of the editor** (`src/App.tsx`). This is the one
  `workflow` state cell that every handler replaces:
  - dropping a toolbox item (add an element) or a canvas element (move it);
  - ending a connection drag;
  - editing an element's text;
  - deleting an element, with the cascade to its connections;
  - choosing the workflow key;
  - importing a file.

  Module `Graph` holds the pure body of each handler. Class
  `Store.WorkflowStore` holds the state and has one method per handler.
- **The tree export** (`generateJSON`/`buildNode`), in module `Export`. The
  roots are the circle elements that no connection points to. Each node
  carries the labels of its text targets and the nodes of all its resolving
  targets.
- **The dashboard** (`src/pages/Dashboard.tsx`), in module `Dashboard`:
  deleting saved workflows by id, and the case-insensitive search on name and
  type.
- **The editor page** (`src/pages/WorkflowEditor.tsx`), in module
  `EditorPage`:
  - the save handler: its three guards checked in order, the record it
    builds, and the append-or-replace "upsert" into the saved list;
  - the load effect, which reopens a saved workflow and splits its
    `category/subcategory` type.

Modules `Seqs` and `Text` model the JavaScript primitives the source is built
from: `filter`, `find`, `toLowerCase`, `includes` and `split`. Each is stated
once together with its contract. Module `WorkflowTypes` holds the records of
`src/types/workflow.ts`.

Some things cannot be modelled directly and become parameters:

- `Math.random` ids (`freshId`);
- `new Date()` timestamps (`now`);
- the answer to `confirm` (`confirmed`);
- `localStorage` contents (the `saved`/`stored` arguments and results);
- the result of `JSON.parse` on an imported file (an `Option`).

`buildNode` recurses without a bound. The model therefore takes a ghost rank
map, which witnesses that the connections are acyclic (`Graph.Ranked`).
`Export.ExportRankIrrelevant` shows that the export does not depend on which
witness is used.

The model keeps one quirk of the source as written. The toolbox wires only
`onDragStart` (src/components/Toolbox.tsx:16-32), so only a canvas element's
drag end clears the dragged toolbox type. Until then, `CanvasDrop` still sees
that type. So the first canvas-element move after a toolbox drop adds another
element instead of moving the dragged one.

## Model

| member | source | states |
|---|---|---|
| Seqs.Filter | src/App.tsx:215-218 | `Array.prototype.filter`: an element is in the result exactly when it is in the input and satisfies the predicate; the result is no longer than the input |
| Seqs.FilterOrder | src/pages/Dashboard.tsx:27 | filtering keeps the survivors in their original relative order (sub-sequence), keeps every occurrence of a value satisfying the predicate and drops every occurrence of any other value |
| Seqs.FilterKeepsAll | src/pages/Dashboard.tsx:33-36 | a predicate every element satisfies leaves the list unchanged |
| Seqs.FilterDropsAll | src/App.tsx:52-53 | a predicate no element satisfies leaves nothing |
| Seqs.FilterSameOn | src/pages/Dashboard.tsx:33-36 | two predicates that agree on every element give the same filtered list |
| Seqs.FilterAppend | src/App.tsx:46-49 | filtering distributes over concatenation |
| Seqs.FindFirst | src/App.tsx:55 | `Array.prototype.find`: `None` exactly when no element satisfies the predicate; otherwise the value is the element at the first satisfying index |
| Text.ToLower | src/pages/Dashboard.tsx:34-35 | ASCII `toLowerCase`: same length, no upper-case letter left, other characters kept, upper-case letters shifted to lower case |
| Text.ToLowerIdempotent | src/pages/Dashboard.tsx:34-35 | lower-casing twice is the same as lower-casing once |
| Text.OccursInTail | src/pages/Dashboard.tsx:34 | when the pattern is not a prefix of a non-empty string, it occurs in the string exactly when it occurs in the tail |
| Text.Includes | src/pages/Dashboard.tsx:34-35 | `String.prototype.includes` is true exactly when the pattern occurs at some index |
| Text.IncludesEmpty | src/pages/Dashboard.tsx:34-35 | every string includes the empty string |
| Text.Split | src/pages/WorkflowEditor.tsx:39 | `split` on one character: at least one piece, no piece contains the separator, and joining the pieces with the separator gives back the input |
| Text.SplitNoSeparator | src/pages/WorkflowEditor.tsx:39 | a string without the separator splits into itself alone |
| Text.SplitAfterPiece | src/pages/WorkflowEditor.tsx:39 | a separator-free piece, then the separator, then a rest, splits into the piece followed by the pieces of the rest |
| Text.SplitJoin | src/pages/WorkflowEditor.tsx:39 | split undoes join for at least one part when no part contains the separator |
| WorkflowTypes.OrElse | src/App.tsx:96 | JavaScript `a \|\| b` on an optional string: `a` when present and non-empty, otherwise `b` |
| Graph.AddElement | src/App.tsx:145-156 | exactly one element is appended at the end, with content "Text", "Circle" or "" by kind; earlier elements, connections and every other field are unchanged |
| Graph.MoveElement | src/App.tsx:157-165 | length, order, ids, kinds and contents of the elements are kept; exactly the elements with the id get the new position; nothing else changes |
| Graph.UpdateContent | src/App.tsx:201-210 | length, order, ids, kinds and positions are kept; exactly the elements with the id get the new content; nothing else changes |
| Graph.DeleteElement | src/App.tsx:212-220 | an element survives exactly when its id differs; a connection survives exactly when neither endpoint is the id; no element with the id is left; the other fields are unchanged |
| Graph.DeleteKeepsOrder | src/App.tsx:212-220 | the surviving elements and connections keep their relative order and all their occurrences; the removed ones lose every occurrence |
| Graph.AddConnection | src/App.tsx:184-196 | with a drag in progress from a different element, exactly one connection `{from, to, key: workflowKey}` is appended; ending on the start element, or with no drag, changes nothing; endpoints are not checked |
| Graph.SetKey | src/App.tsx:222-228 | only the workflow key changes; keys already stored on connections stay |
| Graph.Import | src/App.tsx:92-100 | a file that did not parse changes nothing; otherwise the file's fields replace the workflow, and the key is the file's non-empty `key`, else "approval" |
| Graph.InitialWorkflow | src/App.tsx:23-31 | the given workflow when there is one; otherwise an empty graph whose key is the workflow type, else "approval", and whose type is the workflow type, else "" |
| Graph.UnknownIdIsNoOp | src/App.tsx:157-165 | moving or editing an id that no element has changes nothing |
| Graph.MoveAndUpdateKeepInvariants | src/App.tsx:157-165 | move and edit keep the identifier sequence, resolvable endpoints, unique ids and any acyclicity witness |
| Graph.AddElementKeepsInvariants | src/App.tsx:145-156 | adding keeps every endpoint resolvable, and keeps ids unique when the new id is fresh |
| Graph.AddConnectionKeepsInvariants | src/App.tsx:184-196 | the editor never draws a self-loop; a connection between existing elements keeps endpoints resolvable |
| Graph.SubseqMembers | src/App.tsx:215-218 | every member of a sub-sequence is a member of the whole |
| Graph.SubseqUniqueIds | src/App.tsx:215 | a sub-sequence of elements with unique ids has unique ids |
| Graph.DeleteKeepsInvariants | src/App.tsx:212-220 | the cascade keeps endpoints resolvable (no dangling connection is left), unique ids, no self-loops and any acyclicity witness |
| Graph.DeleteUndoesAdd | src/App.tsx:145-156 | deleting a freshly added element, whose id no connection mentions, restores the graph exactly |
| Graph.FreshIdUnmentioned | src/App.tsx:212-220 | in a well-formed graph no connection mentions an id that no element has |
| Export.Find | src/App.tsx:55 | a found element has the id and sits at an index before which no element has it (the first match); `None` exactly when no element has the id |
| Export.FindText | src/App.tsx:63 | a found element is a text element with the id at an index before which no text element has it (the first match); `None` exactly when there is none |
| Export.Roots | src/App.tsx:46-49 | an element is a root exactly when it is a circle and no connection of any kind points to it |
| Export.Outgoing | src/App.tsx:52-53 | exactly the connections that leave the element |
| Export.BuildNode | src/App.tsx:51-75 | the node copies the element's id, type and content |
| Export.Children | src/App.tsx:52-58 | at most one child per outgoing connection |
| Export.LabelOf | src/App.tsx:62-65 | the first text element with the target id contributes its content when that is non-empty and nothing when it is empty; with no text element of that id there is no label; a label is never empty |
| Export.Labels | src/App.tsx:60-66 | at most one label per connection, and no label is empty (`filter(Boolean)`) |
| Export.GenerateJSON | src/App.tsx:77-80 | the key is the workflow key, and there is one node per root, in root order, with the root's id, circle type and content |
| Export.RootIff | src/App.tsx:46-49 | a circle element is a root exactly when no connection points to it |
| Export.RootsInOrder | src/App.tsx:46-49 | the roots keep element order and every occurrence |
| Export.Resolved | src/App.tsx:55-58 | exactly the connections whose target id resolves to an element |
| Export.BuildTargets | src/App.tsx:54-57 | one built node per resolving connection |
| Export.BuildTargetsAt | src/App.tsx:54-57 | entry k is the node of the element the k-th resolving connection points to |
| Export.ChildrenUnfold | src/App.tsx:54-58 | one step of `children`: a resolving target contributes its node in front, an unresolved target contributes nothing |
| Export.ChildrenPerResolvedTarget | src/App.tsx:52-58 | `children` is the built nodes of the resolving outgoing connections, in connection order |
| Export.LabelsSingle | src/App.tsx:60-66 | one connection contributes exactly its `LabelOf`, so with LabelsAppend the labels of any connection run are determined |
| Export.LabelsIff | src/App.tsx:60-66 | a string is a label exactly when some outgoing connection contributes it |
| Export.LabelsAppend | src/App.tsx:60-66 | labels follow connection order: labels of two runs are the labels of the first run followed by those of the second |
| Export.LabelsAlsoChildren | src/App.tsx:52-66 | with unique ids, every label also appears as the content of a text child |
| Export.LeafNode | src/App.tsx:51-75 | an element with no outgoing connection is exported with no labels and no children |
| Export.BuildNodeRankIrrelevant | src/App.tsx:51-75 | a node does not depend on the acyclicity witness |
| Export.ChildrenRankIrrelevant | src/App.tsx:52-58 | the children do not depend on the acyclicity witness |
| Export.ExportRankIrrelevant | src/App.tsx:45-81 | the export is a function of the graph alone |
| Export.ExampleShape | src/App.tsx:46-53 | in the example (circle a → circle b, a → text l) the only root is a, and only a has outgoing connections |
| Export.ExampleFinds | src/App.tsx:55 | in the example, b and l resolve to their elements |
| Export.ExampleTextFinds | src/App.tsx:63 | in the example, l is a text target and b is not |
| Export.ExampleRanked | src/App.tsx:45-81 | the example is acyclic |
| Export.ExampleLeaves | src/App.tsx:51-75 | in the example, b and l are exported as leaves |
| Export.ExampleLabels | src/App.tsx:60-66 | in the example, a's labels are exactly the text of l |
| Export.ExampleChildrenTail | src/App.tsx:52-58 | in the example, the second connection contributes l's leaf |
| Export.ExampleChildren | src/App.tsx:52-58 | in the example, a's children are b's leaf, then l's leaf |
| Export.ExampleRootNode | src/App.tsx:51-75 | in the example, a's node has l's text as its label and both targets as children |
| Export.ExampleExport | src/App.tsx:45-81 | the whole export of the example: one root with a text target that appears both as a label and as a child |
| Export.ExampleAfterDeleteElements | src/App.tsx:215 | deleting b from the example leaves elements a and l |
| Export.ExampleAfterDeleteConnections | src/App.tsx:216-218 | deleting b from the example leaves only the connection a → l |
| Export.ExampleAfterDeleteShape | src/App.tsx:46-53 | after the delete, a is the only root and only a has outgoing connections |
| Export.ExampleExportAfterDelete | src/App.tsx:212-220 | deleting b gives the graph a → l, whose export keeps l as both label and child |
| Export.ExampleAfterDeleteExport | src/App.tsx:45-81 | the export of the graph a → l |
| Store.WorkflowStore.constructor | src/App.tsx:23-35 | the workflow starts as the initial workflow; nothing is dragged and no connection is being drawn |
| Store.WorkflowStore.ToolboxDragStart | src/App.tsx:120-122 | the dragged type is recorded |
| Store.WorkflowStore.ElementDragStart | src/App.tsx:124-128 | the dragged element is recorded unless a connection is being drawn |
| Store.WorkflowStore.DragEnd | src/App.tsx:130-133 | both drag states are cleared |
| Store.WorkflowStore.CanvasDrop | src/App.tsx:145-166 | a toolbox drop adds an element; otherwise a canvas-element drop moves it; otherwise nothing changes; well-formedness is kept, and so are unique ids when the new id is fresh |
| Store.WorkflowStore.StartConnection | src/App.tsx:179-182 | a connection is being drawn from the element |
| Store.WorkflowStore.EndConnection | src/App.tsx:184-199 | the workflow becomes `AddConnection` of the old start; drawing state is cleared; no self-loop is created |
| Store.WorkflowStore.UpdateElement | src/App.tsx:201-210 | the workflow becomes `UpdateContent`; well-formedness and unique ids are kept |
| Store.WorkflowStore.DeleteElement | src/App.tsx:212-220 | the workflow becomes `DeleteElement`; well-formedness, unique ids and the absence of self-loops are kept |
| Store.WorkflowStore.KeyChange | src/App.tsx:222-228 | the workflow becomes `SetKey` |
| Store.WorkflowStore.Import | src/App.tsx:91-100 | the workflow becomes `Import` of the parsed file |
| Store.WorkflowStore.Export | src/App.tsx:108-109 | the exported tree is `GenerateJSON` of the current workflow; its key is the workflow key and it has one node per root |
| Dashboard.DeleteById | src/pages/Dashboard.tsx:27 | a stored record survives exactly when its id differs from the deleted one (a record without an id always survives) |
| Dashboard.DeleteByIdKeepsOrder | src/pages/Dashboard.tsx:27 | the other items keep their order and all their occurrences, and every item with the id is removed |
| Dashboard.DeleteAbsentIdIsNoOp | src/pages/Dashboard.tsx:27 | deleting an id no item has leaves the list unchanged |
| Dashboard.Search | src/pages/Dashboard.tsx:33-36 | an item is shown exactly when it is in the list and the lower-cased term occurs in its lower-cased name or lower-cased type |
| Dashboard.SearchKeepsOrder | src/pages/Dashboard.tsx:33-36 | the shown items are an order-preserving sub-sequence of the list, with every occurrence |
| Dashboard.SearchEmptyTerm | src/pages/Dashboard.tsx:33-36 | an empty search term shows every item |
| Dashboard.SearchIgnoresTermCase | src/pages/Dashboard.tsx:33-36 | lower-casing the term does not change what is shown |
| Dashboard.DashboardPage.constructor | src/pages/Dashboard.tsx:13-23 | the list is the stored list, or empty when nothing is stored; the search term is empty |
| Dashboard.DashboardPage.SetSearchTerm | src/pages/Dashboard.tsx:60 | the search term is replaced |
| Dashboard.DashboardPage.Filtered | src/pages/Dashboard.tsx:33-36 | the shown rows are an order-preserving selection of the list, and the whole list while the search term is empty |
| Dashboard.SearchFindsOwnName | src/pages/Dashboard.tsx:33-36 | a stored record is shown when searching for its own name |
| Dashboard.SaveThenSearch | src/pages/WorkflowEditor.tsx:59-71 | a record saved from the editor page shows up on the dashboard under a search for the name it was saved with |
| Dashboard.SaveNewThenDelete | src/pages/Dashboard.tsx:27 | deleting a newly saved workflow by its fresh id restores the list as it was before the save |
| Dashboard.DashboardPage.HandleDelete | src/pages/Dashboard.tsx:25-31 | after confirmation the list loses every item with the id and nothing else (see DeleteById); a refusal changes nothing |
| EditorPage.TypeOf | src/pages/WorkflowEditor.tsx:63 | the stored type is the two parts joined by '/', and splitting it on '/' gives exactly the two parts when neither contains '/' |
| EditorPage.ParseType | src/pages/WorkflowEditor.tsx:39 | neither part contains '/'; a type without '/' is all category and an empty subcategory |
| EditorPage.ParseTypeOf | src/pages/WorkflowEditor.tsx:39 | splitting `category/subcategory` recovers both when neither contains '/' |
| EditorPage.FindSaved | src/pages/WorkflowEditor.tsx:35 | a found workflow has the id and sits at an index before which no saved workflow has it (the first match); `None` exactly when no saved workflow has it |
| EditorPage.BuildRecord | src/pages/WorkflowEditor.tsx:59-66 | the id is fresh for a new route and the route's otherwise; the name is the entered one; the type is `category/subcategory` and splits back into the selection; a non-empty `createdAt` is kept, else `now`; `updatedAt` is `now`; the graph is kept |
| EditorPage.Upsert | src/pages/WorkflowEditor.tsx:69-71 | a new workflow grows the list by one; an existing one keeps its length |
| EditorPage.UpsertNewAppends | src/pages/WorkflowEditor.tsx:69-70 | a new workflow is appended at the end, after the saved ones unchanged |
| EditorPage.UpsertReplaces | src/pages/WorkflowEditor.tsx:71 | exactly the items with the route's id are replaced by the new record, and every other item is kept in place |
| EditorPage.UpsertAbsentIsNoOp | src/pages/WorkflowEditor.tsx:71 | saving under an id no saved item has changes nothing |
| EditorPage.UpsertThenFind | src/pages/WorkflowEditor.tsx:69-71 | after an upsert, looking up the record's id finds the record |
| EditorPage.EditorPage.constructor | src/pages/WorkflowEditor.tsx:25-30 | empty name, empty selection, no workflow |
| EditorPage.EditorPage.Load | src/pages/WorkflowEditor.tsx:32-43 | for an existing route whose id is saved, the workflow, the name and the split type are loaded; otherwise nothing changes |
| EditorPage.EditorPage.SetName | src/pages/WorkflowEditor.tsx:94 | the name is replaced |
| EditorPage.EditorPage.SelectCategory | src/pages/WorkflowEditor.tsx:99-103 | choosing a category clears the subcategory |
| EditorPage.EditorPage.SelectSubcategory | src/pages/WorkflowEditor.tsx:113-116 | only the subcategory changes |
| EditorPage.EditorPage.WorkflowChange | src/pages/WorkflowEditor.tsx:141 | the embedded editor's workflow becomes the page's |
| EditorPage.EditorPage.HandleSave | src/pages/WorkflowEditor.tsx:45-71 | a missing name is refused first, then a missing category or subcategory, then a missing workflow; it saves exactly when all three are present, and then stores the upsert of the built record |
| EditorPage.FreshPageWorkflow | src/pages/WorkflowEditor.tsx:139-143 | a workflow started on a fresh page gets the key and type "/" from the empty selection |
| EditorPage.SaveThenReload | src/pages/WorkflowEditor.tsx:32-71 | reopening a freshly saved workflow loads the same record, name and selection |

## Left out

- Rendering, layout and styling. This includes the connection-line geometry,
  the drop-coordinate arithmetic and hit testing. These are floating-point
  UI computations, so positions are opaque `real` pairs.
- The circle-only gating on starting and ending a connection
  (`src/components/WorkflowElement.tsx`). It is a UI precondition of
  `StartConnection`/`EndConnection`; the store does not check it.
- The mouse-move handler, the key-dropdown visibility and the custom-key text
  box. They are UI state that no modelled operation reads.
- `localStorage`, `FileReader`, `JSON.parse`/`JSON.stringify`, download links,
  `alert`, `confirm` and navigation. They are browser I/O. The stored lists are
  arguments and results, the user's answer is a parameter, and a parse failure
  is `None`.
- `Math.random` ids and `new Date()` timestamps: they become parameters.
- The `onChange` notification effect that passes every new workflow to the
  page. It is a React effect; `EditorPage.EditorPage.WorkflowChange` models
  what it delivers.
- Structural checks on imported JSON. The source spreads the parsed object
  unchecked, so an import file is any workflow-shaped record plus an optional
  `key`. Untyped JSON values outside that shape are not modelled.
- Store.WorkflowStore.Export: it needs the same acyclicity witness as
  `Export.GenerateJSON`.
- Export.BuildNode, Export.Children and Export.BuildTargets: they require the
  same acyclicity witness as `Export.GenerateJSON`.
- Export.GenerateJSON: it requires an acyclicity witness (`Graph.Ranked`) for
  every connection. This is stronger than the source, which only fails to
  finish when a cycle is reachable from a root.
- The optional `label` field of connections. No modelled operation reads it.
- `toLowerCase` beyond ASCII letters.
- `type` as an arbitrary string on dropped elements: the model's element kind
  is the three toolbox kinds.
- The wiring between the editor page and the embedded editor. The page
  passes the joined selection as `workflowType` (src/pages/WorkflowEditor.tsx:142),
  and the editor uses it for the initial key and type of a new workflow
  (src/App.tsx:26, src/App.tsx:28). The model does not connect the page's
  selection to `Store.WorkflowStore.constructor`; `Graph.InitialWorkflow`
  takes the workflow type as a parameter, and `EditorPage.FreshPageWorkflow`
  shows that the empty selection gives the key "/".
- The category tables. They only feed the option lists.
- EditorPage.ParseType keeps only the first two pieces of the split. A third
  piece is dropped, as in the source's destructuring. A missing second piece is the empty
  string rather than `undefined`; the save guard treats both the same way.
- The code does not check that a new connection's endpoints are existing
  elements (src/App.tsx:184-196), and the model follows the code
  (`Graph.AddConnection`). `Graph.AddConnectionKeepsInvariants` states the
  hypothesis under which the graph stays well formed.
- An imported file without a `key` field gets the key "approval" even when
  it carries its own `workflowKey` (`Graph.Import`).
