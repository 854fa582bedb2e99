/** The editor component of src/App.tsx as a stateful object: the single
    `workflow` state cell, the drag and connection-drawing state its handlers
    consult, and one method per handler. Each handler replaces the workflow
    with the value the corresponding function of `Graph` computes. */
module Store {
  import opened Seqs
  import opened WorkflowTypes
  import Graph
  import Tree = Export

  class WorkflowStore {
    var workflow: WorkflowData
    /** The toolbox item being dragged, if any. */
    var draggedType: Option<Kind>
    /** The canvas element being dragged, if any. */
    var draggedElement: Option<Element>
    var isDrawingConnection: bool
    /** The element a connection drag started from, if any. */
    var connectionStart: Option<string>

    /** The component's first state; `now` stands for the creation timestamp. */
    constructor (initial: Option<WorkflowData>, workflowType: Option<string>, now: string)
      ensures workflow == Graph.InitialWorkflow(initial, workflowType, now)
      ensures draggedType.None? && draggedElement.None?
      ensures !isDrawingConnection && connectionStart.None?
    {
      workflow := Graph.InitialWorkflow(initial, workflowType, now);
      draggedType, draggedElement := None, None;
      isDrawingConnection, connectionStart := false, None;
    }

    method ToolboxDragStart(kind: Kind)
      modifies this`draggedType
      ensures draggedType == Some(kind)
    {
      draggedType := Some(kind);
    }

    /** Starting to drag a canvas element is ignored while a connection is
        being drawn. */
    method ElementDragStart(e: Element)
      modifies this`draggedElement
      ensures draggedElement == if isDrawingConnection then old(draggedElement) else Some(e)
    {
      if !isDrawingConnection {
        draggedElement := Some(e);
      }
    }

    method DragEnd()
      modifies this`draggedType, this`draggedElement
      ensures draggedType.None? && draggedElement.None?
    {
      draggedType, draggedElement := None, None;
    }

    /** A drop on the canvas at `position`: a toolbox item becomes a new element
        with identifier `freshId`; otherwise a dragged canvas element moves;
        with nothing dragged the workflow is unchanged. */
    method CanvasDrop(position: Position, freshId: string)
      modifies this`workflow
      ensures draggedType.Some? ==>
        workflow == Graph.AddElement(old(workflow), draggedType.value, freshId, position)
      ensures draggedType.None? && draggedElement.Some? ==>
        workflow == Graph.MoveElement(old(workflow), draggedElement.value.id, position)
      ensures draggedType.None? && draggedElement.None? ==> workflow == old(workflow)
      ensures old(Graph.WellFormed(workflow)) ==> Graph.WellFormed(workflow)
      ensures old(Graph.UniqueIds(workflow.elements)) &&
              (draggedType.Some? ==> !Graph.IsElementId(old(workflow).elements, freshId)) ==>
              Graph.UniqueIds(workflow.elements)
    {
      if draggedType.Some? {
        Graph.AddElementKeepsInvariants(workflow, draggedType.value, freshId, position);
        workflow := Graph.AddElement(workflow, draggedType.value, freshId, position);
      } else if draggedElement.Some? {
        Graph.MoveAndUpdateKeepInvariants(workflow, draggedElement.value.id, position, "", map[]);
        workflow := Graph.MoveElement(workflow, draggedElement.value.id, position);
      }
    }

    method StartConnection(id: string)
      modifies this`isDrawingConnection, this`connectionStart
      ensures isDrawingConnection && connectionStart == Some(id)
    {
      isDrawingConnection, connectionStart := true, Some(id);
    }

    /** Releasing a connection drag on `target`. */
    method EndConnection(target: string)
      modifies this`workflow, this`isDrawingConnection, this`connectionStart
      ensures workflow == Graph.AddConnection(old(workflow), old(connectionStart), target)
      ensures !isDrawingConnection && connectionStart.None?
      ensures old(Graph.NoSelfLoops(workflow)) ==> Graph.NoSelfLoops(workflow)
    {
      Graph.AddConnectionKeepsInvariants(workflow, connectionStart, target);
      workflow := Graph.AddConnection(workflow, connectionStart, target);
      isDrawingConnection, connectionStart := false, None;
    }

    method UpdateElement(id: string, content: string)
      modifies this`workflow
      ensures workflow == Graph.UpdateContent(old(workflow), id, content)
      ensures old(Graph.WellFormed(workflow)) ==> Graph.WellFormed(workflow)
      ensures old(Graph.UniqueIds(workflow.elements)) ==> Graph.UniqueIds(workflow.elements)
    {
      Graph.MoveAndUpdateKeepInvariants(workflow, id, Position(0.0, 0.0), content, map[]);
      workflow := Graph.UpdateContent(workflow, id, content);
    }

    /** Deleting an element and, with it, every connection that mentions it. */
    method DeleteElement(id: string)
      modifies this`workflow
      ensures workflow == Graph.DeleteElement(old(workflow), id)
      ensures old(Graph.WellFormed(workflow)) ==> Graph.WellFormed(workflow)
      ensures old(Graph.UniqueIds(workflow.elements)) ==> Graph.UniqueIds(workflow.elements)
      ensures old(Graph.NoSelfLoops(workflow)) ==> Graph.NoSelfLoops(workflow)
    {
      Graph.DeleteKeepsInvariants(workflow, id, map[]);
      workflow := Graph.DeleteElement(workflow, id);
    }

    method KeyChange(key: string)
      modifies this`workflow
      ensures workflow == Graph.SetKey(old(workflow), key)
    {
      workflow := Graph.SetKey(workflow, key);
    }

    /** Loading a chosen file; `None` stands for a file that did not parse. */
    method Import(file: Option<Graph.ImportedFile>)
      modifies this`workflow
      ensures workflow == Graph.Import(old(workflow), file)
    {
      workflow := Graph.Import(workflow, file);
    }

    /** The tree handed to the download link. It reads the workflow and changes
        nothing: its key is the workflow key and its nodes are built from the
        roots in element order. */
    method Export(ghost rank: map<string, nat>) returns (tree: Tree.WorkflowTree)
      requires Graph.Ranked(workflow, rank)
      ensures tree == Tree.GenerateJSON(workflow, rank)
      ensures tree.key == workflow.workflowKey && |tree.nodes| == |Tree.Roots(workflow)|
    {
      tree := Tree.GenerateJSON(workflow, rank);
    }
  }
}
