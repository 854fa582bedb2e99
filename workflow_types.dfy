/** The records of the editor (src/types/workflow.ts): elements, connections
    and the workflow record that owns both sequences. */
module WorkflowTypes {
  import opened Seqs

  /** The three element types the toolbox offers. */
  datatype Kind = Circle | Arrow | Text

  /** A canvas position; the model never computes with it. */
  datatype Position = Position(x: real, y: real)

  /** A node of the canvas. The source's `type` field is `kind` here. */
  datatype Element = Element(id: string, kind: Kind, position: Position, content: string)

  /** A directed edge between two element ids; `key` is optional in the
      source's type and `None` stands for a missing field. */
  datatype Connection = Connection(from: string, to: string, key: Option<string>)

  /** The whole workflow record. The source's `type` field (the
      "category/subcategory" string) is `typeName` here; `id` is optional. */
  datatype WorkflowData = WorkflowData(
    id: Option<string>,
    name: string,
    typeName: string,
    elements: seq<Element>,
    connections: seq<Connection>,
    workflowKey: string,
    createdAt: string,
    updatedAt: string)

  /** JavaScript's `a || b` on an optional string: `a` when it is present and
      non-empty (truthy), `b` otherwise. */
  function OrElse(a: Option<string>, b: string): (r: string)
    ensures a.Some? && a.value != "" ==> r == a.value
    ensures a.None? || a.value == "" ==> r == b
  {
    if a.Some? && a.value != "" then a.value else b
  }
}
