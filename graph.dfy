/** The pure bodies of the editor's update handlers (src/App.tsx): each takes
    the current workflow record and returns the record the handler hands to
    `setWorkflow`. The invariants the editor relies on, and which handlers
    keep them, are stated at the end. */
module Graph {
  import opened Seqs
  import opened WorkflowTypes

  /** Content given to an element dropped from the toolbox. */
  function DefaultContent(kind: Kind): string {
    match kind
    case Text => "Text"
    case Circle => "Circle"
    case Arrow => ""
  }

  /** Some element of `els` has identifier `id`. */
  ghost predicate IsElementId(els: seq<Element>, id: string) {
    exists e :: e in els && e.id == id
  }

  /** `c` has `id` as one of its endpoints. */
  predicate Mentions(c: Connection, id: string) {
    c.from == id || c.to == id
  }

  /** The identifiers of `els`, in order. */
  function Ids(els: seq<Element>): (r: seq<string>)
    ensures |r| == |els|
    ensures forall i :: 0 <= i < |els| ==> r[i] == els[i].id
  {
    seq(|els|, i requires 0 <= i < |els| => els[i].id)
  }

  // ---------------------------------------------------------------------------
  // Handlers
  // ---------------------------------------------------------------------------

  /** Dropping a toolbox item: one new element is appended at the end, with the
      default content for its kind; nothing else changes. */
  function AddElement(g: WorkflowData, kind: Kind, id: string, position: Position): (r: WorkflowData)
    ensures |r.elements| == |g.elements| + 1
    ensures r.elements[..|g.elements|] == g.elements
    ensures r.elements[|g.elements|] == Element(id, kind, position, DefaultContent(kind))
    ensures r.(elements := g.elements) == g
  {
    g.(elements := g.elements + [Element(id, kind, position, DefaultContent(kind))])
  }

  /** Dropping an element already on the canvas: every element with that id
      gets the new position; identifiers, kinds, contents, order and length of
      the element sequence are kept and nothing else changes. */
  function MoveElement(g: WorkflowData, id: string, position: Position): (r: WorkflowData)
    ensures |r.elements| == |g.elements|
    ensures forall i :: 0 <= i < |g.elements| ==>
      r.elements[i].id == g.elements[i].id &&
      r.elements[i].kind == g.elements[i].kind &&
      r.elements[i].content == g.elements[i].content &&
      r.elements[i].position == (if g.elements[i].id == id then position else g.elements[i].position)
    ensures r.(elements := g.elements) == g
  {
    g.(elements := seq(|g.elements|, i requires 0 <= i < |g.elements| =>
      var e := g.elements[i];
      if e.id == id then e.(position := position) else e))
  }

  /** Editing an element's text: every element with that id gets the new
      content; everything else is kept. */
  function UpdateContent(g: WorkflowData, id: string, content: string): (r: WorkflowData)
    ensures |r.elements| == |g.elements|
    ensures forall i :: 0 <= i < |g.elements| ==>
      r.elements[i].id == g.elements[i].id &&
      r.elements[i].kind == g.elements[i].kind &&
      r.elements[i].position == g.elements[i].position &&
      r.elements[i].content == (if g.elements[i].id == id then content else g.elements[i].content)
    ensures r.(elements := g.elements) == g
  {
    g.(elements := seq(|g.elements|, i requires 0 <= i < |g.elements| =>
      var e := g.elements[i];
      if e.id == id then e.(content := content) else e))
  }

  /** Deleting an element cascades: every element with that id and every
      connection that has it as an endpoint are removed, all others keep their
      relative order, and nothing else changes. */
  function DeleteElement(g: WorkflowData, id: string): (r: WorkflowData)
    ensures forall e :: e in r.elements <==> e in g.elements && e.id != id
    ensures forall c :: c in r.connections <==> c in g.connections && !Mentions(c, id)
    ensures !IsElementId(r.elements, id)
    ensures r.(elements := g.elements, connections := g.connections) == g
  {
    g.(elements := Filter(g.elements, (e: Element) => e.id != id),
       connections := Filter(g.connections, (c: Connection) => !Mentions(c, id)))
  }

  /** The survivors of a delete keep their relative order and their
      multiplicity: deletion removes exactly the elements with that id and the
      connections mentioning it, and no other occurrence. */
  lemma DeleteKeepsOrder(g: WorkflowData, id: string)
    ensures Subseq(DeleteElement(g, id).elements, g.elements)
    ensures Subseq(DeleteElement(g, id).connections, g.connections)
    ensures forall e :: multiset(DeleteElement(g, id).elements)[e] ==
                        (if e.id != id then multiset(g.elements)[e] else 0)
    ensures forall c :: multiset(DeleteElement(g, id).connections)[c] ==
                        (if !Mentions(c, id) then multiset(g.connections)[c] else 0)
  {
    FilterOrder(g.elements, (e: Element) => e.id != id);
    FilterOrder(g.connections, (c: Connection) => !Mentions(c, id));
  }

  /** Releasing a connection drag on `target`: when a drag is in progress from
      another element, one connection tagged with the current workflow key is
      appended; ending on the start element, or with no drag, changes nothing.
      Endpoint existence is not checked. */
  function AddConnection(g: WorkflowData, start: Option<string>, target: string): (r: WorkflowData)
    ensures start.Some? && start.value != target ==>
      r.connections == g.connections + [Connection(start.value, target, Some(g.workflowKey))]
    ensures start.None? || start.value == target ==> r == g
    ensures r.(connections := g.connections) == g
  {
    if start.Some? && start.value != target then
      g.(connections := g.connections + [Connection(start.value, target, Some(g.workflowKey))])
    else g
  }

  /** Choosing a workflow key replaces the graph's key only; the keys stored on
      existing connections are not rewritten. */
  function SetKey(g: WorkflowData, key: string): (r: WorkflowData)
    ensures r.workflowKey == key
    ensures r.connections == g.connections && r.elements == g.elements
    ensures r.(workflowKey := g.workflowKey) == g
  {
    g.(workflowKey := key)
  }

  /** A parsed import file: the workflow-shaped fields it carries, and its
      optional `key` field. */
  datatype ImportedFile = ImportedFile(fields: WorkflowData, key: Option<string>)

  /** Importing a file: a file that did not parse (`None`) leaves the workflow
      unchanged; otherwise the file's fields replace the workflow and the key
      becomes the file's `key`, or "approval" when that is missing or empty,
      whatever `workflowKey` the file itself carries. */
  function Import(current: WorkflowData, file: Option<ImportedFile>): (r: WorkflowData)
    ensures file.None? ==> r == current
    ensures file.Some? ==> r.(workflowKey := file.value.fields.workflowKey) == file.value.fields
    ensures file.Some? && file.value.key.Some? && file.value.key.value != "" ==>
      r.workflowKey == file.value.key.value
    ensures file.Some? && (file.value.key.None? || file.value.key.value == "") ==>
      r.workflowKey == "approval"
  {
    match file
    case None => current
    case Some(f) => f.fields.(workflowKey := OrElse(f.key, "approval"))
  }

  /** The editor's first state: the workflow it was given, or an empty one
      whose key and type come from the given workflow type ("approval" and ""
      when that is missing or empty). */
  function InitialWorkflow(initial: Option<WorkflowData>, workflowType: Option<string>, now: string): (r: WorkflowData)
    ensures initial.Some? ==> r == initial.value
    ensures initial.None? ==> r.elements == [] && r.connections == [] && r.name == ""
    ensures initial.None? ==> r.workflowKey == OrElse(workflowType, "approval") &&
                              r.typeName == OrElse(workflowType, "")
    ensures initial.None? ==> r.createdAt == now && r.updatedAt == now && r.id.None?
  {
    match initial
    case Some(w) => w
    case None =>
      WorkflowData(None, "", OrElse(workflowType, ""), [], [],
                   OrElse(workflowType, "approval"), now, now)
  }

  // ---------------------------------------------------------------------------
  // Invariants
  // ---------------------------------------------------------------------------

  /** Every connection's endpoints are identifiers of elements of the graph. */
  ghost predicate WellFormed(g: WorkflowData) {
    forall c :: c in g.connections ==>
      IsElementId(g.elements, c.from) && IsElementId(g.elements, c.to)
  }

  /** No two elements share an identifier. */
  ghost predicate UniqueIds(els: seq<Element>) {
    forall i, j :: 0 <= i < j < |els| ==> els[i].id != els[j].id
  }

  /** No connection goes from an element to itself. */
  ghost predicate NoSelfLoops(g: WorkflowData) {
    forall c :: c in g.connections ==> c.from != c.to
  }

  /** `rank` witnesses that the connection relation is acyclic: every element
      and every endpoint has a rank, and every connection leads to a strictly
      lower rank. */
  ghost predicate Ranked(g: WorkflowData, rank: map<string, nat>) {
    (forall e :: e in g.elements ==> e.id in rank) &&
    (forall c :: c in g.connections ==>
       c.from in rank && c.to in rank && rank[c.to] < rank[c.from])
  }

  // ---------------------------------------------------------------------------
  // Properties of the handlers
  // ---------------------------------------------------------------------------

  /** A move or an edit aimed at an identifier no element has is a no-op. */
  lemma UnknownIdIsNoOp(g: WorkflowData, id: string, position: Position, content: string)
    requires !IsElementId(g.elements, id)
    ensures MoveElement(g, id, position) == g
    ensures UpdateContent(g, id, content) == g
  {
    assert MoveElement(g, id, position).elements == g.elements;
    assert UpdateContent(g, id, content).elements == g.elements;
  }

  /** Moves and edits keep the identifier sequence, hence every invariant that
      only depends on identifiers and connections. */
  lemma MoveAndUpdateKeepInvariants(g: WorkflowData, id: string, position: Position, content: string,
                                    rank: map<string, nat>)
    ensures Ids(MoveElement(g, id, position).elements) == Ids(g.elements)
    ensures Ids(UpdateContent(g, id, content).elements) == Ids(g.elements)
    ensures WellFormed(g) ==> WellFormed(MoveElement(g, id, position)) &&
                              WellFormed(UpdateContent(g, id, content))
    ensures UniqueIds(g.elements) ==> UniqueIds(MoveElement(g, id, position).elements) &&
                                      UniqueIds(UpdateContent(g, id, content).elements)
    ensures Ranked(g, rank) ==> Ranked(MoveElement(g, id, position), rank) &&
                                Ranked(UpdateContent(g, id, content), rank)
  {
    var m, u := MoveElement(g, id, position), UpdateContent(g, id, content);
    forall x | IsElementId(g.elements, x) ensures IsElementId(m.elements, x) && IsElementId(u.elements, x) {
      var i :| 0 <= i < |g.elements| && g.elements[i].id == x;
      assert m.elements[i].id == x && u.elements[i].id == x;
    }
    forall e | e in m.elements ensures e.id in Ids(g.elements) {
      var i :| 0 <= i < |m.elements| && m.elements[i] == e;
      assert Ids(g.elements)[i] == e.id;
    }
    forall e | e in u.elements ensures e.id in Ids(g.elements) {
      var i :| 0 <= i < |u.elements| && u.elements[i] == e;
      assert Ids(g.elements)[i] == e.id;
    }
    if Ranked(g, rank) {
      forall e | e in m.elements ensures e.id in rank {
        var i :| 0 <= i < |g.elements| && Ids(g.elements)[i] == e.id;
        assert g.elements[i] in g.elements;
      }
      forall e | e in u.elements ensures e.id in rank {
        var i :| 0 <= i < |g.elements| && Ids(g.elements)[i] == e.id;
        assert g.elements[i] in g.elements;
      }
    }
  }

  /** Adding an element keeps every connection's endpoints resolvable, and
      keeps identifiers unique when the new identifier is fresh. */
  lemma AddElementKeepsInvariants(g: WorkflowData, kind: Kind, id: string, position: Position)
    ensures UniqueIds(g.elements) && !IsElementId(g.elements, id) ==>
              UniqueIds(AddElement(g, kind, id, position).elements)
    ensures WellFormed(g) ==> WellFormed(AddElement(g, kind, id, position))
  {
    var r := AddElement(g, kind, id, position);
    assert forall i :: 0 <= i < |g.elements| ==> r.elements[i] == g.elements[i];
    if !IsElementId(g.elements, id) {
      forall i | 0 <= i < |g.elements| ensures g.elements[i].id != id {
        assert g.elements[i] in g.elements;
      }
    }
  }

  /** Connections drawn between existing elements keep the graph well formed,
      and no connection drawn by the editor is a self-loop. */
  lemma AddConnectionKeepsInvariants(g: WorkflowData, start: Option<string>, target: string)
    ensures NoSelfLoops(g) ==> NoSelfLoops(AddConnection(g, start, target))
    ensures (WellFormed(g) && (start.Some? ==> IsElementId(g.elements, start.value)) &&
             IsElementId(g.elements, target)) ==> WellFormed(AddConnection(g, start, target))
  {
  }

  /** Members of a subsequence are members of the whole sequence. */
  lemma {:induction false} SubseqMembers<T>(r: seq<T>, s: seq<T>)
    requires Subseq(r, s)
    ensures forall x :: x in r ==> x in s
    decreases |s|
  {
    if s != [] {
      if r != [] && r[0] == s[0] && Subseq(r[1..], s[1..]) {
        SubseqMembers(r[1..], s[1..]);
        assert r == [r[0]] + r[1..];
      } else {
        SubseqMembers(r, s[1..]);
      }
    }
  }

  /** A subsequence of elements with unique identifiers has unique identifiers. */
  lemma {:induction false} SubseqUniqueIds(r: seq<Element>, s: seq<Element>)
    requires Subseq(r, s) && UniqueIds(s)
    ensures UniqueIds(r)
    decreases |s|
  {
    if s != [] {
      assert UniqueIds(s[1..]);
      if r != [] && r[0] == s[0] && Subseq(r[1..], s[1..]) {
        SubseqUniqueIds(r[1..], s[1..]);
        SubseqMembers(r[1..], s[1..]);
        forall j | 0 < j < |r| ensures r[0].id != r[j].id {
          assert r[j] == r[1..][j - 1];
          assert r[j] in r[1..];
          assert r[j] in s[1..];
          var k :| 0 <= k < |s[1..]| && s[1..][k] == r[j];
          assert s[k + 1] == r[j];
        }
      } else {
        SubseqUniqueIds(r, s[1..]);
      }
    }
  }

  /** Cascade integrity: deleting an element never leaves a dangling
      connection, keeps identifiers unique, keeps connections free of
      self-loops and keeps an acyclicity witness valid. */
  lemma DeleteKeepsInvariants(g: WorkflowData, id: string, rank: map<string, nat>)
    ensures WellFormed(g) ==> WellFormed(DeleteElement(g, id))
    ensures UniqueIds(g.elements) ==> UniqueIds(DeleteElement(g, id).elements)
    ensures NoSelfLoops(g) ==> NoSelfLoops(DeleteElement(g, id))
    ensures Ranked(g, rank) ==> Ranked(DeleteElement(g, id), rank)
  {
    var r := DeleteElement(g, id);
    if WellFormed(g) {
      forall c, x | c in r.connections && (x == c.from || x == c.to) ensures IsElementId(r.elements, x) {
        var e :| e in g.elements && e.id == x;
        assert e in r.elements;
      }
    }
    if UniqueIds(g.elements) {
      DeleteKeepsOrder(g, id);
      SubseqUniqueIds(r.elements, g.elements);
    }
  }

  /** Adding an element and then deleting it restores the graph, provided the
      identifier was fresh and no connection already mentioned it. */
  lemma DeleteUndoesAdd(g: WorkflowData, kind: Kind, id: string, position: Position)
    requires !IsElementId(g.elements, id)
    requires forall c :: c in g.connections ==> !Mentions(c, id)
    ensures DeleteElement(AddElement(g, kind, id, position), id) == g
  {
    var e := Element(id, kind, position, DefaultContent(kind));
    var p := (x: Element) => x.id != id;
    FilterAppend(g.elements, [e], p);
    FilterKeepsAll(g.elements, p);
    FilterKeepsAll(g.connections, (c: Connection) => !Mentions(c, id));
    assert Filter([e], p) == [];
  }

  /** In a well-formed graph a fresh identifier is mentioned by no connection,
      so the previous lemma applies to every fresh drop. */
  lemma FreshIdUnmentioned(g: WorkflowData, id: string)
    requires WellFormed(g) && !IsElementId(g.elements, id)
    ensures forall c :: c in g.connections ==> !Mentions(c, id)
  {
  }
}
