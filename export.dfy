/** The tree export of src/App.tsx (`generateJSON` and its inner `buildNode`):
    the flat graph is turned into a forest rooted at the circle elements that
    no connection points to. */
module Export {
  import opened Seqs
  import opened WorkflowTypes
  import opened Graph

  /** One exported node, as `buildNode` returns it (the declared export type
      leaves `labels` out, the code produces it). */
  datatype TreeNode = TreeNode(id: string, kind: Kind, content: string,
                               labels: seq<string>, children: seq<TreeNode>)

  /** The exported document. */
  datatype WorkflowTree = WorkflowTree(key: string, nodes: seq<TreeNode>)

  /** `elements.find(el => el.id === id)`: the first element with that id. */
  function Find(els: seq<Element>, id: string): (r: Option<Element>)
    ensures r.Some? ==> r.value in els && r.value.id == id
    ensures r.Some? ==> exists i :: 0 <= i < |els| && els[i] == r.value &&
                                    forall j :: 0 <= j < i ==> els[j].id != id
    ensures r.None? <==> !IsElementId(els, id)
  {
    FindFirst(els, (e: Element) => e.id == id)
  }

  /** `elements.find(el => el.id === id && el.type === 'text')`. */
  function FindText(els: seq<Element>, id: string): (r: Option<Element>)
    ensures r.Some? ==> r.value in els && r.value.id == id && r.value.kind == Text
    ensures r.Some? ==> exists i :: 0 <= i < |els| && els[i] == r.value &&
                                    forall j :: 0 <= j < i ==> !(els[j].id == id && els[j].kind == Text)
    ensures r.None? <==> forall e :: e in els ==> e.id != id || e.kind != Text
  {
    FindFirst(els, (e: Element) => e.id == id && e.kind == Text)
  }

  /** Some connection points to `id` (of whatever kind its source is). */
  predicate IsTarget(conns: seq<Connection>, id: string) {
    exists c :: c in conns && c.to == id
  }

  /** The export roots: circle elements that are no connection's target, in
      element order. */
  function Roots(g: WorkflowData): (r: seq<Element>)
    ensures forall e :: e in r <==> e in g.elements && e.kind == Circle && !IsTarget(g.connections, e.id)
  {
    Filter(g.elements, (e: Element) => e.kind == Circle && !IsTarget(g.connections, e.id))
  }

  /** The connections leaving `id`, in connection order. */
  function Outgoing(conns: seq<Connection>, id: string): (r: seq<Connection>)
    ensures forall c :: c in r <==> c in conns && c.from == id
  {
    Filter(conns, (c: Connection) => c.from == id)
  }

  /** `buildNode`: the node for `e`, with the labels and the children reached
      through its outgoing connections. The ghost `rank` only witnesses that
      the recursion ends; the result does not depend on it. */
  function BuildNode(g: WorkflowData, ghost rank: map<string, nat>, e: Element): (r: TreeNode)
    requires Ranked(g, rank) && e in g.elements
    ensures r.id == e.id && r.kind == e.kind && r.content == e.content
    decreases rank[e.id], 1
  {
    var outs := Outgoing(g.connections, e.id);
    TreeNode(e.id, e.kind, e.content, Labels(g.elements, outs), Children(g, rank, e, outs))
  }

  /** The `children` list: the node of every connection target in `outs` that
      resolves to an element, whatever its kind; unresolved targets are
      dropped. */
  function Children(g: WorkflowData, ghost rank: map<string, nat>, e: Element,
                    outs: seq<Connection>): (r: seq<TreeNode>)
    requires Ranked(g, rank) && e in g.elements
    requires forall c :: c in outs ==> c in g.connections && c.from == e.id
    ensures |r| <= |outs|
    decreases rank[e.id], 0, |outs|
  {
    if outs == [] then []
    else
      var rest := Children(g, rank, e, outs[1..]);
      match Find(g.elements, outs[0].to)
      case None => rest
      case Some(child) => [BuildNode(g, rank, child)] + rest
  }

  /** The label one connection contributes: the content of its target when
      that is a text element (the first one with that id) with non-empty
      content. */
  function LabelOf(els: seq<Element>, c: Connection): (r: Option<string>)
    ensures r.Some? ==> r.value != "" && exists t :: t in els && t.id == c.to && t.kind == Text && t.content == r.value
    ensures (forall t :: t in els && t.id == c.to ==> t.kind != Text) ==> r.None?
    ensures forall i :: 0 <= i < |els| && els[i].id == c.to && els[i].kind == Text &&
                        (forall j :: 0 <= j < i ==> !(els[j].id == c.to && els[j].kind == Text)) ==>
                        r == (if els[i].content != "" then Some(els[i].content) else None)
  {
    match FindText(els, c.to)
    case Some(t) => if t.content != "" then Some(t.content) else None
    case None => None
  }

  /** The `labels` list: the contents of the text targets of `outs`, in order,
      with empty contents dropped (`filter(Boolean)`). */
  function Labels(els: seq<Element>, outs: seq<Connection>): (r: seq<string>)
    ensures |r| <= |outs|
    ensures forall l :: l in r ==> l != ""
  {
    if outs == [] then []
    else
      var rest := Labels(els, outs[1..]);
      match LabelOf(els, outs[0])
      case Some(l) => [l] + rest
      case None => rest
  }

  /** `generateJSON`: the workflow key and one built node per root. */
  function GenerateJSON(g: WorkflowData, ghost rank: map<string, nat>): (r: WorkflowTree)
    requires Ranked(g, rank)
    ensures r.key == g.workflowKey
    ensures |r.nodes| == |Roots(g)|
    ensures forall i :: 0 <= i < |r.nodes| ==>
      r.nodes[i].id == Roots(g)[i].id && r.nodes[i].kind == Circle &&
      r.nodes[i].content == Roots(g)[i].content
  {
    var roots := Roots(g);
    WorkflowTree(g.workflowKey,
      seq(|roots|, i requires 0 <= i < |roots| => BuildNode(g, rank, roots[i])))
  }

  // ---------------------------------------------------------------------------
  // Properties
  // ---------------------------------------------------------------------------

  /** Root characterisation: a circle with no incoming connection of any kind
      is always a root, and a circle with an incoming connection never is. */
  lemma RootIff(g: WorkflowData, e: Element)
    requires e in g.elements && e.kind == Circle
    ensures e in Roots(g) <==> forall c :: c in g.connections ==> c.to != e.id
  {
  }

  /** The roots appear in element order, each as often as in the element
      sequence. */
  lemma RootsInOrder(g: WorkflowData)
    ensures Subseq(Roots(g), g.elements)
    ensures forall e :: e in g.elements && e.kind == Circle && !IsTarget(g.connections, e.id) ==>
      multiset(Roots(g))[e] == multiset(g.elements)[e]
  {
    FilterOrder(g.elements, (e: Element) => e.kind == Circle && !IsTarget(g.connections, e.id));
  }

  /** The targets of `outs` that resolve to an element, in order. */
  function Resolved(els: seq<Element>, outs: seq<Connection>): (r: seq<Connection>)
    ensures forall c :: c in r <==> c in outs && IsElementId(els, c.to)
  {
    Filter(outs, (c: Connection) => Find(els, c.to).Some?)
  }

  /** The nodes built for the targets of `rs`, in order: the `map(buildNode)`
      step of the source applied after keeping only the resolving targets. */
  function BuildTargets(g: WorkflowData, ghost rank: map<string, nat>, e: Element,
                        rs: seq<Connection>): (r: seq<TreeNode>)
    requires Ranked(g, rank) && e in g.elements
    requires forall c :: c in rs ==> c in g.connections && c.from == e.id && IsElementId(g.elements, c.to)
    ensures |r| == |rs|
  {
    if rs == [] then []
    else [BuildNode(g, rank, Find(g.elements, rs[0].to).value)] + BuildTargets(g, rank, e, rs[1..])
  }

  /** Entry `k` of the built targets is the node of the element that the k-th
      connection points to. */
  lemma {:induction false} BuildTargetsAt(g: WorkflowData, rank: map<string, nat>, e: Element,
                                          rs: seq<Connection>, k: nat)
    requires Ranked(g, rank) && e in g.elements
    requires forall c :: c in rs ==> c in g.connections && c.from == e.id && IsElementId(g.elements, c.to)
    requires k < |rs|
    ensures Find(g.elements, rs[k].to).Some?
    ensures BuildTargets(g, rank, e, rs)[k] == BuildNode(g, rank, Find(g.elements, rs[k].to).value)
  {
    assert rs[k] in rs;
    if k > 0 {
      BuildTargetsAt(g, rank, e, rs[1..], k - 1);
      assert rs[1..][k - 1] == rs[k];
    }
  }

  lemma ChildrenUnfold(g: WorkflowData, rank: map<string, nat>, e: Element, outs: seq<Connection>)
    requires Ranked(g, rank) && e in g.elements
    requires forall c :: c in outs ==> c in g.connections && c.from == e.id
    requires outs != []
    ensures Find(g.elements, outs[0].to).Some? ==>
      Children(g, rank, e, outs) == [BuildNode(g, rank, Find(g.elements, outs[0].to).value)] + Children(g, rank, e, outs[1..]) &&
      Resolved(g.elements, outs) == [outs[0]] + Resolved(g.elements, outs[1..])
    ensures Find(g.elements, outs[0].to).None? ==>
      Children(g, rank, e, outs) == Children(g, rank, e, outs[1..]) &&
      Resolved(g.elements, outs) == Resolved(g.elements, outs[1..])
  {
  }

  /** `children` is the built nodes of the resolving outgoing connections: one
      entry per connection whose target id resolves, in connection order (with
      `BuildTargetsAt`, entry k is built from the k-th such target, and with
      FilterOrder, the resolving connections keep their order). */
  lemma {:induction false} ChildrenPerResolvedTarget(g: WorkflowData, rank: map<string, nat>, e: Element,
                                                     outs: seq<Connection>)
    requires Ranked(g, rank) && e in g.elements
    requires forall c :: c in outs ==> c in g.connections && c.from == e.id
    ensures Children(g, rank, e, outs) == BuildTargets(g, rank, e, Resolved(g.elements, outs))
  {
    if outs == [] {
      assert Resolved(g.elements, outs) == [];
    } else {
      ChildrenPerResolvedTarget(g, rank, e, outs[1..]);
      ChildrenUnfold(g, rank, e, outs);
      var r := Resolved(g.elements, outs);
      if Find(g.elements, outs[0].to).Some? {
        assert r[0] == outs[0] && r[1..] == Resolved(g.elements, outs[1..]);
      }
    }
  }

  /** A string is a label exactly when some outgoing connection contributes
      it. */
  lemma {:induction false} LabelsIff(els: seq<Element>, outs: seq<Connection>, l: string)
    ensures l in Labels(els, outs) <==> exists c :: c in outs && LabelOf(els, c) == Some(l)
  {
    if outs != [] {
      LabelsIff(els, outs[1..], l);
      assert forall c :: c in outs <==> c == outs[0] || c in outs[1..];
    }
  }

  /** Labels follow connection order: the labels of two runs of connections
      are the labels of the first run followed by those of the second. */
  lemma {:induction false} LabelsAppend(els: seq<Element>, outs1: seq<Connection>, outs2: seq<Connection>)
    ensures Labels(els, outs1 + outs2) == Labels(els, outs1) + Labels(els, outs2)
  {
    if outs1 == [] {
      assert outs1 + outs2 == outs2;
    } else {
      assert (outs1 + outs2)[1..] == outs1[1..] + outs2;
      LabelsAppend(els, outs1[1..], outs2);
    }
  }

  /** A single connection contributes exactly its `LabelOf`; with LabelsAppend
      this determines the labels of any run of connections. */
  lemma LabelsSingle(els: seq<Element>, c: Connection)
    ensures Labels(els, [c]) == if LabelOf(els, c).Some? then [LabelOf(els, c).value] else []
  {
    assert [c][1..] == [];
  }

  /** With unique identifiers every label reappears as the content of a text
      child: text targets are exported both in `labels` and in `children`. */
  lemma {:induction false} LabelsAlsoChildren(g: WorkflowData, rank: map<string, nat>, e: Element,
                                              outs: seq<Connection>, l: string)
    requires Ranked(g, rank) && e in g.elements && UniqueIds(g.elements)
    requires forall c :: c in outs ==> c in g.connections && c.from == e.id
    requires l in Labels(g.elements, outs)
    ensures exists ch :: ch in Children(g, rank, e, outs) && ch.kind == Text && ch.content == l
  {
    var rest := outs[1..];
    match FindText(g.elements, outs[0].to)
    case Some(t) =>
      if t.content == l {
        var f := Find(g.elements, outs[0].to);
        var i, j :| 0 <= i < |g.elements| && 0 <= j < |g.elements| && g.elements[i] == t && g.elements[j] == f.value;
        assert i == j;
        assert Children(g, rank, e, outs)[0] == BuildNode(g, rank, t);
      } else {
        LabelsAlsoChildren(g, rank, e, rest, l);
      }
    case None =>
      LabelsAlsoChildren(g, rank, e, rest, l);
  }

  /** An element without outgoing connections is exported as a leaf. */
  lemma LeafNode(g: WorkflowData, rank: map<string, nat>, e: Element)
    requires Ranked(g, rank) && e in g.elements
    requires forall c :: c in g.connections ==> c.from != e.id
    ensures BuildNode(g, rank, e).labels == [] && BuildNode(g, rank, e).children == []
  {
    FilterDropsAll(g.connections, (c: Connection) => c.from == e.id);
  }

  /** The export does not depend on which acyclicity witness is used, so it is
      a function of the graph alone. */
  lemma {:induction false} BuildNodeRankIrrelevant(g: WorkflowData, rank1: map<string, nat>,
                                                   rank2: map<string, nat>, e: Element)
    requires Ranked(g, rank1) && Ranked(g, rank2) && e in g.elements
    ensures BuildNode(g, rank1, e) == BuildNode(g, rank2, e)
    decreases rank1[e.id], 1
  {
    ChildrenRankIrrelevant(g, rank1, rank2, e, Outgoing(g.connections, e.id));
  }

  lemma {:induction false} ChildrenRankIrrelevant(g: WorkflowData, rank1: map<string, nat>,
                                                  rank2: map<string, nat>, e: Element, outs: seq<Connection>)
    requires Ranked(g, rank1) && Ranked(g, rank2) && e in g.elements
    requires forall c :: c in outs ==> c in g.connections && c.from == e.id
    ensures Children(g, rank1, e, outs) == Children(g, rank2, e, outs)
    decreases rank1[e.id], 0, |outs|
  {
    if outs != [] {
      ChildrenRankIrrelevant(g, rank1, rank2, e, outs[1..]);
      match Find(g.elements, outs[0].to)
      case None =>
      case Some(child) =>
        BuildNodeRankIrrelevant(g, rank1, rank2, child);
    }
  }

  lemma ExportRankIrrelevant(g: WorkflowData, rank1: map<string, nat>, rank2: map<string, nat>)
    requires Ranked(g, rank1) && Ranked(g, rank2)
    ensures GenerateJSON(g, rank1) == GenerateJSON(g, rank2)
  {
    var roots := Roots(g);
    forall i | 0 <= i < |roots| ensures BuildNode(g, rank1, roots[i]) == BuildNode(g, rank2, roots[i]) {
      BuildNodeRankIrrelevant(g, rank1, rank2, roots[i]);
    }
  }

  // ---------------------------------------------------------------------------
  // A worked example: a start circle with one circle child and one text label
  // ---------------------------------------------------------------------------

  /** Circle `a` with content `startText`, circle `b` and text `l`, with
      connections from `a` to `b` and from `a` to `l`. */
  function ExampleGraph(a: string, b: string, l: string, startText: string, endText: string, labelText: string,
                        key: string): WorkflowData
  {
    WorkflowData(None, "", "",
      [Element(a, Circle, Position(0.0, 0.0), startText),
       Element(b, Circle, Position(0.0, 0.0), endText),
       Element(l, Text, Position(0.0, 0.0), labelText)],
      [Connection(a, b, Some(key)), Connection(a, l, Some(key))],
      key, "", "")
  }

  lemma ExampleShape(a: string, b: string, l: string, startText: string, endText: string, labelText: string, key: string)
    requires a != b && b != l && a != l
    ensures Roots(ExampleGraph(a, b, l, startText, endText, labelText, key)) ==
            [ExampleGraph(a, b, l, startText, endText, labelText, key).elements[0]]
    ensures Outgoing(ExampleGraph(a, b, l, startText, endText, labelText, key).connections, a) ==
            ExampleGraph(a, b, l, startText, endText, labelText, key).connections
    ensures Outgoing(ExampleGraph(a, b, l, startText, endText, labelText, key).connections, b) == []
    ensures Outgoing(ExampleGraph(a, b, l, startText, endText, labelText, key).connections, l) == []
  {
    var g := ExampleGraph(a, b, l, startText, endText, labelText, key);
    var cs := g.connections;
    var p := (e: Element) => e.kind == Circle && !IsTarget(cs, e.id);
    assert IsTarget(cs, b) && IsTarget(cs, l);
    assert g.elements == [g.elements[0]] + g.elements[1..];
    FilterAppend([g.elements[0]], g.elements[1..], p);
    FilterKeepsAll([g.elements[0]], p);
    FilterDropsAll(g.elements[1..], p);
    FilterKeepsAll(cs, (c: Connection) => c.from == a);
    FilterDropsAll(cs, (c: Connection) => c.from == b);
    FilterDropsAll(cs, (c: Connection) => c.from == l);
  }

  lemma ExampleFinds(a: string, b: string, l: string, startText: string, endText: string, labelText: string,
                     key: string)
    requires a != b && b != l && a != l
    ensures var g := ExampleGraph(a, b, l, startText, endText, labelText, key);
      Find(g.elements, b) == Some(g.elements[1]) && Find(g.elements, l) == Some(g.elements[2])
  {
    var g := ExampleGraph(a, b, l, startText, endText, labelText, key);
    assert Find(g.elements, b) == Some(g.elements[1]);
    assert Find(g.elements, l) == Some(g.elements[2]);
  }

  lemma ExampleTextFinds(a: string, b: string, l: string, startText: string, endText: string,
                         labelText: string, key: string)
    requires a != b && b != l && a != l
    ensures var g := ExampleGraph(a, b, l, startText, endText, labelText, key);
      FindText(g.elements, b) == None && FindText(g.elements, l) == Some(g.elements[2])
  {
    var g := ExampleGraph(a, b, l, startText, endText, labelText, key);
    assert FindText(g.elements, b) == None;
    assert FindText(g.elements, l) == Some(g.elements[2]);
  }

  /** The example is acyclic: ranking the root above its two targets
      witnesses it. */
  lemma ExampleRanked(a: string, b: string, l: string, startText: string, endText: string, labelText: string,
                      key: string)
    requires a != b && b != l && a != l
    ensures Ranked(ExampleGraph(a, b, l, startText, endText, labelText, key), map[a := 1, b := 0, l := 0])
  {
  }

  lemma ExampleLeaves(a: string, b: string, l: string, startText: string, endText: string, labelText: string,
                      key: string, rank: map<string, nat>)
    requires Ranked(ExampleGraph(a, b, l, startText, endText, labelText, key), rank)
    requires a != b && b != l && a != l
    ensures var g := ExampleGraph(a, b, l, startText, endText, labelText, key);
      BuildNode(g, rank, g.elements[1]) == TreeNode(b, Circle, endText, [], []) &&
      BuildNode(g, rank, g.elements[2]) == TreeNode(l, Text, labelText, [], [])
  {
    var g := ExampleGraph(a, b, l, startText, endText, labelText, key);
    LeafNode(g, rank, g.elements[1]);
    LeafNode(g, rank, g.elements[2]);
  }

  lemma ExampleLabels(a: string, b: string, l: string, startText: string, endText: string, labelText: string,
                      key: string)
    requires a != b && b != l && a != l && labelText != ""
    ensures var g := ExampleGraph(a, b, l, startText, endText, labelText, key);
      Labels(g.elements, g.connections) == [labelText]
  {
    var g := ExampleGraph(a, b, l, startText, endText, labelText, key);
    var cs := g.connections;
    ExampleTextFinds(a, b, l, startText, endText, labelText, key);
    assert LabelOf(g.elements, cs[0]) == None;
    assert LabelOf(g.elements, cs[1]) == Some(labelText);
    assert Labels(g.elements, cs[1..]) == [labelText];
  }

  lemma ExampleChildrenTail(a: string, b: string, l: string, startText: string, endText: string,
                            labelText: string, key: string, rank: map<string, nat>)
    requires Ranked(ExampleGraph(a, b, l, startText, endText, labelText, key), rank)
    requires a != b && b != l && a != l
    ensures var g := ExampleGraph(a, b, l, startText, endText, labelText, key);
      Children(g, rank, g.elements[0], g.connections[1..]) ==
        [TreeNode(l, Text, labelText, [], [])]
  {
    var g := ExampleGraph(a, b, l, startText, endText, labelText, key);
    var tail := g.connections[1..];
    ExampleFinds(a, b, l, startText, endText, labelText, key);
    ExampleLeaves(a, b, l, startText, endText, labelText, key, rank);
    ChildrenUnfold(g, rank, g.elements[0], tail);
    assert tail[1..] == [];
  }

  lemma ExampleChildren(a: string, b: string, l: string, startText: string, endText: string, labelText: string,
                        key: string, rank: map<string, nat>)
    requires Ranked(ExampleGraph(a, b, l, startText, endText, labelText, key), rank)
    requires a != b && b != l && a != l
    ensures var g := ExampleGraph(a, b, l, startText, endText, labelText, key);
      Children(g, rank, g.elements[0], g.connections) ==
        [TreeNode(b, Circle, endText, [], []), TreeNode(l, Text, labelText, [], [])]
  {
    var g := ExampleGraph(a, b, l, startText, endText, labelText, key);
    ExampleFinds(a, b, l, startText, endText, labelText, key);
    ExampleLeaves(a, b, l, startText, endText, labelText, key, rank);
    ExampleChildrenTail(a, b, l, startText, endText, labelText, key, rank);
    ChildrenUnfold(g, rank, g.elements[0], g.connections);
  }

  lemma ExampleRootNode(a: string, b: string, l: string, startText: string, endText: string, labelText: string,
                        key: string, rank: map<string, nat>)
    requires Ranked(ExampleGraph(a, b, l, startText, endText, labelText, key), rank)
    requires a != b && b != l && a != l && labelText != ""
    ensures var g := ExampleGraph(a, b, l, startText, endText, labelText, key);
      BuildNode(g, rank, g.elements[0]) ==
        TreeNode(a, Circle, startText, [labelText],
          [TreeNode(b, Circle, endText, [], []), TreeNode(l, Text, labelText, [], [])])
  {
    ExampleShape(a, b, l, startText, endText, labelText, key);
    ExampleLabels(a, b, l, startText, endText, labelText, key);
    ExampleChildren(a, b, l, startText, endText, labelText, key, rank);
  }

  /** Exporting the example gives one root whose
      text target shows up both as a label and as a child. */
  lemma ExampleExport(a: string, b: string, l: string, startText: string, endText: string, labelText: string,
                      key: string, rank: map<string, nat>)
    requires Ranked(ExampleGraph(a, b, l, startText, endText, labelText, key), rank)
    requires a != b && b != l && a != l && labelText != ""
    ensures GenerateJSON(ExampleGraph(a, b, l, startText, endText, labelText, key), rank) ==
      WorkflowTree(key,
        [TreeNode(a, Circle, startText, [labelText],
           [TreeNode(b, Circle, endText, [], []), TreeNode(l, Text, labelText, [], [])])])
  {
    ExampleShape(a, b, l, startText, endText, labelText, key);
    ExampleRootNode(a, b, l, startText, endText, labelText, key, rank);
  }

  lemma ExampleAfterDeleteElements(a: string, b: string, l: string, startText: string, endText: string,
                                   labelText: string, key: string)
    requires a != b && b != l && a != l
    ensures var g0 := ExampleGraph(a, b, l, startText, endText, labelText, key);
      DeleteElement(g0, b).elements == [g0.elements[0], g0.elements[2]]
  {
    var g0 := ExampleGraph(a, b, l, startText, endText, labelText, key);
    var ea, eb, el := g0.elements[0], g0.elements[1], g0.elements[2];
    var p := (e: Element) => e.id != b;
    assert g0.elements == [ea] + ([eb] + [el]);
    FilterAppend([ea], [eb] + [el], p);
    FilterAppend([eb], [el], p);
    FilterKeepsAll([ea], p);
    FilterKeepsAll([el], p);
    FilterDropsAll([eb], p);
  }

  lemma ExampleAfterDeleteConnections(a: string, b: string, l: string, startText: string, endText: string,
                                      labelText: string, key: string)
    requires a != b && b != l && a != l
    ensures var g0 := ExampleGraph(a, b, l, startText, endText, labelText, key);
      DeleteElement(g0, b).connections == [g0.connections[1]]
  {
    var g0 := ExampleGraph(a, b, l, startText, endText, labelText, key);
    var ab, al := g0.connections[0], g0.connections[1];
    var p := (c: Connection) => !Mentions(c, b);
    assert g0.connections == [ab] + [al];
    FilterAppend([ab], [al], p);
    FilterDropsAll([ab], p);
    FilterKeepsAll([al], p);
  }

  /** The example after deleting `b`, spelled out. */
  function ExampleAfterDelete(a: string, l: string, startText: string, labelText: string, key: string): WorkflowData
  {
    WorkflowData(None, "", "",
      [Element(a, Circle, Position(0.0, 0.0), startText), Element(l, Text, Position(0.0, 0.0), labelText)],
      [Connection(a, l, Some(key))],
      key, "", "")
  }

  lemma ExampleAfterDeleteShape(a: string, l: string, startText: string, labelText: string, key: string)
    requires a != l
    ensures var g := ExampleAfterDelete(a, l, startText, labelText, key);
      Roots(g) == [g.elements[0]] && Outgoing(g.connections, a) == g.connections &&
      Outgoing(g.connections, l) == []
  {
    var g := ExampleAfterDelete(a, l, startText, labelText, key);
    var ea, el := g.elements[0], g.elements[1];
    var p := (e: Element) => e.kind == Circle && !IsTarget(g.connections, e.id);
    assert IsTarget(g.connections, l);
    assert g.elements == [ea] + [el];
    FilterAppend([ea], [el], p);
    FilterKeepsAll([ea], p);
    FilterDropsAll([el], p);
    FilterKeepsAll(g.connections, (c: Connection) => c.from == a);
    FilterDropsAll(g.connections, (c: Connection) => c.from == l);
  }

  /** After deleting the circle child, its connection is gone and the root
      keeps only the text child. */
  lemma ExampleExportAfterDelete(a: string, b: string, l: string, startText: string, endText: string,
                                 labelText: string, key: string, rank: map<string, nat>)
    requires Ranked(DeleteElement(ExampleGraph(a, b, l, startText, endText, labelText, key), b), rank)
    requires a != b && b != l && a != l && labelText != ""
    ensures DeleteElement(ExampleGraph(a, b, l, startText, endText, labelText, key), b) ==
            ExampleAfterDelete(a, l, startText, labelText, key)
    ensures GenerateJSON(ExampleAfterDelete(a, l, startText, labelText, key), rank) ==
      WorkflowTree(key, [TreeNode(a, Circle, startText, [labelText], [TreeNode(l, Text, labelText, [], [])])])
  {
    ExampleAfterDeleteElements(a, b, l, startText, endText, labelText, key);
    ExampleAfterDeleteConnections(a, b, l, startText, endText, labelText, key);
    ExampleAfterDeleteExport(a, l, startText, labelText, key, rank);
  }

  lemma ExampleAfterDeleteExport(a: string, l: string, startText: string, labelText: string, key: string,
                                 rank: map<string, nat>)
    requires Ranked(ExampleAfterDelete(a, l, startText, labelText, key), rank)
    requires a != l && labelText != ""
    ensures GenerateJSON(ExampleAfterDelete(a, l, startText, labelText, key), rank) ==
      WorkflowTree(key, [TreeNode(a, Circle, startText, [labelText], [TreeNode(l, Text, labelText, [], [])])])
  {
    var g := ExampleAfterDelete(a, l, startText, labelText, key);
    var ea, el := g.elements[0], g.elements[1];
    var al := g.connections[0];
    ExampleAfterDeleteShape(a, l, startText, labelText, key);
    LeafNode(g, rank, el);
    assert Find(g.elements, l) == Some(el);
    assert FindText(g.elements, l) == Some(el);
    assert Labels(g.elements, [al]) == [labelText];
    ChildrenUnfold(g, rank, ea, [al]);
    assert [al][1..] == [];
    assert BuildNode(g, rank, ea) ==
      TreeNode(a, Circle, startText, [labelText], [TreeNode(l, Text, labelText, [], [])]);
  }
}
