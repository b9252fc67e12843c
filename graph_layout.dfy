/**
 * The knowledge graph: one node per objective and per task, one edge per task that hangs
 * under a parent task or an objective, and the handle sides the layout step puts on every
 * node. The coordinates the layout library computes are not modelled.
 */
module GraphLayout {
  import opened Wrappers
  import opened TaskTypes
  import Seqs

  datatype NodeKind = ObjectiveKind | TaskKind

  /** Where on a node an edge attaches. */
  datatype Side = Top | Bottom

  datatype NodeData = NodeData(
    labelText: string,
    parentId: Option<string>,
    objectiveId: Option<string>,
    status: Option<TaskStatus>,
    priority: Option<TaskPriority>)

  datatype AppNode = AppNode(
    id: string,
    kind: NodeKind,
    data: NodeData,
    targetPosition: Option<Side>,
    sourcePosition: Option<Side>)

  datatype Edge = Edge(id: string, source: string, target: string, edgeType: string,
                       stroke: string, strokeDasharray: string)

  /** The target emoji in front of every objective's label. */
  const ObjectiveMarker := "\U{1F3AF} "

  const ParentStroke := "#9ca3af"
  const ObjectiveStroke := "#d1d5db"
  const SolidLine := "0"
  const DashedLine := "5,5"

  // ---------------------------------------------------------------------------
  // Nodes
  // ---------------------------------------------------------------------------

  function ObjectiveNode(o: Objective): AppNode {
    AppNode(o.id, ObjectiveKind, NodeData(ObjectiveMarker + o.title, None, None, None, None), None, None)
  }

  function TaskNode(t: Task): AppNode {
    AppNode(t.id, TaskKind, NodeData(t.title, t.parentId, t.objectiveId, Some(t.status), Some(t.priority)),
            None, None)
  }

  /** The objective nodes in objective order, then the task nodes in task order. */
  function AllNodes(objectives: seq<Objective>, tasks: seq<Task>): (r: seq<AppNode>)
    ensures |r| == |objectives| + |tasks|
    ensures forall i :: 0 <= i < |objectives| ==>
      r[i].id == objectives[i].id && r[i].kind == ObjectiveKind
      && r[i].data.labelText == ObjectiveMarker + objectives[i].title
    ensures forall j :: 0 <= j < |tasks| ==>
      var n := r[|objectives| + j];
      n.id == tasks[j].id && n.kind == TaskKind && n.data.labelText == tasks[j].title
      && n.data.parentId == tasks[j].parentId && n.data.objectiveId == tasks[j].objectiveId
      && n.data.status == Some(tasks[j].status) && n.data.priority == Some(tasks[j].priority)
  {
    seq(|objectives|, i requires 0 <= i < |objectives| => ObjectiveNode(objectives[i]))
    + seq(|tasks|, j requires 0 <= j < |tasks| => TaskNode(tasks[j]))
  }

  // ---------------------------------------------------------------------------
  // Edges
  // ---------------------------------------------------------------------------

  /** A task with an edge: it has a parent or an objective. */
  predicate HasLink(t: Task) {
    Truthy(t.parentId) || Truthy(t.objectiveId)
  }

  /** The edge into a linked task, from its parent when it has one and from its objective otherwise. */
  function EdgeFor(t: Task): (r: Edge)
    requires HasLink(t)
    ensures r.target == t.id && r.id == "e-" + r.source + "-" + t.id
    ensures Truthy(t.parentId) ==> r.source == t.parentId.value
    ensures !Truthy(t.parentId) ==> r.source == t.objectiveId.value
    ensures r.stroke == ParentStroke <==> Truthy(t.parentId)
    ensures r.stroke == ObjectiveStroke <==> !Truthy(t.parentId)
    ensures r.strokeDasharray == SolidLine <==> Truthy(t.parentId)
    ensures r.strokeDasharray == DashedLine <==> !Truthy(t.parentId)
  {
    var source := if Truthy(t.parentId) then t.parentId.value else t.objectiveId.value;
    Edge("e-" + source + "-" + t.id, source, t.id, "smoothstep",
         if Truthy(t.parentId) then ParentStroke else ObjectiveStroke,
         if Truthy(t.parentId) then SolidLine else DashedLine)
  }

  /** `tasks.filter(hasLink).map(edgeFor)`. */
  function Edges(tasks: seq<Task>): (r: seq<Edge>)
    ensures var linked := Seqs.Filter(HasLink, tasks);
            |r| == |linked| && forall i :: 0 <= i < |r| ==> r[i] == EdgeFor(linked[i])
  {
    var linked := Seqs.Filter(HasLink, tasks);
    seq(|linked|, i requires 0 <= i < |linked| => EdgeFor(linked[i]))
  }

  /** Every edge enters a linked task, and every linked task has its edge. */
  lemma EdgesMatchLinkedTasks(tasks: seq<Task>)
    ensures forall e :: e in Edges(tasks) ==> exists t :: t in tasks && HasLink(t) && e == EdgeFor(t)
    ensures forall t :: t in tasks && HasLink(t) ==> EdgeFor(t) in Edges(tasks)
  {
    var linked := Seqs.Filter(HasLink, tasks);
    var r := Edges(tasks);
    forall e | e in r ensures exists t :: t in tasks && HasLink(t) && e == EdgeFor(t) {
      var i :| 0 <= i < |r| && r[i] == e;
      assert linked[i] in linked;
    }
    forall t | t in tasks && HasLink(t) ensures EdgeFor(t) in r {
      var i :| 0 <= i < |linked| && linked[i] == t;
      assert r[i] == EdgeFor(t);
    }
  }

  // ---------------------------------------------------------------------------
  // Layout
  // ---------------------------------------------------------------------------

  /** The nodes with edges entering at the top and leaving at the bottom. */
  function WithHandles(nodes: seq<AppNode>): (r: seq<AppNode>)
    ensures |r| == |nodes|
    ensures forall i :: 0 <= i < |r| ==>
      r[i].targetPosition == Some(Top) && r[i].sourcePosition == Some(Bottom)
      && r[i].id == nodes[i].id && r[i].kind == nodes[i].kind && r[i].data == nodes[i].data
  {
    seq(|nodes|, i requires 0 <= i < |nodes| => nodes[i].(targetPosition := Some(Top), sourcePosition := Some(Bottom)))
  }

  lemma WithHandlesIdempotent(nodes: seq<AppNode>)
    ensures WithHandles(WithHandles(nodes)) == WithHandles(nodes)
  {
  }

  /** Sets the handle sides of every node in place; the edges come back as they were. */
  method GetLayoutedElements(nodes: array<AppNode>, edges: seq<Edge>) returns (resultEdges: seq<Edge>)
    modifies nodes
    ensures nodes[..] == WithHandles(old(nodes[..]))
    ensures resultEdges == edges
  {
    for k := 0 to nodes.Length
      invariant nodes[k..] == old(nodes[..])[k..]
      invariant nodes[..k] == WithHandles(old(nodes[..]))[..k]
    {
      nodes[k] := nodes[k].(targetPosition := Some(Top), sourcePosition := Some(Bottom));
    }
    resultEdges := edges;
  }

  /** The graph of the given tasks and objectives, handles set. */
  method UseGraphLayout(tasks: seq<Task>, objectives: seq<Objective>) returns (nodes: array<AppNode>, edges: seq<Edge>)
    ensures fresh(nodes)
    ensures nodes[..] == WithHandles(AllNodes(objectives, tasks))
    ensures edges == Edges(tasks)
  {
    var allNodes := AllNodes(objectives, tasks);
    nodes := new AppNode[|allNodes|](i requires 0 <= i < |allNodes| => allNodes[i]);
    assert nodes[..] == allNodes;
    edges := GetLayoutedElements(nodes, Edges(tasks));
  }
}
