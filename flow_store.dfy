/**
 * The graph store of the editor: the reducer that every graph, selection, viewport,
 * connection and execution change goes through, and the small pure pieces of its provider
 * (the id-collision and default-position rule of `addNode`, the wire form sent for execution
 * and the progress derived from a status poll).
 */
module FlowStore {
  import opened Wrappers
  import opened Json
  import opened Geometry

  /** A graph node; its `type` is whatever value the node was created with. */
  datatype Node = Node(id: string, nodeType: Json, position: Option<Point>, data: seq<Field>)

  /** An UPDATE_NODE payload: the node fields it carries. */
  datatype NodePatch = NodePatch(id: string, nodeType: Option<Json>, position: Option<Point>, data: Option<seq<Field>>)

  datatype Edge = Edge(id: string, source: string, sourceHandle: string, target: string, targetHandle: string)

  /** An UPDATE_EDGE payload: the edge fields it carries. */
  datatype EdgePatch = EdgePatch(
    id: string, source: Option<string>, sourceHandle: Option<string>,
    target: Option<string>, targetHandle: Option<string>)

  /** An UPDATE_VIEWPORT payload. */
  datatype ViewportPatch = ViewportPatch(x: Option<real>, y: Option<real>, zoom: Option<real>)

  /** The wire being dragged from an output handle. */
  datatype ConnectingEdge = ConnectingEdge(source: string, sourceHandle: string, sourcePosition: Point, targetPosition: Point)

  datatype State = State(
    nodes: seq<Node>,
    edges: seq<Edge>,
    viewport: Viewport,
    selectedNodes: set<string>,
    connectingEdge: Option<ConnectingEdge>,
    isConnecting: bool,
    hoveredHandle: Option<Json>,
    isExecuting: bool,
    executionProgress: int,
    executionStatus: string,
    executionId: Option<string>,
    executionResults: Option<Json>)

  /** The actions the reducer understands; `Unrecognised` stands for any other action type. */
  datatype Action =
    | AddNode(node: Node)
    | UpdateNode(nodePatch: NodePatch)
    | DeleteNode(deletedNodeId: string)
    | AddEdge(edge: Edge)
    | UpdateEdge(edgePatch: EdgePatch)
    | DeleteEdge(deletedEdgeId: string)
    | UpdateViewport(viewportPatch: ViewportPatch)
    | SelectNode(selectedId: string)
    | DeselectNode(deselectedId: string)
    | DeselectAll
    | StartConnecting(sourceNodeId: string, sourceHandleId: string, position: Point)
    | UpdateConnectingPosition(cursor: Point)
    | EndConnecting(targetNodeId: string, targetHandleId: string, newEdgeId: string)
    | ClearConnecting
    | SetHoveredHandle(handle: Json)
    | ClearHoveredHandle
    | StartExecution
    | UpdateExecutionStatus(progress: int, status: string, executionId: Option<string>, results: Option<Json>)
    | EndExecution(finalResults: Option<Json>)
    | ClearExecution
    | Unrecognised(actionType: string)

  /** The state a provider starts from, given the nodes and edges of its initial workflow. */
  function Initial(nodes: seq<Node>, edges: seq<Edge>): State
  {
    State(nodes, edges, InitialViewport, {}, None, false, None, false, 0, "", None, None)
  }

  /** `{ ...node, ...payload }`. */
  function MergeNode(n: Node, p: NodePatch): Node
  {
    Node(p.id, p.nodeType.GetOr(n.nodeType), if p.position.Some? then p.position else n.position, p.data.GetOr(n.data))
  }

  function UpdateNodes(nodes: seq<Node>, p: NodePatch): seq<Node>
  {
    seq(|nodes|, i requires 0 <= i < |nodes| => if nodes[i].id == p.id then MergeNode(nodes[i], p) else nodes[i])
  }

  /** `{ ...edge, ...payload }`. */
  function MergeEdge(e: Edge, p: EdgePatch): Edge
  {
    Edge(p.id, p.source.GetOr(e.source), p.sourceHandle.GetOr(e.sourceHandle),
         p.target.GetOr(e.target), p.targetHandle.GetOr(e.targetHandle))
  }

  function UpdateEdges(edges: seq<Edge>, p: EdgePatch): seq<Edge>
  {
    seq(|edges|, i requires 0 <= i < |edges| => if edges[i].id == p.id then MergeEdge(edges[i], p) else edges[i])
  }

  /** `{ ...viewport, ...payload }`. */
  function MergeViewport(vp: Viewport, p: ViewportPatch): Viewport
  {
    Viewport(p.x.GetOr(vp.x), p.y.GetOr(vp.y), p.zoom.GetOr(vp.zoom))
  }

  function NodeIdIsNot(id: string): Node -> bool
  {
    (n: Node) => n.id != id
  }

  function EdgeAvoids(id: string): Edge -> bool
  {
    (e: Edge) => e.source != id && e.target != id
  }

  function EdgeIdIsNot(id: string): Edge -> bool
  {
    (e: Edge) => e.id != id
  }

  /** The reducer: every action yields a new state built from the old one. */
  function Reduce(s: State, a: Action): State
  {
    match a
    case AddNode(n) => s.(nodes := s.nodes + [n])
    case UpdateNode(p) => s.(nodes := UpdateNodes(s.nodes, p))
    case DeleteNode(id) =>
      s.(nodes := Filter(s.nodes, NodeIdIsNot(id)),
         edges := Filter(s.edges, EdgeAvoids(id)),
         selectedNodes := s.selectedNodes - {id})
    case AddEdge(e) => s.(edges := s.edges + [e])
    case UpdateEdge(p) => s.(edges := UpdateEdges(s.edges, p))
    case DeleteEdge(id) => s.(edges := Filter(s.edges, EdgeIdIsNot(id)))
    case UpdateViewport(p) => s.(viewport := MergeViewport(s.viewport, p))
    case SelectNode(id) => s.(selectedNodes := s.selectedNodes + {id})
    case DeselectNode(id) => s.(selectedNodes := s.selectedNodes - {id})
    case DeselectAll => s.(selectedNodes := {})
    case StartConnecting(source, handle, position) =>
      s.(isConnecting := true, connectingEdge := Some(ConnectingEdge(source, handle, position, position)))
    case UpdateConnectingPosition(p) =>
      s.(connectingEdge := if s.connectingEdge.Some? then Some(s.connectingEdge.value.(targetPosition := p)) else None)
    case EndConnecting(target, targetHandle, edgeId) =>
      if s.connectingEdge.None? then s
      else
        var ce := s.connectingEdge.value;
        s.(edges := s.edges + [Edge(edgeId, ce.source, ce.sourceHandle, target, targetHandle)],
           isConnecting := false,
           connectingEdge := None)
    case ClearConnecting => s.(isConnecting := false, connectingEdge := None)
    case SetHoveredHandle(h) => s.(hoveredHandle := Some(h))
    case ClearHoveredHandle => s.(hoveredHandle := None)
    case StartExecution =>
      s.(isExecuting := true, executionProgress := 0, executionStatus := "submitting",
         executionId := None, executionResults := None)
    case UpdateExecutionStatus(progress, status, id, results) =>
      s.(executionProgress := progress, executionStatus := status, executionId := id, executionResults := results)
    case EndExecution(results) => s.(isExecuting := false, executionResults := results)
    case ClearExecution =>
      s.(isExecuting := false, executionProgress := 0, executionStatus := "",
         executionId := None, executionResults := None)
    case Unrecognised(_) => s
  }

  // ---------------------------------------------------------------------------------------
  // Graph invariants

  function NodeIds(nodes: seq<Node>): set<string>
  {
    set n | n in nodes :: n.id
  }

  /** Every edge endpoint names a node of the graph: no edge dangles. */
  ghost predicate EdgesAttached(nodes: seq<Node>, edges: seq<Edge>)
  {
    forall e :: e in edges ==> e.source in NodeIds(nodes) && e.target in NodeIds(nodes)
  }

  /** Some edge already ends at input `handleId` of node `nodeId`. */
  predicate Occupied(edges: seq<Edge>, nodeId: string, handleId: string)
  {
    exists e :: e in edges && e.target == nodeId && e.targetHandle == handleId
  }

  /** No two edges end at the same input handle. */
  ghost predicate SingleIncoming(edges: seq<Edge>)
  {
    forall i, j :: 0 <= i < j < |edges| ==>
      edges[i].target != edges[j].target || edges[i].targetHandle != edges[j].targetHandle
  }

  ghost predicate UniqueNodeIds(nodes: seq<Node>)
  {
    forall i, j :: 0 <= i < j < |nodes| ==> nodes[i].id != nodes[j].id
  }

  /** No connection gesture is in progress. */
  predicate Idle(s: State)
  {
    s.connectingEdge.None? && !s.isConnecting
  }

  lemma SingleIncomingCons(x: Edge, t: seq<Edge>)
    ensures SingleIncoming([x] + t) <==> SingleIncoming(t) && !Occupied(t, x.target, x.targetHandle)
  {
    if SingleIncoming([x] + t) {
      SingleIncomingConsSplits(x, t);
    }
    if SingleIncoming(t) && !Occupied(t, x.target, x.targetHandle) {
      SingleIncomingConsJoins(x, t);
    }
  }

  lemma SingleIncomingConsSplits(x: Edge, t: seq<Edge>)
    requires SingleIncoming([x] + t)
    ensures SingleIncoming(t) && !Occupied(t, x.target, x.targetHandle)
  {
    var s := [x] + t;
    forall i, j | 0 <= i < j < |t| ensures t[i].target != t[j].target || t[i].targetHandle != t[j].targetHandle {
      assert s[i + 1] == t[i] && s[j + 1] == t[j];
    }
    forall e | e in t ensures e.target != x.target || e.targetHandle != x.targetHandle {
      var k :| 0 <= k < |t| && t[k] == e;
      assert s[0] == x && s[k + 1] == e;
    }
  }

  lemma SingleIncomingConsJoins(x: Edge, t: seq<Edge>)
    requires SingleIncoming(t) && !Occupied(t, x.target, x.targetHandle)
    ensures SingleIncoming([x] + t)
  {
    var s := [x] + t;
    forall i, j | 0 <= i < j < |s| ensures s[i].target != s[j].target || s[i].targetHandle != s[j].targetHandle {
      assert s[j] == t[j - 1] && s[j] in t;
      if i > 0 {
        assert s[i] == t[i - 1];
      }
    }
  }

  lemma SingleIncomingSnoc(t: seq<Edge>, x: Edge)
    ensures SingleIncoming(t + [x]) <==> SingleIncoming(t) && !Occupied(t, x.target, x.targetHandle)
  {
    var s := t + [x];
    if SingleIncoming(s) {
      assert forall i :: 0 <= i < |t| ==> s[i] == t[i];
      forall e | e in t ensures e.target != x.target || e.targetHandle != x.targetHandle {
        var k :| 0 <= k < |t| && t[k] == e;
        assert s[k] == e && s[|t|] == x;
      }
    }
    if SingleIncoming(t) && !Occupied(t, x.target, x.targetHandle) {
      forall i, j | 0 <= i < j < |s| ensures s[i].target != s[j].target || s[i].targetHandle != s[j].targetHandle {
        assert s[i] == t[i] && s[i] in t;
        if j < |t| {
          assert s[j] == t[j];
        }
      }
    }
  }

  /** Removing edges never makes two of the remaining ones share an input handle. */
  lemma {:induction false} FilterKeepsSingleIncoming(edges: seq<Edge>, keep: Edge -> bool)
    requires SingleIncoming(edges)
    ensures SingleIncoming(Filter(edges, keep))
  {
    if edges != [] {
      var x, t := edges[0], edges[1..];
      assert edges == [x] + t;
      SingleIncomingCons(x, t);
      FilterKeepsSingleIncoming(t, keep);
      if keep(x) {
        assert Filter(edges, keep) == [x] + Filter(t, keep);
        SingleIncomingCons(x, Filter(t, keep));
      } else {
        assert Filter(edges, keep) == Filter(t, keep);
      }
    }
  }

  lemma SameIdsSameNodeIds(a: seq<Node>, b: seq<Node>)
    requires |a| == |b|
    requires forall i :: 0 <= i < |a| ==> a[i].id == b[i].id
    ensures NodeIds(a) == NodeIds(b)
  {
    forall x | x in NodeIds(a) ensures x in NodeIds(b) {
      var n :| n in a && n.id == x;
      var i :| 0 <= i < |a| && a[i] == n;
      assert b[i] in b;
    }
    forall x | x in NodeIds(b) ensures x in NodeIds(a) {
      var n :| n in b && n.id == x;
      var i :| 0 <= i < |b| && b[i] == n;
      assert a[i] in a;
    }
  }

  // ---------------------------------------------------------------------------------------
  // What each action does

  /** ADD_NODE appends its payload after the existing nodes and does not deduplicate ids. */
  lemma AddNodeAppends(s: State, n: Node)
    ensures var r := Reduce(s, AddNode(n));
      && |r.nodes| == |s.nodes| + 1 && r.nodes[..|s.nodes|] == s.nodes && r.nodes[|s.nodes|] == n
      && NodeIds(r.nodes) == NodeIds(s.nodes) + {n.id}
      && (n.id in NodeIds(s.nodes) ==> !UniqueNodeIds(r.nodes))
      && r.edges == s.edges && r.selectedNodes == s.selectedNodes
  {
    var r := Reduce(s, AddNode(n));
    assert r.nodes[..|s.nodes|] == s.nodes;
    assert forall m :: m in r.nodes <==> m in s.nodes || m == n;
    if n.id in NodeIds(s.nodes) {
      var m :| m in s.nodes && m.id == n.id;
      var i :| 0 <= i < |s.nodes| && s.nodes[i] == m;
      assert r.nodes[i].id == r.nodes[|s.nodes|].id;
    }
  }

  /**
   * UPDATE_NODE keeps the length, order and ids of the node list, merges the payload into the
   * nodes whose id matches and leaves every other node as it was; an unknown id changes nothing.
   */
  lemma UpdateNodeMerges(s: State, p: NodePatch)
    ensures var r := Reduce(s, UpdateNode(p));
      && |r.nodes| == |s.nodes|
      && (forall i :: 0 <= i < |s.nodes| ==> r.nodes[i].id == s.nodes[i].id)
      && (forall i :: 0 <= i < |s.nodes| && s.nodes[i].id != p.id ==> r.nodes[i] == s.nodes[i])
      && (forall i :: 0 <= i < |s.nodes| && s.nodes[i].id == p.id ==>
            && r.nodes[i].position == (if p.position.Some? then p.position else s.nodes[i].position)
            && r.nodes[i].nodeType == p.nodeType.GetOr(s.nodes[i].nodeType)
            && r.nodes[i].data == p.data.GetOr(s.nodes[i].data))
      && NodeIds(r.nodes) == NodeIds(s.nodes)
      && r.edges == s.edges
      && (p.id !in NodeIds(s.nodes) ==> r == s)
  {
    var r := Reduce(s, UpdateNode(p));
    SameIdsSameNodeIds(r.nodes, s.nodes);
    if p.id !in NodeIds(s.nodes) {
      forall i | 0 <= i < |s.nodes| ensures r.nodes[i] == s.nodes[i] {
        assert s.nodes[i] in s.nodes;
      }
      assert r.nodes == s.nodes;
    }
  }

  /**
   * DELETE_NODE removes the node, every edge that starts or ends at it and its selection entry,
   * keeps everything else in order, and changes no other part of the state.
   */
  lemma DeleteNodeCascades(s: State, id: string)
    ensures var r := Reduce(s, DeleteNode(id));
      && id !in NodeIds(r.nodes)
      && (forall n :: n in r.nodes <==> n in s.nodes && n.id != id)
      && (forall e :: e in r.edges <==> e in s.edges && e.source != id && e.target != id)
      && r.selectedNodes == s.selectedNodes - {id}
      && (forall a, b :: Reduce(s.(nodes := a + b), DeleteNode(id)).nodes
                        == Filter(a, NodeIdIsNot(id)) + Filter(b, NodeIdIsNot(id)))
      && r.viewport == s.viewport && r.connectingEdge == s.connectingEdge && r.isExecuting == s.isExecuting
  {
    forall a, b ensures Reduce(s.(nodes := a + b), DeleteNode(id)).nodes
                        == Filter(a, NodeIdIsNot(id)) + Filter(b, NodeIdIsNot(id)) {
      FilterAppend(a, b, NodeIdIsNot(id));
    }
  }

  /** DELETE_NODE keeps every edge attached, keeps inputs single, and keeps the selection within the graph. */
  lemma DeleteNodeKeepsInvariants(s: State, id: string)
    requires EdgesAttached(s.nodes, s.edges)
    requires SingleIncoming(s.edges)
    requires s.selectedNodes <= NodeIds(s.nodes)
    ensures var r := Reduce(s, DeleteNode(id));
      EdgesAttached(r.nodes, r.edges) && SingleIncoming(r.edges) && r.selectedNodes <= NodeIds(r.nodes)
  {
    var r := Reduce(s, DeleteNode(id));
    forall x | x in NodeIds(s.nodes) && x != id ensures x in NodeIds(r.nodes) {
      var n :| n in s.nodes && n.id == x;
      assert n in r.nodes;
    }
    FilterKeepsSingleIncoming(s.edges, EdgeAvoids(id));
  }

  /** The selection actions are set insertion, removal of one id, and clearing. */
  lemma SelectionActions(s: State, id: string)
    ensures Reduce(s, SelectNode(id)).selectedNodes == s.selectedNodes + {id}
    ensures var r := Reduce(s, DeselectNode(id)).selectedNodes;
      id !in r && forall other :: other != id ==> (other in r <==> other in s.selectedNodes)
    ensures Reduce(s, DeselectAll).selectedNodes == {}
    ensures Reduce(s, SelectNode(id)).nodes == s.nodes && Reduce(s, DeselectNode(id)).edges == s.edges
  {
  }

  /** UPDATE_VIEWPORT merges the payload as given: nothing clamps the zoom here. */
  lemma UpdateViewportMergesUnclamped(s: State, p: ViewportPatch)
    ensures var v := Reduce(s, UpdateViewport(p)).viewport;
      && (p.zoom.Some? ==> v.zoom == p.zoom.value)
      && (p.zoom.None? ==> v.zoom == s.viewport.zoom)
      && (p.x.Some? ==> v.x == p.x.value) && (p.x.None? ==> v.x == s.viewport.x)
      && (p.y.Some? ==> v.y == p.y.value) && (p.y.None? ==> v.y == s.viewport.y)
    ensures Reduce(s, UpdateViewport(ViewportPatch(None, None, Some(0.0)))).viewport.zoom == 0.0
  {
  }

  /**
   * START_CONNECTING begins a wire whose loose end sits on its source; UPDATE_CONNECTING_POSITION
   * moves only the loose end, and leaves an absent wire absent.
   */
  lemma ConnectingLifecycle(s: State, source: string, handle: string, at: Point, p: Point)
    ensures var r := Reduce(s, StartConnecting(source, handle, at));
      && r.isConnecting && r.connectingEdge.Some?
      && r.connectingEdge.value.targetPosition == r.connectingEdge.value.sourcePosition == at
      && r.connectingEdge.value.source == source && r.connectingEdge.value.sourceHandle == handle
      && r.edges == s.edges
    ensures var r := Reduce(s, UpdateConnectingPosition(p));
      && (s.connectingEdge.None? ==> r.connectingEdge.None?)
      && (s.connectingEdge.Some? ==> r.connectingEdge == Some(s.connectingEdge.value.(targetPosition := p)))
      && r.isConnecting == s.isConnecting && r.edges == s.edges
  {
  }

  /**
   * END_CONNECTING with no wire in progress returns the state unchanged; otherwise it appends
   * exactly one edge from the wire's source to the given input and ends the gesture.
   */
  lemma EndConnectingAppendsOne(s: State, target: string, targetHandle: string, edgeId: string)
    ensures var r := Reduce(s, EndConnecting(target, targetHandle, edgeId));
      && (s.connectingEdge.None? ==> r == s)
      && (s.connectingEdge.Some? ==>
            && r.edges == s.edges + [Edge(edgeId, s.connectingEdge.value.source,
                                          s.connectingEdge.value.sourceHandle, target, targetHandle)]
            && Idle(r) && r.nodes == s.nodes && r.selectedNodes == s.selectedNodes)
  {
  }

  /** CLEAR_CONNECTING ends any gesture, is idempotent, and is a no-op on an idle state. */
  lemma ClearConnectingIdempotent(s: State)
    ensures Idle(Reduce(s, ClearConnecting))
    ensures Reduce(Reduce(s, ClearConnecting), ClearConnecting) == Reduce(s, ClearConnecting)
    ensures Idle(s) ==> Reduce(s, ClearConnecting) == s
  {
  }

  /** START_EXECUTION and CLEAR_EXECUTION reset progress, id and results; END_EXECUTION stops executing. */
  lemma ExecutionLifecycle(s: State, results: Option<Json>)
    ensures var r := Reduce(s, StartExecution);
      r.isExecuting && r.executionProgress == 0 && r.executionStatus == "submitting"
      && r.executionId.None? && r.executionResults.None? && r.nodes == s.nodes && r.edges == s.edges
    ensures var r := Reduce(s, ClearExecution);
      !r.isExecuting && r.executionProgress == 0 && r.executionStatus == ""
      && r.executionId.None? && r.executionResults.None?
    ensures var r := Reduce(s, EndExecution(results));
      !r.isExecuting && r.executionResults == results
      && r.executionProgress == s.executionProgress && r.executionId == s.executionId
  {
  }

  /** The actions that may change the node or edge lists. */
  predicate ChangesGraph(a: Action)
  {
    a.AddNode? || a.UpdateNode? || a.DeleteNode? || a.AddEdge? || a.UpdateEdge? || a.DeleteEdge? || a.EndConnecting?
  }

  /** Every other action leaves both lists as they were. */
  lemma OtherActionsKeepGraph(s: State, a: Action)
    requires !ChangesGraph(a)
    ensures Reduce(s, a).nodes == s.nodes && Reduce(s, a).edges == s.edges
  {
  }

  lemma DeleteNodeKeepsEdgesAttached(s: State, id: string)
    requires EdgesAttached(s.nodes, s.edges)
    ensures EdgesAttached(Reduce(s, DeleteNode(id)).nodes, Reduce(s, DeleteNode(id)).edges)
  {
    var r := Reduce(s, DeleteNode(id));
    forall e | e in r.edges ensures e.source in NodeIds(r.nodes) && e.target in NodeIds(r.nodes) {
      var m :| m in s.nodes && m.id == e.source;
      assert m in r.nodes;
      var m' :| m' in s.nodes && m'.id == e.target;
      assert m' in r.nodes;
    }
  }

  lemma UpdateEdgeKeepsEdgesAttached(s: State, p: EdgePatch)
    requires EdgesAttached(s.nodes, s.edges)
    requires p.source.Some? ==> p.source.value in NodeIds(s.nodes)
    requires p.target.Some? ==> p.target.value in NodeIds(s.nodes)
    ensures EdgesAttached(s.nodes, UpdateEdges(s.edges, p))
  {
    var edges := UpdateEdges(s.edges, p);
    forall e | e in edges ensures e.source in NodeIds(s.nodes) && e.target in NodeIds(s.nodes) {
      var i :| 0 <= i < |edges| && edges[i] == e;
      assert s.edges[i] in s.edges;
    }
  }

  lemma UpdateEdgeKeepsSingleIncoming(edges: seq<Edge>, p: EdgePatch)
    requires SingleIncoming(edges)
    requires p.target.None? && p.targetHandle.None?
    ensures SingleIncoming(UpdateEdges(edges, p))
  {
    var r := UpdateEdges(edges, p);
    assert forall i :: 0 <= i < |edges| ==> r[i].target == edges[i].target && r[i].targetHandle == edges[i].targetHandle;
  }

  /**
   * Every action keeps every edge attached to a node, except the three that add or redirect an
   * edge without looking at the nodes; those keep it when the endpoints they name exist.
   */
  lemma ReduceKeepsEdgesAttached(s: State, a: Action)
    requires EdgesAttached(s.nodes, s.edges)
    requires a.AddEdge? ==> a.edge.source in NodeIds(s.nodes) && a.edge.target in NodeIds(s.nodes)
    requires a.UpdateEdge? ==>
      (a.edgePatch.source.Some? ==> a.edgePatch.source.value in NodeIds(s.nodes)) &&
      (a.edgePatch.target.Some? ==> a.edgePatch.target.value in NodeIds(s.nodes))
    requires a.EndConnecting? && s.connectingEdge.Some? ==>
      s.connectingEdge.value.source in NodeIds(s.nodes) && a.targetNodeId in NodeIds(s.nodes)
    ensures EdgesAttached(Reduce(s, a).nodes, Reduce(s, a).edges)
  {
    var r := Reduce(s, a);
    match a
    case AddNode(n) =>
      AddNodeAppends(s, n);
    case UpdateNode(p) =>
      UpdateNodeMerges(s, p);
    case DeleteNode(id) =>
      DeleteNodeKeepsEdgesAttached(s, id);
    case AddEdge(e) =>
    case UpdateEdge(p) =>
      UpdateEdgeKeepsEdgesAttached(s, p);
    case DeleteEdge(id) =>
    case EndConnecting(t, th, eid) =>
    case _ =>
      OtherActionsKeepGraph(s, a);
  }

  /**
   * Every action keeps each input handle to at most one incoming edge, except the three that add
   * or redirect an edge without looking; those keep it when the input they fill is free.
   */
  lemma ReduceKeepsSingleIncoming(s: State, a: Action)
    requires SingleIncoming(s.edges)
    requires a.AddEdge? ==> !Occupied(s.edges, a.edge.target, a.edge.targetHandle)
    requires a.UpdateEdge? ==> a.edgePatch.target.None? && a.edgePatch.targetHandle.None?
    requires a.EndConnecting? ==> !Occupied(s.edges, a.targetNodeId, a.targetHandleId)
    ensures SingleIncoming(Reduce(s, a).edges)
  {
    match a
    case DeleteNode(id) =>
      FilterKeepsSingleIncoming(s.edges, EdgeAvoids(id));
    case AddEdge(e) =>
      SingleIncomingSnoc(s.edges, e);
    case DeleteEdge(id) =>
      FilterKeepsSingleIncoming(s.edges, EdgeIdIsNot(id));
    case UpdateEdge(p) =>
      UpdateEdgeKeepsSingleIncoming(s.edges, p);
    case EndConnecting(t, th, eid) =>
      if s.connectingEdge.Some? {
        var ce := s.connectingEdge.value;
        SingleIncomingSnoc(s.edges, Edge(eid, ce.source, ce.sourceHandle, t, th));
      }
    case AddNode(_) =>
    case UpdateNode(_) =>
    case _ =>
      OtherActionsKeepGraph(s, a);
  }

  // ---------------------------------------------------------------------------------------
  // The provider's pure pieces

  /**
   * `addNode`: a node whose id is already taken gets the fresh id instead, and a node without a
   * position is placed at the centre of the canvas (60% of the window wide, the full window
   * high) converted to world space.
   */
  function PrepareNode(nodes: seq<Node>, vp: Viewport, node: Node, freshId: string,
                       innerWidth: real, innerHeight: real): (r: Node)
    requires node.position.None? ==> vp.zoom != 0.0
    ensures r.id == (if node.id in NodeIds(nodes) then freshId else node.id)
    ensures r.nodeType == node.nodeType && r.data == node.data && r.position.Some?
    ensures node.position.Some? ==> r.position == node.position
    ensures node.position.None? ==>
      WorldToScreen(vp, r.position.value) == Point(innerWidth * 0.6 / 2.0, innerHeight / 2.0)
  {
    var id := if exists m :: m in nodes && m.id == node.id then freshId else node.id;
    var position :=
      if node.position.Some? then node.position
      else Some(ScreenToWorld(vp, Point(innerWidth * 0.6 / 2.0, innerHeight / 2.0)));
    Node(id, node.nodeType, position, node.data)
  }

  /** Adding a node through `addNode` with a fresh replacement id keeps node ids unique. */
  lemma PreparedNodeKeepsIdsUnique(s: State, node: Node, freshId: string, innerWidth: real, innerHeight: real)
    requires node.position.None? ==> s.viewport.zoom != 0.0
    requires UniqueNodeIds(s.nodes)
    requires freshId !in NodeIds(s.nodes)
    ensures UniqueNodeIds(Reduce(s, AddNode(PrepareNode(s.nodes, s.viewport, node, freshId, innerWidth, innerHeight))).nodes)
  {
    var n := PrepareNode(s.nodes, s.viewport, node, freshId, innerWidth, innerHeight);
    var r := Reduce(s, AddNode(n));
    assert n.id !in NodeIds(s.nodes);
    forall i, j | 0 <= i < j < |r.nodes| ensures r.nodes[i].id != r.nodes[j].id {
      if j == |s.nodes| {
        assert r.nodes[i] == s.nodes[i] && s.nodes[i] in s.nodes;
      }
    }
  }

  datatype WireNode = WireNode(id: string, nodeType: Json, position: Option<Point>, data: seq<Field>)
  datatype WireEdge = WireEdge(id: string, source: string, source_handle: string, target: string, target_handle: string)
  datatype WireWorkflow = WireWorkflow(nodes: seq<WireNode>, edges: seq<WireEdge>)

  /** `convertToBackendWorkflow`: the graph as submitted for execution, handle fields renamed. */
  function ToWireWorkflow(s: State): (w: WireWorkflow)
    ensures |w.nodes| == |s.nodes| && |w.edges| == |s.edges|
    ensures forall i :: 0 <= i < |s.nodes| ==>
      w.nodes[i].id == s.nodes[i].id && w.nodes[i].nodeType == s.nodes[i].nodeType
      && w.nodes[i].position == s.nodes[i].position && w.nodes[i].data == s.nodes[i].data
    ensures forall i :: 0 <= i < |s.edges| ==>
      w.edges[i].id == s.edges[i].id && w.edges[i].source == s.edges[i].source
      && w.edges[i].target == s.edges[i].target
      && w.edges[i].source_handle == s.edges[i].sourceHandle
      && w.edges[i].target_handle == s.edges[i].targetHandle
  {
    WireWorkflow(
      seq(|s.nodes|, i requires 0 <= i < |s.nodes| =>
        WireNode(s.nodes[i].id, s.nodes[i].nodeType, s.nodes[i].position, s.nodes[i].data)),
      seq(|s.edges|, i requires 0 <= i < |s.edges| =>
        WireEdge(s.edges[i].id, s.edges[i].source, s.edges[i].sourceHandle, s.edges[i].target, s.edges[i].targetHandle)))
  }

  /** The submitted graph has no dangling edge and no doubly-fed input when the store has none. */
  lemma WireWorkflowKeepsGraphInvariants(s: State)
    requires EdgesAttached(s.nodes, s.edges)
    requires SingleIncoming(s.edges)
    ensures var w := ToWireWorkflow(s);
      && (forall e :: e in w.edges ==>
            (exists n :: n in w.nodes && n.id == e.source) && (exists n :: n in w.nodes && n.id == e.target))
      && (forall i, j :: 0 <= i < j < |w.edges| ==>
            w.edges[i].target != w.edges[j].target || w.edges[i].target_handle != w.edges[j].target_handle)
  {
    var w := ToWireWorkflow(s);
    forall e | e in w.edges
      ensures (exists n :: n in w.nodes && n.id == e.source) && (exists n :: n in w.nodes && n.id == e.target)
    {
      var i :| 0 <= i < |w.edges| && w.edges[i] == e;
      assert s.edges[i] in s.edges;
      WireNodePresent(s, e.source);
      WireNodePresent(s, e.target);
    }
  }

  lemma WireNodePresent(s: State, id: string)
    requires id in NodeIds(s.nodes)
    ensures exists n :: n in ToWireWorkflow(s).nodes && n.id == id
  {
    var w := ToWireWorkflow(s);
    var m :| m in s.nodes && m.id == id;
    var k :| 0 <= k < |s.nodes| && s.nodes[k] == m;
    assert w.nodes[k] in w.nodes;
  }

  /** The numeric `node_count` of a status poll's results, when it is present and truthy. */
  function NodeCount(results: Option<Json>): Option<real>
  {
    var nc := Member(results, "node_count");
    if nc.Some? && Truthy(nc) && nc.value.JNum? then Some(nc.value.n)
    else if nc == Some(JBool(true)) then Some(1.0)
    else None
  }

  /** The result keys other than `node_count`: one per node that has reported. */
  function CompletedNodes(results: Option<Json>): nat
  {
    if results.Some? && results.value.JObj? then |KeySet(results.value.fields) - {"node_count"}| else 0
  }

  lemma QuotientBounds(c: real, n: real)
    requires 0.0 <= c && n != 0.0
    ensures 0.0 < n ==> c / n * 100.0 >= 0.0
    ensures 0.0 < n <= c ==> c / n * 100.0 >= 100.0
  {
    if 0.0 < n {
      var q := c / n;
      assert q * n == c;
      if q < 1.0 {
        assert q * n < 1.0 * n;
      }
    }
  }

  /** The progress a status poll reports: `min(100, floor(100 * completed / node_count))`, else 0. */
  function Progress(results: Option<Json>): (p: int)
    ensures p <= 100
    ensures NodeCount(results).None? ==> p == 0
    ensures NodeCount(results).Some? && NodeCount(results).value > 0.0 ==> 0 <= p
    ensures NodeCount(results).Some? && 0.0 < NodeCount(results).value <= CompletedNodes(results) as real ==> p == 100
    ensures NodeCount(results).Some? && p < 100 ==>
      var q := CompletedNodes(results) as real / NodeCount(results).value * 100.0;
      p as real <= q < p as real + 1.0
    ensures NodeCount(results).Some? && p == 100 ==>
      CompletedNodes(results) as real / NodeCount(results).value * 100.0 >= 100.0
  {
    match NodeCount(results)
    case None => 0
    case Some(n) =>
      assert n != 0.0;
      var c := CompletedNodes(results) as real;
      var f := (c / n * 100.0).Floor;
      QuotientBounds(c, n);
      if f < 100 then f else 100
  }

  /**
   * The store cell of the provider: `dispatch` replaces the state by the reducer's result. The
   * gestures of the handle, node, canvas and edge components act on it step by step.
   */
  class Store {
    var state: State

    constructor (nodes: seq<Node>, edges: seq<Edge>)
      ensures state == Initial(nodes, edges)
    {
      state := Initial(nodes, edges);
    }

    method Dispatch(a: Action)
      modifies this
      ensures state == Reduce(old(state), a)
    {
      state := Reduce(state, a);
    }

    /** `addNode`: resolves an id collision and a missing position, then dispatches ADD_NODE. */
    method AddNode(node: Node, freshId: string, innerWidth: real, innerHeight: real)
      requires node.position.None? ==> state.viewport.zoom != 0.0
      modifies this
      ensures state == Reduce(old(state), Action.AddNode(
        PrepareNode(old(state).nodes, old(state).viewport, node, freshId, innerWidth, innerHeight)))
    {
      var prepared := PrepareNode(state.nodes, state.viewport, node, freshId, innerWidth, innerHeight);
      Dispatch(Action.AddNode(prepared));
    }
  }
}
