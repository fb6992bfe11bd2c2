/**
 * A connection handle drawn on a node, and the connect gesture that starts from it: a mouse-down
 * on an output handle starts a wire, document-level mouse moves drag its loose end, and the
 * document-level mouse-up commits an edge when the element under the cursor is a free input
 * handle of another node, then always clears the wire. What the page reports (the handle's
 * measured centre, the element under the cursor) comes in as parameters.
 */
module Handle {
  import opened Wrappers
  import opened Json
  import opened Geometry
  import opened FlowStore

  /** What `document.elementFromPoint` finds under the cursor, read through the handle's data attributes. */
  datatype HitElement =
    | Nothing
    | NotAHandle
    | HandleElement(nodeId: string, handleId: string, handleType: string)

  /** `isConnected`: an input handle with an incoming edge. */
  predicate IsConnected(edges: seq<Edge>, handleType: string, nodeId: string, handleId: string)
  {
    handleType == "input" && Occupied(edges, nodeId, handleId)
  }

  /** The mouse-up commit test, over the `edges` the listener captured when the gesture began. */
  predicate CanCommit(capturedEdges: seq<Edge>, sourceNodeId: string, hit: HitElement)
  {
    && hit.HandleElement?
    && hit.handleType == "input"
    && hit.nodeId != sourceNodeId
    && !Occupied(capturedEdges, hit.nodeId, hit.handleId)
  }

  /** The state after the document-level mouse-up: END_CONNECTING if the commit test passes, then CLEAR_CONNECTING. */
  function MouseUpState(s: State, sourceNodeId: string, capturedEdges: seq<Edge>, hit: HitElement, newEdgeId: string): State
  {
    var committed := if CanCommit(capturedEdges, sourceNodeId, hit)
                     then Reduce(s, EndConnecting(hit.nodeId, hit.handleId, newEdgeId))
                     else s;
    Reduce(committed, ClearConnecting)
  }

  /** Whatever the cursor lands on, the mouse-up leaves no wire in progress and touches no node. */
  lemma MouseUpAlwaysClears(s: State, sourceNodeId: string, capturedEdges: seq<Edge>, hit: HitElement, newEdgeId: string)
    ensures var r := MouseUpState(s, sourceNodeId, capturedEdges, hit, newEdgeId);
      Idle(r) && r.nodes == s.nodes && r.selectedNodes == s.selectedNodes && r.viewport == s.viewport
    ensures !CanCommit(capturedEdges, sourceNodeId, hit) ==>
      MouseUpState(s, sourceNodeId, capturedEdges, hit, newEdgeId) == Reduce(s, ClearConnecting)
  {
  }

  /**
   * A gesture adds at most one edge, keeps the earlier edges as they were, and adds one exactly
   * when a wire is in progress and the commit test passes; the new edge runs from the wire's
   * source to the handle under the cursor.
   */
  lemma MouseUpAddsAtMostOneEdge(s: State, sourceNodeId: string, capturedEdges: seq<Edge>, hit: HitElement, newEdgeId: string)
    ensures var r := MouseUpState(s, sourceNodeId, capturedEdges, hit, newEdgeId);
      && (r.edges == s.edges || |r.edges| == |s.edges| + 1)
      && r.edges[..|s.edges|] == s.edges
      && (|r.edges| == |s.edges| + 1 <==> CanCommit(capturedEdges, sourceNodeId, hit) && s.connectingEdge.Some?)
      && (|r.edges| == |s.edges| + 1 ==>
            r.edges[|s.edges|] == Edge(newEdgeId, s.connectingEdge.value.source, s.connectingEdge.value.sourceHandle,
                                       hit.nodeId, hit.handleId))
  {
    var r := MouseUpState(s, sourceNodeId, capturedEdges, hit, newEdgeId);
    assert r.edges[..|s.edges|] == s.edges;
  }

  /**
   * When the captured edges are the store's edges, a gesture never feeds a second edge into an
   * occupied input: the single-incoming-edge invariant is preserved.
   */
  lemma MouseUpKeepsSingleIncoming(s: State, sourceNodeId: string, hit: HitElement, newEdgeId: string)
    requires SingleIncoming(s.edges)
    ensures SingleIncoming(MouseUpState(s, sourceNodeId, s.edges, hit, newEdgeId).edges)
  {
    if CanCommit(s.edges, sourceNodeId, hit) {
      var end := EndConnecting(hit.nodeId, hit.handleId, newEdgeId);
      ReduceKeepsSingleIncoming(s, end);
      ReduceKeepsSingleIncoming(Reduce(s, end), ClearConnecting);
    } else {
      ReduceKeepsSingleIncoming(s, ClearConnecting);
    }
  }

  /** No edge runs from a node to itself. */
  ghost predicate NoSelfLoops(edges: seq<Edge>)
  {
    forall e :: e in edges ==> e.source != e.target
  }

  /** A gesture started from `sourceNodeId` never creates a self-loop. */
  lemma MouseUpKeepsNoSelfLoops(s: State, sourceNodeId: string, capturedEdges: seq<Edge>, hit: HitElement, newEdgeId: string)
    requires NoSelfLoops(s.edges)
    requires s.connectingEdge.Some? ==> s.connectingEdge.value.source == sourceNodeId
    ensures NoSelfLoops(MouseUpState(s, sourceNodeId, capturedEdges, hit, newEdgeId).edges)
  {
    var r := MouseUpState(s, sourceNodeId, capturedEdges, hit, newEdgeId);
    MouseUpAddsAtMostOneEdge(s, sourceNodeId, capturedEdges, hit, newEdgeId);
    forall e | e in r.edges ensures e.source != e.target {
      var i :| 0 <= i < |r.edges| && r.edges[i] == e;
      if i < |s.edges| {
        assert r.edges[..|s.edges|][i] == e;
      }
    }
  }

  /**
   * A gesture keeps every edge attached when it starts from a node of the graph and the handle
   * under the cursor belongs to a node of the graph.
   */
  lemma MouseUpKeepsEdgesAttached(s: State, sourceNodeId: string, capturedEdges: seq<Edge>, hit: HitElement, newEdgeId: string)
    requires EdgesAttached(s.nodes, s.edges)
    requires s.connectingEdge.Some? ==> s.connectingEdge.value.source in NodeIds(s.nodes)
    requires hit.HandleElement? ==> hit.nodeId in NodeIds(s.nodes)
    ensures var r := MouseUpState(s, sourceNodeId, capturedEdges, hit, newEdgeId);
      EdgesAttached(r.nodes, r.edges)
  {
    if CanCommit(capturedEdges, sourceNodeId, hit) {
      var end := EndConnecting(hit.nodeId, hit.handleId, newEdgeId);
      ReduceKeepsEdgesAttached(s, end);
      ReduceKeepsEdgesAttached(Reduce(s, end), ClearConnecting);
    } else {
      ReduceKeepsEdgesAttached(s, ClearConnecting);
    }
  }

  /** After a committed gesture the input under the cursor shows as connected; output handles never do. */
  lemma CommittedInputIsConnected(s: State, sourceNodeId: string, capturedEdges: seq<Edge>, hit: HitElement, newEdgeId: string)
    requires CanCommit(capturedEdges, sourceNodeId, hit) && s.connectingEdge.Some?
    ensures IsConnected(MouseUpState(s, sourceNodeId, capturedEdges, hit, newEdgeId).edges, "input", hit.nodeId, hit.handleId)
    ensures forall edges, nodeId, handleId :: !IsConnected(edges, "output", nodeId, handleId)
  {
    var r := MouseUpState(s, sourceNodeId, capturedEdges, hit, newEdgeId);
    MouseUpAddsAtMostOneEdge(s, sourceNodeId, capturedEdges, hit, newEdgeId);
    assert r.edges[|s.edges|] in r.edges;
  }

  /** `handleMouseEnter`: the connecting highlight is added to an input handle while a wire from another node is in progress. */
  function HighlightOnEnter(highlighted: bool, handleType: string, nodeId: string, connecting: Option<ConnectingEdge>): bool
  {
    if handleType == "input" && connecting.Some? && connecting.value.source != nodeId then true else highlighted
  }

  /** `handleMouseLeave`: an input handle drops the highlight. */
  function HighlightOnLeave(highlighted: bool, handleType: string): bool
  {
    if handleType == "input" then false else highlighted
  }

  /**
   * Starting from no highlight, entering highlights exactly input handles while a wire from a
   * different node is in progress, and leaving an input handle always removes the highlight.
   */
  lemma HoverHighlightRule(handleType: string, nodeId: string, connecting: Option<ConnectingEdge>, highlighted: bool)
    ensures HighlightOnEnter(false, handleType, nodeId, connecting)
      <==> handleType == "input" && connecting.Some? && connecting.value.source != nodeId
    ensures handleType == "input" ==> !HighlightOnLeave(highlighted, handleType)
    ensures handleType != "input" ==>
      HighlightOnEnter(highlighted, handleType, nodeId, connecting) == highlighted == HighlightOnLeave(highlighted, handleType)
  {
  }

  /** One connect gesture: the listeners registered by a mouse-down on an output handle. */
  class ConnectGesture {
    const store: Store
    const sourceNodeId: string
    /** The `edges` the mouse-up listener closes over: those rendered when the gesture began. */
    const capturedEdges: seq<Edge>
    /** Whether the document listeners are still registered. */
    var listening: bool

    constructor (store: Store, sourceNodeId: string, capturedEdges: seq<Edge>)
      ensures this.store == store && this.sourceNodeId == sourceNodeId && this.capturedEdges == capturedEdges
      ensures listening
    {
      this.store := store;
      this.sourceNodeId := sourceNodeId;
      this.capturedEdges := capturedEdges;
      listening := true;
    }

    /** The document mouse-move listener: moves the loose end of the wire to the cursor. */
    method MouseMove(clientX: real, clientY: real)
      modifies store
      ensures store.state == if listening then Reduce(old(store.state), UpdateConnectingPosition(Point(clientX, clientY)))
                             else old(store.state)
    {
      if listening {
        store.Dispatch(UpdateConnectingPosition(Point(clientX, clientY)));
      }
    }

    /** The document mouse-up listener: commits if the test passes, removes both listeners, and clears. */
    method MouseUp(hit: HitElement, newEdgeId: string)
      modifies this, store
      ensures !listening
      ensures store.state == if old(listening) then MouseUpState(old(store.state), sourceNodeId, capturedEdges, hit, newEdgeId)
                             else old(store.state)
    {
      if listening {
        if CanCommit(capturedEdges, sourceNodeId, hit) {
          store.Dispatch(EndConnecting(hit.nodeId, hit.handleId, newEdgeId));
        }
        listening := false;
        store.Dispatch(ClearConnecting);
      }
    }
  }

  /**
   * `handleMouseDown` on a handle whose measured centre is `anchor`: an input handle, or one that
   * cannot be measured, starts nothing; an output handle starts a wire and registers the listeners.
   */
  method HandleMouseDown(store: Store, handleType: string, nodeId: string, handleId: string, anchor: Option<Point>)
    returns (gesture: Option<ConnectGesture>)
    modifies store
    ensures handleType == "input" || anchor.None? ==> gesture.None? && store.state == old(store.state)
    ensures handleType != "input" && anchor.Some? ==>
      && gesture.Some? && fresh(gesture.value) && gesture.value.listening
      && gesture.value.store == store && gesture.value.sourceNodeId == nodeId
      && gesture.value.capturedEdges == old(store.state).edges
      && store.state == Reduce(old(store.state), StartConnecting(nodeId, handleId, anchor.value))
  {
    if handleType == "input" || anchor.None? {
      return None;
    }
    var edges := store.state.edges;
    store.Dispatch(StartConnecting(nodeId, handleId, anchor.value));
    var g := new ConnectGesture(store, nodeId, edges);
    return Some(g);
  }

  // ---------------------------------------------------------------------------------------
  // Example graphs for the connect gesture: A has output "out", B has input "in".

  function PortList(name: string): Json
  {
    JArr([JObj([Field("name", JStr(name)), Field("type", JStr("default"))])])
  }

  function NodeA(): Node
  {
    Node("A", JStr("processing"), Some(Point(0.0, 0.0)), [Field("outputs", PortList("out"))])
  }

  function NodeB(): Node
  {
    Node("B", JStr("processing"), Some(Point(300.0, 0.0)), [Field("inputs", PortList("in"))])
  }

  /** Two nodes added to an empty store. */
  function TwoNodes(): State
  {
    Reduce(Reduce(Initial([], []), AddNode(NodeA())), AddNode(NodeB()))
  }

  /** Connecting (A, "out") to (B, "in") creates exactly that one edge. */
  function Connected(): State
  {
    var s := Reduce(TwoNodes(), StartConnecting("A", "out", Point(200.0, 20.0)));
    MouseUpState(s, "A", s.edges, HandleElement("B", "in", "input"), "edge_1")
  }

  lemma ScenarioConnectCreatesOneEdge()
    ensures Connected().edges == [Edge("edge_1", "A", "out", "B", "in")]
    ensures Idle(Connected()) && Connected().nodes == [NodeA(), NodeB()]
  {
  }

  /** A second wire into (B, "in"), from a third node, is rejected. */
  lemma ScenarioDuplicateTargetRejected()
    ensures var c := Node("C", JStr("processing"), Some(Point(0.0, 200.0)), [Field("outputs", PortList("out"))]);
      var s := Reduce(Reduce(Connected(), AddNode(c)), StartConnecting("C", "out", Point(200.0, 220.0)));
      MouseUpState(s, "C", s.edges, HandleElement("B", "in", "input"), "edge_2").edges == Connected().edges
  {
    var c := Node("C", JStr("processing"), Some(Point(0.0, 200.0)), [Field("outputs", PortList("out"))]);
    var hit := HandleElement("B", "in", "input");
    ScenarioConnectCreatesOneEdge();
    var s1 := Reduce(Connected(), AddNode(c));
    assert s1.edges == Connected().edges;
    var s := Reduce(s1, StartConnecting("C", "out", Point(200.0, 220.0)));
    assert s.edges == Connected().edges;
    assert Occupied(s.edges, "B", "in");
    assert !CanCommit(s.edges, "C", hit);
    MouseUpAlwaysClears(s, "C", s.edges, hit, "edge_2");
  }

  /** Deleting A removes the edge in the same transition and leaves B untouched. */
  lemma ScenarioDeleteSourceRemovesEdge()
    ensures Reduce(Connected(), DeleteNode("A")).edges == []
    ensures Reduce(Connected(), DeleteNode("A")).nodes == [NodeB()]
  {
    ScenarioConnectCreatesOneEdge();
    var e := Edge("edge_1", "A", "out", "B", "in");
    assert [NodeA(), NodeB()][1..] == [NodeB()];
    assert Filter([NodeB()], NodeIdIsNot("A")) == [NodeB()];
    assert Filter([e], EdgeAvoids("A")) == [];
  }
}
