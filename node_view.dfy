/**
 * A node as the editor renders it: click selection, dragging by the title bar (with its 16 ms
 * throttle), the connection handles it draws itself, and the connect gesture those handles run.
 * The page's answers (the node's and the canvas's bounding boxes, the clock) come in as
 * parameters.
 */
module NodeView {
  import opened Wrappers
  import opened Json
  import opened Geometry
  import opened FlowStore
  import opened Handle

  // ---------------------------------------------------------------------------------------
  // Selection

  /** The selection after a click on node `id`: shift toggles `id`, a plain click selects `id` alone. */
  function ClickSelection(selected: set<string>, id: string, shift: bool): set<string>
  {
    if shift then (if id in selected then selected - {id} else selected + {id})
    else {id}
  }

  lemma ClickSelectionRule(selected: set<string>, id: string, shift: bool)
    ensures !shift ==> ClickSelection(selected, id, shift) == {id}
    ensures shift ==> (id in ClickSelection(selected, id, shift) <==> id !in selected)
    ensures shift ==> forall other :: other != id ==> (other in ClickSelection(selected, id, shift) <==> other in selected)
    ensures shift ==> ClickSelection(ClickSelection(selected, id, true), id, true) == selected
  {
  }

  /** `handleNodeClick`: DESELECT_NODE or SELECT_NODE with shift, otherwise DESELECT_ALL then SELECT_NODE. */
  method NodeClick(store: Store, id: string, shift: bool)
    modifies store
    ensures store.state == old(store.state).(selectedNodes := ClickSelection(old(store.state).selectedNodes, id, shift))
  {
    var isSelected := id in store.state.selectedNodes;
    if shift {
      if isSelected {
        store.Dispatch(DeselectNode(id));
      } else {
        store.Dispatch(SelectNode(id));
      }
    } else {
      store.Dispatch(DeselectAll);
      store.Dispatch(SelectNode(id));
    }
  }

  // ---------------------------------------------------------------------------------------
  // Dragging

  /** The minimum time, in milliseconds, between two accepted drag moves. */
  const UpdateThreshold := 16

  /** The drag position as written: the cursor in world space minus the grab offset measured in screen pixels. */
  function DragPosition(vp: Viewport, mouse: Point, dragOffset: Point): Point
    requires vp.zoom != 0.0
  {
    var w := ScreenToWorld(vp, mouse);
    Point(w.x - dragOffset.x, w.y - dragOffset.y)
  }

  /**
   * As written, a drag whose cursor has not moved puts the node `offset * (1/zoom - 1)` away from
   * where it was grabbed: it stays put only at zoom 1 or when grabbed at its corner.
   */
  lemma DragPositionJumps(vp: Viewport, nodeAt: Point, mouse: Point)
    requires vp.zoom != 0.0
    ensures var screen := WorldToScreen(vp, nodeAt);
      var offset := Point(mouse.x - screen.x, mouse.y - screen.y);
      var p := DragPosition(vp, mouse, offset);
      && p.x - nodeAt.x == offset.x / vp.zoom - offset.x
      && p.y - nodeAt.y == offset.y / vp.zoom - offset.y
      && (p == nodeAt <==> vp.zoom == 1.0 || offset == Point(0.0, 0.0))
  {
    var screen := WorldToScreen(vp, nodeAt);
    var offset := Point(mouse.x - screen.x, mouse.y - screen.y);
    var p := DragPosition(vp, mouse, offset);
    assert p == Point((mouse.x - vp.x) / vp.zoom - offset.x, (mouse.y - vp.y) / vp.zoom - offset.y);
    AxisJump(vp.x, nodeAt.x, mouse.x, vp.zoom);
    AxisJump(vp.y, nodeAt.y, mouse.y, vp.zoom);
  }

  /** `DragPositionJumps` along one axis with origin `origin`, node coordinate `at` and cursor `m`. */
  lemma AxisJump(origin: real, at: real, m: real, z: real)
    requires z != 0.0
    ensures var off := m - (at * z + origin);
      var p := (m - origin) / z - off;
      && p - at == off / z - off
      && (p == at <==> z == 1.0 || off == 0.0)
  {
    var off := m - (at * z + origin);
    assert (m - origin) / z == at + off / z;
    assert off / z - off == off * (1.0 - z) / z;
    ZeroScaled(off, z);
  }

  /** `a * (1 - z) / z` vanishes exactly when `a` does or `z` is 1. */
  lemma ZeroScaled(a: real, z: real)
    requires z != 0.0
    ensures a * (1.0 - z) / z == 0.0 <==> a == 0.0 || z == 1.0
  {
    var q := a * (1.0 - z);
    assert q / z * z == q;
    if a != 0.0 && z != 1.0 {
      assert q != 0.0;
    }
    if a == 0.0 || z == 1.0 {
      assert q == 0.0;
    }
  }

  /** A concrete jump: at zoom 2, a node at the origin grabbed 10 px in moves to x = -5 before the cursor moves. */
  lemma DragPositionJumpExample()
    ensures DragPosition(Viewport(0.0, 0.0, 2.0), Point(10.0, 0.0), Point(10.0, 0.0)) == Point(-5.0, 0.0)
  {
    assert ScreenToWorld(Viewport(0.0, 0.0, 2.0), Point(10.0, 0.0)) == Point(10.0 / 2.0, 0.0 / 2.0);
  }

  /** The drag position with the screen-pixel grab offset converted to world units. */
  function AnchoredDragPosition(vp: Viewport, mouse: Point, dragOffset: Point): Point
    requires vp.zoom != 0.0
  {
    ScreenToWorld(vp, Point(mouse.x - dragOffset.x, mouse.y - dragOffset.y))
  }

  /**
   * With the offset scaled, the point that was grabbed stays under the cursor: an unmoved cursor
   * leaves the node where it was, and a cursor moved by `d` pixels moves the node by `d / zoom`.
   */
  lemma AnchoredDragKeepsGrabPoint(vp: Viewport, nodeAt: Point, mouse: Point, d: Point)
    requires vp.zoom != 0.0
    ensures var screen := WorldToScreen(vp, nodeAt);
      var offset := Point(mouse.x - screen.x, mouse.y - screen.y);
      && AnchoredDragPosition(vp, mouse, offset) == nodeAt
      && AnchoredDragPosition(vp, Point(mouse.x + d.x, mouse.y + d.y), offset)
         == Point(nodeAt.x + d.x / vp.zoom, nodeAt.y + d.y / vp.zoom)
  {
    var screen := WorldToScreen(vp, nodeAt);
    var offset := Point(mouse.x - screen.x, mouse.y - screen.y);
    var z := vp.zoom;
    WorldScreenRoundTrip(vp, nodeAt);
    assert Point(mouse.x - offset.x, mouse.y - offset.y) == screen;
    assert (screen.x + d.x - vp.x) / z == (screen.x - vp.x) / z + d.x / z;
    assert (screen.y + d.y - vp.y) / z == (screen.y - vp.y) / z + d.y / z;
  }

  /** The drag state of one node component and the store its moves update. */
  class NodeDragger {
    const store: Store
    const id: string
    var isDragging: bool
    var dragOffset: Point
    /** The time of the last move that passed the throttle. */
    var lastUpdateTime: int

    constructor (store: Store, id: string)
      ensures this.store == store && this.id == id
      ensures !isDragging && dragOffset == Point(0.0, 0.0) && lastUpdateTime == 0
    {
      this.store := store;
      this.id := id;
      isDragging := false;
      dragOffset := Point(0.0, 0.0);
      lastUpdateTime := 0;
    }

    /**
     * `handleDragStart`: an unselected node becomes the only selected one, a selected node keeps the
     * selection; the grab offset is measured against the node's box when it can be measured.
     */
    method DragStart(clientX: real, clientY: real, nodeBox: Option<Point>)
      modifies this, store
      ensures isDragging
      ensures store.state == old(store.state).(selectedNodes :=
        if id in old(store.state).selectedNodes then old(store.state).selectedNodes else {id})
      ensures dragOffset == if nodeBox.Some? then Point(clientX - nodeBox.value.x, clientY - nodeBox.value.y)
                            else old(dragOffset)
      ensures lastUpdateTime == old(lastUpdateTime)
    {
      if id !in store.state.selectedNodes {
        store.Dispatch(DeselectAll);
        store.Dispatch(SelectNode(id));
      }
      if nodeBox.Some? {
        dragOffset := Point(clientX - nodeBox.value.x, clientY - nodeBox.value.y);
      }
      isDragging := true;
    }

    /**
     * `handleDragMove` at time `now`: ignored unless dragging and at least 16 ms after the last
     * accepted move; an accepted move records its time and, when the canvas is found at
     * `canvasOrigin`, moves the node to the drag position of the cursor.
     */
    method DragMove(now: int, clientX: real, clientY: real, canvasOrigin: Option<Point>)
      requires store.state.viewport.zoom != 0.0
      modifies this, store
      ensures isDragging == old(isDragging) && dragOffset == old(dragOffset)
      ensures !old(isDragging) || now - old(lastUpdateTime) < UpdateThreshold ==>
        lastUpdateTime == old(lastUpdateTime) && store.state == old(store.state)
      ensures old(isDragging) && now - old(lastUpdateTime) >= UpdateThreshold ==>
        && lastUpdateTime == now
        && store.state == if canvasOrigin.None? then old(store.state)
           else Reduce(old(store.state), UpdateNode(NodePatch(id, None, Some(DragPosition(old(store.state).viewport,
                  Point(clientX - canvasOrigin.value.x, clientY - canvasOrigin.value.y), dragOffset)), None)))
    {
      if !isDragging {
        return;
      }
      if now - lastUpdateTime < UpdateThreshold {
        return;
      }
      lastUpdateTime := now;
      if canvasOrigin.None? {
        return;
      }
      var mouse := Point(clientX - canvasOrigin.value.x, clientY - canvasOrigin.value.y);
      var p := DragPosition(store.state.viewport, mouse, dragOffset);
      store.Dispatch(UpdateNode(NodePatch(id, None, Some(p), None)));
    }

    /** `handleDragEnd`. */
    method DragEnd()
      modifies this
      ensures !isDragging && dragOffset == old(dragOffset) && lastUpdateTime == old(lastUpdateTime)
    {
      isDragging := false;
    }
  }

  /** Two moves that both pass the throttle are at least 16 ms apart, and a rejected move changes nothing. */
  method ThrottledPair(d: NodeDragger, t1: int, t2: int, x1: real, y1: real, x2: real, y2: real, canvasOrigin: Option<Point>)
    requires d.isDragging && d.store.state.viewport.zoom != 0.0
    requires t1 - d.lastUpdateTime >= UpdateThreshold
    requires t2 - t1 < UpdateThreshold
    modifies d, d.store
    ensures d.lastUpdateTime == t1
    ensures d.store.state == if canvasOrigin.None? then old(d.store.state)
      else Reduce(old(d.store.state), UpdateNode(NodePatch(d.id, None, Some(DragPosition(old(d.store.state).viewport,
             Point(x1 - canvasOrigin.value.x, y1 - canvasOrigin.value.y), d.dragOffset)), None)))
  {
    d.DragMove(t1, x1, y1, canvasOrigin);
    d.DragMove(t2, x2, y2, canvasOrigin);
  }

  // ---------------------------------------------------------------------------------------
  // The node's own handles

  /** A handle `renderHandles` draws: its name and its top offset in pixels. */
  datatype RenderedHandle = RenderedHandle(name: Json, top: int)

  /** The `name` of a port entry when `entry && entry.name` is truthy. */
  function NameOf(entry: Json): (r: Option<Json>)
    ensures r.Some? ==> Truthy(r)
  {
    var n := Member(Some(entry), "name");
    if Truthy(n) then n else None
  }

  /** The handles drawn for the port entries `entries`, the first of which sits at index `from`. */
  function Slots(entries: seq<Json>, from: nat): seq<RenderedHandle>
    decreases |entries|
  {
    if entries == [] then []
    else
      var first := NameOf(entries[0]);
      (if first.Some? then [RenderedHandle(first.value, 30 + 20 * from)] else []) + Slots(entries[1..], from + 1)
  }

  /** Every named entry at index `i` gets a handle at `30 + 20 * i`. */
  lemma {:induction false} SlotsCoverNamedEntries(entries: seq<Json>, from: nat)
    ensures forall i :: 0 <= i < |entries| && NameOf(entries[i]).Some? ==>
      RenderedHandle(NameOf(entries[i]).value, 30 + 20 * (from + i)) in Slots(entries, from)
    decreases |entries|
  {
    if entries != [] {
      var tail := entries[1..];
      SlotsCoverNamedEntries(tail, from + 1);
      forall i | 0 <= i < |entries| && NameOf(entries[i]).Some?
        ensures RenderedHandle(NameOf(entries[i]).value, 30 + 20 * (from + i)) in Slots(entries, from)
      {
        if i > 0 {
          assert entries[i] == tail[i - 1];
        }
      }
    }
  }

  /**
   * Every handle comes from a named entry at its own index, so an entry without a name draws
   * nothing but still takes up its index.
   */
  lemma {:induction false} SlotsComeFromNamedEntries(entries: seq<Json>, from: nat)
    ensures forall h :: h in Slots(entries, from) ==>
      (exists i :: 0 <= i < |entries| && NameOf(entries[i]).Some?
        && h == RenderedHandle(NameOf(entries[i]).value, 30 + 20 * (from + i)))
    decreases |entries|
  {
    if entries != [] {
      var tail := entries[1..];
      var rest := Slots(tail, from + 1);
      SlotsComeFromNamedEntries(tail, from + 1);
      forall h | h in Slots(entries, from)
        ensures exists i ::
                  0 <= i < |entries| && NameOf(entries[i]).Some?
                  && h == RenderedHandle(NameOf(entries[i]).value, 30 + 20 * (from + i))
      {
        if h in rest {
          var i :| 0 <= i < |tail| && NameOf(tail[i]).Some?
            && h == RenderedHandle(NameOf(tail[i]).value, 30 + 20 * (from + 1 + i));
          assert tail[i] == entries[i + 1];
        }
      }
    }
  }

  /** Handle tops start at `30 + 20 * from` and strictly increase down the list. */
  lemma {:induction false} SlotsDescend(entries: seq<Json>, from: nat)
    ensures forall h :: h in Slots(entries, from) ==> h.top >= 30 + 20 * from
    ensures forall j, k :: 0 <= j < k < |Slots(entries, from)| ==> Slots(entries, from)[j].top < Slots(entries, from)[k].top
    decreases |entries|
  {
    if entries != [] {
      var first := NameOf(entries[0]);
      var head := if first.Some? then [RenderedHandle(first.value, 30 + 20 * from)] else [];
      var rest := Slots(entries[1..], from + 1);
      var r := Slots(entries, from);
      assert r == head + rest;
      SlotsDescend(entries[1..], from + 1);
      forall j, k | 0 <= j < k < |r| ensures r[j].top < r[k].top {
        assert r[k] == rest[k - |head|] && r[k] in rest;
        if j >= |head| {
          assert r[j] == rest[j - |head|];
        }
      }
    }
  }

  /** `renderHandles` for `data.inputs` or `data.outputs`: nothing unless it is an array. */
  function RenderedHandles(ports: Option<Json>): seq<RenderedHandle>
  {
    if IsArray(ports) then Slots(ports.value.items, 0) else []
  }

  // ---------------------------------------------------------------------------------------
  // The connect gesture the node's handles run

  /** The listeners a mouse-down on one of the node's output handles registers. */
  class NodeConnectGesture {
    const store: Store
    var listening: bool

    constructor (store: Store)
      ensures this.store == store && listening
    {
      this.store := store;
      listening := true;
    }

    /** The document mouse-move listener. */
    method MouseMove(clientX: real, clientY: real)
      modifies store
      ensures store.state == if listening then Reduce(old(store.state), UpdateConnectingPosition(Point(clientX, clientY)))
                             else old(store.state)
    {
      if listening {
        store.Dispatch(UpdateConnectingPosition(Point(clientX, clientY)));
      }
    }

    /** The document mouse-up listener: removes the listeners and clears, with no commit of its own. */
    method DocumentMouseUp()
      modifies this, store
      ensures !listening
      ensures store.state == if old(listening) then Reduce(old(store.state), ClearConnecting) else old(store.state)
    {
      if listening {
        listening := false;
        store.Dispatch(ClearConnecting);
      }
    }
  }

  /** `handleHandleMouseDown`: an input handle starts nothing; an output handle starts a wire at the cursor. */
  method NodeHandleMouseDown(store: Store, nodeId: string, handleId: string, handleType: string, clientX: real, clientY: real)
    returns (gesture: Option<NodeConnectGesture>)
    modifies store
    ensures handleType == "input" ==> gesture.None? && store.state == old(store.state)
    ensures handleType != "input" ==>
      && gesture.Some? && fresh(gesture.value) && gesture.value.listening && gesture.value.store == store
      && store.state == Reduce(old(store.state), StartConnecting(nodeId, handleId, Point(clientX, clientY)))
  {
    if handleType == "input" {
      return None;
    }
    store.Dispatch(StartConnecting(nodeId, handleId, Point(clientX, clientY)));
    var g := new NodeConnectGesture(store);
    return Some(g);
  }

  /** `handleHandleMouseUp` as written: any mouse-up on an input handle ends the wire there, unchecked. */
  function InputMouseUpState(s: State, nodeId: string, handleId: string, handleType: string, newEdgeId: string): State
  {
    if handleType == "output" then s else Reduce(s, EndConnecting(nodeId, handleId, newEdgeId))
  }

  method NodeHandleMouseUp(store: Store, nodeId: string, handleId: string, handleType: string, newEdgeId: string)
    modifies store
    ensures store.state == InputMouseUpState(old(store.state), nodeId, handleId, handleType, newEdgeId)
  {
    if handleType == "output" {
      return;
    }
    store.Dispatch(EndConnecting(nodeId, handleId, newEdgeId));
  }

  /** After the input's mouse-up has ended the wire, the document mouse-up's clear changes nothing. */
  lemma DocumentClearAfterInputMouseUp(s: State, nodeId: string, handleId: string, newEdgeId: string)
    requires s.connectingEdge.Some?
    ensures var r := InputMouseUpState(s, nodeId, handleId, "input", newEdgeId);
      Idle(r) && Reduce(r, ClearConnecting) == r
  {
  }

  /** A state with the edge C.out -> B.in and a wire in progress from `from`.out. */
  function OneEdgeInto(from: string): State
  {
    Initial([], [Edge("e1", "C", "out", "B", "in")])
      .(isConnecting := true, connectingEdge := Some(ConnectingEdge(from, "out", Point(0.0, 0.0), Point(0.0, 0.0))))
  }

  /**
   * As written, the node's input mouse-up feeds a second edge into an occupied input, and lets a
   * wire end on its own node: both the single-incoming-edge rule and the no-self-loop rule break.
   */
  lemma InputMouseUpBreaksInvariants()
    ensures SingleIncoming(OneEdgeInto("A").edges)
    ensures !SingleIncoming(InputMouseUpState(OneEdgeInto("A"), "B", "in", "input", "e2").edges)
    ensures NoSelfLoops(OneEdgeInto("A").edges)
    ensures !NoSelfLoops(InputMouseUpState(OneEdgeInto("A"), "A", "x", "input", "e2").edges)
  {
    var r := InputMouseUpState(OneEdgeInto("A"), "B", "in", "input", "e2");
    assert r.edges[0].target == r.edges[1].target && r.edges[0].targetHandle == r.edges[1].targetHandle;
    var loop := InputMouseUpState(OneEdgeInto("A"), "A", "x", "input", "e2");
    assert loop.edges[1] in loop.edges;
  }

  /** The input mouse-up with the commit test of the handle component applied to the wire in progress. */
  function GuardedInputMouseUpState(s: State, nodeId: string, handleId: string, handleType: string, newEdgeId: string): State
  {
    if handleType != "output" && s.connectingEdge.Some?
       && CanCommit(s.edges, s.connectingEdge.value.source, HandleElement(nodeId, handleId, handleType))
    then Reduce(s, EndConnecting(nodeId, handleId, newEdgeId))
    else s
  }

  /**
   * The guarded mouse-up keeps inputs single-fed and the graph free of self-loops, and commits
   * exactly when the handle component would.
   */
  lemma GuardedInputMouseUpKeepsInvariants(s: State, nodeId: string, handleId: string, handleType: string, newEdgeId: string)
    requires SingleIncoming(s.edges) && NoSelfLoops(s.edges)
    ensures var r := GuardedInputMouseUpState(s, nodeId, handleId, handleType, newEdgeId);
      SingleIncoming(r.edges) && NoSelfLoops(r.edges)
    ensures s.connectingEdge.Some? && handleType == "input" ==>
      Reduce(GuardedInputMouseUpState(s, nodeId, handleId, handleType, newEdgeId), ClearConnecting)
      == MouseUpState(s, s.connectingEdge.value.source, s.edges, HandleElement(nodeId, handleId, handleType), newEdgeId)
  {
    var r := GuardedInputMouseUpState(s, nodeId, handleId, handleType, newEdgeId);
    if r != s {
      var ce := s.connectingEdge.value;
      var end := EndConnecting(nodeId, handleId, newEdgeId);
      ReduceKeepsSingleIncoming(s, end);
      forall e | e in r.edges ensures e.source != e.target {
        var i :| 0 <= i < |r.edges| && r.edges[i] == e;
        if i < |s.edges| {
          assert s.edges[i] == e;
        }
      }
    }
  }
}
