/**
 * The canvas: panning by dragging empty space, zooming with the wheel about the cursor,
 * resetting the view with a double-click, and creating a node from a palette item dropped on it.
 * The cursor position relative to the canvas, what lies under the cursor, and whether the
 * canvas element exists come in as parameters.
 */
module Canvas {
  import opened Wrappers
  import opened Json
  import opened Geometry
  import opened FlowStore

  // ---------------------------------------------------------------------------------------
  // Viewport arithmetic

  const ZoomSpeed := 0.001
  const MinZoom := 0.1
  const MaxZoom := 10.0

  /** `1 ± zoomSpeed * min(|deltaY|, 100)`: scrolling down zooms out, scrolling up zooms in. */
  function ZoomFactor(deltaY: real): (f: real)
    ensures 0.9 <= f <= 1.1
    ensures deltaY > 0.0 ==> f <= 1.0
    ensures deltaY <= 0.0 ==> f >= 1.0
  {
    var normalised := Min(Abs(deltaY), 100.0);
    1.0 + (if deltaY > 0.0 then -ZoomSpeed * normalised else ZoomSpeed * normalised)
  }

  /** `Math.max(0.1, Math.min(10, z))`. */
  function ClampZoom(z: real): (r: real)
    ensures MinZoom <= r <= MaxZoom
    ensures MinZoom <= z <= MaxZoom ==> r == z
  {
    Max(MinZoom, Min(MaxZoom, z))
  }

  /**
   * `handleWheel`: the zoom scaled by the wheel factor and clamped; when it differs from the current
   * zoom and the canvas is there (`mouse` is the cursor relative to it), the pan is recomputed
   * so that the world point under the cursor stays there.
   */
  function WheelViewport(vp: Viewport, deltaY: real, mouse: Option<Point>): Viewport
    requires vp.zoom != 0.0
  {
    var newZoom := ClampZoom(vp.zoom * ZoomFactor(deltaY));
    if newZoom == vp.zoom || mouse.None? then vp else AnchoredZoom(vp, mouse.value, newZoom)
  }

  /** The viewport at zoom `newZoom` that keeps the world point under `mouse` where it is on screen. */
  function AnchoredZoom(vp: Viewport, mouse: Point, newZoom: real): Viewport
    requires vp.zoom != 0.0
  {
    var world := ScreenToWorld(vp, mouse);
    Viewport(mouse.x - world.x * newZoom, mouse.y - world.y * newZoom, newZoom)
  }

  /** The anchored zoom keeps the cursor's world point, and zooming back to the old zoom at the same cursor restores the viewport. */
  lemma AnchoredZoomRoundTrip(vp: Viewport, mouse: Point, newZoom: real)
    requires vp.zoom != 0.0 && newZoom != 0.0
    ensures ScreenToWorld(AnchoredZoom(vp, mouse, newZoom), mouse) == ScreenToWorld(vp, mouse)
    ensures AnchoredZoom(AnchoredZoom(vp, mouse, newZoom), mouse, vp.zoom) == vp
  {
    var w := ScreenToWorld(vp, mouse);
    var v1 := AnchoredZoom(vp, mouse, newZoom);
    assert (mouse.x - v1.x) / newZoom == w.x * newZoom / newZoom;
    assert (mouse.y - v1.y) / newZoom == w.y * newZoom / newZoom;
    assert ScreenToWorld(v1, mouse) == w;
    assert WorldToScreen(vp, w) == mouse;
  }

  /**
   * A wheel step either leaves the viewport as it was (the clamped zoom equals the current one, or
   * there is no canvas) or sets the clamped zoom, so a zoom in [0.1, 10] stays there.
   */
  lemma WheelZoomStaysInRange(vp: Viewport, deltaY: real, mouse: Option<Point>)
    requires vp.zoom != 0.0
    ensures var r := WheelViewport(vp, deltaY, mouse);
      && (r == vp || (MinZoom <= r.zoom <= MaxZoom && r.zoom == ClampZoom(vp.zoom * ZoomFactor(deltaY))))
      && (MinZoom <= vp.zoom <= MaxZoom ==> MinZoom <= r.zoom <= MaxZoom)
    ensures ClampZoom(vp.zoom * ZoomFactor(deltaY)) == vp.zoom ==> WheelViewport(vp, deltaY, mouse) == vp
  {
  }

  /** The world point under the cursor before a wheel step is the one under it afterwards. */
  lemma WheelAnchorsCursor(vp: Viewport, deltaY: real, mouse: Point)
    requires vp.zoom != 0.0
    ensures var r := WheelViewport(vp, deltaY, Some(mouse));
      r.zoom != 0.0 && ScreenToWorld(r, mouse) == ScreenToWorld(vp, mouse)
  {
    var newZoom := ClampZoom(vp.zoom * ZoomFactor(deltaY));
    if newZoom != vp.zoom {
      AnchoredZoomRoundTrip(vp, mouse, newZoom);
    }
  }

  /** A wheel step whose clamped zoom changes is the anchored zoom to that value. */
  lemma WheelStepIsAnchored(vp: Viewport, deltaY: real, mouse: Point, newZoom: real)
    requires vp.zoom != 0.0
    requires ClampZoom(vp.zoom * ZoomFactor(deltaY)) == newZoom != vp.zoom
    ensures WheelViewport(vp, deltaY, Some(mouse)) == AnchoredZoom(vp, mouse, newZoom)
  {
  }

  /** One notch up (deltaY -100) and the matching notch down have inverse wheel factors. */
  lemma ScenarioFactors()
    ensures ZoomFactor(-100.0) == 1.1 && ZoomFactor(1000.0 / 11.0) == 10.0 / 11.0
  {
    assert Abs(-100.0) == 100.0 && Min(100.0, 100.0) == 100.0;
    assert Abs(1000.0 / 11.0) == 1000.0 / 11.0 && Min(1000.0 / 11.0, 100.0) == 1000.0 / 11.0;
  }

  /** The initial viewport shows every world point at the same screen point. */
  lemma InitialViewportIsIdentity(p: Point)
    ensures ScreenToWorld(InitialViewport, p) == p
  {
  }

  /** The clamped zooms of those two wheel steps from the initial view: 1 to 1.1 and back to 1. */
  lemma ScenarioZooms()
    ensures ClampZoom(InitialViewport.zoom * ZoomFactor(-100.0)) == 1.1
    ensures ClampZoom(1.1 * ZoomFactor(1000.0 / 11.0)) == 1.0
  {
    ScenarioFactors();
    assert 1.1 * (10.0 / 11.0) == 1.0;
  }

  /** The zoom-in from the initial view, anchored at (100, 100), moves the pan offset to (-10, -10). */
  lemma ScenarioAnchor()
    ensures AnchoredZoom(InitialViewport, Point(100.0, 100.0), 1.1) == Viewport(-10.0, -10.0, 1.1)
  {
    InitialViewportIsIdentity(Point(100.0, 100.0));
  }

  /** Zooming back to 1 at (100, 100) undoes that zoom-in. */
  lemma ScenarioAnchorBack()
    ensures AnchoredZoom(Viewport(-10.0, -10.0, 1.1), Point(100.0, 100.0), 1.0) == InitialViewport
  {
    ScenarioAnchor();
    AnchoredZoomRoundTrip(InitialViewport, Point(100.0, 100.0), 1.1);
  }

  /** A wheel zoom-in (deltaY = -100) at (100, 100) from the initial viewport zooms to 1.1 about that point. */
  lemma WheelScenarioZoomIn()
    ensures WheelViewport(InitialViewport, -100.0, Some(Point(100.0, 100.0))) == Viewport(-10.0, -10.0, 1.1)
  {
    ScenarioZooms();
    WheelStepIsAnchored(InitialViewport, -100.0, Point(100.0, 100.0), 1.1);
    ScenarioAnchor();
  }

  /**
   * The zoom-out by the inverse factor (deltaY = 1000/11) at the same point returns from there to
   * the initial viewport.
   */
  lemma WheelScenarioZoomOutRestores()
    ensures WheelViewport(Viewport(-10.0, -10.0, 1.1), 1000.0 / 11.0, Some(Point(100.0, 100.0))) == InitialViewport
  {
    ScenarioZooms();
    WheelStepIsAnchored(Viewport(-10.0, -10.0, 1.1), 1000.0 / 11.0, Point(100.0, 100.0), 1.0);
    ScenarioAnchorBack();
  }

  /** A viewport patch carrying all three fields replaces the viewport. */
  lemma SetViewport(s: State, v: Viewport)
    ensures Reduce(s, UpdateViewport(ViewportPatch(Some(v.x), Some(v.y), Some(v.zoom)))) == s.(viewport := v)
  {
  }

  /** A pan move: the viewport offset shifted by the cursor delta. */
  function PanViewport(vp: Viewport, dx: real, dy: real): Viewport
  {
    vp.(x := vp.x + dx, y := vp.y + dy)
  }

  /**
   * Panning keeps the zoom, two pan moves add up to one by the summed delta, and the world point
   * grabbed stays under the cursor as it moves.
   */
  lemma PanKeepsGrabbedPoint(vp: Viewport, dx1: real, dy1: real, dx2: real, dy2: real, mouse: Point)
    requires vp.zoom != 0.0
    ensures PanViewport(vp, dx1, dy1).zoom == vp.zoom
    ensures PanViewport(PanViewport(vp, dx1, dy1), dx2, dy2) == PanViewport(vp, dx1 + dx2, dy1 + dy2)
    ensures ScreenToWorld(PanViewport(vp, dx1, dy1), Point(mouse.x + dx1, mouse.y + dy1)) == ScreenToWorld(vp, mouse)
  {
    var p := PanViewport(vp, dx1, dy1);
    assert (mouse.x + dx1 - p.x) == mouse.x - vp.x;
    assert (mouse.y + dy1 - p.y) == mouse.y - vp.y;
  }

  /** The viewport the canvas's own gestures produce keeps its zoom in [0.1, 10]. */
  lemma CanvasGesturesKeepZoomInRange(vp: Viewport, deltaY: real, mouse: Option<Point>, dx: real, dy: real)
    requires MinZoom <= vp.zoom <= MaxZoom
    ensures MinZoom <= WheelViewport(vp, deltaY, mouse).zoom <= MaxZoom
    ensures MinZoom <= PanViewport(vp, dx, dy).zoom <= MaxZoom
    ensures MinZoom <= InitialViewport.zoom <= MaxZoom
  {
    WheelZoomStaysInRange(vp, deltaY, mouse);
  }

  // ---------------------------------------------------------------------------------------
  // Dropping a palette item

  /** One port entry `{ name, type }` built from a key of an `inputs`/`outputs` map. */
  function PortEntry(name: string, declared: Option<Json>): Json
  {
    JObj([Field("name", JStr(name)), Field("type", if Truthy(declared) then declared.value else JStr("default"))])
  }

  /** An `inputs`/`outputs` value as node data stores it: a list kept as is, a map turned into a list, anything else empty. */
  function NormalisePorts(ports: Option<Json>): seq<Json>
  {
    if !Truthy(ports) then []
    else if ports.value.JArr? then ports.value.items
    else if ports.value.JObj? then
      var keys := Keys(ports.value.fields);
      seq(|keys|, i requires 0 <= i < |keys| => PortEntry(keys[i], Get(ports.value.fields, keys[i])))
    else []
  }

  /**
   * A port map becomes one entry per key, in insertion order, each named by its key and typed by
   * its value or `'default'` when that is falsy; every key of the map has exactly one entry.
   */
  lemma NormalisedMapPorts(fs: seq<Field>)
    ensures var r := NormalisePorts(Obj(fs));
      && |r| == |Keys(fs)|
      && (forall i :: 0 <= i < |r| ==> Member(Some(r[i]), "name") == Some(JStr(Keys(fs)[i])))
      && (forall i :: 0 <= i < |r| ==> Truthy(Member(Some(r[i]), "type")))
      && (forall i :: 0 <= i < |r| && Truthy(Get(fs, Keys(fs)[i])) ==>
            Member(Some(r[i]), "type") == Get(fs, Keys(fs)[i]))
      && (forall k :: k in KeySet(fs) <==> exists i :: 0 <= i < |r| && Member(Some(r[i]), "name") == Some(JStr(k)))
  {
    var r := NormalisePorts(Obj(fs));
    var keys := Keys(fs);
    forall i | 0 <= i < |r|
      ensures Member(Some(r[i]), "name") == Some(JStr(keys[i]))
      ensures Truthy(Member(Some(r[i]), "type"))
      ensures Truthy(Get(fs, keys[i])) ==> Member(Some(r[i]), "type") == Get(fs, keys[i])
    {
      PortEntryFields(keys[i], Get(fs, keys[i]));
    }
    forall k ensures k in KeySet(fs) <==> exists i :: 0 <= i < |r| && Member(Some(r[i]), "name") == Some(JStr(k)) {
      if k in KeySet(fs) {
        var i :| 0 <= i < |keys| && keys[i] == k;
        assert Member(Some(r[i]), "name") == Some(JStr(k));
      }
    }
  }

  /** A port entry carries its name, and its declared type when that is truthy, else `'default'`. */
  lemma PortEntryFields(name: string, declared: Option<Json>)
    ensures Member(Some(PortEntry(name, declared)), "name") == Some(JStr(name))
    ensures Truthy(Member(Some(PortEntry(name, declared)), "type"))
    ensures Truthy(declared) ==> Member(Some(PortEntry(name, declared)), "type") == declared
  {
    var t := if Truthy(declared) then declared.value else JStr("default");
    var entry := [Field("name", JStr(name)), Field("type", t)];
    assert DistinctKeys(entry);
    ReadField(entry, 0);
    ReadField(entry, 1);
  }

  /** `viewport.zoom || 1`. */
  function DropZoom(vp: Viewport): (z: real)
    ensures z != 0.0
  {
    if vp.zoom == 0.0 then 1.0 else vp.zoom
  }

  /** Why a drop creates no node, or that it creates one. */
  predicate DropAccepted(payload: Option<Json>, canvasPresent: bool, vp: Viewport, mouseX: Num, mouseY: Num)
  {
    && Truthy(payload) && (payload.value.JObj? || payload.value.JArr?)
    && Truthy(Member(payload, "type")) && Truthy(Member(payload, "label"))
    && canvasPresent
    && mouseX.Num? && mouseY.Num?
  }

  /** The node data of a drop: `config` with `label`, `inputs` and `outputs` written over it. */
  function DropData(payload: Option<Json>): seq<Field>
  {
    var base := SpreadFields(Member(payload, "config"));
    var withLabel := Put(base, "label", Member(payload, "label").GetOr(JUndef));
    var withInputs := Put(withLabel, "inputs", JArr(NormalisePorts(Member(payload, "inputs"))));
    Put(withInputs, "outputs", JArr(NormalisePorts(Member(payload, "outputs"))))
  }

  /** `handleDrop`: the node a dropped payload becomes, with the id `freshId`, or none. */
  function DropNode(payload: Option<Json>, canvasPresent: bool, vp: Viewport, mouseX: Num, mouseY: Num, freshId: string)
    : (r: Option<Node>)
    ensures r.Some? <==> DropAccepted(payload, canvasPresent, vp, mouseX, mouseY)
    ensures r.Some? ==>
      && r.value.id == freshId
      && r.value.nodeType == Member(payload, "type").value
      && r.value.position.Some?
      && WorldToScreen(vp.(zoom := DropZoom(vp)), r.value.position.value) == Point(mouseX.v, mouseY.v)
  {
    if !DropAccepted(payload, canvasPresent, vp, mouseX, mouseY) then None
    else
      var z := DropZoom(vp);
      var worldX := NumDiv(NumSub(mouseX, Num(vp.x)), z);
      var worldY := NumDiv(NumSub(mouseY, Num(vp.y)), z);
      var position := ScreenToWorld(vp.(zoom := z), Point(mouseX.v, mouseY.v));
      assert worldX == Num(position.x) && worldY == Num(position.y);
      Some(Node(freshId, Member(payload, "type").value, Some(position), DropData(payload)))
  }

  /**
   * The data of a dropped node carries the payload's label and its normalised ports, and every
   * other key of `config` with its value.
   */
  lemma DropDataFields(payload: Option<Json>)
    ensures var d := DropData(payload);
      && Get(d, "label") == Some(Member(payload, "label").GetOr(JUndef))
      && Get(d, "inputs") == Some(JArr(NormalisePorts(Member(payload, "inputs"))))
      && Get(d, "outputs") == Some(JArr(NormalisePorts(Member(payload, "outputs"))))
      && (forall k :: k != "label" && k != "inputs" && k != "outputs" ==>
            Get(d, k) == Get(SpreadFields(Member(payload, "config")), k))
      && KeySet(d) == KeySet(SpreadFields(Member(payload, "config"))) + {"label", "inputs", "outputs"}
  {
    var base := SpreadFields(Member(payload, "config"));
    var labelValue := Member(payload, "label").GetOr(JUndef);
    var ins := JArr(NormalisePorts(Member(payload, "inputs")));
    var outs := JArr(NormalisePorts(Member(payload, "outputs")));
    assert DropData(payload) == Put(Put(Put(base, "label", labelValue), "inputs", ins), "outputs", outs);
    ThreePuts(base, labelValue, ins, outs);
  }

  /** Writing `label`, `inputs` and `outputs` in turn over `base`. */
  lemma ThreePuts(base: seq<Field>, a: Json, b: Json, c: Json)
    ensures var d := Put(Put(Put(base, "label", a), "inputs", b), "outputs", c);
      && Get(d, "label") == Some(a) && Get(d, "inputs") == Some(b) && Get(d, "outputs") == Some(c)
      && (forall k :: k != "label" && k != "inputs" && k != "outputs" ==> Get(d, k) == Get(base, k))
      && KeySet(d) == KeySet(base) + {"label", "inputs", "outputs"}
  {
    var d1 := Put(base, "label", a);
    var d2 := Put(d1, "inputs", b);
    var d3 := Put(d2, "outputs", c);
    assert Get(d3, "label") == Get(d2, "label") == Get(d1, "label");
    assert Get(d3, "inputs") == Get(d2, "inputs");
    forall k | k != "label" && k != "inputs" && k != "outputs" ensures Get(d3, k) == Get(base, k) {
      assert Get(d3, k) == Get(d2, k) == Get(d1, k);
    }
  }

  /** A payload that is not an object, lacks a type or label, or yields a NaN position adds nothing. */
  lemma DropRejections(payload: Option<Json>, canvasPresent: bool, vp: Viewport, mouseX: Num, mouseY: Num, freshId: string)
    ensures payload.None? || !(payload.value.JObj? || payload.value.JArr?) ==>
      DropNode(payload, canvasPresent, vp, mouseX, mouseY, freshId).None?
    ensures !Truthy(Member(payload, "type")) || !Truthy(Member(payload, "label")) ==>
      DropNode(payload, canvasPresent, vp, mouseX, mouseY, freshId).None?
    ensures mouseX.NaN? || mouseY.NaN? || !canvasPresent ==>
      DropNode(payload, canvasPresent, vp, mouseX, mouseY, freshId).None?
    ensures IsArray(payload) ==> DropNode(payload, canvasPresent, vp, mouseX, mouseY, freshId).None?
  {
  }

  // ---------------------------------------------------------------------------------------
  // The canvas controller

  /** The pan refs of the canvas and the store its gestures update. */
  class CanvasController {
    const store: Store
    var isPanning: bool
    var lastMouseX: real
    var lastMouseY: real

    constructor (store: Store)
      ensures this.store == store && !isPanning && lastMouseX == 0.0 && lastMouseY == 0.0
    {
      this.store := store;
      isPanning := false;
      lastMouseX := 0.0;
      lastMouseY := 0.0;
    }

    /** `handleMouseDown`: a primary-button press without ctrl on empty canvas starts a pan. */
    method MouseDown(button: int, ctrlKey: bool, overNode: bool, overHandle: bool, clientX: real, clientY: real)
      modifies this
      ensures var starts := button == 0 && !ctrlKey && !overNode && !overHandle;
        && (starts ==> isPanning && lastMouseX == clientX && lastMouseY == clientY)
        && (!starts ==> isPanning == old(isPanning) && lastMouseX == old(lastMouseX) && lastMouseY == old(lastMouseY))
    {
      if button == 0 && !ctrlKey && !overNode && !overHandle {
        isPanning := true;
        lastMouseX := clientX;
        lastMouseY := clientY;
      }
    }

    /** `handleMouseMove`: while panning, shifts the viewport by the cursor delta and records the cursor. */
    method MouseMove(clientX: real, clientY: real)
      modifies this, store
      ensures isPanning == old(isPanning)
      ensures !old(isPanning) ==> store.state == old(store.state) && lastMouseX == old(lastMouseX) && lastMouseY == old(lastMouseY)
      ensures old(isPanning) ==>
        && store.state == old(store.state).(viewport := PanViewport(old(store.state).viewport,
                                                                    clientX - old(lastMouseX), clientY - old(lastMouseY)))
        && lastMouseX == clientX && lastMouseY == clientY
    {
      if !isPanning {
        return;
      }
      var vp := store.state.viewport;
      var dx, dy := clientX - lastMouseX, clientY - lastMouseY;
      store.Dispatch(UpdateViewport(ViewportPatch(Some(vp.x + dx), Some(vp.y + dy), Some(vp.zoom))));
      lastMouseX := clientX;
      lastMouseY := clientY;
    }

    /** `handleMouseUp`, also run on `mouseleave`: ends a pan. */
    method MouseUp()
      modifies this
      ensures !isPanning && lastMouseX == old(lastMouseX) && lastMouseY == old(lastMouseY)
    {
      isPanning := false;
    }

    /** `handleWheel`, with the cursor relative to the canvas, or `None` when the canvas is missing. */
    method Wheel(deltaY: real, mouse: Option<Point>)
      requires store.state.viewport.zoom != 0.0
      modifies store
      ensures store.state == old(store.state).(viewport := WheelViewport(old(store.state).viewport, deltaY, mouse))
    {
      var vp := store.state.viewport;
      var newZoom := ClampZoom(vp.zoom * ZoomFactor(deltaY));
      if newZoom == vp.zoom || mouse.None? {
        return;
      }
      var anchored := AnchoredZoom(vp, mouse.value, newZoom);
      WheelStepIsAnchored(vp, deltaY, mouse.value, newZoom);
      SetViewport(store.state, anchored);
      store.Dispatch(UpdateViewport(ViewportPatch(Some(anchored.x), Some(anchored.y), Some(anchored.zoom))));
    }

    /** `handleDoubleClick`: on empty canvas the viewport returns to `{0, 0, 1}`. */
    method DoubleClick(overNode: bool, overHandle: bool)
      modifies store
      ensures store.state == if overNode || overHandle then old(store.state)
                             else old(store.state).(viewport := InitialViewport)
    {
      if !overNode && !overHandle {
        store.Dispatch(UpdateViewport(ViewportPatch(Some(0.0), Some(0.0), Some(1.0))));
      }
    }

    /** `handleDrop`: an accepted payload is added through `addNode`; anything else changes nothing. */
    method Drop(payload: Option<Json>, canvasPresent: bool, mouseX: Num, mouseY: Num, freshId: string,
                collisionId: string, innerWidth: real, innerHeight: real)
      modifies store
      ensures var n := DropNode(payload, canvasPresent, old(store.state).viewport, mouseX, mouseY, freshId);
        store.state == if n.None? then old(store.state)
          else Reduce(old(store.state), AddNode(PrepareNode(old(store.state).nodes, old(store.state).viewport,
                                                            n.value, collisionId, innerWidth, innerHeight)))
    {
      var n := DropNode(payload, canvasPresent, store.state.viewport, mouseX, mouseY, freshId);
      if n.Some? {
        store.AddNode(n.value, collisionId, innerWidth, innerHeight);
      }
    }
  }
}
