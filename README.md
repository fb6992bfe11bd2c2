# CognotFlowEditor graph-interaction core, in Dafny

This project models the logic of the CognotFlowEditor node-graph editor without its React and DOM layers, and proves properties of it. CognotFlowEditor is a React component library. Its users place nodes on a pannable, zoomable canvas and wire output handles to input handles. They also edit node parameters in a property panel and exchange workflows with an execution backend.

There is one module per source file:

- `FlowStore` (`lib/src/contexts/CognotFlowContext.jsx`) covers:
  - the reducer every change goes through: nodes, edges, selection, viewport, the connect lifecycle and execution status;
  - the `addNode` id-collision and default-position rule;
  - the wire form sent for execution;
  - the poll progress formula.

  The `Store` class is the `useReducer` cell that the gestures dispatch into.
- `Handle` (`CognotHandle.jsx`): the commit predicate of a handle's connect gesture, `isConnected`, the hover highlight, and the gesture as a class whose methods dispatch step by step.
- `NodeView` (`CognotNode.jsx`): click selection, dragging with its 16 ms throttle, the handles a node draws itself (their offsets), and the connect gesture those handles run.
- `Canvas` (`CognotFlowCanvas.jsx`): panning, cursor-anchored wheel zoom clamped to [0.1, 10], the double-click reset, and drop-payload validation and normalisation.
- `EdgeRouter` (`CognotEdge.jsx`): handle anchors, the Bezier curve, the segment intersection, the per-edge path cache, and the connection preview.
- `DataMapper` (`lib/src/utils/dataMapper.js`): the frontend and backend mappers, the sync and the newest-wins merge, the three validators, and `extractNodeParams`.
- `PropertyPanel` (`CognotPropertyPanel.jsx`): reading a parameter by its dotted path, the flat and nested parameter writers, condition evaluation, `shouldShowParam`, and `groupParams`.

Three shared modules support them:

- `Json` models JavaScript values. Objects are association lists in insertion order, which is the order `Object.keys` reports for keys that are not array indices. It also defines property read, write, delete and spread, truthiness, and `Object.keys`.
- `Geometry` holds points and the viewport transform over exact reals. A number that the source tests with `isNaN` is a `Num`, which may be `NaN`.
- `Wrappers` holds `Option`, `filter` and a counting helper.

Coordinates are exact reals. Ids, timestamps, the clock and every answer the page gives (bounding boxes, the element under the cursor, the canvas size) are parameters.

## Model

| member | source | states |
|---|---|---|
| FlowStore.AddNodeAppends | lib/src/contexts/CognotFlowContext.jsx:50-54 | ADD_NODE appends the node last and keeps earlier nodes, edges and selection. A duplicate id is not rejected, so ids stop being unique. |
| FlowStore.UpdateNodeMerges | lib/src/contexts/CognotFlowContext.jsx:56-62 | UPDATE_NODE keeps length, order and ids. It merges the payload's fields only into nodes with that id, and an unknown id leaves the state unchanged. |
| FlowStore.DeleteNodeCascades | lib/src/contexts/CognotFlowContext.jsx:64-72 | DELETE_NODE removes exactly the node, every edge touching it, and its selection entry. Order and all other fields are kept. |
| FlowStore.DeleteNodeKeepsInvariants | lib/src/contexts/CognotFlowContext.jsx:64-72 | DELETE_NODE preserves three invariants: every edge endpoint is a node, no two edges enter the same input, and the selection names only existing nodes. |
| FlowStore.DeleteNodeKeepsEdgesAttached | lib/src/contexts/CognotFlowContext.jsx:64-72 | After a node delete, no edge refers to a missing node. |
| FlowStore.UpdateEdgeKeepsEdgesAttached | lib/src/contexts/CognotFlowContext.jsx:80-86 | An UPDATE_EDGE whose new endpoints are existing nodes keeps every edge attached. |
| FlowStore.UpdateEdgeKeepsSingleIncoming | lib/src/contexts/CognotFlowContext.jsx:80-86 | An UPDATE_EDGE that does not move the target keeps every input at one incoming edge at most. |
| FlowStore.SelectionActions | lib/src/contexts/CognotFlowContext.jsx:100-118 | SELECT_NODE adds the id. DESELECT_NODE removes only that id. DESELECT_ALL empties the selection. None of them touch the graph. |
| FlowStore.UpdateViewportMergesUnclamped | lib/src/contexts/CognotFlowContext.jsx:94-98 | UPDATE_VIEWPORT takes each given field and keeps the others. The zoom is not clamped, so zoom 0 is accepted. |
| FlowStore.ConnectingLifecycle | lib/src/contexts/CognotFlowContext.jsx:120-139 | START_CONNECTING sets the flag and a wire whose loose end starts at its source. UPDATE_CONNECTING_POSITION moves only the loose end, and leaves a missing wire missing. |
| FlowStore.EndConnectingAppendsOne | lib/src/contexts/CognotFlowContext.jsx:141-157 | END_CONNECTING with no wire is a no-op. Otherwise it appends exactly the edge from the wire's source to the payload's target and leaves the store idle. |
| FlowStore.ClearConnectingIdempotent | lib/src/contexts/CognotFlowContext.jsx:159-164 | CLEAR_CONNECTING leaves the store idle, applying it twice equals applying it once, and it changes nothing on an idle store. |
| FlowStore.ExecutionLifecycle | lib/src/contexts/CognotFlowContext.jsx:178-212 | START_EXECUTION and CLEAR_EXECUTION reset progress, id and results. START sets the status to "submitting". END_EXECUTION stops execution and stores the results. |
| FlowStore.OtherActionsKeepGraph | lib/src/contexts/CognotFlowContext.jsx:94-215 | Viewport, selection, connect, hover, execution and unknown actions never change nodes or edges. |
| FlowStore.ReduceKeepsEdgesAttached | lib/src/contexts/CognotFlowContext.jsx:48-217 | Every action keeps all edge endpoints on existing nodes, as long as any edge it adds or rewires names existing nodes. |
| FlowStore.ReduceKeepsSingleIncoming | lib/src/contexts/CognotFlowContext.jsx:48-217 | Every action keeps each input at one incoming edge at most, as long as any edge it adds targets a free input and UPDATE_EDGE does not retarget. |
| FlowStore.PrepareNode | lib/src/contexts/CognotFlowContext.jsx:303-324 | `addNode` replaces an id that is already used with the fresh one and keeps an explicit position. A missing position becomes the world point displayed at the centre of the canvas area. |
| FlowStore.PreparedNodeKeepsIdsUnique | lib/src/contexts/CognotFlowContext.jsx:303-324 | With a fresh id at hand, adding a node through `addNode` keeps node ids unique. |
| FlowStore.ToWireWorkflow | lib/src/contexts/CognotFlowContext.jsx:221-237 | The wire form has as many nodes and edges as the state. It copies each field, and renames `sourceHandle`/`targetHandle` to `source_handle`/`target_handle`. |
| FlowStore.WireWorkflowKeepsGraphInvariants | lib/src/contexts/CognotFlowContext.jsx:221-237 | The wire form keeps every edge attached to a node and every input at one incoming edge at most. |
| FlowStore.WireNodePresent | lib/src/contexts/CognotFlowContext.jsx:221-237 | Every node id of the state is present in the wire form. |
| FlowStore.Progress | lib/src/contexts/CognotFlowContext.jsx:257-261 | Progress is at most 100 and 0 without a node count. With a count it is `min(100, floor(100 * completed / node_count))`: below 100 it is that floor, it is 100 only when the quotient reaches 100, and it reaches 100 once completed results cover the count. |
| FlowStore.Store.constructor | lib/src/contexts/CognotFlowContext.jsx:240-244 | The provider starts from the initial state built from its initial workflow. |
| FlowStore.Store.Dispatch | lib/src/contexts/CognotFlowContext.jsx:326-393 | Each dispatch wrapper replaces the state by the reducer's result for its action. |
| FlowStore.Store.AddNode | lib/src/contexts/CognotFlowContext.jsx:303-324 | `addNode` dispatches ADD_NODE with the node after the id-collision and default-position rule. |
| Geometry.ScreenToWorld | lib/src/components/CognotFlowCanvas.jsx:97-98 | The world point computed from a screen point is the one the canvas transform displays at that screen point. |
| Geometry.WorldScreenRoundTrip | lib/src/components/CognotFlowCanvas.jsx:97-98 | Converting world to screen and back gives the same world point. |
| Handle.MouseUpAlwaysClears | lib/src/components/CognotHandle.jsx:59-80 | After the gesture's mouse-up the store is idle, whatever was under the cursor. Nodes, selection and viewport are unchanged, and without a legal target the result is exactly CLEAR_CONNECTING. |
| Handle.MouseUpAddsAtMostOneEdge | lib/src/components/CognotHandle.jsx:60-79 | Mouse-up keeps the old edges as a prefix and adds at most one edge. The edge is added exactly when the commit predicate holds and a wire exists, and it runs from the wire's source to the handle under the cursor. |
| Handle.MouseUpKeepsSingleIncoming | lib/src/components/CognotHandle.jsx:60-74 | When the edges captured at mouse-down are current, a handle gesture never gives an input a second incoming edge. |
| Handle.MouseUpKeepsNoSelfLoops | lib/src/components/CognotHandle.jsx:60-74 | A handle gesture never connects a node to itself. |
| Handle.MouseUpKeepsEdgesAttached | lib/src/components/CognotHandle.jsx:60-74 | A gesture between existing nodes keeps every edge endpoint on an existing node. |
| Handle.CommittedInputIsConnected | lib/src/components/CognotHandle.jsx:33 | After a committed gesture, the target input reports `isConnected`. An output handle never does. |
| Handle.HoverHighlightRule | lib/src/components/CognotHandle.jsx:86-96 | Entering highlights exactly an input handle while a wire from another node is being dragged, and leaving an input removes the highlight. Other handles keep their state. |
| Handle.ConnectGesture.constructor | lib/src/components/CognotHandle.jsx:55-82 | The gesture remembers its source node and the edges seen at mouse-down, and starts listening. |
| Handle.ConnectGesture.MouseMove | lib/src/components/CognotHandle.jsx:55-57 | While listening, a document mouse move dispatches UPDATE_CONNECTING_POSITION. |
| Handle.ConnectGesture.MouseUp | lib/src/components/CognotHandle.jsx:59-80 | The document mouse-up applies the commit-then-clear step once and then stops listening. |
| Handle.HandleMouseDown | lib/src/components/CognotHandle.jsx:45-84 | An input handle, or one without a measurable position, starts nothing. Otherwise mouse-down dispatches START_CONNECTING at the handle and returns a fresh listening gesture. |
| Handle.ScenarioConnectCreatesOneEdge | lib/src/components/CognotHandle.jsx:45-84 | Dragging from A's output to B's free input gives exactly one edge A.out to B.in and leaves the store idle. |
| Handle.ScenarioDuplicateTargetRejected | lib/src/components/CognotHandle.jsx:68-73 | A second wire dropped on the occupied input B.in adds no edge. |
| Handle.ScenarioDeleteSourceRemovesEdge | lib/src/contexts/CognotFlowContext.jsx:64-72 | Deleting the source node of the only edge removes that edge as well. |
| NodeView.ClickSelectionRule | lib/src/components/CognotNode.jsx:39-51 | A plain click selects the node alone. A shift-click toggles only that node's membership, and two shift-clicks restore the selection. |
| NodeView.NodeClick | lib/src/components/CognotNode.jsx:39-51 | A click changes only the selection, to the click-selection rule's result. |
| NodeView.DragPositionJumps | lib/src/components/CognotNode.jsx:75-76 | With the grab offset measured in screen pixels, the first drag move shifts the node by `offset/zoom - offset`. The node stays put exactly when zoom is 1 or the grab was at its corner. |
| NodeView.DragPositionJumpExample | lib/src/components/CognotNode.jsx:75-76 | At zoom 2, a node grabbed 10 px in from its corner at the origin jumps to x = -5 on the first move. |
| NodeView.AnchoredDragKeepsGrabPoint | lib/src/components/CognotNode.jsx:75-76 | With the offset converted to world units, the node stays under the cursor and follows cursor motion divided by zoom. |
| NodeView.NodeDragger.constructor | lib/src/components/CognotNode.jsx:20-53 | A node starts not dragging, with a zero offset and a zero last-update time. |
| NodeView.NodeDragger.DragStart | lib/src/components/CognotNode.jsx:94-116 | Drag start on an unselected node makes the selection just that node, and on a selected node leaves it unchanged. It records the screen offset of the grab when the box is measurable, and starts dragging. |
| NodeView.NodeDragger.DragMove | lib/src/components/CognotNode.jsx:55-82 | A move when not dragging, or under 16 ms after the last accepted one, changes nothing. Otherwise it advances the clock and moves the node to the drag position (only when the canvas exists). |
| NodeView.NodeDragger.DragEnd | lib/src/components/CognotNode.jsx:84-92 | Drag end stops dragging and keeps the offset and clock. |
| NodeView.ThrottledPair | lib/src/components/CognotNode.jsx:61-65 | Of two moves less than 16 ms apart, only the first moves the node, and the clock stays at the first. |
| NodeView.NameOf | lib/src/components/CognotNode.jsx:160-162 | A handle is drawn only for an entry whose name is truthy. |
| NodeView.SlotsCoverNamedEntries | lib/src/components/CognotNode.jsx:157-199 | Every named port entry at index i gets a handle at top `30 + 20*i`. |
| NodeView.SlotsComeFromNamedEntries | lib/src/components/CognotNode.jsx:157-199 | Every drawn handle comes from a named entry at its own index, so unnamed entries draw nothing but still use up an index. |
| NodeView.SlotsDescend | lib/src/components/CognotNode.jsx:157-199 | Handles are drawn top to bottom with strictly increasing offsets of at least 30 px. |
| NodeView.NodeConnectGesture.constructor | lib/src/components/CognotNode.jsx:131-146 | The node's connect gesture starts listening. |
| NodeView.NodeConnectGesture.MouseMove | lib/src/components/CognotNode.jsx:131-137 | While listening, a move dispatches UPDATE_CONNECTING_POSITION. |
| NodeView.NodeConnectGesture.DocumentMouseUp | lib/src/components/CognotNode.jsx:139-145 | The document mouse-up clears the wire once and stops listening. |
| NodeView.NodeHandleMouseDown | lib/src/components/CognotNode.jsx:119-147 | Mouse-down on an input starts nothing. On an output it dispatches START_CONNECTING at the cursor and returns a listening gesture. |
| NodeView.NodeHandleMouseUp | lib/src/components/CognotNode.jsx:149-155 | Mouse-up on a node's handle performs the unchecked END_CONNECTING step. |
| NodeView.DocumentClearAfterInputMouseUp | lib/src/components/CognotNode.jsx:139-155 | After an input mouse-up the store is already idle, so the document clear that follows changes nothing. |
| NodeView.InputMouseUpBreaksInvariants | lib/src/components/CognotNode.jsx:149-155 | From a valid graph, the node's input mouse-up creates a second edge into an occupied input, or a self-loop. |
| NodeView.GuardedInputMouseUpKeepsInvariants | lib/src/components/CognotHandle.jsx:60-74 | With the handle's legality check added, the node's mouse-up keeps one incoming edge per input and no self-loops. Followed by the clear, it equals the handle gesture's mouse-up. |
| Canvas.ZoomFactor | lib/src/components/CognotFlowCanvas.jsx:82-84 | The wheel factor stays within [0.9, 1.1]. Scrolling down never zooms in and scrolling up never zooms out. |
| Canvas.ClampZoom | lib/src/components/CognotFlowCanvas.jsx:86 | The clamped zoom lies in [0.1, 10] and leaves an in-range zoom unchanged. |
| Canvas.AnchoredZoomRoundTrip | lib/src/components/CognotFlowCanvas.jsx:97-107 | The re-centred viewport shows the same world point under the cursor. Zooming back to the old zoom at the same cursor restores the viewport. |
| Canvas.WheelZoomStaysInRange | lib/src/components/CognotFlowCanvas.jsx:78-108 | A wheel step either leaves the viewport unchanged (the clamped zoom equals the current one) or sets the clamped zoom. From an in-range zoom, the zoom stays in range. |
| Canvas.WheelAnchorsCursor | lib/src/components/CognotFlowCanvas.jsx:97-107 | After a wheel step, the world point under the cursor is unchanged. |
| Canvas.WheelStepIsAnchored | lib/src/components/CognotFlowCanvas.jsx:88-107 | A wheel step that changes the zoom is the cursor-anchored zoom to the clamped value. |
| Canvas.WheelScenarioZoomIn | lib/src/components/CognotFlowCanvas.jsx:78-108 | One full notch up at (100, 100) from the initial view gives zoom 1.1 at offset (-10, -10). |
| Canvas.WheelScenarioZoomOutRestores | lib/src/components/CognotFlowCanvas.jsx:78-108 | The matching notch down at the same cursor restores the initial view. |
| Canvas.SetViewport | lib/src/contexts/CognotFlowContext.jsx:94-98 | An update giving all three fields sets exactly that viewport. |
| Canvas.PanKeepsGrabbedPoint | lib/src/components/CognotFlowCanvas.jsx:50-67 | Panning keeps the zoom, successive pans add up, and the world point under the cursor moves with the cursor. |
| Canvas.CanvasGesturesKeepZoomInRange | lib/src/components/CognotFlowCanvas.jsx:78-140 | Wheel, pan and reset keep the zoom within [0.1, 10], so the divisions by zoom elsewhere are defined. |
| Canvas.NormalisedMapPorts | lib/src/components/CognotFlowCanvas.jsx:192-215 | A ports map becomes a list with one entry per key, in insertion order, named by the key. The type is the mapped value when truthy and otherwise a truthy default, and the names are exactly the map's keys. |
| Canvas.PortEntryFields | lib/src/components/CognotFlowCanvas.jsx:196-213 | A normalised port entry carries its name, and its type is the declared one when truthy. |
| Canvas.DropZoom | lib/src/components/CognotFlowCanvas.jsx:183 | The drop treats zoom 0 as 1, so it never divides by zero. |
| Canvas.DropNode | lib/src/components/CognotFlowCanvas.jsx:148-227 | A node is made exactly when the drop is accepted: an object payload with a truthy `type` (of any kind) and a truthy `label`, numeric cursor coordinates and a canvas. It has the fresh id and the payload's `type` value, and its position is displayed under the cursor. |
| Canvas.DropDataFields | lib/src/components/CognotFlowCanvas.jsx:217-226 | The dropped node's data is the payload's config with `label`, `inputs` and `outputs` written over it, the last two normalised. No other key is added or changed. |
| Canvas.DropRejections | lib/src/components/CognotFlowCanvas.jsx:153-190 | A drop makes no node when the payload is not an object, or is an array. The same holds when it lacks a truthy type or label, when a cursor coordinate is NaN, or when there is no canvas. |
| Canvas.CanvasController.constructor | lib/src/components/CognotFlowCanvas.jsx:9-11 | The canvas starts not panning, with the last cursor at (0, 0). |
| Canvas.CanvasController.MouseDown | lib/src/components/CognotFlowCanvas.jsx:32-48 | Panning starts, recording the cursor, only for button 0 without ctrl and not over a node or handle. Otherwise the refs are unchanged. |
| Canvas.CanvasController.MouseMove | lib/src/components/CognotFlowCanvas.jsx:50-67 | While panning, a move shifts the viewport by the cursor delta and records the cursor. Otherwise nothing changes. |
| Canvas.CanvasController.MouseUp | lib/src/components/CognotFlowCanvas.jsx:69-76 | Mouse-up ends panning. |
| Canvas.CanvasController.Wheel | lib/src/components/CognotFlowCanvas.jsx:78-108 | The wheel replaces only the viewport, by the wheel step's result. |
| Canvas.CanvasController.DoubleClick | lib/src/components/CognotFlowCanvas.jsx:129-140 | A double-click on empty canvas resets the viewport to (0, 0, 1). Over a node or handle it does nothing. |
| Canvas.CanvasController.Drop | lib/src/components/CognotFlowCanvas.jsx:148-241 | A rejected drop changes nothing. An accepted one adds the dropped node through `addNode`. |
| EdgeRouter.BezierPath | lib/src/components/CognotEdge.jsx:5-17 | The path is empty exactly when a coordinate is NaN. Otherwise it runs from the source anchor to the target anchor. |
| EdgeRouter.BezierShape | lib/src/components/CognotEdge.jsx:10-16 | The control points leave the source and enter the target horizontally, and the second sits midway in x. For a target to the right, the first control point is at that midpoint too. For a target to the left, it is the mirror image of the second about the source, half the horizontal distance to the source's right. |
| EdgeRouter.LineIntersection | lib/src/components/CognotEdge.jsx:19-38 | Parallel segments (zero denominator) give no intersection. |
| EdgeRouter.IntersectionOnBothSegments | lib/src/components/CognotEdge.jsx:19-38 | A reported intersection lies on both segments, at parameters within [0, 1]. |
| EdgeRouter.CrossingSegmentsIntersect | lib/src/components/CognotEdge.jsx:19-38 | Non-parallel segments that meet within both are reported, at their meeting point. |
| EdgeRouter.FindNode | lib/src/components/CognotEdge.jsx:49 | `nodes.find` gives nothing exactly when no node has the id, and otherwise the first node with it. |
| EdgeRouter.FindIndex | lib/src/components/CognotEdge.jsx:61 | `findIndex` by name is -1 exactly when no entry has the name, and otherwise the first index that has it. |
| EdgeRouter.DistinctNamesDistinctIndices | lib/src/components/CognotEdge.jsx:61-66 | Two different handle names found in one port list have different indices. |
| EdgeRouter.OutputIndex | lib/src/components/CognotEdge.jsx:66 | The output index is at least -1. A missing outputs list gives 0 through the `\|\| 0` fallback, and a present one gives `findIndex` by name over it, so an unknown name keeps -1. |
| EdgeRouter.UnknownOutputAtTop | lib/src/components/CognotEdge.jsx:64-68 | A handle that the node's outputs array does not name is anchored 200 px right of the node, level with its top. |
| EdgeRouter.OutputAnchor | lib/src/components/CognotEdge.jsx:66-70 | An output anchor is 200 px right of the node, at `(index+1)*20` below it. There is none without a position. |
| EdgeRouter.HandleAnchor | lib/src/components/CognotEdge.jsx:48-71 | A declared input is anchored on the node's left edge at `(index+1)*20` below it. Any other handle uses the output rule. There is no anchor without a position. |
| EdgeRouter.DeclaredPortsHaveDistinctAnchors | lib/src/components/CognotEdge.jsx:48-71 | Two different ports declared on one node get different anchors. |
| EdgeRouter.HandlePosition | lib/src/components/CognotEdge.jsx:48-71 | There is no anchor exactly when the node is missing or has no position. |
| EdgeRouter.EdgePath | lib/src/components/CognotEdge.jsx:101-114 | An edge is drawn exactly when both anchors exist, from the source anchor to the target anchor. |
| EdgeRouter.CacheHitSoundForSameEndpoints | lib/src/components/CognotEdge.jsx:87-99 | A cache hit returns the fresh path whenever both endpoint nodes are unchanged as values. |
| EdgeRouter.StaleCacheExample | lib/src/components/CognotEdge.jsx:87-99 | A node whose inputs change from [x, y] to [y] at the same position still hits the cache. The cached end stays at (300, 40), while the fresh end is (300, 20). |
| EdgeRouter.StrictCacheHitSound | lib/src/components/CognotEdge.jsx:87-99 | A cache hit that also compares the endpoint nodes' port lists always returns the fresh path. |
| EdgeRouter.PathCache.constructor | lib/src/components/CognotEdge.jsx:73-78 | The cache starts with an empty path and the edge's endpoints, which is a valid cache. |
| EdgeRouter.PathCache.GetPath | lib/src/components/CognotEdge.jsx:80-123 | A hit returns the cached path and changes nothing. A miss returns the fresh path and refreshes the keys only when a curve was drawn, otherwise only emptying the path. The cache stays valid. |
| EdgeRouter.PreviewPosition | lib/src/components/CognotEdge.jsx:167-189 | The preview source is anchored by the output rule, and there is none for a missing node or position. |
| EdgeRouter.PreviewStartsAtEdgeAnchor | lib/src/components/CognotEdge.jsx:167-194 | For a handle that is not a declared input, the preview starts where the committed edge would. |
| EdgeRouter.ConnectingPath | lib/src/components/CognotEdge.jsx:191-215 | A preview is drawn exactly when there is a wire, a canvas and a source anchor. It runs from the anchor to the world point displayed under the cursor. |
| DataMapper.BackendType | lib/src/utils/dataMapper.js:34-40 | InputNode, OutputNode and ProcessingNode map to input, output and processing. Any other type passes through unchanged. |
| DataMapper.ConfigInputs | lib/src/utils/dataMapper.js:44-56 | Without a config the inputs are empty. Otherwise `value`, `operation` and `outputName` carry the config's default value, operation and output name. |
| DataMapper.SetIfDefined | lib/src/utils/dataMapper.js:44-56 | A defined value sets its key. An undefined one leaves every key as it was. |
| DataMapper.FrontendToBackendNode | lib/src/utils/dataMapper.js:31-73 | A falsy node maps to null. The mapper throws exactly when a truthy node lacks data or position. |
| DataMapper.FrontendToBackendEdge | lib/src/utils/dataMapper.js:79-92 | The result is null exactly for a falsy edge. |
| DataMapper.MapItems | lib/src/utils/dataMapper.js:20-21 | `array.map` keeps the length and maps each element, leaving holes as holes. It throws exactly when the mapper throws on some element. |
| DataMapper.FrontendToBackendWorkflow | lib/src/utils/dataMapper.js:13-25 | A falsy workflow maps to null. The mapper throws exactly when mapping its nodes or edges throws. |
| DataMapper.MapListMapped | lib/src/utils/dataMapper.js:20-21 | A list mapping that does not throw gives `[]` for a falsy list, and for an array one entry per element, each the mapper's result for that element. |
| DataMapper.FrontendToBackendWorkflowFields | lib/src/utils/dataMapper.js:13-25 | For any truthy workflow whose lists map: a falsy id, name, description or `createdAt` becomes null, "Untitled Workflow", "" or the call time, and a truthy one is kept. `updated_at` is the call time, `createdAt` is renamed `created_at`, and the node and edge lists are mapped element by element. |
| DataMapper.ParamsOf | lib/src/utils/dataMapper.js:122-124 | `params` has the data's keys except `label` and `connections`, each with the data's value. |
| DataMapper.BackendToFrontendNode | lib/src/utils/dataMapper.js:117-140 | A falsy node maps to null. The mapper throws exactly when a truthy node lacks data. |
| DataMapper.BackendToFrontendEdge | lib/src/utils/dataMapper.js:146-159 | The result is null exactly for a falsy edge. |
| DataMapper.BackendToFrontendWorkflow | lib/src/utils/dataMapper.js:99-111 | A falsy workflow maps to null. The mapper throws exactly when mapping its nodes or edges throws. |
| DataMapper.BackendToFrontendWorkflowFields | lib/src/utils/dataMapper.js:99-111 | For any truthy workflow whose lists map: id, name and description are copied without defaults, `created_at`/`updated_at` come back as `createdAt`/`updatedAt`, and the node and edge lists are mapped element by element. |
| DataMapper.MappersPassNull | lib/src/utils/dataMapper.js:13-159 | Every mapper maps a falsy input to null. |
| DataMapper.EmptyWorkflowDefaults | lib/src/utils/dataMapper.js:13-25 | An empty workflow gets a null id, the name "Untitled Workflow", an empty description, empty node and edge lists, and the given timestamps. |
| DataMapper.FrontendToBackendEdgeFields | lib/src/utils/dataMapper.js:79-92 | The backend edge keeps id, source and target and renames the handles. `source_output`/`target_input` fall back to "output"/"input". |
| DataMapper.BackendToFrontendEdgeFields | lib/src/utils/dataMapper.js:146-159 | The frontend edge keeps id, source and target and takes its handles from `source_handle`/`target_handle`. |
| DataMapper.EdgeRoundTrip | lib/src/utils/dataMapper.js:79-159 | Mapping an edge to the backend and back preserves its id, endpoints and handles. |
| DataMapper.BackendDataMergesParams | lib/src/utils/dataMapper.js:58-72 | Backend data has key `label` plus the params' and connections' keys. Connections win over params, which win over the label, and the label falls back to the type. |
| DataMapper.FrontendToBackendNodeFields | lib/src/utils/dataMapper.js:31-73 | A node with data and position maps successfully. It keeps its id, maps its type, merges its data, and its status defaults to "idle". |
| DataMapper.BackendToFrontendNodeFields | lib/src/utils/dataMapper.js:117-140 | A backend node with data maps successfully. It keeps id, type and position, and its params are the data minus label and connections. The label is the data's label when truthy and otherwise the node's type. Connections default to `{}`, status to "idle", and execution time and output to null. |
| DataMapper.NodeRoundTrip | lib/src/utils/dataMapper.js:31-140 | Mapping a node to the backend and back keeps its id. It recovers every parameter other than `label` and `connections` from params, with connections winning on a key clash. |
| DataMapper.BackendNodeBackToFrontend | lib/src/utils/dataMapper.js:117-140 | Any backend node carrying a frontend node's id and merged data maps back to that id and those parameters. |
| DataMapper.BackendParamsDropLabelAndConnections | lib/src/utils/dataMapper.js:117-140 | A backend node's frontend params are its data without `label` and `connections`. |
| DataMapper.SyncWorkflowData | lib/src/utils/dataMapper.js:169-175 | A missing or "frontend-to-backend" direction converts the frontend workflow. Any other direction converts the backend one. |
| DataMapper.MergeNewestWins | lib/src/utils/dataMapper.js:182-195 | A null frontend gives the converted backend, and a null backend gives the frontend. A strictly newer frontend wins, and otherwise the converted backend wins. |
| DataMapper.MergeTieGoesToBackend | lib/src/utils/dataMapper.js:190-194 | Equal timestamps give the converted backend. |
| DataMapper.NodeMessages | lib/src/utils/dataMapper.js:252-266 | Each of the four node messages appears exactly when its check fails. There are at most four, and none when all checks pass. |
| DataMapper.ValidateNodeData | lib/src/utils/dataMapper.js:245-273 | `isValid` holds exactly when there are no errors. A missing node gives the single null message. Otherwise each message appears exactly when its field is missing or invalid. |
| DataMapper.FailedChecks | lib/src/utils/dataMapper.js:287-305 | The messages reported are exactly those of the failed checks, with no more messages than checks. |
| DataMapper.FailedCheckReported | lib/src/utils/dataMapper.js:287-305 | With distinct messages, a check's message is reported exactly when its field is falsy. |
| DataMapper.ValidateEdgeData | lib/src/utils/dataMapper.js:280-312 | `isValid` holds exactly when there are no errors, and a missing edge gives the single null message. Otherwise the errors are exactly the messages of the failing field checks, one per falsy field, in the fixed order id, source, target, sourceHandle, targetHandle. |
| DataMapper.FailedChecksInOrder | lib/src/utils/dataMapper.js:287-305 | The reported messages are the messages of the checks that fail, each once, in check order. |
| DataMapper.EdgeValidIff | lib/src/utils/dataMapper.js:280-312 | An edge is valid exactly when every required field is truthy, and each field's message appears exactly when it is not. |
| DataMapper.ValidateWorkflowData | lib/src/utils/dataMapper.js:204-238 | The imperative validator returns the workflow validation, with one line per invalid node and edge. |
| DataMapper.NodeErrorLines | lib/src/utils/dataMapper.js:214-223 | The `forEach` over nodes pushes one indexed line per invalid node, in order. |
| DataMapper.EdgeErrorLines | lib/src/utils/dataMapper.js:225-234 | The `forEach` over edges pushes one indexed line per invalid edge, in order. |
| DataMapper.LinesCount | lib/src/utils/dataMapper.js:214-234 | One line is pushed per failing entry, so the number of lines is the number of failures. |
| DataMapper.NodeLinesCountInvalid | lib/src/utils/dataMapper.js:214-223 | There are exactly as many node lines as invalid nodes, and each invalid node's indexed line is among them. |
| DataMapper.EdgeLinesCountInvalid | lib/src/utils/dataMapper.js:225-234 | There are exactly as many edge lines as invalid edges, and each invalid edge's indexed line is among them. |
| DataMapper.WorkflowValidIff | lib/src/utils/dataMapper.js:204-238 | A workflow is valid exactly when its nodes and edges are arrays whose entries all validate. With arrays, the number of errors is the number of invalid entries. |
| DataMapper.ExtractNodeParams | lib/src/utils/dataMapper.js:330-341 | A missing node or data gives `{}`. Otherwise the result is the data without exactly `label`, `connections`, `status`, `execution_time` and `output`. |
| DataMapper.RemoveKeys | lib/src/utils/dataMapper.js:333-338 | Deleting the listed keys removes exactly them and keeps every other key's value. |
| PropertyPanel.LowerAscii | lib/src/components/CognotPropertyPanel.jsx:373 | Lower-casing keeps the length, maps A-Z to a-z and keeps every other character. |
| PropertyPanel.Split | lib/src/components/CognotPropertyPanel.jsx:186 | `split('.')` gives at least one part, and no part contains the separator. |
| PropertyPanel.SplitJoin | lib/src/components/CognotPropertyPanel.jsx:186 | Joining the parts with the separator gives back the original path. |
| PropertyPanel.SplitAround | lib/src/components/CognotPropertyPanel.jsx:89 | Splitting `a + "." + b` gives the parts of `a` followed by the parts of `b`. |
| PropertyPanel.IndexedPart | lib/src/components/CognotPropertyPanel.jsx:189-193 | A segment `name[n]` with a word-character name is read as the name indexed by n. |
| PropertyPanel.PlainPart | lib/src/components/CognotPropertyPanel.jsx:189-203 | A segment without `[` is a plain name. |
| PropertyPanel.SegmentsOfChild | lib/src/components/CognotPropertyPanel.jsx:89-98 | The segments of `path.name` are those of `path` followed by the plain name. |
| PropertyPanel.MissingSegmentIsUndefined | lib/src/components/CognotPropertyPanel.jsx:195-205 | Reading stops with undefined at the first missing segment. |
| PropertyPanel.GetParamValue | lib/src/components/CognotPropertyPanel.jsx:185-211 | The loop that reassigns `value` returns the recursive path reading. |
| PropertyPanel.SetParam | lib/src/components/CognotPropertyPanel.jsx:69-72 | Writing a parameter sets its descriptor's `value` and keeps the descriptor's other fields and every other parameter. |
| PropertyPanel.SetIndex | lib/src/components/CognotPropertyPanel.jsx:48-51 | Writing element i of an array sets it, keeps the others, and past the end pads with holes. |
| PropertyPanel.Write | lib/src/components/CognotPropertyPanel.jsx:29-87 | The nested writer changes only the parameter named by the first segment. |
| PropertyPanel.EmptyIsShaped | lib/src/components/CognotPropertyPanel.jsx:34-83 | The writer can create every container along any path starting from no parameters. |
| PropertyPanel.ReadSetParam | lib/src/components/CognotPropertyPanel.jsx:69-72 | After the last step, reading the parameter gives the written value. |
| PropertyPanel.WriteThenRead | lib/src/components/CognotPropertyPanel.jsx:29-87 | After a nested write along a path whose containers are objects or arrays, reading the same path and name gives the written value. |
| PropertyPanel.FlatUpdate | lib/src/components/CognotPropertyPanel.jsx:103-115 | The flat update throws exactly when the node has no params. |
| PropertyPanel.FlatUpdateChangesOnlyValue | lib/src/components/CognotPropertyPanel.jsx:103-115 | A flat update changes only the named parameter's `value`. Every other parameter and descriptor field is kept. |
| PropertyPanel.NestedChangeThenRead | lib/src/components/CognotPropertyPanel.jsx:28-98 | After a nested property change, reading `path.name` gives the new value. |
| PropertyPanel.NestedChangeCreatesPath | lib/src/components/CognotPropertyPanel.jsx:28-98 | Starting from no parameters, the nested change creates the path, and reading it gives the new value. |
| PropertyPanel.HandlePropertyChange | lib/src/components/CognotPropertyPanel.jsx:28-116 | A property change updates only the selected node's `params`, and does nothing if the writer throws. |
| PropertyPanel.EveryOf | lib/src/components/CognotPropertyPanel.jsx:139-141 | `every` holds exactly when every sub-result holds, so an empty AND holds. |
| PropertyPanel.SomeOf | lib/src/components/CognotPropertyPanel.jsx:145-147 | `some` is false exactly when every sub-result is false, so an empty OR is false. Without throws, it holds exactly when some sub-result holds. |
| PropertyPanel.OppositeOperators | lib/src/components/CognotPropertyPanel.jsx:153-181 | equals/not_equals, includes/not_includes, is_true/is_false and exists/not_exists are complementary. |
| PropertyPanel.UnknownOperatorPasses | lib/src/components/CognotPropertyPanel.jsx:178-179 | An unknown or missing operator passes. |
| PropertyPanel.NaNComparisonsFail | lib/src/components/CognotPropertyPanel.jsx:163-170 | Every ordering comparison with a NaN operand fails. |
| PropertyPanel.Results | lib/src/components/CognotPropertyPanel.jsx:138-148 | The sub-results are one per sub-condition. A hole is skipped as neutral and any other entry is evaluated. |
| PropertyPanel.AndIffEvery | lib/src/components/CognotPropertyPanel.jsx:138-142 | An AND holds exactly when every sub-condition holds. |
| PropertyPanel.OrFailsIffAllFail | lib/src/components/CognotPropertyPanel.jsx:144-148 | An OR is false exactly when every sub-condition is false. |
| PropertyPanel.OrHoldsIffSome | lib/src/components/CognotPropertyPanel.jsx:144-148 | When no sub-condition throws, an OR holds exactly when some sub-condition holds. |
| PropertyPanel.ConditionDecidesAlone | lib/src/components/CognotPropertyPanel.jsx:118-124 | A parameter with a condition is shown exactly when the condition holds. |
| PropertyPanel.KSamplerVisibility | lib/src/components/CognotPropertyPanel.jsx:118-135 | Without a condition, only KSampler nodes hide anything. `noise_offset` is hidden exactly when `add_noise` is false, and `eta` is shown exactly for the ddim and dpm_solver_++ schedulers. |
| PropertyPanel.Entries | lib/src/components/CognotPropertyPanel.jsx:372 | `Object.entries` gives each key once, in insertion order, with its value. |
| PropertyPanel.Select | lib/src/components/CognotPropertyPanel.jsx:372-393 | A group holds exactly the entries classified into it, in their order. |
| PropertyPanel.GroupsPartition | lib/src/components/CognotPropertyPanel.jsx:372-393 | The five groups together hold every parameter exactly once. |
| PropertyPanel.Push | lib/src/components/CognotPropertyPanel.jsx:375-391 | `push` appends to one group and leaves the others unchanged. |
| PropertyPanel.GroupParams | lib/src/components/CognotPropertyPanel.jsx:355-402 | The loop fills each group with exactly its classified entries, in order. Non-object or array params leave all groups empty. |
| PropertyPanel.FlatChangeThenRead | lib/src/components/CognotPropertyPanel.jsx:103-115 | After a flat change, the control of a top-level parameter reads the new value. |
| PropertyPanel.NestedControlShowsContainer | lib/src/components/CognotPropertyPanel.jsx:236-237 | After a nested change, the nested control reads its container (an object holding the new value) rather than the new value. |
| PropertyPanel.ContainerHoldsValue | lib/src/components/CognotPropertyPanel.jsx:69-72 | A parameter container is never the value written into it. |
| PropertyPanel.ChangeThenDisplay | lib/src/components/CognotPropertyPanel.jsx:28-116 | With the control reading `path.name`, every change, flat or nested, is displayed as the new value. |

## Left out

- Network I/O is not modelled. This covers workflow submission, the 500 ms status poll and cancellation in `lib/src/contexts/CognotFlowContext.jsx:246-301, 395-472`. Only the progress formula and the reducer actions they dispatch are kept.
- DOM access is not modelled; its results are method parameters. This covers `getBoundingClientRect`, `elementFromPoint`, `querySelector`, `classList`, listener registration, `document.body.style`, and the injected style tag in `CognotFlowCanvas.jsx`.
- Rendering is not modelled: JSX, CSS, status badges, `CollapsibleGroup`, `SearchableDropdown`, and the rest of the panel's controls. `lib/src/components/CognotFlowEditor.jsx` is wiring only and is not part of this model.
- React's stale closures are not modelled. `handleDragStart` registers the `handleDragMove` of the render in which `isDragging` was still false. The model treats the listener as seeing the current state.
- `Date.now`, `Math.random`, `generateUniqueId` and `new Date().toISOString()` are not modelled. Ids and timestamps are parameters, and a fresh id is taken as fresh.
- `JSON.parse` of the drop payload and console logging are not modelled. The payload arrives as a parsed value.
- IEEE floating point is not modelled. Arithmetic is exact, and NaN is modelled only where the source tests `isNaN`: drop coordinates, Bezier coordinates and ordering comparisons.
- Divisions by zoom require a non-zero zoom. Canvas.CanvasGesturesKeepZoomInRange shows the editor's own gestures keep the zoom in [0.1, 10]. UPDATE_VIEWPORT itself accepts 0.
- SVG path strings are modelled by their control points.
- The edge component's early return for an edge with a missing id, endpoint or handle is not modelled, nor its click-to-delete handler (it dispatches DELETE_EDGE).
- `Number()` and `String()` coercions in `evaluateCondition` are parameters `num` and `str`. `includes` on strings is a substring test. `includes` on arrays uses strict equality, and since there is no NaN value in the model it agrees with SameValueZero.
- Lower-casing covers ASCII letters only.
- `parseInt` of the digits in `name[i]` is exact for any length.
- PropertyPanel.ParamValue: only objects have properties here, so a property of a string, number or array (such as `length`) reads as undefined. An explicit `undefined` array element is treated like a hole.
- PropertyPanel.Write: a write that would set a property on a primitive (a strict-mode `TypeError`) or a named property on an array is reported as a failure of the whole change.
- Json.SpreadFields: spreading an array or a string contributes no fields (JavaScript would copy its indices).
- PropertyPanel.UpdateNestedParams: the writer copies only the top level and then mutates nested containers shared with the old `params` in place. The model builds new values, so aliasing between the old and new params is not captured.
- PropertyPanel.HandlePropertyChange: the panel's selected node (the first id of the selection) is a parameter rather than looked up from the store.
- PropertyPanel.OrHoldsIffSome: requires that no sub-condition throws. When one throws, the OR throws, and that is stated only through SomeOf.
- DataMapper.StatusClass: the CSS class of a non-string status is not modelled.
- FlowStore.Reduce: SET_HOVERED_HANDLE and CLEAR_HOVERED_HANDLE are modelled but stated only through FlowStore.OtherActionsKeepGraph. UPDATE_EXECUTION_STATUS is stated the same way.
- Handle.MouseUpKeepsSingleIncoming: the edges checked are those captured when the gesture started. The lemma assumes no edge was added in between.
- Json.Keys: keys are listed in insertion order. JavaScript's `Object.keys` and `Object.entries` list array-index keys (such as `"1"`) first, in ascending order, so `{b: 1, "1": 2}` gives `["1", "b"]` there and `["b", "1"]` here.
- Canvas.NormalisedMapPorts: a ports map with array-index keys is normalised in insertion order, not JavaScript's index-first order (see Json.Keys).
- PropertyPanel.Entries: parameters with array-index names are grouped in insertion order, not JavaScript's index-first order (see Json.Keys).
- FlowStore.Progress: a `node_count` that is not a number (or `true`) is read as absent, giving 0. JavaScript coerces it in the division, so `"4"` counts as 4 and a non-numeric string gives a `NaN` progress.
- EdgeRouter.HandleAnchor: a truthy `inputs` that is not an array, or a `null`/`undefined` entry in the list, throws a `TypeError` in `CognotEdge.jsx:60-61`. The model reads such a list as declaring no inputs, so the handle falls to the output rule.
- EdgeRouter.OutputIndex: likewise, a truthy `outputs` that is not an array, or a `null`/`undefined` entry, throws in `CognotEdge.jsx:66`. The model reads it as naming no outputs, giving -1.
- DataMapper.MapItems: `JUndef` stands for an array hole, which `map` skips. An explicit `undefined` element, which `map` does pass to the mapper (giving `null`), is not distinguished from a hole.
- DataMapper.WorkflowValidIff: for the same reason, an explicit `undefined` entry in `nodes` or `edges` is skipped as a hole. `forEach` visits it, and the validator reports it as null or undefined.
- PropertyPanel.Results: an explicit `undefined` sub-condition is skipped as a hole and counts as neutral. `every`/`some` visit it, and evaluating it throws.

## Findings

| source | as written | input that shows it | evidently intended | confidence | as-written member | corrected member |
|---|---|---|---|---|---|---|
| lib/src/components/CognotNode.jsx:149-155 | Mouse-up on a node's input handle dispatches END_CONNECTING with no check. It does not check the source node, nor whether the input already has an edge. This is the handle path the editor renders. | A graph with edge A.out to B.in and a wire from A. Mouse-up on B.in gives B.in a second incoming edge, and mouse-up on an input of A gives a self-loop. | Apply the handle component's legality check (input, other node, free target) before committing. | not executed | NodeView.InputMouseUpBreaksInvariants | NodeView.GuardedInputMouseUpKeepsInvariants |
| lib/src/components/CognotNode.jsx:75-76 | The grab offset is measured in screen pixels (lines 103-106) but is subtracted from a world coordinate. As written the jump stays hidden: `handleDragStart` registers the `handleDragMove` of a render where `isDragging` is false (lines 56 and 110), so no drag move is applied until that stale listener is fixed. | At zoom 2, a node at the origin grabbed 10 px in jumps to x = -5 on the first drag move. | Divide the offset by the zoom, so that the node stays under the cursor. | not executed | NodeView.DragPositionJumps | NodeView.AnchoredDragKeepsGrabPoint |
| lib/src/components/CognotEdge.jsx:87-99 | The path cache compares only endpoint positions and the node count, not the nodes' port lists. | Node b's inputs change from [x, y] to [y] at the same position. The cached path still ends at (300, 40), but the input y is now at (300, 20). | Also compare the endpoint nodes' port lists (or the nodes themselves). | not executed | EdgeRouter.StaleCacheExample | EdgeRouter.StrictCacheHitSound |
| lib/src/components/CognotPropertyPanel.jsx:236-237 | A nested parameter's control reads `path`, the container, instead of `path.paramName`. | Params {}, a change of w to 3 under path "cfg". The control of w then shows the object holding w, not 3. | Read `path + '.' + paramName` when a path is given. | not executed | PropertyPanel.NestedControlShowsContainer | PropertyPanel.ChangeThenDisplay |
