/**
 * Edge geometry: where an edge attaches to a node, the cubic Bezier curve drawn between two
 * anchors, the segment-intersection primitive, the per-edge path cache, and the dashed preview
 * drawn while a connection is being dragged. An SVG path string is modelled by its control
 * points; the empty string `''` is `NoPath`.
 */
module EdgeRouter {
  import opened Wrappers
  import opened Json
  import opened Geometry
  import opened FlowStore

  const NodeWidth := 200.0
  const HandleSpacing := 20.0

  /** `M start C c1, c2, end`, or the empty path. */
  datatype Path = NoPath | Curve(start: Point, c1: Point, c2: Point, end: Point)

  // ---------------------------------------------------------------------------------------
  // The curve

  /**
   * `getBezierPath`: empty when a coordinate is `NaN`; otherwise a curve whose first control point
   * lies level with the source, half the horizontal distance to the right of it, and whose second
   * lies level with the target at the horizontal midpoint.
   */
  function BezierPath(sx: Num, sy: Num, tx: Num, ty: Num): (p: Path)
    ensures p.NoPath? <==> sx.NaN? || sy.NaN? || tx.NaN? || ty.NaN?
    ensures p.Curve? ==> p.start == Point(sx.v, sy.v) && p.end == Point(tx.v, ty.v)
  {
    if sx.NaN? || sy.NaN? || tx.NaN? || ty.NaN? then NoPath
    else
      var offset := Abs(tx.v - sx.v) / 2.0;
      var midX := (sx.v + tx.v) / 2.0;
      Curve(Point(sx.v, sy.v), Point(sx.v + offset, sy.v), Point(midX, ty.v), Point(tx.v, ty.v))
  }

  /**
   * The curve leaves the source heading right and enters the target horizontally. For a target to
   * the right of the source both control points sit on the vertical midline, so the curve is a
   * symmetric S; for a target to the left the first control point is the mirror image of the
   * second about the source, right of it by half the horizontal distance, so the curve loops back.
   */
  lemma BezierShape(sx: real, sy: real, tx: real, ty: real)
    ensures var p := BezierPath(Num(sx), Num(sy), Num(tx), Num(ty));
      && p.Curve?
      && p.c1.y == sy && p.c2.y == ty
      && p.c1.x >= sx
      && p.c2.x - sx == tx - p.c2.x
      && (tx >= sx ==> p.c1.x == p.c2.x)
      && (tx < sx ==> p.c2.x < sx < p.c1.x && p.c1.x - sx == sx - p.c2.x)
  {
  }

  // ---------------------------------------------------------------------------------------
  // Segment intersection

  /** The point a fraction `t` of the way from `a` to `b`. */
  function Lerp(a: Point, b: Point, t: real): Point
  {
    Point(a.x + t * (b.x - a.x), a.y + t * (b.y - a.y))
  }

  /** The determinant of the two direction vectors: zero exactly when the segments are parallel. */
  function Denominator(s1: Point, e1: Point, s2: Point, e2: Point): real
  {
    (e2.y - s2.y) * (e1.x - s1.x) - (e2.x - s2.x) * (e1.y - s1.y)
  }

  function Numerator1(s1: Point, s2: Point, e2: Point): real
  {
    (e2.x - s2.x) * (s1.y - s2.y) - (e2.y - s2.y) * (s1.x - s2.x)
  }

  function Numerator2(s1: Point, e1: Point, s2: Point): real
  {
    (e1.x - s1.x) * (s1.y - s2.y) - (e1.y - s1.y) * (s1.x - s2.x)
  }

  /**
   * `getLineIntersection`: no point for parallel segments or when the crossing of the two lines
   * falls outside either segment; otherwise the crossing, taken along the first segment.
   */
  function LineIntersection(s1: Point, e1: Point, s2: Point, e2: Point): (r: Option<Point>)
    ensures Denominator(s1, e1, s2, e2) == 0.0 ==> r.None?
  {
    var den := Denominator(s1, e1, s2, e2);
    if den == 0.0 then None
    else
      var r := Numerator1(s1, s2, e2) / den;
      var s := Numerator2(s1, e1, s2) / den;
      if r < 0.0 || r > 1.0 || s < 0.0 || s > 1.0 then None else Some(Lerp(s1, e1, r))
  }

  /** The two cross-product identities behind Cramer's rule for the segment parameters. */
  lemma CramerIdentities(d1x: real, d1y: real, d2x: real, d2y: real, a: real, b: real)
    ensures var den := d2y * d1x - d2x * d1y;
      && b * den + (d2x * a - d2y * b) * d1x - (d1x * a - d1y * b) * d2x == 0.0
      && a * den + (d2x * a - d2y * b) * d1y - (d1x * a - d1y * b) * d2y == 0.0
  {
  }

  /** Parameters `t`, `u` that put both lines at the same point solve Cramer's equations. */
  lemma CramerSolution(d1x: real, d1y: real, d2x: real, d2y: real, a: real, b: real, t: real, u: real)
    requires b + t * d1x - u * d2x == 0.0 && a + t * d1y - u * d2y == 0.0
    ensures t * (d2y * d1x - d2x * d1y) == d2x * a - d2y * b
    ensures u * (d2y * d1x - d2x * d1y) == d1x * a - d1y * b
  {
    assert t * d1x == u * d2x - b;
    assert t * d1y == u * d2y - a;
    assert t * (d2y * d1x - d2x * d1y) == d2y * (t * d1x) - d2x * (t * d1y);
    assert u * d2x == b + t * d1x;
    assert u * d2y == a + t * d1y;
    assert u * (d2y * d1x - d2x * d1y) == d1x * (u * d2y) - d1y * (u * d2x);
  }

  /** With Cramer's parameters the two lines meet. */
  lemma CramerMeets(d1x: real, d1y: real, d2x: real, d2y: real, a: real, b: real, t: real, u: real)
    requires d2y * d1x - d2x * d1y != 0.0
    requires t * (d2y * d1x - d2x * d1y) == d2x * a - d2y * b
    requires u * (d2y * d1x - d2x * d1y) == d1x * a - d1y * b
    ensures b + t * d1x - u * d2x == 0.0 && a + t * d1y - u * d2y == 0.0
  {
    var den := d2y * d1x - d2x * d1y;
    CramerIdentities(d1x, d1y, d2x, d2y, a, b);
    assert (b + t * d1x - u * d2x) * den == b * den + (t * den) * d1x - (u * den) * d2x;
    assert (a + t * d1y - u * d2y) * den == a * den + (t * den) * d1y - (u * den) * d2y;
  }

  /** A point returned by `getLineIntersection` lies on both segments. */
  lemma IntersectionOnBothSegments(s1: Point, e1: Point, s2: Point, e2: Point)
    requires LineIntersection(s1, e1, s2, e2).Some?
    ensures exists t: real, u: real ::
              && 0.0 <= t <= 1.0 && 0.0 <= u <= 1.0
              && LineIntersection(s1, e1, s2, e2).value == Lerp(s1, e1, t)
              && Lerp(s1, e1, t) == Lerp(s2, e2, u)
  {
    var den := Denominator(s1, e1, s2, e2);
    var t := Numerator1(s1, s2, e2) / den;
    var u := Numerator2(s1, e1, s2) / den;
    CramerMeets(e1.x - s1.x, e1.y - s1.y, e2.x - s2.x, e2.y - s2.y, s1.y - s2.y, s1.x - s2.x, t, u);
    assert Lerp(s1, e1, t) == Lerp(s2, e2, u);
  }

  /**
   * Conversely, two segments that are not parallel and cross at a point of both are reported
   * with that point.
   */
  lemma CrossingSegmentsIntersect(s1: Point, e1: Point, s2: Point, e2: Point, t: real, u: real)
    requires Denominator(s1, e1, s2, e2) != 0.0
    requires 0.0 <= t <= 1.0 && 0.0 <= u <= 1.0
    requires Lerp(s1, e1, t) == Lerp(s2, e2, u)
    ensures LineIntersection(s1, e1, s2, e2) == Some(Lerp(s1, e1, t))
  {
    var den := Denominator(s1, e1, s2, e2);
    CramerSolution(e1.x - s1.x, e1.y - s1.y, e2.x - s2.x, e2.y - s2.y, s1.y - s2.y, s1.x - s2.x, t, u);
    assert Numerator1(s1, s2, e2) / den == t;
    assert Numerator2(s1, e1, s2) / den == u;
  }

  // ---------------------------------------------------------------------------------------
  // Anchors

  /** `nodes.find(n => n.id === id)`: the first node with that id. */
  function FindNode(nodes: seq<Node>, id: string): (r: Option<Node>)
    ensures r.None? <==> id !in NodeIds(nodes)
    ensures r.Some? ==> exists i :: 0 <= i < |nodes| && nodes[i] == r.value && r.value.id == id
                          && forall j :: 0 <= j < i ==> nodes[j].id != id
    decreases |nodes|
  {
    if nodes == [] then None
    else if nodes[0].id == id then Some(nodes[0])
    else
      var r := FindNode(nodes[1..], id);
      NodeIdsCons(nodes);
      if r.Some? then
        var i :| 0 <= i < |nodes[1..]| && nodes[1..][i] == r.value && r.value.id == id
                 && forall j :: 0 <= j < i ==> nodes[1..][j].id != id;
        assert nodes[i + 1] == r.value;
        r
      else r
  }

  lemma NodeIdsCons(nodes: seq<Node>)
    requires nodes != []
    ensures NodeIds(nodes) == {nodes[0].id} + NodeIds(nodes[1..])
  {
    assert nodes == [nodes[0]] + nodes[1..];
  }

  /** A port entry whose `name` is the handle id (`entry.name === handleId`). */
  predicate NamesHandle(entry: Json, handleId: string)
  {
    StrictEquals(Member(Some(entry), "name"), Some(JStr(handleId)))
  }

  /** `entries.findIndex(e => e.name === handleId)`: the first index naming the handle, or -1. */
  function FindIndex(entries: seq<Json>, handleId: string): (k: int)
    ensures -1 <= k < |entries|
    ensures k == -1 <==> forall i :: 0 <= i < |entries| ==> !NamesHandle(entries[i], handleId)
    ensures k >= 0 ==> NamesHandle(entries[k], handleId) && forall i :: 0 <= i < k ==> !NamesHandle(entries[i], handleId)
    decreases |entries|
  {
    if entries == [] then -1
    else if NamesHandle(entries[0], handleId) then 0
    else
      var k := FindIndex(entries[1..], handleId);
      if k == -1 then -1 else k + 1
  }

  /** The port list `data[key]` of a node, or none when it is absent or not an array. */
  function Ports(n: Node, key: string): seq<Json>
  {
    ItemsOf(Member(Some(JObj(n.data)), key))
  }

  /** `node.data.inputs?.some(input => input.name === handleId)`. */
  predicate DeclaredInput(n: Node, handleId: string)
  {
    exists i :: 0 <= i < |Ports(n, "inputs")| && NamesHandle(Ports(n, "inputs")[i], handleId)
  }

  /**
   * `outputs?.findIndex(...) || 0`: with no `outputs` list the optional chain yields `undefined`
   * and the index falls back to 0; an absent name gives -1, which is truthy and stays.
   */
  function OutputIndex(n: Node, handleId: string): (k: int)
    ensures -1 <= k
    ensures IsNullish(Member(Some(JObj(n.data)), "outputs")) ==> k == 0
    ensures !IsNullish(Member(Some(JObj(n.data)), "outputs")) ==> k == FindIndex(Ports(n, "outputs"), handleId)
  {
    var outputs := Member(Some(JObj(n.data)), "outputs");
    if IsNullish(outputs) then 0 else FindIndex(ItemsOf(outputs), handleId)
  }

  /** The output rule: the right edge of the node, one spacing per slot. */
  function OutputAnchor(n: Node, handleId: string): (r: Option<Point>)
    ensures r.None? <==> n.position.None?
    ensures r.Some? ==> r.value.x == n.position.value.x + NodeWidth
    ensures r.Some? ==> r.value.y == n.position.value.y + (OutputIndex(n, handleId) + 1) as real * HandleSpacing
  {
    if n.position.None? then None
    else
      var pos := n.position.value;
      Some(Point(pos.x + NodeWidth, pos.y + (OutputIndex(n, handleId) + 1) as real * HandleSpacing))
  }

  /**
   * An output handle that the node's `outputs` list does not name gets index -1, so it is anchored
   * on the right edge level with the node's top.
   */
  lemma UnknownOutputAtTop(n: Node, handleId: string)
    requires n.position.Some? && IsArray(Member(Some(JObj(n.data)), "outputs"))
    requires forall i :: 0 <= i < |Ports(n, "outputs")| ==> !NamesHandle(Ports(n, "outputs")[i], handleId)
    ensures OutputAnchor(n, handleId) == Some(Point(n.position.value.x + NodeWidth, n.position.value.y))
  {
    assert OutputIndex(n, handleId) == -1;
  }

  /** The input slot `k` (zero-based) of a node at `pos`: on its left edge, `k + 1` spacings down. */
  function InputSlot(pos: Point, k: int): Point
  {
    Point(pos.x, pos.y + (k + 1) as real * HandleSpacing)
  }

  /**
   * The edge component's `getHandlePosition` for a found node: a declared input sits on the left
   * edge at its one-based slot, anything else follows the output rule.
   */
  function HandleAnchor(n: Node, handleId: string): (r: Option<Point>)
    ensures r.None? <==> n.position.None?
    ensures r.Some? && DeclaredInput(n, handleId) ==>
      var k := FindIndex(Ports(n, "inputs"), handleId);
      && 0 <= k < |Ports(n, "inputs")|
      && r.value == InputSlot(n.position.value, k)
    ensures !DeclaredInput(n, handleId) ==> r == OutputAnchor(n, handleId)
  {
    if n.position.None? then None
    else if DeclaredInput(n, handleId) then
      Some(InputSlot(n.position.value, FindIndex(Ports(n, "inputs"), handleId)))
    else OutputAnchor(n, handleId)
  }

  /** Two different declared ports of a node, each an input or a named output, never share an anchor. */
  lemma DeclaredPortsHaveDistinctAnchors(n: Node, h1: string, h2: string)
    requires n.position.Some? && h1 != h2
    requires DeclaredInput(n, h1) || FindIndex(Ports(n, "outputs"), h1) >= 0
    requires DeclaredInput(n, h2) || FindIndex(Ports(n, "outputs"), h2) >= 0
    requires IsArray(Member(Some(JObj(n.data)), "outputs")) || (DeclaredInput(n, h1) && DeclaredInput(n, h2))
    ensures HandleAnchor(n, h1) != HandleAnchor(n, h2)
  {
    var ins := Ports(n, "inputs");
    if DeclaredInput(n, h1) && DeclaredInput(n, h2) {
      var k1, k2 := FindIndex(ins, h1), FindIndex(ins, h2);
      DistinctNamesDistinctIndices(ins, h1, h2);
      assert (k1 + 1) as real * HandleSpacing != (k2 + 1) as real * HandleSpacing;
    } else if !DeclaredInput(n, h1) && !DeclaredInput(n, h2) {
      var outs := Ports(n, "outputs");
      DistinctNamesDistinctIndices(outs, h1, h2);
      assert OutputIndex(n, h1) != OutputIndex(n, h2);
    }
  }

  /** An entry names at most one handle. */
  lemma NamesOneHandle(entry: Json, h1: string, h2: string)
    ensures NamesHandle(entry, h1) && NamesHandle(entry, h2) ==> h1 == h2
  {
  }

  /** Two different handles found in one list are found at different indices. */
  lemma DistinctNamesDistinctIndices(entries: seq<Json>, h1: string, h2: string)
    requires h1 != h2
    ensures FindIndex(entries, h1) >= 0 && FindIndex(entries, h2) >= 0 ==>
              FindIndex(entries, h1) != FindIndex(entries, h2)
  {
    var k1, k2 := FindIndex(entries, h1), FindIndex(entries, h2);
    if k1 >= 0 && k2 >= 0 {
      NamesOneHandle(entries[k1], h1, h2);
    }
  }

  /** The anchor of handle `handleId` of node `nodeId`: none for a missing node or position. */
  function HandlePosition(nodes: seq<Node>, nodeId: string, handleId: string): (r: Option<Point>)
    ensures r.None? <==> FindNode(nodes, nodeId).None? || FindNode(nodes, nodeId).value.position.None?
  {
    match FindNode(nodes, nodeId)
    case None => None
    case Some(n) => HandleAnchor(n, handleId)
  }

  /**
   * The fresh computation in `getPath`: a curve between the two anchors when both resolve, and
   * the empty path otherwise (the model's coordinates are never `NaN`).
   */
  function EdgePath(nodes: seq<Node>, source: string, sourceHandle: string, target: string, targetHandle: string): (p: Path)
    ensures p.Curve? <==> HandlePosition(nodes, source, sourceHandle).Some? && HandlePosition(nodes, target, targetHandle).Some?
    ensures p.Curve? ==>
      && p.start == HandlePosition(nodes, source, sourceHandle).value
      && p.end == HandlePosition(nodes, target, targetHandle).value
  {
    var sp := HandlePosition(nodes, source, sourceHandle);
    var tp := HandlePosition(nodes, target, targetHandle);
    if sp.None? || tp.None? then NoPath
    else BezierPath(Num(sp.value.x), Num(sp.value.y), Num(tp.value.x), Num(tp.value.y))
  }

  // ---------------------------------------------------------------------------------------
  // The path cache

  /** The values of the cache refs of one edge component. */
  datatype CacheRefs = CacheRefs(path: Path, source: string, sourceHandle: string,
                                 target: string, targetHandle: string, nodes: seq<Node>)

  /** A cached curve is the one computed from the cached keys and node list. */
  predicate CacheValid(c: CacheRefs)
  {
    c.path.Curve? ==> c.path == EdgePath(c.nodes, c.source, c.sourceHandle, c.target, c.targetHandle)
  }

  /**
   * The reuse test in `getPath`: a non-empty cached path, the same endpoints and handles, the same
   * number of nodes, and both endpoint nodes present now and in the cached list with equal
   * positions.
   */
  predicate CacheHit(c: CacheRefs, nodes: seq<Node>, source: string, sourceHandle: string, target: string, targetHandle: string)
  {
    var sn, tn := FindNode(nodes, source), FindNode(nodes, target);
    var csn, ctn := FindNode(c.nodes, source), FindNode(c.nodes, target);
    && c.path.Curve?
    && c.source == source && c.target == target
    && c.sourceHandle == sourceHandle && c.targetHandle == targetHandle
    && |c.nodes| == |nodes|
    && sn.Some? && csn.Some? && tn.Some? && ctn.Some?
    && sn.value.position == csn.value.position
    && tn.value.position == ctn.value.position
  }

  /**
   * A hit returns the path a fresh computation would give when the endpoint nodes are unchanged
   * apart from what the test compares.
   */
  lemma CacheHitSoundForSameEndpoints(c: CacheRefs, nodes: seq<Node>, source: string, sourceHandle: string,
                                      target: string, targetHandle: string)
    requires CacheValid(c) && CacheHit(c, nodes, source, sourceHandle, target, targetHandle)
    requires FindNode(nodes, source) == FindNode(c.nodes, source)
    requires FindNode(nodes, target) == FindNode(c.nodes, target)
    ensures c.path == EdgePath(nodes, source, sourceHandle, target, targetHandle)
  {
  }

  /** The port lists of the stale-cache example: node `b` first has inputs `x, y`, then only `y`. */
  function PortEntry(name: string): Json
  {
    JObj([Field("name", JStr(name))])
  }

  function ScenarioNodes(inputs: seq<Json>): seq<Node>
  {
    [ Node("a", JStr("source"), Some(Point(0.0, 0.0)), [Field("outputs", JArr([PortEntry("o")]))]),
      Node("b", JStr("sink"), Some(Point(300.0, 0.0)), [Field("inputs", JArr(inputs))]) ]
  }

  /**
   * As written, the reuse test ignores the port lists the anchors depend on: after node `b`'s
   * inputs shrink from `x, y` to `y` at the same position, the edge into `b.y` keeps its old
   * anchor 40 below `b` although the fresh anchor is 20 below it.
   */
  lemma StaleCacheExample()
    ensures var before := ScenarioNodes([PortEntry("x"), PortEntry("y")]);
      var now := ScenarioNodes([PortEntry("y")]);
      var c := CacheRefs(EdgePath(before, "a", "o", "b", "y"), "a", "o", "b", "y", before);
      && CacheValid(c)
      && CacheHit(c, now, "a", "o", "b", "y")
      && c.path.end == Point(300.0, 40.0)
      && EdgePath(now, "a", "o", "b", "y").end == Point(300.0, 20.0)
  {
    var xy, y := [PortEntry("x"), PortEntry("y")], [PortEntry("y")];
    NamesPort("x", "y");
    NamesPort("y", "y");
    ScenarioPositions(xy, 1);
    ScenarioPositions(y, 0);
    ScenarioFind(xy);
    ScenarioFind(y);
  }

  /** `PortEntry(name)` names `handleId` exactly when the two are equal. */
  lemma NamesPort(name: string, handleId: string)
    ensures NamesHandle(PortEntry(name), handleId) <==> name == handleId
  {
    ReadField([Field("name", JStr(name))], 0);
  }

  lemma ScenarioFind(inputs: seq<Json>)
    ensures var nodes := ScenarioNodes(inputs);
      FindNode(nodes, "a") == Some(nodes[0]) && FindNode(nodes, "b") == Some(nodes[1])
  {
  }

  /** In the stale-cache example, `a.o` resolves, and `b.y` at index `k` of `b`'s inputs sits `k + 1` spacings below `b`. */
  lemma ScenarioPositions(inputs: seq<Json>, k: nat)
    requires k < |inputs| && NamesHandle(inputs[k], "y") && forall i :: 0 <= i < k ==> !NamesHandle(inputs[i], "y")
    ensures HandlePosition(ScenarioNodes(inputs), "a", "o").Some?
    ensures HandlePosition(ScenarioNodes(inputs), "b", "y") == Some(InputSlot(Point(300.0, 0.0), k))
  {
    var nodes := ScenarioNodes(inputs);
    var b := nodes[1];
    ScenarioFind(inputs);
    ReadField(b.data, 0);
    assert Ports(b, "inputs") == inputs;
    InputAnchor(b, "y", k);
  }

  /** An input declared at index `k` of a placed node's inputs, and not before it, sits `k + 1` spacings below the node. */
  lemma InputAnchor(n: Node, handleId: string, k: nat)
    requires n.position.Some?
    requires k < |Ports(n, "inputs")| && NamesHandle(Ports(n, "inputs")[k], handleId)
    requires forall i :: 0 <= i < k ==> !NamesHandle(Ports(n, "inputs")[i], handleId)
    ensures HandleAnchor(n, handleId) == Some(InputSlot(n.position.value, k))
  {
    FindIndexIs(Ports(n, "inputs"), handleId, k);
    assert DeclaredInput(n, handleId);
  }

  /** The first entry naming the handle is the one `findIndex` returns. */
  lemma FindIndexIs(entries: seq<Json>, handleId: string, k: nat)
    requires k < |entries| && NamesHandle(entries[k], handleId)
    requires forall i :: 0 <= i < k ==> !NamesHandle(entries[i], handleId)
    ensures FindIndex(entries, handleId) == k
  {
  }

  /** The reuse test the cache needs: the endpoint nodes found now are the cached ones, ports included. */
  predicate StrictCacheHit(c: CacheRefs, nodes: seq<Node>, source: string, sourceHandle: string,
                           target: string, targetHandle: string)
  {
    && c.path.Curve?
    && c.source == source && c.target == target
    && c.sourceHandle == sourceHandle && c.targetHandle == targetHandle
    && FindNode(nodes, source) == FindNode(c.nodes, source)
    && FindNode(nodes, target) == FindNode(c.nodes, target)
  }

  /** A strict hit always returns the path a fresh computation would give. */
  lemma StrictCacheHitSound(c: CacheRefs, nodes: seq<Node>, source: string, sourceHandle: string,
                            target: string, targetHandle: string)
    requires CacheValid(c) && StrictCacheHit(c, nodes, source, sourceHandle, target, targetHandle)
    ensures c.path == EdgePath(nodes, source, sourceHandle, target, targetHandle)
  {
  }

  /** The refs of one rendered edge and `getPath`, which reads and refreshes them. */
  class PathCache {
    var path: Path
    var currentSource: string
    var currentSourceHandle: string
    var currentTarget: string
    var currentTargetHandle: string
    var currentNodes: seq<Node>

    function Refs(): CacheRefs
      reads this
    {
      CacheRefs(path, currentSource, currentSourceHandle, currentTarget, currentTargetHandle, currentNodes)
    }

    /** The refs start with the empty path and the first render's props and nodes. */
    constructor(source: string, sourceHandle: string, target: string, targetHandle: string, nodes: seq<Node>)
      ensures Refs() == CacheRefs(NoPath, source, sourceHandle, target, targetHandle, nodes)
      ensures CacheValid(Refs())
    {
      path := NoPath;
      currentSource, currentSourceHandle := source, sourceHandle;
      currentTarget, currentTargetHandle := target, targetHandle;
      currentNodes := nodes;
    }

    /**
     * `getPath`: on a hit the cached path is returned and nothing changes; otherwise the path is
     * recomputed and stored, and the keys are refreshed only when the computation succeeded.
     */
    method GetPath(nodes: seq<Node>, source: string, sourceHandle: string, target: string, targetHandle: string)
      returns (p: Path)
      requires CacheValid(Refs())
      modifies this
      ensures CacheValid(Refs())
      ensures p == path
      ensures old(CacheHit(Refs(), nodes, source, sourceHandle, target, targetHandle)) ==> Refs() == old(Refs())
      ensures !old(CacheHit(Refs(), nodes, source, sourceHandle, target, targetHandle)) ==>
        && p == EdgePath(nodes, source, sourceHandle, target, targetHandle)
        && Refs() == if p.Curve? then CacheRefs(p, source, sourceHandle, target, targetHandle, nodes)
                     else old(Refs()).(path := NoPath)
    {
      if CacheHit(Refs(), nodes, source, sourceHandle, target, targetHandle) {
        return path;
      }
      var sp := HandlePosition(nodes, source, sourceHandle);
      var tp := HandlePosition(nodes, target, targetHandle);
      if sp.None? || tp.None? {
        path := NoPath;
        return path;
      }
      path := BezierPath(Num(sp.value.x), Num(sp.value.y), Num(tp.value.x), Num(tp.value.y));
      currentSource := source;
      currentTarget := target;
      currentSourceHandle := sourceHandle;
      currentTargetHandle := targetHandle;
      currentNodes := nodes;
      return path;
    }
  }

  // ---------------------------------------------------------------------------------------
  // The connection preview

  /**
   * `getHandlePosition` of the edges layer. The in-progress connection never carries a target
   * handle, so its input branch is never taken and every handle follows the output rule.
   */
  function PreviewPosition(nodes: seq<Node>, nodeId: string, handleId: string): (r: Option<Point>)
    ensures r.None? <==> FindNode(nodes, nodeId).None? || FindNode(nodes, nodeId).value.position.None?
    ensures r.Some? ==> r == OutputAnchor(FindNode(nodes, nodeId).value, handleId)
  {
    match FindNode(nodes, nodeId)
    case None => None
    case Some(n) => OutputAnchor(n, handleId)
  }

  /** For a source handle that is not a declared input the preview starts where the committed edge will. */
  lemma PreviewStartsAtEdgeAnchor(nodes: seq<Node>, nodeId: string, handleId: string)
    requires FindNode(nodes, nodeId).Some? ==> !DeclaredInput(FindNode(nodes, nodeId).value, handleId)
    ensures PreviewPosition(nodes, nodeId, handleId) == HandlePosition(nodes, nodeId, handleId)
  {
  }

  /**
   * `getConnectingPath`: empty with no connection, no anchored source or no canvas; otherwise a
   * curve from the source anchor to the world point under the cursor (`canvasOrigin` is the
   * canvas's top-left corner in client coordinates).
   */
  function ConnectingPath(s: State, canvasOrigin: Option<Point>): (p: Path)
    requires s.viewport.zoom != 0.0
    ensures p.Curve? <==> s.connectingEdge.Some? && canvasOrigin.Some?
                          && PreviewPosition(s.nodes, s.connectingEdge.value.source, s.connectingEdge.value.sourceHandle).Some?
    ensures p.Curve? ==>
      && p.start == PreviewPosition(s.nodes, s.connectingEdge.value.source, s.connectingEdge.value.sourceHandle).value
      && WorldToScreen(s.viewport, p.end) == Point(s.connectingEdge.value.targetPosition.x - canvasOrigin.value.x,
                                                   s.connectingEdge.value.targetPosition.y - canvasOrigin.value.y)
  {
    if s.connectingEdge.None? then NoPath
    else
      var ce := s.connectingEdge.value;
      var sp := PreviewPosition(s.nodes, ce.source, ce.sourceHandle);
      if sp.None? || canvasOrigin.None? then NoPath
      else
        var canvasPoint := Point(ce.targetPosition.x - canvasOrigin.value.x, ce.targetPosition.y - canvasOrigin.value.y);
        var world := ScreenToWorld(s.viewport, canvasPoint);
        BezierPath(Num(sp.value.x), Num(sp.value.y), Num(world.x), Num(world.y))
  }
}
