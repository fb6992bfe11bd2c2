/**
 * Conversion between the editor's workflow objects and the backend's, the newest-wins merge,
 * and the three validators. Every value here is an arbitrary JavaScript value (`Json`); an
 * absent property reads as `None`, and a field written from an absent property holds
 * `undefined` (`JUndef`). Reading a property of `undefined` or `null` throws a `TypeError`,
 * which the mappers report as `TypeError`. Clocks and date parsing are parameters.
 */
module DataMapper {
  import opened Wrappers
  import opened Json
  import opened Geometry

  /** The value a mapper returns, or the `TypeError` it throws. */
  datatype Mapped = Ok(value: Json) | TypeError

  /** `{ isValid, errors }`. */
  datatype Validation = Validation(isValid: bool, errors: seq<string>)

  /** A property read stored in an object literal: absent reads store `undefined`. */
  function Val(o: Option<Json>): (r: Json)
    ensures Defined(Some(r)) == Defined(o)
  {
    o.GetOr(JUndef)
  }

  /** `a || b`. */
  function Or(a: Option<Json>, b: Json): Json
  {
    if Truthy(a) then a.value else b
  }

  /** The fields of a mapper's output object, when it produced one. */
  function OutField(r: Mapped, k: string): Option<Json>
  {
    if r.Ok? then Member(Some(r.value), k) else None
  }

  // ---------------------------------------------------------------------------------------
  // The object literals the mappers build, and what reading their fields gives

  function BackendNodeObject(id: Json, nodeType: Json, inputs: Json, data: Json, position: Json,
                             status: Json, executionTime: Json, output: Json): Json
  {
    JObj([Field("id", id), Field("type", nodeType), Field("inputs", inputs), Field("data", data),
          Field("position", position), Field("status", status), Field("execution_time", executionTime),
          Field("output", output)])
  }

  lemma ReadBackendNode(id: Json, nodeType: Json, inputs: Json, data: Json, position: Json,
                        status: Json, executionTime: Json, output: Json)
    ensures var o := Some(BackendNodeObject(id, nodeType, inputs, data, position, status, executionTime, output));
      && Member(o, "id") == Defined(Some(id)) && Member(o, "type") == Defined(Some(nodeType))
      && Member(o, "inputs") == Defined(Some(inputs)) && Member(o, "data") == Defined(Some(data))
      && Member(o, "position") == Defined(Some(position)) && Member(o, "status") == Defined(Some(status))
      && Member(o, "execution_time") == Defined(Some(executionTime)) && Member(o, "output") == Defined(Some(output))
  {
    var fs := BackendNodeObject(id, nodeType, inputs, data, position, status, executionTime, output).fields;
    assert DistinctKeys(fs);
    ReadField(fs, 0); ReadField(fs, 1); ReadField(fs, 2); ReadField(fs, 3); ReadField(fs, 4); ReadField(fs, 5); ReadField(fs, 6); ReadField(fs, 7);
  }

  function BackendEdgeObject(id: Json, source: Json, target: Json, sourceOutput: Json, targetInput: Json,
                             sourceHandle: Json, targetHandle: Json, labelValue: Json): Json
  {
    JObj([Field("id", id), Field("source", source), Field("target", target), Field("source_output", sourceOutput),
          Field("target_input", targetInput), Field("source_handle", sourceHandle),
          Field("target_handle", targetHandle), Field("label", labelValue)])
  }

  lemma ReadBackendEdge(id: Json, source: Json, target: Json, sourceOutput: Json, targetInput: Json,
                        sourceHandle: Json, targetHandle: Json, labelValue: Json)
    ensures var o := Some(BackendEdgeObject(id, source, target, sourceOutput, targetInput, sourceHandle, targetHandle, labelValue));
      && Member(o, "id") == Defined(Some(id)) && Member(o, "source") == Defined(Some(source))
      && Member(o, "target") == Defined(Some(target)) && Member(o, "source_output") == Defined(Some(sourceOutput))
      && Member(o, "target_input") == Defined(Some(targetInput)) && Member(o, "source_handle") == Defined(Some(sourceHandle))
      && Member(o, "target_handle") == Defined(Some(targetHandle)) && Member(o, "label") == Defined(Some(labelValue))
  {
    var fs := BackendEdgeObject(id, source, target, sourceOutput, targetInput, sourceHandle, targetHandle, labelValue).fields;
    assert DistinctKeys(fs);
    ReadField(fs, 0); ReadField(fs, 1); ReadField(fs, 2); ReadField(fs, 3); ReadField(fs, 4); ReadField(fs, 5); ReadField(fs, 6); ReadField(fs, 7);
  }

  function FrontendNodeObject(id: Json, nodeType: Json, position: Json, data: Json, className: Json): Json
  {
    JObj([Field("id", id), Field("type", nodeType), Field("position", position), Field("data", data),
          Field("className", className)])
  }

  lemma ReadFrontendNode(id: Json, nodeType: Json, position: Json, data: Json, className: Json)
    ensures var o := Some(FrontendNodeObject(id, nodeType, position, data, className));
      && Member(o, "id") == Defined(Some(id)) && Member(o, "type") == Defined(Some(nodeType))
      && Member(o, "position") == Defined(Some(position)) && Member(o, "data") == Defined(Some(data))
      && Member(o, "className") == Defined(Some(className))
  {
    var fs := FrontendNodeObject(id, nodeType, position, data, className).fields;
    assert DistinctKeys(fs);
    ReadField(fs, 0); ReadField(fs, 1); ReadField(fs, 2); ReadField(fs, 3); ReadField(fs, 4);
  }

  function FrontendNodeData(labelValue: Json, params: Json, connections: Json, status: Json,
                            executionTime: Json, output: Json): Json
  {
    JObj([Field("label", labelValue), Field("params", params), Field("connections", connections),
          Field("status", status), Field("executionTime", executionTime), Field("output", output)])
  }

  lemma ReadFrontendNodeData(labelValue: Json, params: Json, connections: Json, status: Json,
                             executionTime: Json, output: Json)
    ensures var o := Some(FrontendNodeData(labelValue, params, connections, status, executionTime, output));
      && Member(o, "label") == Defined(Some(labelValue)) && Member(o, "params") == Defined(Some(params))
      && Member(o, "connections") == Defined(Some(connections)) && Member(o, "status") == Defined(Some(status))
      && Member(o, "executionTime") == Defined(Some(executionTime)) && Member(o, "output") == Defined(Some(output))
  {
    var fs := FrontendNodeData(labelValue, params, connections, status, executionTime, output).fields;
    assert DistinctKeys(fs);
    ReadField(fs, 0); ReadField(fs, 1); ReadField(fs, 2); ReadField(fs, 3); ReadField(fs, 4); ReadField(fs, 5);
  }

  function FrontendEdgeObject(id: Json, source: Json, target: Json, sourceHandle: Json, targetHandle: Json,
                              labelValue: Json): Json
  {
    JObj([Field("id", id), Field("source", source), Field("target", target), Field("sourceHandle", sourceHandle),
          Field("targetHandle", targetHandle), Field("data", JObj([Field("label", labelValue)]))])
  }

  lemma ReadFrontendEdge(id: Json, source: Json, target: Json, sourceHandle: Json, targetHandle: Json, labelValue: Json)
    ensures var o := Some(FrontendEdgeObject(id, source, target, sourceHandle, targetHandle, labelValue));
      && Member(o, "id") == Defined(Some(id)) && Member(o, "source") == Defined(Some(source))
      && Member(o, "target") == Defined(Some(target)) && Member(o, "sourceHandle") == Defined(Some(sourceHandle))
      && Member(o, "targetHandle") == Defined(Some(targetHandle))
      && Member(Member(o, "data"), "label") == Defined(Some(labelValue))
  {
    var fs := FrontendEdgeObject(id, source, target, sourceHandle, targetHandle, labelValue).fields;
    assert DistinctKeys(fs);
    ReadField(fs, 0); ReadField(fs, 1); ReadField(fs, 2); ReadField(fs, 3); ReadField(fs, 4); ReadField(fs, 5);
  }

  /** A workflow object literal; the two sides name their timestamps differently. */
  function WorkflowObject(createdKey: string, updatedKey: string, id: Json, name: Json, description: Json,
                          nodes: Json, edges: Json, created: Json, updated: Json): Json
  {
    JObj([Field("id", id), Field("name", name), Field("description", description), Field("nodes", nodes),
          Field("edges", edges), Field(createdKey, created), Field(updatedKey, updated)])
  }

  lemma ReadWorkflow(createdKey: string, updatedKey: string, id: Json, name: Json, description: Json,
                     nodes: Json, edges: Json, created: Json, updated: Json)
    requires createdKey != updatedKey
    requires createdKey !in ["id", "name", "description", "nodes", "edges"]
    requires updatedKey !in ["id", "name", "description", "nodes", "edges"]
    ensures var o := Some(WorkflowObject(createdKey, updatedKey, id, name, description, nodes, edges, created, updated));
      && Member(o, "id") == Defined(Some(id)) && Member(o, "name") == Defined(Some(name))
      && Member(o, "description") == Defined(Some(description)) && Member(o, "nodes") == Defined(Some(nodes))
      && Member(o, "edges") == Defined(Some(edges)) && Member(o, createdKey) == Defined(Some(created))
      && Member(o, updatedKey) == Defined(Some(updated))
  {
    var fs := WorkflowObject(createdKey, updatedKey, id, name, description, nodes, edges, created, updated).fields;
    assert DistinctKeys(fs);
    ReadField(fs, 0); ReadField(fs, 1); ReadField(fs, 2); ReadField(fs, 3); ReadField(fs, 4); ReadField(fs, 5); ReadField(fs, 6);
  }

  // ---------------------------------------------------------------------------------------
  // Frontend to backend

  /** `typeMap[node.type] || node.type`: three legacy component names become backend types. */
  function BackendType(t: Option<Json>): (r: Json)
    ensures Defined(t) == Some(JStr("InputNode")) ==> r == JStr("input")
    ensures Defined(t) == Some(JStr("OutputNode")) ==> r == JStr("output")
    ensures Defined(t) == Some(JStr("ProcessingNode")) ==> r == JStr("processing")
    ensures Defined(t) !in {Some(JStr("InputNode")), Some(JStr("OutputNode")), Some(JStr("ProcessingNode"))} ==>
              r == Val(t)
  {
    match Defined(t)
    case Some(JStr("InputNode")) => JStr("input")
    case Some(JStr("OutputNode")) => JStr("output")
    case Some(JStr("ProcessingNode")) => JStr("processing")
    case _ => Val(t)
  }

  /** The backend `inputs` object: `value`, `operation` and `outputName` copied from a truthy `config` where defined. */
  function ConfigInputs(config: Option<Json>): (fs: seq<Field>)
    ensures !Truthy(config) ==> fs == []
    ensures Truthy(config) ==> Get(fs, "value") == Member(config, "defaultValue")
    ensures Truthy(config) ==> Get(fs, "operation") == Member(config, "operation")
    ensures Truthy(config) ==> Get(fs, "outputName") == Member(config, "outputName")
    ensures KeySet(fs) <= {"value", "operation", "outputName"}
  {
    if !Truthy(config) then []
    else InputFields(Member(config, "defaultValue"), Member(config, "operation"), Member(config, "outputName"))
  }

  /** The three `inputs.k = …` assignments, each made only when its value is defined. */
  function InputFields(value: Option<Json>, operation: Option<Json>, outputName: Option<Json>): (fs: seq<Field>)
    ensures Get(fs, "value") == value
    ensures Get(fs, "operation") == operation
    ensures Get(fs, "outputName") == outputName
    ensures KeySet(fs) <= {"value", "operation", "outputName"}
  {
    SetIfDefined(SetIfDefined(SetIfDefined([], "value", value), "operation", operation), "outputName", outputName)
  }

  /** `if (v !== undefined) o[k] = v`. */
  function SetIfDefined(fs: seq<Field>, k: string, v: Option<Json>): (r: seq<Field>)
    ensures Get(r, k) == if v.Some? then v else Get(fs, k)
    ensures forall k' :: k' != k ==> Get(r, k') == Get(fs, k')
    ensures KeySet(r) <= KeySet(fs) + {k}
  {
    if v.Some? then Put(fs, k, v.value) else fs
  }

  /** `{ label: data.label || node.type, ...(data.params || {}), ...(data.connections || {}) }`. */
  function BackendData(node: Option<Json>, data: Option<Json>): seq<Field>
  {
    var labelValue := Or(Member(data, "label"), Val(Member(node, "type")));
    Assign(Assign([Field("label", labelValue)], SpreadFields(Member(data, "params"))), SpreadFields(Member(data, "connections")))
  }

  /**
   * `frontendToBackendNode`: `null` for a falsy node; a `TypeError` when `data` or `position` is
   * missing; otherwise the backend node with the mapped type and defaulted status fields.
   */
  function FrontendToBackendNode(node: Option<Json>): (r: Mapped)
    ensures !Truthy(node) ==> r == Ok(JNull)
    ensures r.TypeError? <==> Truthy(node) && (IsNullish(Member(node, "data")) || IsNullish(Member(node, "position")))
  {
    if !Truthy(node) then Ok(JNull)
    else
      var data := Member(node, "data");
      var position := Member(node, "position");
      if IsNullish(data) || IsNullish(position) then TypeError
      else
        Ok(BackendNodeObject(
          Val(Member(node, "id")),
          BackendType(Member(node, "type")),
          JObj(ConfigInputs(Member(data, "config"))),
          JObj(BackendData(node, data)),
          JObj([Field("x", Val(Member(position, "x"))), Field("y", Val(Member(position, "y")))]),
          Or(Member(node, "status"), JStr("idle")),
          Or(Member(node, "executionTime"), JNull),
          Or(Member(node, "output"), JNull)))
  }

  /** `frontendToBackendEdge`: `null` for a falsy edge; handles default to `output`/`input` in the port names. */
  function FrontendToBackendEdge(edge: Option<Json>): (r: Json)
    ensures !Truthy(edge) <==> r == JNull
  {
    if !Truthy(edge) then JNull
    else
      var data := Member(edge, "data");
      BackendEdgeObject(
        Val(Member(edge, "id")),
        Val(Member(edge, "source")),
        Val(Member(edge, "target")),
        Or(Member(edge, "sourceHandle"), JStr("output")),
        Or(Member(edge, "targetHandle"), JStr("input")),
        Val(Member(edge, "sourceHandle")),
        Val(Member(edge, "targetHandle")),
        if IsNullish(data) then JNull else Or(Member(data, "label"), JNull))
  }

  /** The edge mappers never throw. */
  function FrontendToBackendEdgeMapped(edge: Option<Json>): Mapped
  {
    Ok(FrontendToBackendEdge(edge))
  }

  function BackendToFrontendEdgeMapped(edge: Option<Json>): Mapped
  {
    Ok(BackendToFrontendEdge(edge))
  }

  /**
   * `list ? list.map(f) : []`: a falsy list maps to `[]`, a truthy value that is not an array has
   * no `map` and throws, and `map` skips holes; the first element whose mapping throws makes the
   * whole mapping throw.
   */
  function MapItems(items: seq<Json>, f: Option<Json> -> Mapped): (r: Option<seq<Json>>)
    ensures r.Some? <==> forall i :: 0 <= i < |items| && items[i] != JUndef ==> f(Some(items[i])).Ok?
    ensures r.Some? ==> |r.value| == |items|
    ensures r.Some? ==> forall i :: 0 <= i < |items| && items[i] != JUndef ==> r.value[i] == f(Some(items[i])).value
    ensures r.Some? ==> forall i :: 0 <= i < |items| && items[i] == JUndef ==> r.value[i] == JUndef
    decreases |items|
  {
    if items == [] then Some([])
    else
      var rest := MapItems(items[1..], f);
      var head := if items[0] == JUndef then Ok(JUndef) else f(Some(items[0]));
      if head.TypeError? then None
      else if rest.None? then
        assert exists i :: 0 <= i < |items[1..]| && items[1..][i] != JUndef && f(Some(items[1..][i])).TypeError?;
        None
      else
        var r := [head.value] + rest.value;
        assert forall i :: 1 <= i < |items| ==> items[i] == items[1..][i - 1] && r[i] == rest.value[i - 1];
        Some(r)
  }

  function MapList(list: Option<Json>, f: Option<Json> -> Mapped): (r: Mapped)
    ensures r.Ok? ==> r.value.JArr?
  {
    if !Truthy(list) then Ok(JArr([]))
    else if !list.value.JArr? then TypeError
    else
      match MapItems(list.value.items, f)
      case None => TypeError
      case Some(xs) => Ok(JArr(xs))
  }

  /**
   * `frontendToBackendWorkflow`, with `now` the ISO timestamp of the call: `null` for a falsy
   * workflow; otherwise the backend workflow with defaulted id, name, description, lists and
   * creation time, and `now` as its update time.
   */
  function FrontendToBackendWorkflow(w: Option<Json>, now: string): (r: Mapped)
    ensures !Truthy(w) ==> r == Ok(JNull)
    ensures r.TypeError? <==>
      && Truthy(w)
      && (MapList(Member(w, "nodes"), FrontendToBackendNode).TypeError?
          || MapList(Member(w, "edges"), FrontendToBackendEdgeMapped).TypeError?)
  {
    if !Truthy(w) then Ok(JNull)
    else
      var nodes := MapList(Member(w, "nodes"), FrontendToBackendNode);
      var edges := MapList(Member(w, "edges"), FrontendToBackendEdgeMapped);
      if nodes.TypeError? || edges.TypeError? then TypeError
      else
        Ok(WorkflowObject("created_at", "updated_at",
          Or(Member(w, "id"), JNull), Or(Member(w, "name"), JStr("Untitled Workflow")),
          Or(Member(w, "description"), JStr("")), nodes.value, edges.value,
          Or(Member(w, "createdAt"), JStr(now)), JStr(now)))
  }

  // ---------------------------------------------------------------------------------------
  // Backend to frontend

  /** The CSS class of a node's status; the class of a non-string status is not modelled. */
  function StatusClass(status: Json): Json
  {
    if status.JStr? then JStr("node-" + status.s) else JUndef
  }

  /** `{...node.data}` without `label` and `connections`. */
  function ParamsOf(data: Option<Json>): (fs: seq<Field>)
    ensures KeySet(fs) == KeySet(SpreadFields(data)) - {"label", "connections"}
    ensures forall k :: k != "label" && k != "connections" ==> Get(fs, k) == Get(SpreadFields(data), k)
  {
    Remove(Remove(SpreadFields(data), "label"), "connections")
  }

  /**
   * `backendToFrontendNode`: `null` for a falsy node; a `TypeError` when `data` is missing;
   * otherwise the frontend node whose `params` are the backend data without `label` and
   * `connections`.
   */
  function BackendToFrontendNode(node: Option<Json>): (r: Mapped)
    ensures !Truthy(node) ==> r == Ok(JNull)
    ensures r.TypeError? <==> Truthy(node) && IsNullish(Member(node, "data"))
  {
    if !Truthy(node) then Ok(JNull)
    else
      var data := Member(node, "data");
      if IsNullish(data) then TypeError
      else
        var status := Or(Member(node, "status"), JStr("idle"));
        Ok(FrontendNodeObject(
          Val(Member(node, "id")),
          Val(Member(node, "type")),
          Val(Member(node, "position")),
          FrontendNodeData(
            Or(Member(data, "label"), Val(Member(node, "type"))),
            JObj(ParamsOf(data)),
            Or(Member(data, "connections"), JObj([])),
            status,
            Or(Member(node, "execution_time"), JNull),
            Or(Member(node, "output"), JNull)),
          StatusClass(status)))
  }

  /** `backendToFrontendEdge`: `null` for a falsy edge; the handles come back from `source_handle`/`target_handle`. */
  function BackendToFrontendEdge(edge: Option<Json>): (r: Json)
    ensures !Truthy(edge) <==> r == JNull
  {
    if !Truthy(edge) then JNull
    else
      FrontendEdgeObject(
        Val(Member(edge, "id")),
        Val(Member(edge, "source")),
        Val(Member(edge, "target")),
        Val(Member(edge, "source_handle")),
        Val(Member(edge, "target_handle")),
        Or(Member(edge, "label"), JStr("")))
  }

  /** `backendToFrontendWorkflow`: `null` for a falsy workflow; fields are copied without defaults. */
  function BackendToFrontendWorkflow(w: Option<Json>): (r: Mapped)
    ensures !Truthy(w) ==> r == Ok(JNull)
    ensures r.TypeError? <==>
      && Truthy(w)
      && (MapList(Member(w, "nodes"), BackendToFrontendNode).TypeError?
          || MapList(Member(w, "edges"), BackendToFrontendEdgeMapped).TypeError?)
  {
    if !Truthy(w) then Ok(JNull)
    else
      var nodes := MapList(Member(w, "nodes"), BackendToFrontendNode);
      var edges := MapList(Member(w, "edges"), BackendToFrontendEdgeMapped);
      if nodes.TypeError? || edges.TypeError? then TypeError
      else
        Ok(WorkflowObject("createdAt", "updatedAt",
          Val(Member(w, "id")), Val(Member(w, "name")), Val(Member(w, "description")), nodes.value, edges.value,
          Val(Member(w, "created_at")), Val(Member(w, "updated_at"))))
  }

  // ---------------------------------------------------------------------------------------
  // Properties of the mappers

  /** Every mapper returns `null` for a falsy input. */
  lemma MappersPassNull(v: Option<Json>, now: string)
    requires !Truthy(v)
    ensures FrontendToBackendWorkflow(v, now) == Ok(JNull) && BackendToFrontendWorkflow(v) == Ok(JNull)
    ensures FrontendToBackendNode(v) == Ok(JNull) && BackendToFrontendNode(v) == Ok(JNull)
    ensures FrontendToBackendEdge(v) == JNull && BackendToFrontendEdge(v) == JNull
  {
  }

  /** The defaults of `frontendToBackendWorkflow` for a workflow object with no fields. */
  lemma EmptyWorkflowDefaults(now: string)
    ensures var r := FrontendToBackendWorkflow(Some(JObj([])), now);
      && OutField(r, "id") == Some(JNull)
      && OutField(r, "name") == Some(JStr("Untitled Workflow"))
      && OutField(r, "description") == Some(JStr(""))
      && OutField(r, "nodes") == Some(JArr([]))
      && OutField(r, "edges") == Some(JArr([]))
      && OutField(r, "created_at") == Some(JStr(now))
      && OutField(r, "updated_at") == Some(JStr(now))
  {
    var w := Some(JObj([]));
    assert MapList(Member(w, "nodes"), FrontendToBackendNode) == Ok(JArr([]));
    assert MapList(Member(w, "edges"), FrontendToBackendEdgeMapped) == Ok(JArr([]));
    var fs := [
      Field("id", JNull), Field("name", JStr("Untitled Workflow")), Field("description", JStr("")),
      Field("nodes", JArr([])), Field("edges", JArr([])), Field("created_at", JStr(now)), Field("updated_at", JStr(now))
    ];
    assert FrontendToBackendWorkflow(w, now) == Ok(JObj(fs));
    assert DistinctKeys(fs);
    ReadField(fs, 0); ReadField(fs, 1); ReadField(fs, 2); ReadField(fs, 3);
    ReadField(fs, 4); ReadField(fs, 5); ReadField(fs, 6);
  }

  /**
   * `out` is what `list ? list.map(f) : []` gives: `[]` for a falsy list, and for an array one
   * entry per element, each the mapper's result for that element (holes stay holes).
   */
  predicate ListMapped(list: Option<Json>, out: Option<Json>, f: Option<Json> -> Mapped)
  {
    && (!Truthy(list) ==> out == Some(JArr([])))
    && (Truthy(list) ==>
          var items, outs := ItemsOf(list), ItemsOf(out);
          && IsArray(list) && IsArray(out) && |outs| == |items|
          && forall i :: 0 <= i < |items| && items[i] != JUndef ==> f(Some(items[i])) == Ok(outs[i]))
  }

  /** A list mapping that does not throw maps every element. */
  lemma MapListMapped(list: Option<Json>, f: Option<Json> -> Mapped)
    requires MapList(list, f).Ok?
    ensures ListMapped(list, Some(MapList(list, f).value), f)
  {
  }

  /** A `v || d` stored in an object literal reads back as `v` when truthy and as `d` otherwise. */
  lemma ReadOr(a: Option<Json>, d: Json)
    requires d != JUndef
    ensures Defined(Some(Or(a, d))) == if Truthy(a) then a else Some(d)
  {
  }

  /** The scalar fields of the object `frontendToBackendWorkflow` builds, for any mapped lists. */
  lemma BackendWorkflowScalars(ww: Option<Json>, nodes: Json, edges: Json, now: string)
    requires nodes != JUndef && edges != JUndef
    ensures var o := Some(WorkflowObject("created_at", "updated_at",
          Or(Member(ww, "id"), JNull), Or(Member(ww, "name"), JStr("Untitled Workflow")),
          Or(Member(ww, "description"), JStr("")), nodes, edges, Or(Member(ww, "createdAt"), JStr(now)), JStr(now)));
      && Member(o, "id") == (if Truthy(Member(ww, "id")) then Member(ww, "id") else Some(JNull))
      && Member(o, "name") == (if Truthy(Member(ww, "name")) then Member(ww, "name") else Some(JStr("Untitled Workflow")))
      && Member(o, "description") == (if Truthy(Member(ww, "description")) then Member(ww, "description") else Some(JStr("")))
      && Member(o, "created_at") == (if Truthy(Member(ww, "createdAt")) then Member(ww, "createdAt") else Some(JStr(now)))
      && Member(o, "updated_at") == Some(JStr(now))
      && Member(o, "nodes") == Some(nodes) && Member(o, "edges") == Some(edges)
  {
    ReadWorkflow("created_at", "updated_at",
      Or(Member(ww, "id"), JNull), Or(Member(ww, "name"), JStr("Untitled Workflow")),
      Or(Member(ww, "description"), JStr("")), nodes, edges, Or(Member(ww, "createdAt"), JStr(now)), JStr(now));
    ReadOr(Member(ww, "id"), JNull);
    ReadOr(Member(ww, "name"), JStr("Untitled Workflow"));
    ReadOr(Member(ww, "description"), JStr(""));
    ReadOr(Member(ww, "createdAt"), JStr(now));
  }

  /**
   * `frontendToBackendWorkflow` of a workflow whose lists map: a falsy id, name, description or
   * `createdAt` takes its default, a truthy one is kept, `updated_at` is the time of the call,
   * and the node and edge lists are mapped element by element.
   */
  lemma FrontendToBackendWorkflowFields(w: Json, now: string)
    requires Truthy(Some(w))
    requires MapList(Member(Some(w), "nodes"), FrontendToBackendNode).Ok?
    requires MapList(Member(Some(w), "edges"), FrontendToBackendEdgeMapped).Ok?
    ensures var r := FrontendToBackendWorkflow(Some(w), now);
      var ww := Some(w);
      && r.Ok?
      && OutField(r, "id") == (if Truthy(Member(ww, "id")) then Member(ww, "id") else Some(JNull))
      && OutField(r, "name") == (if Truthy(Member(ww, "name")) then Member(ww, "name") else Some(JStr("Untitled Workflow")))
      && OutField(r, "description") == (if Truthy(Member(ww, "description")) then Member(ww, "description") else Some(JStr("")))
      && OutField(r, "created_at") == (if Truthy(Member(ww, "createdAt")) then Member(ww, "createdAt") else Some(JStr(now)))
      && OutField(r, "updated_at") == Some(JStr(now))
      && ListMapped(Member(ww, "nodes"), OutField(r, "nodes"), FrontendToBackendNode)
      && ListMapped(Member(ww, "edges"), OutField(r, "edges"), FrontendToBackendEdgeMapped)
  {
    var ww := Some(w);
    var nodes := MapList(Member(ww, "nodes"), FrontendToBackendNode).value;
    var edges := MapList(Member(ww, "edges"), FrontendToBackendEdgeMapped).value;
    assert FrontendToBackendWorkflow(ww, now) == Ok(WorkflowObject("created_at", "updated_at",
          Or(Member(ww, "id"), JNull), Or(Member(ww, "name"), JStr("Untitled Workflow")),
          Or(Member(ww, "description"), JStr("")), nodes, edges, Or(Member(ww, "createdAt"), JStr(now)), JStr(now)));
    MapListMapped(Member(ww, "nodes"), FrontendToBackendNode);
    MapListMapped(Member(ww, "edges"), FrontendToBackendEdgeMapped);
    BackendWorkflowScalars(ww, nodes, edges, now);
  }

  /**
   * `backendToFrontendWorkflow` of a workflow whose lists map: id, name and description are
   * copied, the snake-case timestamps come back as `createdAt`/`updatedAt`, and the node and edge
   * lists are mapped element by element.
   */
  lemma BackendToFrontendWorkflowFields(w: Json)
    requires Truthy(Some(w))
    requires MapList(Member(Some(w), "nodes"), BackendToFrontendNode).Ok?
    requires MapList(Member(Some(w), "edges"), BackendToFrontendEdgeMapped).Ok?
    ensures var r := BackendToFrontendWorkflow(Some(w));
      var ww := Some(w);
      && r.Ok?
      && OutField(r, "id") == Member(ww, "id")
      && OutField(r, "name") == Member(ww, "name")
      && OutField(r, "description") == Member(ww, "description")
      && OutField(r, "createdAt") == Member(ww, "created_at")
      && OutField(r, "updatedAt") == Member(ww, "updated_at")
      && ListMapped(Member(ww, "nodes"), OutField(r, "nodes"), BackendToFrontendNode)
      && ListMapped(Member(ww, "edges"), OutField(r, "edges"), BackendToFrontendEdgeMapped)
  {
    var ww := Some(w);
    var nodes := MapList(Member(ww, "nodes"), BackendToFrontendNode);
    var edges := MapList(Member(ww, "edges"), BackendToFrontendEdgeMapped);
    MapListMapped(Member(ww, "nodes"), BackendToFrontendNode);
    MapListMapped(Member(ww, "edges"), BackendToFrontendEdgeMapped);
    ReadWorkflow("createdAt", "updatedAt",
      Val(Member(ww, "id")), Val(Member(ww, "name")), Val(Member(ww, "description")), nodes.value, edges.value,
      Val(Member(ww, "created_at")), Val(Member(ww, "updated_at")));
  }

  /** The fields `frontendToBackendEdge` writes, read back from the backend edge. */
  lemma FrontendToBackendEdgeFields(e: Json)
    requires Truthy(Some(e))
    ensures var b := Some(FrontendToBackendEdge(Some(e)));
      && Member(b, "id") == Member(Some(e), "id")
      && Member(b, "source") == Member(Some(e), "source")
      && Member(b, "target") == Member(Some(e), "target")
      && Member(b, "source_handle") == Member(Some(e), "sourceHandle")
      && Member(b, "target_handle") == Member(Some(e), "targetHandle")
      && Member(b, "source_output") == Some(Or(Member(Some(e), "sourceHandle"), JStr("output")))
      && Member(b, "target_input") == Some(Or(Member(Some(e), "targetHandle"), JStr("input")))
  {
    var ee := Some(e);
    var data := Member(ee, "data");
    ReadBackendEdge(Val(Member(ee, "id")), Val(Member(ee, "source")), Val(Member(ee, "target")),
      Or(Member(ee, "sourceHandle"), JStr("output")), Or(Member(ee, "targetHandle"), JStr("input")),
      Val(Member(ee, "sourceHandle")), Val(Member(ee, "targetHandle")),
      if IsNullish(data) then JNull else Or(Member(data, "label"), JNull));
  }

  /** The fields `backendToFrontendEdge` writes, read back from the frontend edge. */
  lemma BackendToFrontendEdgeFields(b: Json)
    requires Truthy(Some(b))
    ensures var f := Some(BackendToFrontendEdge(Some(b)));
      && Member(f, "id") == Member(Some(b), "id")
      && Member(f, "source") == Member(Some(b), "source")
      && Member(f, "target") == Member(Some(b), "target")
      && Member(f, "sourceHandle") == Member(Some(b), "source_handle")
      && Member(f, "targetHandle") == Member(Some(b), "target_handle")
  {
    var bb := Some(b);
    ReadFrontendEdge(Val(Member(bb, "id")), Val(Member(bb, "source")), Val(Member(bb, "target")),
      Val(Member(bb, "source_handle")), Val(Member(bb, "target_handle")), Or(Member(bb, "label"), JStr("")));
  }

  /**
   * An edge converted to the backend and back keeps its id, endpoints and handles; the backend
   * port names fall back to `output`/`input`.
   */
  lemma EdgeRoundTrip(e: Json)
    requires Truthy(Some(e))
    ensures var f := Some(BackendToFrontendEdge(Some(FrontendToBackendEdge(Some(e)))));
      && Member(f, "id") == Member(Some(e), "id")
      && Member(f, "source") == Member(Some(e), "source")
      && Member(f, "target") == Member(Some(e), "target")
      && Member(f, "sourceHandle") == Member(Some(e), "sourceHandle")
      && Member(f, "targetHandle") == Member(Some(e), "targetHandle")
  {
    FrontendToBackendEdgeFields(e);
    BackendToFrontendEdgeFields(FrontendToBackendEdge(Some(e)));
  }

  /**
   * The backend node's `data`: `label` falls back to the node type, every other key comes from
   * `connections` if it has it and from `params` otherwise.
   */
  lemma BackendDataMergesParams(node: Option<Json>, data: Option<Json>, k: string)
    ensures var fs := BackendData(node, data);
      var params, conns := SpreadFields(Member(data, "params")), SpreadFields(Member(data, "connections"));
      && KeySet(fs) == {"label"} + KeySet(params) + KeySet(conns)
      && Get(fs, k) == if k in KeySet(conns) then Get(conns, k)
                       else if k in KeySet(params) then Get(params, k)
                       else if k == "label" then Some(Or(Member(data, "label"), Val(Member(node, "type"))))
                       else None
  {
    var base := [Field("label", Or(Member(data, "label"), Val(Member(node, "type"))))];
    assert KeySet(base) == {"label"} by { assert base == [] + [base[0]]; KeySetSnoc([], base[0]); }
    assert Get(base, k) == if k == "label" then Some(base[0].val) else None;
  }

  /** The fields `frontendToBackendNode` writes, read back from the backend node. */
  lemma FrontendToBackendNodeFields(n: Json)
    requires Truthy(Some(n)) && !IsNullish(Member(Some(n), "data")) && !IsNullish(Member(Some(n), "position"))
    ensures FrontendToBackendNode(Some(n)).Ok?
    ensures var b := Some(FrontendToBackendNode(Some(n)).value);
      && Truthy(b)
      && Member(b, "id") == Member(Some(n), "id")
      && Member(b, "type") == Defined(Some(BackendType(Member(Some(n), "type"))))
      && Member(b, "data") == Some(JObj(BackendData(Some(n), Member(Some(n), "data"))))
      && Member(b, "status") == Some(Or(Member(Some(n), "status"), JStr("idle")))
  {
    var nn := Some(n);
    var data := Member(nn, "data");
    var position := Member(nn, "position");
    ReadBackendNode(
      Val(Member(nn, "id")), BackendType(Member(nn, "type")), JObj(ConfigInputs(Member(data, "config"))),
      JObj(BackendData(nn, data)),
      JObj([Field("x", Val(Member(position, "x"))), Field("y", Val(Member(position, "y")))]),
      Or(Member(nn, "status"), JStr("idle")), Or(Member(nn, "executionTime"), JNull), Or(Member(nn, "output"), JNull));
  }

  /** The fields `backendToFrontendNode` writes, read back from the frontend node. */
  lemma BackendToFrontendNodeFields(b: Json)
    requires Truthy(Some(b)) && !IsNullish(Member(Some(b), "data"))
    ensures BackendToFrontendNode(Some(b)).Ok?
    ensures var f := Some(BackendToFrontendNode(Some(b)).value);
      && Member(f, "id") == Member(Some(b), "id")
      && Member(f, "type") == Member(Some(b), "type")
      && Member(Member(f, "data"), "status") == Some(Or(Member(Some(b), "status"), JStr("idle")))
      && Member(Member(f, "data"), "params") == Some(JObj(ParamsOf(Member(Some(b), "data"))))
    ensures var f := Some(BackendToFrontendNode(Some(b)).value);
      var data := Member(Some(b), "data");
      && Member(f, "position") == Member(Some(b), "position")
      && (Truthy(Member(data, "label")) ==> Member(Member(f, "data"), "label") == Member(data, "label"))
      && (!Truthy(Member(data, "label")) ==> Member(Member(f, "data"), "label") == Member(Some(b), "type"))
      && (Truthy(Member(data, "connections")) ==>
            Member(Member(f, "data"), "connections") == Member(data, "connections"))
      && (!Truthy(Member(data, "connections")) ==> Member(Member(f, "data"), "connections") == Some(JObj([])))
      && (Truthy(Member(Some(b), "execution_time")) ==>
            Member(Member(f, "data"), "executionTime") == Member(Some(b), "execution_time"))
      && (!Truthy(Member(Some(b), "execution_time")) ==> Member(Member(f, "data"), "executionTime") == Some(JNull))
      && (Truthy(Member(Some(b), "output")) ==> Member(Member(f, "data"), "output") == Member(Some(b), "output"))
      && (!Truthy(Member(Some(b), "output")) ==> Member(Member(f, "data"), "output") == Some(JNull))
  {
    var bb := Some(b);
    var data := Member(bb, "data");
    var status := Or(Member(bb, "status"), JStr("idle"));
    var fd := FrontendNodeData(
      Or(Member(data, "label"), Val(Member(bb, "type"))), JObj(ParamsOf(data)),
      Or(Member(data, "connections"), JObj([])), status,
      Or(Member(bb, "execution_time"), JNull), Or(Member(bb, "output"), JNull));
    ReadFrontendNode(Val(Member(bb, "id")), Val(Member(bb, "type")), Val(Member(bb, "position")), fd, StatusClass(status));
    ReadFrontendNodeData(
      Or(Member(data, "label"), Val(Member(bb, "type"))), JObj(ParamsOf(data)),
      Or(Member(data, "connections"), JObj([])), status,
      Or(Member(bb, "execution_time"), JNull), Or(Member(bb, "output"), JNull));
  }

  /**
   * A node converted to the backend and back keeps its id, and a parameter that is neither `label` nor a connection key keeps its value. The
   * connections themselves are spread into the backend data, so they come back among the
   * parameters and the returned `connections` holds only a key literally named `connections`.
   */
  lemma NodeRoundTrip(n: Json, k: string)
    requires Truthy(Some(n)) && !IsNullish(Member(Some(n), "data")) && !IsNullish(Member(Some(n), "position"))
    requires k != "label" && k != "connections"
    ensures FrontendToBackendNode(Some(n)).Ok?
    ensures var b := FrontendToBackendNode(Some(n)).value;
      var f := BackendToFrontendNode(Some(b));
      var data := Member(Some(n), "data");
      var params, conns := SpreadFields(Member(data, "params")), SpreadFields(Member(data, "connections"));
      && f.Ok?
      && OutField(f, "id") == Member(Some(n), "id")
      && Get(SpreadFields(Member(OutField(f, "data"), "params")), k) ==
           (if k in KeySet(conns) then Get(conns, k) else Get(params, k))
  {
    FrontendToBackendNodeFields(n);
    BackendNodeBackToFrontend(n, FrontendToBackendNode(Some(n)).value, k);
  }

  /** The second half of `NodeRoundTrip`, for any backend node carrying what `frontendToBackendNode` wrote. */
  lemma BackendNodeBackToFrontend(n: Json, b: Json, k: string)
    requires k != "label" && k != "connections"
    requires Truthy(Some(b))
    requires Member(Some(b), "id") == Member(Some(n), "id")
    requires Member(Some(b), "data") == Some(JObj(BackendData(Some(n), Member(Some(n), "data"))))
    ensures var f := BackendToFrontendNode(Some(b));
      var data := Member(Some(n), "data");
      var params, conns := SpreadFields(Member(data, "params")), SpreadFields(Member(data, "connections"));
      && f.Ok?
      && OutField(f, "id") == Member(Some(n), "id")
      && Get(SpreadFields(Member(OutField(f, "data"), "params")), k) ==
           (if k in KeySet(conns) then Get(conns, k) else Get(params, k))
  {
    BackendToFrontendNodeFields(b);
    ParamsOfBackendData(Some(n), Member(Some(n), "data"), k);
  }

  /** The parameters recovered from a backend node's data, for a key that is neither `label` nor `connections`. */
  lemma ParamsOfBackendData(node: Option<Json>, data: Option<Json>, k: string)
    requires k != "label" && k != "connections"
    ensures var params, conns := SpreadFields(Member(data, "params")), SpreadFields(Member(data, "connections"));
      Get(ParamsOf(Some(JObj(BackendData(node, data)))), k) ==
        (if k in KeySet(conns) then Get(conns, k) else Get(params, k))
  {
    var bd := BackendData(node, data);
    assert Get(ParamsOf(Some(JObj(bd))), k) == Get(bd, k);
    BackendDataMergesParams(node, data, k);
  }

  /** `backendToFrontendNode`'s `params` are the backend data without `label` and `connections`. */
  lemma BackendParamsDropLabelAndConnections(n: Json, k: string)
    requires Truthy(Some(n)) && !IsNullish(Member(Some(n), "data"))
    ensures var data := Member(Some(n), "data");
      var params := SpreadFields(Member(OutField(BackendToFrontendNode(Some(n)), "data"), "params"));
      && KeySet(params) == KeySet(SpreadFields(data)) - {"label", "connections"}
      && (k != "label" && k != "connections" ==> Get(params, k) == Get(SpreadFields(data), k))
  {
    BackendToFrontendNodeFields(n);
  }

  /**
   * `syncWorkflowData`: the direction defaults to `frontend-to-backend`; that direction converts
   * the frontend workflow and every other value converts the backend one.
   */
  function SyncWorkflowData(front: Option<Json>, back: Option<Json>, direction: Option<Json>, now: string): (r: Mapped)
    ensures Defined(direction).None? || direction == Some(JStr("frontend-to-backend")) ==>
              r == FrontendToBackendWorkflow(front, now)
    ensures Defined(direction).Some? && direction != Some(JStr("frontend-to-backend")) ==>
              r == BackendToFrontendWorkflow(back)
  {
    var dir := if Defined(direction).None? then JStr("frontend-to-backend") else direction.value;
    if StrictEquals(Some(dir), Some(JStr("frontend-to-backend"))) then FrontendToBackendWorkflow(front, now)
    else BackendToFrontendWorkflow(back)
  }

  /** `new Date(v) > new Date(w)`: a comparison involving an invalid date is false. */
  predicate Later(a: Num, b: Num)
  {
    a.Num? && b.Num? && a.v > b.v
  }

  /**
   * `mergeWorkflowData`, with `time` the time value `new Date(v)` gives for `v` (`NaN` for an
   * invalid date): a missing side yields the other, a strictly newer frontend wins, and otherwise,
   * ties included, the converted backend wins.
   */
  function MergeWorkflowData(front: Option<Json>, back: Option<Json>, time: Json -> Num): (r: Mapped)
  {
    if !Truthy(front) then BackendToFrontendWorkflow(back)
    else if !Truthy(back) then Ok(front.value)
    else
      var frontUpdated := time(Or(Member(front, "updatedAt"), JNum(0.0)));
      var backUpdated := time(Or(Member(back, "updated_at"), JNum(0.0)));
      if Later(frontUpdated, backUpdated) then Ok(front.value) else BackendToFrontendWorkflow(back)
  }

  /** The merge returns the frontend workflow exactly when it is newer or the backend is missing. */
  lemma MergeNewestWins(front: Option<Json>, back: Option<Json>, time: Json -> Num)
    ensures var r := MergeWorkflowData(front, back, time);
      var ft := time(Or(Member(front, "updatedAt"), JNum(0.0)));
      var bt := time(Or(Member(back, "updated_at"), JNum(0.0)));
      && (!Truthy(front) ==> r == BackendToFrontendWorkflow(back))
      && (Truthy(front) && !Truthy(back) ==> r == Ok(front.value))
      && (Truthy(front) && Truthy(back) && Later(ft, bt) ==> r == Ok(front.value))
      && (Truthy(front) && Truthy(back) && !Later(ft, bt) ==> r == BackendToFrontendWorkflow(back))
  {
  }

  /** Equal update times, or an invalid one, go to the backend. */
  lemma MergeTieGoesToBackend(front: Json, back: Json, time: Json -> Num)
    requires Truthy(Some(front)) && Truthy(Some(back))
    requires time(Or(Member(Some(front), "updatedAt"), JNum(0.0))) == time(Or(Member(Some(back), "updated_at"), JNum(0.0)))
    ensures MergeWorkflowData(Some(front), Some(back), time) == BackendToFrontendWorkflow(Some(back))
  {
  }

  // ---------------------------------------------------------------------------------------
  // Validation

  /** `position` is truthy and both coordinates are numbers. */
  predicate PositionValid(node: Option<Json>)
  {
    var position := Member(node, "position");
    Truthy(position) && Member(position, "x").Some? && Member(position, "x").value.JNum?
      && Member(position, "y").Some? && Member(position, "y").value.JNum?
  }

  /** The messages `validateNodeData` pushes, in order, given which of its four checks pass. */
  function NodeMessages(hasId: bool, hasType: bool, positionOk: bool, hasData: bool): (r: seq<string>)
    ensures "Node must have an id" in r <==> !hasId
    ensures "Node must have a type" in r <==> !hasType
    ensures "Node must have valid position coordinates" in r <==> !positionOk
    ensures "Node must have data" in r <==> !hasData
    ensures r == [] <==> hasId && hasType && positionOk && hasData
    ensures |r| <= 4
  {
    var e1 := if !hasId then ["Node must have an id"] else [];
    var e2 := if !hasType then ["Node must have a type"] else [];
    var e3 := if !positionOk then ["Node must have valid position coordinates"] else [];
    var e4 := if !hasData then ["Node must have data"] else [];
    var r := e1 + e2 + e3 + e4;
    assert forall m :: m in r <==> m in e1 || m in e2 || m in e3 || m in e4;
    r
  }

  /** `validateNodeData`: one message per failed check, in the order of the checks. */
  function ValidateNodeData(node: Option<Json>): (r: Validation)
    ensures r.isValid <==> r.errors == []
    ensures !Truthy(node) ==> r.errors == ["Node data is null or undefined"]
    ensures Truthy(node) ==>
      && ("Node must have an id" in r.errors <==> !Truthy(Member(node, "id")))
      && ("Node must have a type" in r.errors <==> !Truthy(Member(node, "type")))
      && ("Node must have valid position coordinates" in r.errors <==> !PositionValid(node))
      && ("Node must have data" in r.errors <==> !Truthy(Member(node, "data")))
      && |r.errors| <= 4
    ensures Truthy(node) ==> (r.isValid <==>
      Truthy(Member(node, "id")) && Truthy(Member(node, "type")) && PositionValid(node) && Truthy(Member(node, "data")))
  {
    if !Truthy(node) then Validation(false, ["Node data is null or undefined"])
    else
      var errors := NodeMessages(Truthy(Member(node, "id")), Truthy(Member(node, "type")), PositionValid(node),
                                 Truthy(Member(node, "data")));
      Validation(errors == [], errors)
  }

  /** A required field of an edge and the message for its absence. */
  datatype Check = Check(key: string, message: string)

  const EdgeChecks := [
    Check("id", "Edge must have an id"),
    Check("source", "Edge must have a source node id"),
    Check("target", "Edge must have a target node id"),
    Check("sourceHandle", "Edge must have a source handle"),
    Check("targetHandle", "Edge must have a target handle")
  ]

  /** The messages of a list of checks, in order. */
  function Messages(checks: seq<Check>): (r: seq<string>)
    ensures |r| == |checks|
  {
    if checks == [] then [] else [checks[0].message] + Messages(checks[1..])
  }

  /** A check fails on `v` when its field is falsy. */
  predicate Fails(v: Option<Json>, c: Check)
  {
    !Truthy(Member(v, c.key))
  }

  /** The messages of the checks whose field is falsy, in check order. */
  function FailedChecks(v: Option<Json>, checks: seq<Check>): (r: seq<string>)
    ensures |r| <= |checks|
    ensures r == [] <==> forall c :: c in checks ==> Truthy(Member(v, c.key))
    ensures forall m :: m in r ==> exists c :: c in checks && c.message == m && !Truthy(Member(v, c.key))
    ensures forall c :: c in checks && !Truthy(Member(v, c.key)) ==> c.message in r
  {
    if checks == [] then []
    else (if !Truthy(Member(v, checks[0].key)) then [checks[0].message] else []) + FailedChecks(v, checks[1..])
  }

  /** The reported messages are exactly those of the failing checks, each once, in check order. */
  lemma {:induction false} FailedChecksInOrder(v: Option<Json>, checks: seq<Check>)
    ensures FailedChecks(v, checks) == Messages(Filter(checks, c => Fails(v, c)))
  {
    if checks != [] {
      var keep := c => Fails(v, c);
      FailedChecksInOrder(v, checks[1..]);
      if keep(checks[0]) {
        assert Filter(checks, keep) == [checks[0]] + Filter(checks[1..], keep);
        assert Messages([checks[0]] + Filter(checks[1..], keep)) == [checks[0].message] + Messages(Filter(checks[1..], keep));
      } else {
        assert Filter(checks, keep) == Filter(checks[1..], keep);
      }
    }
  }

  /** No two checks report the same message. */
  predicate DistinctMessages(checks: seq<Check>)
  {
    forall i, j :: 0 <= i < j < |checks| ==> checks[i].message != checks[j].message
  }

  /** With distinct messages, a check's message is reported exactly when its field is falsy. */
  lemma FailedCheckReported(v: Option<Json>, checks: seq<Check>, c: Check)
    requires DistinctMessages(checks) && c in checks
    ensures c.message in FailedChecks(v, checks) <==> !Truthy(Member(v, c.key))
  {
    if c.message in FailedChecks(v, checks) {
      var c' :| c' in checks && c'.message == c.message && !Truthy(Member(v, c'.key));
      var i :| 0 <= i < |checks| && checks[i] == c;
      var j :| 0 <= j < |checks| && checks[j] == c';
      assert i == j;
    }
  }

  /** `validateEdgeData`: one push per falsy field, in the order of `EdgeChecks`. */
  function ValidateEdgeData(edge: Option<Json>): (r: Validation)
    ensures r.isValid <==> r.errors == []
    ensures !Truthy(edge) ==> r.errors == ["Edge data is null or undefined"]
    ensures Truthy(edge) ==> r.errors == Messages(Filter(EdgeChecks, c => Fails(edge, c)))
  {
    if !Truthy(edge) then Validation(false, ["Edge data is null or undefined"])
    else
      FailedChecksInOrder(edge, EdgeChecks);
      var errors := FailedChecks(edge, EdgeChecks);
      Validation(errors == [], errors)
  }

  /** A truthy edge is valid exactly when all five fields are truthy, and gets one message per falsy field. */
  lemma EdgeValidIff(edge: Option<Json>)
    requires Truthy(edge)
    ensures ValidateEdgeData(edge).isValid <==>
      forall c :: c in EdgeChecks ==> Truthy(Member(edge, c.key))
    ensures forall c :: c in EdgeChecks ==> (c.message in ValidateEdgeData(edge).errors <==> !Truthy(Member(edge, c.key)))
  {
    assert DistinctMessages(EdgeChecks);
    forall c | c in EdgeChecks
      ensures c.message in ValidateEdgeData(edge).errors <==> !Truthy(Member(edge, c.key))
    {
      FailedCheckReported(edge, EdgeChecks, c);
    }
  }

  /** `array.join(sep)`. */
  function Join(parts: seq<string>, sep: string): string
  {
    if parts == [] then ""
    else if |parts| == 1 then parts[0]
    else parts[0] + sep + Join(parts[1..], sep)
  }

  /** The workflow validator's line for an invalid entry at `index`. */
  function EntryLine(kind: string, index: nat, errors: seq<string>): string
  {
    kind + " at index " + NatToString(index) + ": " + Join(errors, ", ")
  }

  predicate InvalidNode(e: Json)
  {
    e != JUndef && !ValidateNodeData(Some(e)).isValid
  }

  predicate InvalidEdge(e: Json)
  {
    e != JUndef && !ValidateEdgeData(Some(e)).isValid
  }

  /** The line for the node entry `e` at index `i`. */
  function NodeLine(e: Json, i: nat): string
  {
    EntryLine("Node", i, ValidateNodeData(Some(e)).errors)
  }

  function EdgeLine(e: Json, i: nat): string
  {
    EntryLine("Edge", i, ValidateEdgeData(Some(e)).errors)
  }

  /** The lines a `forEach` pushes: one `line(e, i)` for each entry `e` at index `i` that is `bad`. */
  function LinesOf(items: seq<Json>, bad: Json -> bool, line: (Json, nat) -> string): seq<string>
  {
    if items == [] then []
    else
      var i := |items| - 1;
      LinesOf(items[..i], bad, line) + (if bad(items[i]) then [line(items[i], i)] else [])
  }

  /** The lines the `nodes.forEach` pushes (holes are skipped). */
  function NodeLines(items: seq<Json>): seq<string>
  {
    LinesOf(items, InvalidNode, NodeLine)
  }

  function EdgeLines(items: seq<Json>): seq<string>
  {
    LinesOf(items, InvalidEdge, EdgeLine)
  }

  lemma LinesStep(items: seq<Json>, i: nat, bad: Json -> bool, line: (Json, nat) -> string)
    requires i < |items|
    ensures LinesOf(items[..i + 1], bad, line) ==
              LinesOf(items[..i], bad, line) + (if bad(items[i]) then [line(items[i], i)] else [])
  {
    assert items[..i + 1][..i] == items[..i];
  }

  /** The result `validateWorkflowData` computes. */
  function WorkflowValidation(w: Option<Json>): Validation
  {
    if !Truthy(w) then Validation(false, ["Workflow data is null or undefined"])
    else
      var errors := NodesPart(Member(w, "nodes")) + EdgesPart(Member(w, "edges"));
      Validation(errors == [], errors)
  }

  /** The lines for the `nodes` field: one complaint when it is not an array, else one per invalid node. */
  function NodesPart(nodes: Option<Json>): seq<string>
  {
    if !IsArray(nodes) then ["Nodes must be an array"] else NodeLines(nodes.value.items)
  }

  function EdgesPart(edges: Option<Json>): seq<string>
  {
    if !IsArray(edges) then ["Edges must be an array"] else EdgeLines(edges.value.items)
  }

  /** `validateWorkflowData`: checks the workflow, then each list with its own loop. */
  method ValidateWorkflowData(w: Option<Json>) returns (r: Validation)
    ensures r == WorkflowValidation(w)
  {
    var errors: seq<string> := [];
    if !Truthy(w) {
      errors := errors + ["Workflow data is null or undefined"];
      return Validation(false, errors);
    }
    var nodes := Member(w, "nodes");
    if !IsArray(nodes) {
      errors := errors + ["Nodes must be an array"];
    } else {
      var lines := NodeErrorLines(nodes.value.items);
      errors := errors + lines;
    }
    assert errors == NodesPart(nodes);
    var edges := Member(w, "edges");
    if !IsArray(edges) {
      errors := errors + ["Edges must be an array"];
    } else {
      var lines := EdgeErrorLines(edges.value.items);
      errors := errors + lines;
    }
    assert errors == NodesPart(nodes) + EdgesPart(edges);
    return Validation(|errors| == 0, errors);
  }

  /** The `nodes.forEach` loop: validates every entry that is not a hole and records a line for each invalid one. */
  method NodeErrorLines(items: seq<Json>) returns (lines: seq<string>)
    ensures lines == NodeLines(items)
  {
    lines := [];
    var i := 0;
    while i < |items|
      invariant 0 <= i <= |items|
      invariant lines == NodeLines(items[..i])
    {
      LinesStep(items, i, InvalidNode, NodeLine);
      if items[i] != JUndef {
        var nodeErrors := ValidateNodeData(Some(items[i]));
        if !nodeErrors.isValid {
          lines := lines + [EntryLine("Node", i, nodeErrors.errors)];
        }
      }
      i := i + 1;
    }
    assert items[..i] == items;
  }

  /** The `edges.forEach` loop. */
  method EdgeErrorLines(items: seq<Json>) returns (lines: seq<string>)
    ensures lines == EdgeLines(items)
  {
    lines := [];
    var i := 0;
    while i < |items|
      invariant 0 <= i <= |items|
      invariant lines == EdgeLines(items[..i])
    {
      LinesStep(items, i, InvalidEdge, EdgeLine);
      if items[i] != JUndef {
        var edgeErrors := ValidateEdgeData(Some(items[i]));
        if !edgeErrors.isValid {
          lines := lines + [EntryLine("Edge", i, edgeErrors.errors)];
        }
      }
      i := i + 1;
    }
    assert items[..i] == items;
  }

  /** There is one node line per invalid entry, and an entry's line is there when it is invalid. */
  lemma NodeLinesCountInvalid(items: seq<Json>)
    ensures |NodeLines(items)| == Count(items, InvalidNode)
    ensures forall i :: 0 <= i < |items| && InvalidNode(items[i]) ==>
              EntryLine("Node", i, ValidateNodeData(Some(items[i])).errors) in NodeLines(items)
  {
    LinesCount(items, InvalidNode, NodeLine);
    LinesListBad(items, InvalidNode, NodeLine);
  }

  lemma EdgeLinesCountInvalid(items: seq<Json>)
    ensures |EdgeLines(items)| == Count(items, InvalidEdge)
    ensures forall i :: 0 <= i < |items| && InvalidEdge(items[i]) ==>
              EntryLine("Edge", i, ValidateEdgeData(Some(items[i])).errors) in EdgeLines(items)
  {
    LinesCount(items, InvalidEdge, EdgeLine);
    LinesListBad(items, InvalidEdge, EdgeLine);
  }

  /** A `forEach` pushes as many lines as there are bad entries. */
  lemma {:induction false} LinesCount(items: seq<Json>, bad: Json -> bool, line: (Json, nat) -> string)
    ensures |LinesOf(items, bad, line)| == Count(items, bad)
    decreases |items|
  {
    if items != [] {
      var n := |items| - 1;
      var init, last := items[..n], items[n];
      LinesCount(init, bad, line);
      assert init + [last] == items;
      CountSnoc(init, last, bad);
    }
  }

  /** A `forEach` pushes the line of every bad entry. */
  lemma {:induction false} LinesListBad(items: seq<Json>, bad: Json -> bool, line: (Json, nat) -> string)
    ensures forall i :: 0 <= i < |items| && bad(items[i]) ==> line(items[i], i) in LinesOf(items, bad, line)
    decreases |items|
  {
    if items != [] {
      var n := |items| - 1;
      var init := items[..n];
      LinesListBad(init, bad, line);
      forall i | 0 <= i < |items| && bad(items[i]) ensures line(items[i], i) in LinesOf(items, bad, line) {
        if i < n {
          assert init[i] == items[i];
        }
      }
    }
  }

  /**
   * A workflow is valid exactly when both lists are arrays and every entry that is not a hole
   * passes its validator; otherwise there is one line per invalid entry.
   */
  lemma WorkflowValidIff(w: Option<Json>)
    requires Truthy(w)
    ensures WorkflowValidation(w).isValid <==>
      && IsArray(Member(w, "nodes")) && IsArray(Member(w, "edges"))
      && (forall i :: 0 <= i < |ItemsOf(Member(w, "nodes"))| ==> !InvalidNode(ItemsOf(Member(w, "nodes"))[i]))
      && (forall i :: 0 <= i < |ItemsOf(Member(w, "edges"))| ==> !InvalidEdge(ItemsOf(Member(w, "edges"))[i]))
    ensures IsArray(Member(w, "nodes")) && IsArray(Member(w, "edges")) ==>
      |WorkflowValidation(w).errors| == Count(ItemsOf(Member(w, "nodes")), InvalidNode) + Count(ItemsOf(Member(w, "edges")), InvalidEdge)
  {
    var ns, es := ItemsOf(Member(w, "nodes")), ItemsOf(Member(w, "edges"));
    NodeLinesCountInvalid(ns);
    EdgeLinesCountInvalid(es);
    CountZeroIffNone(ns, InvalidNode);
    CountZeroIffNone(es, InvalidEdge);
  }

  lemma CountZeroIffNone<T(!new)>(s: seq<T>, p: T -> bool)
    ensures Count(s, p) == 0 <==> forall i :: 0 <= i < |s| ==> !p(s[i])
  {
    forall i | 0 <= i < |s| && p(s[i]) ensures Count(s, p) > 0 {
      assert s[i] in Filter(s, p);
    }
    if Count(s, p) != 0 {
      assert Filter(s, p)[0] in Filter(s, p);
    }
  }

  // ---------------------------------------------------------------------------------------
  // Parameters

  /** The keys `extractNodeParams` deletes, in the order it deletes them. */
  const StatusKeys := ["label", "connections", "status", "execution_time", "output"]

  /** `extractNodeParams`: the node's data without the label, connection and status keys; `{}` for a missing node or data. */
  function ExtractNodeParams(node: Option<Json>): (r: seq<Field>)
    ensures !Truthy(node) || !Truthy(Member(node, "data")) ==> r == []
    ensures Truthy(node) && Truthy(Member(node, "data")) ==>
      && (forall k :: k in KeySet(r) <==> k in KeySet(SpreadFields(Member(node, "data"))) && k !in StatusKeys)
      && (forall k :: k !in StatusKeys ==> Get(r, k) == Get(SpreadFields(Member(node, "data")), k))
  {
    if !Truthy(node) || !Truthy(Member(node, "data")) then []
    else RemoveKeys(SpreadFields(Member(node, "data")), StatusKeys)
  }

  /** `delete o[k]` for each of `ks` in turn. */
  function RemoveKeys(fs: seq<Field>, ks: seq<string>): (r: seq<Field>)
    ensures forall k :: k in KeySet(r) <==> k in KeySet(fs) && k !in ks
    ensures forall k :: k in ks ==> Get(r, k) == None
    ensures forall k :: k !in ks ==> Get(r, k) == Get(fs, k)
    decreases |ks|
  {
    if ks == [] then fs else RemoveKeys(Remove(fs, ks[0]), ks[1..])
  }
}
