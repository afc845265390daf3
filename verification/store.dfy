/** The canvas store (`useStore`): the nodes and edges of the open project,
    the isolation state, and the debounced save. The graph library's change
    reducers and the persistence layer are outside this model: a change
    handler receives what the library computed, and a save request is
    recorded as the snapshot the debounce timer will write when it fires. */
module Store {
  import opened Wrappers
  import opened StoryTypes
  import Text
  import Seqs

  /** Narrative physics: every spine node sits at this height. */
  const SpineY: real := 200.0

  // ---------------------------------------------------------------------
  // Spine pinning (`onNodesChange`, `addNodeAtPosition`)

  function PinSpine(n: CanvasNode): CanvasNode
  {
    if n.nodeType == SpineNode then n.(position := n.position.(y := SpineY)) else n
  }

  /** The `map` of `onNodesChange` that locks spine nodes to y = 200. */
  function PinSpines(nodes: seq<CanvasNode>): seq<CanvasNode>
  {
    Seqs.Map(nodes, PinSpine)
  }

  predicate SpinesPinned(nodes: seq<CanvasNode>)
  {
    forall i :: 0 <= i < |nodes| && nodes[i].nodeType == SpineNode ==> nodes[i].position.y == SpineY
  }

  /** Pinning puts every spine node on the spine, keeps its X and everything
      else about it, and leaves every other node as it was, in the same order. */
  lemma PinSpinesSpec(nodes: seq<CanvasNode>)
    ensures |PinSpines(nodes)| == |nodes|
    ensures SpinesPinned(PinSpines(nodes))
    ensures forall i :: 0 <= i < |nodes| && nodes[i].nodeType != SpineNode ==> PinSpines(nodes)[i] == nodes[i]
    ensures forall i :: 0 <= i < |nodes| && nodes[i].nodeType == SpineNode ==>
              PinSpines(nodes)[i] == nodes[i].(position := Position(nodes[i].position.x, SpineY))
  {
  }

  /** Pinning changes nothing on a canvas whose spine nodes are already pinned,
      so applying it twice is applying it once. */
  lemma {:induction false} PinSpinesIdempotent(nodes: seq<CanvasNode>)
    ensures SpinesPinned(nodes) ==> PinSpines(nodes) == nodes
    ensures PinSpines(PinSpines(nodes)) == PinSpines(nodes)
  {
    PinSpinesSpec(nodes);
    var once := PinSpines(nodes);
    assert |PinSpines(once)| == |once|;
    forall i | 0 <= i < |once| ensures PinSpines(once)[i] == once[i] {
      assert PinSpines(once)[i] == PinSpine(once[i]);
    }
    if SpinesPinned(nodes) {
      forall i | 0 <= i < |nodes| ensures once[i] == nodes[i] {
        assert once[i] == PinSpine(nodes[i]);
      }
    }
  }

  // ---------------------------------------------------------------------
  // A node made from dropped or created data (`addNodeAtPosition`)

  /** `parseFloat(value)`, for the values a node's data holds: a number is
      itself, a string is parsed, anything else (or a missing value) is NaN. */
  function ParseNumber(data: NodeData, key: string): Option<real>
  {
    if key !in data then None
    else match data[key]
      case JNum(n) => Some(n)
      case JStr(s) => Text.ParseFloat(s)
      case _ => None
  }

  /** `parseFloat(value) || fallback`: NaN and 0 both give the fallback. */
  function ParseNumberOr(data: NodeData, key: string, fallback: real): (r: real)
    ensures ParseNumber(data, key).Some? && ParseNumber(data, key).value != 0.0 ==> r == ParseNumber(data, key).value
    ensures ParseNumber(data, key).None? || ParseNumber(data, key).value == 0.0 ==> r == fallback
  {
    match ParseNumber(data, key)
    case Some(v) => if v != 0.0 then v else fallback
    case None => fallback
  }

  /** `assetData.name || assetData.fileName` (absent when neither is there). */
  function LabelFrom(assetData: NodeData): Option<JsValue>
  {
    if "name" in assetData && Truthy(assetData["name"]) then Some(assetData["name"])
    else if "fileName" in assetData then Some(assetData["fileName"])
    else None
  }

  /** The fields `addNodeAtPosition` fills in before spreading the asset data over them. */
  function DefaultData(assetData: NodeData): NodeData
  {
    var duration := ParseNumberOr(assetData, "duration", 5.0);
    var numbers := map[
      "duration" := JNum(duration),
      "startTime" := JNum(ParseNumberOr(assetData, "startTime", 0.0)),
      "endTime" := JNum(ParseNumberOr(assetData, "endTime", duration)),
      "transcript" := if "transcript" in assetData && Truthy(assetData["transcript"]) then assetData["transcript"] else JList([])];
    var labelled := if LabelFrom(assetData).Some? then numbers["label" := LabelFrom(assetData).value] else numbers;
    if "id" in assetData then labelled["assetId" := assetData["id"]] else labelled
  }

  /** The node `addNodeAtPosition` appends; `newId` stands for `crypto.randomUUID()`. */
  function NewNode(nodeType: NodeType, position: Position, assetData: NodeData, newId: string,
                   activeParentId: Option<string>): CanvasNode
  {
    CanvasNode(
      newId,
      nodeType,
      if nodeType == SpineNode then position.(y := SpineY) else position,
      if activeParentId.Some? && activeParentId.value != "" then activeParentId else None,
      DefaultData(assetData) + assetData)
  }

  /** The new node: placed where asked (a spine node on the spine), a child of
      the isolated scene when there is one, carrying every asset field as
      given, and otherwise the defaults: a non-zero duration (5 when missing,
      zero or unparsable), start 0, end equal to the duration, an empty
      transcript, and the asset's name (else its file name) as label. */
  lemma NewNodeSpec(nodeType: NodeType, position: Position, assetData: NodeData, newId: string,
                    activeParentId: Option<string>)
    ensures var n := NewNode(nodeType, position, assetData, newId, activeParentId);
            && n.id == newId && n.nodeType == nodeType
            && n.position.x == position.x
            && n.position.y == (if nodeType == SpineNode then SpineY else position.y)
            && (HasParent(n) <==> activeParentId.Some? && activeParentId.value != "")
            && (HasParent(n) ==> n.parentId == activeParentId)
            && n.data.Keys == assetData.Keys + {"duration", "startTime", "endTime", "transcript"}
                              + (if LabelFrom(assetData).Some? then {"label"} else {})
                              + (if "id" in assetData then {"assetId"} else {})
            && ("id" in assetData && "assetId" !in assetData ==> n.data["assetId"] == assetData["id"])
            && (forall k :: k in assetData ==> n.data[k] == assetData[k])
            && ("duration" !in assetData ==> n.data["duration"] == JNum(5.0))
            && ("startTime" !in assetData ==> n.data["startTime"] == JNum(0.0))
            && ("endTime" !in assetData ==> n.data["endTime"] == JNum(ParseNumberOr(assetData, "duration", 5.0)))
            && ParseNumberOr(assetData, "duration", 5.0) != 0.0
            && ("transcript" !in assetData ==> n.data["transcript"] == JList([]))
            && ("label" !in assetData && "name" in assetData && Truthy(assetData["name"]) ==> n.data["label"] == assetData["name"])
            && ("label" !in assetData && LabelFrom(assetData).None? ==> "label" !in n.data)
            && ("label" !in assetData && LabelFrom(assetData).Some? ==> n.data["label"] == LabelFrom(assetData).value)
  {
  }

  /** A video asset as ingest stores it has its duration as text: the spread
      keeps that text on the node, while the end time is the parsed number. */
  function IngestedVideo(fileName: string, seconds: nat): NodeData
  {
    map["fileName" := JStr(fileName), "duration" := JStr(Text.NatToString(seconds))]
  }

  lemma {:induction false} IngestedDurationStaysText(fileName: string, seconds: nat, newId: string)
    requires seconds > 0
    ensures NewNode(SatelliteNode, Position(0.0, 0.0), IngestedVideo(fileName, seconds), newId, None).data["duration"]
              == JStr(Text.NatToString(seconds))
    ensures NewNode(SatelliteNode, Position(0.0, 0.0), IngestedVideo(fileName, seconds), newId, None).data["endTime"]
              == JNum(seconds as real)
    ensures NewNode(SatelliteNode, Position(0.0, 0.0), IngestedVideo(fileName, seconds), newId, None).data["label"]
              == JStr(fileName)
  {
    var asset := IngestedVideo(fileName, seconds);
    Text.ParseFloatOfNat(seconds);
    assert ParseNumber(asset, "duration") == Some(seconds as real);
    assert "endTime" !in asset && "label" !in asset && "name" !in asset;
    NewNodeSpec(SatelliteNode, Position(0.0, 0.0), asset, newId, None);
    assert LabelFrom(asset) == Some(JStr(fileName));
  }

  /** The node `addNodeAtPosition` evidently means to build: the parsed
      duration, start time and end time written after the asset's fields,
      so that they stay numbers whatever the asset holds. */
  function NumericNewNode(nodeType: NodeType, position: Position, assetData: NodeData, newId: string,
                          activeParentId: Option<string>): CanvasNode
  {
    var n := NewNode(nodeType, position, assetData, newId, activeParentId);
    var duration := ParseNumberOr(assetData, "duration", 5.0);
    n.(data := n.data + map[
      "duration" := JNum(duration),
      "startTime" := JNum(ParseNumberOr(assetData, "startTime", 0.0)),
      "endTime" := JNum(ParseNumberOr(assetData, "endTime", duration))])
  }

  /** The corrected node differs from the one built as written only in its
      three time fields, which hold the parsed numbers, the duration non-zero. */
  lemma NumericNewNodeSpec(nodeType: NodeType, position: Position, assetData: NodeData, newId: string,
                           activeParentId: Option<string>)
    ensures var n := NumericNewNode(nodeType, position, assetData, newId, activeParentId);
            var w := NewNode(nodeType, position, assetData, newId, activeParentId);
            && n.id == w.id && n.nodeType == w.nodeType && n.position == w.position && n.parentId == w.parentId
            && n.data.Keys == w.data.Keys
            && (forall k :: k in w.data && k != "duration" && k != "startTime" && k != "endTime" ==> n.data[k] == w.data[k])
            && n.data["duration"] == JNum(ParseNumberOr(assetData, "duration", 5.0))
            && n.data["startTime"] == JNum(ParseNumberOr(assetData, "startTime", 0.0))
            && n.data["endTime"] == JNum(ParseNumberOr(assetData, "endTime", ParseNumberOr(assetData, "duration", 5.0)))
            && ParseNumberOr(assetData, "duration", 5.0) != 0.0
  {
    NewNodeSpec(nodeType, position, assetData, newId, activeParentId);
  }

  // ---------------------------------------------------------------------
  // Edges (`onConnect`)

  /** A connection the user drew: from a handle of one node to a handle of another. */
  datatype Connection = Connection(source: string, sourceHandle: string, target: string, targetHandle: string)

  /** The id the graph library gives a new connection: both ends, each
      followed by its handle (a satellite's source handle is "anchor"). */
  function EdgeId(c: Connection): string
  {
    "xy-edge__" + c.source + c.sourceHandle + "-" + c.target + c.targetHandle
  }

  /** The library's duplicate test: an edge with the same ends and the same handles. */
  predicate SameConnection(e: Edge, c: Connection)
  {
    e.source == c.source && e.target == c.target && e.sourceHandle == c.sourceHandle && e.targetHandle == c.targetHandle
  }

  predicate Connected(edges: seq<Edge>, c: Connection)
  {
    exists i :: 0 <= i < |edges| && SameConnection(edges[i], c)
  }

  /** The library's `addEdge` for a connection of type 'anchor': a connection
      missing an end, or one that already exists between the same handles,
      leaves the edges as they were; otherwise the new edge is appended. */
  function AddAnchorEdge(edges: seq<Edge>, c: Connection): seq<Edge>
  {
    if c.source == "" || c.target == "" || Connected(edges, c) then edges
    else edges + [Edge(EdgeId(c), c.source, c.sourceHandle, c.target, c.targetHandle, Some("anchor"))]
  }

  /** No two edges join the same pair of handles. */
  predicate NoDuplicateConnections(edges: seq<Edge>)
  {
    forall i, j :: 0 <= i < j < |edges| ==>
      !(edges[i].source == edges[j].source && edges[i].target == edges[j].target
        && edges[i].sourceHandle == edges[j].sourceHandle && edges[i].targetHandle == edges[j].targetHandle)
  }

  /** Connecting keeps the existing edges in place, adds at most one anchor
      edge for the connection, adds one exactly when both ends are named and
      the same handles are not yet joined, and never creates a duplicate. */
  lemma AddAnchorEdgeSpec(edges: seq<Edge>, c: Connection)
    ensures var r := AddAnchorEdge(edges, c);
            && r[..|edges|] == edges
            && (|r| == |edges| + 1 <==> c.source != "" && c.target != "" && !Connected(edges, c))
            && (|r| == |edges| || |r| == |edges| + 1)
            && (|r| == |edges| + 1 ==> r[|edges|] == Edge(EdgeId(c), c.source, c.sourceHandle, c.target, c.targetHandle, Some("anchor")))
            && (c.source != "" && c.target != "" ==> Connected(r, c))
            && (NoDuplicateConnections(edges) ==> NoDuplicateConnections(r))
  {
    var r := AddAnchorEdge(edges, c);
    if c.source != "" && c.target != "" && !Connected(edges, c) {
      assert SameConnection(r[|edges|], c);
    }
  }

  /** Joining the same two nodes through a different handle is a new
      connection: a satellite linked to a spine node at one target handle can
      be linked again at the other. */
  lemma OtherHandleConnectsAgain(edges: seq<Edge>, c: Connection, otherTargetHandle: string)
    requires c.source != "" && c.target != "" && otherTargetHandle != c.targetHandle
    requires !Connected(edges, c.(targetHandle := otherTargetHandle))
    ensures var once := AddAnchorEdge(edges, c);
            |AddAnchorEdge(once, c.(targetHandle := otherTargetHandle))| == |once| + 1
  {
  }

  // ---------------------------------------------------------------------
  // Debounced saving (`saveGraph`)

  /** What a save writes: the project and its graph as they were when the save was asked for. */
  datatype Snapshot = Snapshot(projectId: string, nodes: seq<CanvasNode>, edges: seq<Edge>)

  /** The save pending after a `saveGraph` call: none is scheduled without a
      project; otherwise the earlier timer is cleared and the current graph is
      the one that will be written. */
  function RequestSave(pending: Option<Snapshot>, project: Option<string>, nodes: seq<CanvasNode>, edges: seq<Edge>)
    : Option<Snapshot>
  {
    if project.None? || project.value == "" then pending else Some(Snapshot(project.value, nodes, edges))
  }

  /** Debouncing: of two save requests in a row for the same project, only
      the later graph is written; without a project, nothing is scheduled. */
  lemma RequestSaveSpec(pending: Option<Snapshot>, project: Option<string>,
                        n1: seq<CanvasNode>, e1: seq<Edge>, n2: seq<CanvasNode>, e2: seq<Edge>)
    ensures RequestSave(RequestSave(pending, project, n1, e1), project, n2, e2) == RequestSave(pending, project, n2, e2)
    ensures project.None? || project.value == "" ==> RequestSave(pending, project, n2, e2) == pending
    ensures project.Some? && project.value != "" ==> RequestSave(pending, project, n2, e2) == Some(Snapshot(project.value, n2, e2))
  {
  }

  // ---------------------------------------------------------------------
  // The store

  class CanvasStore {
    var nodes: seq<CanvasNode>
    var edges: seq<Edge>
    var activeParentId: Option<string>
    var isIsolated: bool
    var currentProjectId: Option<string>
    /** The snapshot the debounce timer will write when it fires, if one is pending. */
    var pendingSave: Option<Snapshot>
    /** The project whose stored graph was last asked for (`loadGraph`). */
    var pendingLoad: Option<string>

    /** Spine nodes are on the spine, and the store is isolated exactly when it has an active parent. */
    predicate Valid()
      reads this
    {
      SpinesPinned(nodes) && (isIsolated <==> activeParentId.Some?)
    }

    constructor()
      ensures Valid()
      ensures nodes == [] && edges == [] && activeParentId == None && !isIsolated && currentProjectId == None
      ensures pendingSave == None && pendingLoad == None
    {
      nodes, edges := [], [];
      activeParentId, isIsolated := None, false;
      currentProjectId := None;
      pendingSave, pendingLoad := None, None;
    }

    /** `setProjectId`: switching project clears the canvas and isolation and
        asks for the new project's graph; the same project changes nothing. A
        save already pending for the old project is not cancelled. */
    method SetProjectId(id: string)
      requires Valid()
      modifies this
      ensures Valid()
      ensures old(currentProjectId) == Some(id) ==> unchanged(this)
      ensures old(currentProjectId) != Some(id) ==>
                && currentProjectId == Some(id) && nodes == [] && edges == []
                && !isIsolated && activeParentId == None
                && pendingLoad == Some(id) && pendingSave == old(pendingSave)
    {
      if currentProjectId != Some(id) {
        currentProjectId, nodes, edges := Some(id), [], [];
        isIsolated, activeParentId := false, None;
        pendingLoad := Some(id);
      }
    }

    /** `saveGraph`: (re)schedules the write of the current graph, or does nothing without a project. */
    method SaveGraph()
      modifies this`pendingSave
      ensures pendingSave == RequestSave(old(pendingSave), currentProjectId, nodes, edges)
    {
      if currentProjectId.Some? && currentProjectId.value != "" {
        pendingSave := Some(Snapshot(currentProjectId.value, nodes, edges));
      }
    }

    /** `onNodesChange`: takes the nodes the library's `applyNodeChanges`
        produced, pins the spine nodes, and asks for a save. */
    method OnNodesChange(applied: seq<CanvasNode>)
      requires Valid()
      modifies this
      ensures Valid()
      ensures nodes == PinSpines(applied)
      ensures pendingSave == RequestSave(old(pendingSave), currentProjectId, nodes, edges)
      ensures edges == old(edges) && activeParentId == old(activeParentId) && isIsolated == old(isIsolated)
      ensures currentProjectId == old(currentProjectId) && pendingLoad == old(pendingLoad)
    {
      PinSpinesSpec(applied);
      nodes := PinSpines(applied);
      SaveGraph();
    }

    /** `onEdgesChange`: takes the edges the library's `applyEdgeChanges` produced and asks for a save. */
    method OnEdgesChange(applied: seq<Edge>)
      requires Valid()
      modifies this
      ensures Valid()
      ensures edges == applied
      ensures pendingSave == RequestSave(old(pendingSave), currentProjectId, nodes, edges)
      ensures nodes == old(nodes) && activeParentId == old(activeParentId) && isIsolated == old(isIsolated)
      ensures currentProjectId == old(currentProjectId) && pendingLoad == old(pendingLoad)
    {
      edges := applied;
      SaveGraph();
    }

    /** `onConnect`: adds an anchor edge for the connection and asks for a save. */
    method OnConnect(connection: Connection)
      requires Valid()
      modifies this
      ensures Valid()
      ensures edges == AddAnchorEdge(old(edges), connection)
      ensures pendingSave == RequestSave(old(pendingSave), currentProjectId, nodes, edges)
      ensures nodes == old(nodes) && activeParentId == old(activeParentId) && isIsolated == old(isIsolated)
      ensures currentProjectId == old(currentProjectId) && pendingLoad == old(pendingLoad)
    {
      edges := AddAnchorEdge(edges, connection);
      SaveGraph();
    }

    /** `enterIsolation`: the canvas now shows the given scene's contents. */
    method EnterIsolation(sceneId: string)
      requires Valid()
      modifies this`activeParentId, this`isIsolated
      ensures Valid()
      ensures activeParentId == Some(sceneId) && isIsolated
    {
      activeParentId, isIsolated := Some(sceneId), true;
    }

    /** `exitIsolation`: back to the whole canvas. */
    method ExitIsolation()
      requires Valid()
      modifies this`activeParentId, this`isIsolated
      ensures Valid()
      ensures activeParentId == None && !isIsolated
    {
      activeParentId, isIsolated := None, false;
    }

    /** `addNodeAtPosition`: appends the new node and asks for a save. */
    method AddNodeAtPosition(nodeType: NodeType, position: Position, assetData: NodeData, newId: string)
      requires Valid()
      modifies this
      ensures Valid()
      ensures nodes == old(nodes) + [NewNode(nodeType, position, assetData, newId, activeParentId)]
      ensures pendingSave == RequestSave(old(pendingSave), currentProjectId, nodes, edges)
      ensures edges == old(edges) && activeParentId == old(activeParentId) && isIsolated == old(isIsolated)
      ensures currentProjectId == old(currentProjectId) && pendingLoad == old(pendingLoad)
    {
      NewNodeSpec(nodeType, position, assetData, newId, activeParentId);
      nodes := nodes + [NewNode(nodeType, position, assetData, newId, activeParentId)];
      SaveGraph();
    }
  }
}
