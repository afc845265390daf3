/** The canvas page (`CanvasInner`): what the canvas shows while a scene is
    isolated, how a media asset dropped onto the canvas becomes a node, and
    the toolbar's "+ ACT" and "+ SCENE" buttons. Screen-to-canvas coordinate
    conversion is the graph library's: the drop handler receives its result. */
module CanvasView {
  import opened Wrappers
  import opened StoryTypes
  import opened Store
  import Sequencer
  import ParentWalk
  import Seqs

  // ---------------------------------------------------------------------
  // Isolation filtering

  /** A node shown while `parent` is isolated: its children and itself. */
  function InScope(parent: string): CanvasNode -> bool
  {
    (n: CanvasNode) => n.parentId == Some(parent) || n.id == parent
  }

  /** `displayNodes`: every node unless a non-empty parent is isolated. */
  function DisplayNodes(nodes: seq<CanvasNode>, isIsolated: bool, activeParentId: Option<string>): seq<CanvasNode>
  {
    if !isIsolated || activeParentId.None? || activeParentId.value == "" then nodes
    else Seqs.Filter(nodes, InScope(activeParentId.value))
  }

  /** The ids of a list of nodes. */
  function Ids(nodes: seq<CanvasNode>): (r: set<string>)
    ensures forall i :: 0 <= i < |nodes| ==> nodes[i].id in r
    ensures forall id :: id in r ==> exists i :: 0 <= i < |nodes| && nodes[i].id == id
  {
    if nodes == [] then {} else {nodes[0].id} + Ids(nodes[1..])
  }

  /** An edge shown while isolated: both of its ends are shown. */
  function BothEndsIn(ids: set<string>): Edge -> bool
  {
    (e: Edge) => e.source in ids && e.target in ids
  }

  /** `displayEdges`: every edge unless isolated, else the edges between shown nodes. */
  function DisplayEdges(edges: seq<Edge>, displayNodes: seq<CanvasNode>, isIsolated: bool): seq<Edge>
  {
    if !isIsolated then edges else Seqs.Filter(edges, BothEndsIn(Ids(displayNodes)))
  }

  /** While a scene is isolated, the canvas shows, in their order, exactly the
      scene itself and the nodes whose parent it is; otherwise it shows every node. */
  lemma DisplayNodesSpec(nodes: seq<CanvasNode>, isIsolated: bool, activeParentId: Option<string>)
    ensures Seqs.IsSubsequence(DisplayNodes(nodes, isIsolated, activeParentId), nodes)
    ensures !isIsolated || activeParentId.None? || activeParentId.value == "" ==>
              DisplayNodes(nodes, isIsolated, activeParentId) == nodes
    ensures isIsolated && activeParentId.Some? && activeParentId.value != "" ==>
              var p := activeParentId.value; var shown := DisplayNodes(nodes, isIsolated, activeParentId);
              && (forall i :: 0 <= i < |shown| ==> shown[i].parentId == Some(p) || shown[i].id == p)
              && (forall i :: 0 <= i < |nodes| && (nodes[i].parentId == Some(p) || nodes[i].id == p) ==> nodes[i] in shown)
  {
    if isIsolated && activeParentId.Some? && activeParentId.value != "" {
      var p := activeParentId.value;
      Seqs.FilterIsSubsequence(nodes, InScope(p));
      var shown := DisplayNodes(nodes, isIsolated, activeParentId);
      forall i | 0 <= i < |shown| ensures shown[i].parentId == Some(p) || shown[i].id == p {
        assert InScope(p)(shown[i]);
      }
      forall i | 0 <= i < |nodes| && (nodes[i].parentId == Some(p) || nodes[i].id == p) ensures nodes[i] in shown {
        assert InScope(p)(nodes[i]);
      }
    } else {
      Seqs.SubsequenceReflexive(nodes);
    }
  }

  /** While isolated, an edge is shown exactly when both of its ends are
      shown, in the original order; otherwise every edge is shown. */
  lemma DisplayEdgesSpec(edges: seq<Edge>, displayNodes: seq<CanvasNode>, isIsolated: bool)
    ensures Seqs.IsSubsequence(DisplayEdges(edges, displayNodes, isIsolated), edges)
    ensures !isIsolated ==> DisplayEdges(edges, displayNodes, isIsolated) == edges
    ensures isIsolated ==>
              var shown := DisplayEdges(edges, displayNodes, isIsolated); var ids := Ids(displayNodes);
              && (forall i :: 0 <= i < |shown| ==> shown[i].source in ids && shown[i].target in ids)
              && (forall i :: 0 <= i < |edges| && edges[i].source in ids && edges[i].target in ids ==> edges[i] in shown)
  {
    if isIsolated {
      var ids := Ids(displayNodes);
      Seqs.FilterIsSubsequence(edges, BothEndsIn(ids));
      var shown := DisplayEdges(edges, displayNodes, isIsolated);
      forall i | 0 <= i < |shown| ensures shown[i].source in ids && shown[i].target in ids {
        assert BothEndsIn(ids)(shown[i]);
      }
      forall i | 0 <= i < |edges| && edges[i].source in ids && edges[i].target in ids ensures edges[i] in shown {
        assert BothEndsIn(ids)(edges[i]);
      }
    } else {
      Seqs.SubsequenceReflexive(edges);
    }
  }

  // ---------------------------------------------------------------------
  // Dropping an asset (`onDrop`)

  /** `media.find(m => m.fileName === name)`: the first asset with that file name. */
  function FindAsset(media: seq<MediaAsset>, fileName: string): (r: Option<MediaAsset>)
    ensures r.Some? ==> r.value.fileName == fileName && exists i :: 0 <= i < |media| && media[i] == r.value
    ensures r.Some? ==> exists i :: 0 <= i < |media| && media[i] == r.value &&
                          forall j :: 0 <= j < i ==> media[j].fileName != fileName
    ensures r.None? <==> forall i :: 0 <= i < |media| ==> media[i].fileName != fileName
  {
    if media == [] then None
    else if media[0].fileName == fileName then Some(media[0])
    else
      var rest := FindAsset(media[1..], fileName);
      assert rest.Some? ==> exists i :: 0 <= i < |media| && media[i] == rest.value &&
                              forall j :: 0 <= j < i ==> media[j].fileName != fileName
        by {
        if rest.Some? {
          var i :| 0 <= i < |media[1..]| && media[1..][i] == rest.value &&
                   forall j :: 0 <= j < i ==> media[1..][j].fileName != fileName;
          assert media[i + 1] == rest.value;
          forall j | 0 <= j < i + 1 ensures media[j].fileName != fileName {
            if j > 0 { assert media[j] == media[1..][j - 1]; }
          }
        }
      }
      rest
  }

  function MediaTypeName(kind: MediaKind): string
  {
    match kind
    case Video => "video"
    case Audio => "audio"
  }

  /** A transcript word as the object it is stored as; absent optional fields are left out. */
  function WordValue(w: TranscriptWord): JsValue
  {
    var fields := map["id" := JStr(w.id), "word" := JStr(w.word), "start" := JNum(w.start), "end" := JNum(w.end)];
    var withSpeaker := if w.speaker.Some? then fields["speaker" := JStr(w.speaker.value)] else fields;
    JObject(if w.startTC.Some? then withSpeaker["startTC" := JStr(w.startTC.value)] else withSpeaker)
  }

  /** A transcript as the array of word objects it is stored as. */
  function TranscriptValue(words: seq<TranscriptWord>): JsValue
  {
    JList(Seqs.Map(words, WordValue))
  }

  /** The asset record's fields that every asset has. */
  function RecordFields(asset: MediaAsset): (r: NodeData)
    ensures "fileName" in r && "duration" in r && "mediaType" in r
    ensures "name" !in r && "label" !in r && "endTime" !in r && "startTime" !in r && "id" !in r && "transcript" !in r
    ensures r["fileName"] == JStr(asset.fileName) && r["mediaType"] == JStr(MediaTypeName(asset.mediaType)) && r["duration"] == JStr(asset.duration)
  {
    map[
      "fileName" := JStr(asset.fileName),
      "projectId" := JStr(asset.projectId),
      "clipDirectory" := JStr(asset.clipDirectory),
      "startTC" := JStr(asset.startTC),
      "endTC" := JStr(asset.endTC),
      "duration" := JStr(asset.duration),
      "fps" := JNum(asset.fps),
      "resolution" := JStr(asset.resolution),
      "filePath" := JStr(asset.filePath),
      "mediaType" := JStr(MediaTypeName(asset.mediaType))]
  }

  /** The asset record as the node data it is spread into. */
  function AssetData(asset: MediaAsset): (r: NodeData)
    ensures "name" !in r && "label" !in r && "endTime" !in r && "startTime" !in r && "id" !in r
    ensures "transcript" in r <==> asset.transcript.Some?
    ensures asset.transcript.Some? ==> r["transcript"] == TranscriptValue(asset.transcript.value)
    ensures "fileName" in r && "duration" in r && "mediaType" in r
    ensures r["fileName"] == JStr(asset.fileName) && r["mediaType"] == JStr(MediaTypeName(asset.mediaType)) && r["duration"] == JStr(asset.duration)
  {
    var fields := RecordFields(asset);
    var withScene := if asset.scene.Some? then fields["scene" := JStr(asset.scene.value)] else fields;
    var withTake := if asset.take.Some? then withScene["take" := JStr(asset.take.value)] else withScene;
    if asset.transcript.Some? then withTake["transcript" := TranscriptValue(asset.transcript.value)] else withTake
  }

  /** Audio lands on the spine; everything else becomes a satellite. */
  function DropKind(asset: MediaAsset): NodeType
  {
    if asset.mediaType == Audio then SpineNode else SatelliteNode
  }

  /** The node is placed up and to the left of the drop point, so that the
      cursor sits inside it. */
  function DropPosition(flow: Position): Position
  {
    Position(flow.x - 100.0, flow.y - 50.0)
  }

  /** What a dropped asset becomes: a spine node exactly for audio, at the
      drop point moved 100 left (and 50 up, unless it is pinned to the
      spine), labelled with the file name, carrying the asset's fields (its
      transcript too, when it has one), with the parsed duration as its end
      time. */
  lemma DroppedNode(asset: MediaAsset, flow: Position, newId: string, activeParentId: Option<string>)
    ensures var n := NewNode(DropKind(asset), DropPosition(flow), AssetData(asset), newId, activeParentId);
            && (n.nodeType == SpineNode <==> asset.mediaType == Audio)
            && (n.nodeType == SatelliteNode <==> asset.mediaType == Video)
            && n.position.x == flow.x - 100.0
            && n.position.y == (if asset.mediaType == Audio then SpineY else flow.y - 50.0)
            && n.data["label"] == JStr(asset.fileName)
            && n.data["fileName"] == JStr(asset.fileName)
            && n.data["duration"] == JStr(asset.duration)
            && n.data["startTime"] == JNum(0.0)
            && n.data["endTime"] == JNum(ParseNumberOr(AssetData(asset), "duration", 5.0))
            && n.data["transcript"] == (if asset.transcript.Some? then TranscriptValue(asset.transcript.value) else JList([]))
  {
    var data := AssetData(asset);
    NewNodeSpec(DropKind(asset), DropPosition(flow), data, newId, activeParentId);
    assert LabelFrom(data) == Some(JStr(asset.fileName));
  }

  /** As written, a dropped asset's text duration survives the spread, so
      no canvas holding a dropped node with a duration meets what the
      timeline compiler casts its fields to. */
  lemma DroppedNodeNotCompilable(nodes: seq<CanvasNode>, asset: MediaAsset, flow: Position, newId: string,
                                 activeParentId: Option<string>)
    requires asset.duration != ""
    requires NewNode(DropKind(asset), DropPosition(flow), AssetData(asset), newId, activeParentId) in nodes
    ensures !Sequencer.Compilable(nodes)
  {
    var n := NewNode(DropKind(asset), DropPosition(flow), AssetData(asset), newId, activeParentId);
    var i :| 0 <= i < |nodes| && nodes[i] == n;
    DroppedNode(asset, flow, newId, activeParentId);
    assert nodes[i] == n && Sequencer.IsPlayable(n);
    assert !Sequencer.NumberField(n.data, "duration");
  }

  /** With the parsed fields written last, a dropped asset on its own is a
      canvas the timeline compiler accepts, and it yields one clip. */
  lemma DroppedNumericNodeCompiles(asset: MediaAsset, flow: Position, newId: string, fps: int)
    ensures var n := NumericNewNode(DropKind(asset), DropPosition(flow), AssetData(asset), newId, None);
            Sequencer.Compilable([n]) && Sequencer.HasPlayable([n]) && |Sequencer.Clips([n], fps)| == 1
  {
    var n := NumericNewNode(DropKind(asset), DropPosition(flow), AssetData(asset), newId, None);
    DroppedNode(asset, flow, newId, None);
    NumericNewNodeSpec(DropKind(asset), DropPosition(flow), AssetData(asset), newId, None);
    assert n.data["label"] == JStr(asset.fileName);
    assert !HasParent(n);
    assert ParentWalk.FindIndex([n], n.id) == Some(0);
    assert ParentWalk.Resolves(n.id, [n]);
    assert Sequencer.Playable([n]) == [n];
  }

  /** `onDrop`: finds the dragged asset by file name and adds its node at the
      drop point; an unknown name adds nothing. `flow` is the drop point in
      canvas coordinates and `newId` the new node's id. */
  method OnDrop(store: CanvasStore, media: seq<MediaAsset>, draggedName: string, flow: Position, newId: string)
    requires store.Valid()
    modifies store
    ensures store.Valid()
    ensures FindAsset(media, draggedName).None? ==> unchanged(store)
    ensures FindAsset(media, draggedName).Some? ==>
              var asset := FindAsset(media, draggedName).value;
              && store.nodes == old(store.nodes) + [NewNode(DropKind(asset), DropPosition(flow), AssetData(asset), newId, old(store.activeParentId))]
              && store.pendingSave == RequestSave(old(store.pendingSave), store.currentProjectId, store.nodes, store.edges)
              && store.edges == old(store.edges) && store.activeParentId == old(store.activeParentId)
              && store.isIsolated == old(store.isIsolated) && store.currentProjectId == old(store.currentProjectId)
              && store.pendingLoad == old(store.pendingLoad)
  {
    var found := FindAsset(media, draggedName);
    if found.None? {
      return;
    }
    var asset := found.value;
    store.AddNodeAtPosition(DropKind(asset), DropPosition(flow), AssetData(asset), newId);
  }

  // ---------------------------------------------------------------------
  // Toolbar

  const NewActData: NodeData := map["name" := JStr("New Act")]
  const NewSceneData: NodeData := map["name" := JStr("New Scene")]

  /** "+ ACT": a new act at the canvas origin. */
  method AddAct(store: CanvasStore, newId: string)
    requires store.Valid()
    modifies store
    ensures store.Valid()
    ensures store.nodes == old(store.nodes) + [NewNode(ActNode, Position(0.0, 0.0), NewActData, newId, old(store.activeParentId))]
    ensures store.pendingSave == RequestSave(old(store.pendingSave), store.currentProjectId, store.nodes, store.edges)
    ensures store.edges == old(store.edges) && store.activeParentId == old(store.activeParentId)
    ensures store.isIsolated == old(store.isIsolated) && store.currentProjectId == old(store.currentProjectId)
    ensures store.pendingLoad == old(store.pendingLoad)
  {
    store.AddNodeAtPosition(ActNode, Position(0.0, 0.0), NewActData, newId);
  }

  /** "+ SCENE": a new scene at (50, 50). */
  method AddScene(store: CanvasStore, newId: string)
    requires store.Valid()
    modifies store
    ensures store.Valid()
    ensures store.nodes == old(store.nodes) + [NewNode(SceneNode, Position(50.0, 50.0), NewSceneData, newId, old(store.activeParentId))]
    ensures store.pendingSave == RequestSave(old(store.pendingSave), store.currentProjectId, store.nodes, store.edges)
    ensures store.edges == old(store.edges) && store.activeParentId == old(store.activeParentId)
    ensures store.isIsolated == old(store.isIsolated) && store.currentProjectId == old(store.currentProjectId)
    ensures store.pendingLoad == old(store.pendingLoad)
  {
    store.AddNodeAtPosition(SceneNode, Position(50.0, 50.0), NewSceneData, newId);
  }

  /** The toolbar's nodes: an act or scene labelled 'New Act' / 'New Scene',
      lasting the default 5 seconds from 0, with an empty transcript, a
      child of the isolated scene when there is one. */
  lemma ToolbarNodes(newId: string, activeParentId: Option<string>)
    ensures var act := NewNode(ActNode, Position(0.0, 0.0), NewActData, newId, activeParentId);
            && act.position == Position(0.0, 0.0)
            && act.data["label"] == JStr("New Act") && act.data["name"] == JStr("New Act")
            && act.data["duration"] == JNum(5.0) && act.data["startTime"] == JNum(0.0) && act.data["endTime"] == JNum(5.0)
            && act.data["transcript"] == JList([])
            && (activeParentId.Some? && activeParentId.value != "" ==> act.parentId == activeParentId)
    ensures var scene := NewNode(SceneNode, Position(50.0, 50.0), NewSceneData, newId, activeParentId);
            && scene.position == Position(50.0, 50.0)
            && scene.data["label"] == JStr("New Scene")
            && scene.data["duration"] == JNum(5.0) && scene.data["endTime"] == JNum(5.0)
  {
    NewNodeSpec(ActNode, Position(0.0, 0.0), NewActData, newId, activeParentId);
    NewNodeSpec(SceneNode, Position(50.0, 50.0), NewSceneData, newId, activeParentId);
  }
}
