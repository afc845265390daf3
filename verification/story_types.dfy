/** The entities the canvas, the compiler and the ingest screen share:
    canvas nodes and edges (as the graph library stores them), the media
    asset record, and the loosely typed values a node's data payload holds. */
module StoryTypes {
  import opened Wrappers

  /** A JavaScript value as it can sit in a node's `data` object. NaN and
      `undefined` are not modelled: an absent key stands for `undefined`. */
  datatype JsValue =
    | JNum(num: real)
    | JStr(str: string)
    | JBool(flag: bool)
    | JNull
    | JList(items: seq<JsValue>)
    | JObject(fields: map<string, JsValue>)

  /** JavaScript truthiness, which `a || b` tests: 0, '', false and null are falsy. */
  predicate Truthy(v: JsValue)
  {
    match v
    case JNum(n) => n != 0.0
    case JStr(s) => s != ""
    case JBool(b) => b
    case JNull => false
    case JList(_) => true
    case JObject(_) => true
  }

  /** The payload of a canvas node: a map from property name to value. */
  type NodeData = map<string, JsValue>

  /** The node kinds of the story graph (`StoryNodeType`). */
  datatype NodeType = ActNode | SceneNode | SpineNode | SatelliteNode | SpringNode

  datatype Position = Position(x: real, y: real)

  datatype CanvasNode = CanvasNode(
    id: string,
    nodeType: NodeType,
    position: Position,
    parentId: Option<string>,
    data: NodeData)

  /** `if (node.parentId)`: an absent or empty parent id means no parent. */
  predicate HasParent(n: CanvasNode)
  {
    n.parentId.Some? && n.parentId.value != ""
  }

  /** An edge of the canvas. A handle is the named connection point on a node
      that the edge is attached to; "" stands for none (the library treats a
      missing, null and empty handle alike). */
  datatype Edge = Edge(
    id: string,
    source: string,
    sourceHandle: string,
    target: string,
    targetHandle: string,
    edgeType: Option<string>)

  datatype MediaKind = Video | Audio

  /** One timed word of a transcript (`TranscriptWord`). */
  datatype TranscriptWord = TranscriptWord(
    id: string,
    word: string,
    start: real,
    end: real,
    speaker: Option<string>,
    startTC: Option<string>)

  /** One physical media file of a project (`MediaAsset`); `scene`, `take`
      and `transcript` are filled in later by metadata and subtitle import,
      which are not part of this model. */
  datatype MediaAsset = MediaAsset(
    fileName: string,
    projectId: string,
    clipDirectory: string,
    startTC: string,
    endTC: string,
    duration: string,
    fps: real,
    resolution: string,
    filePath: string,
    mediaType: MediaKind,
    scene: Option<string>,
    take: Option<string>,
    transcript: Option<seq<TranscriptWord>>)
}
