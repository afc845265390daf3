/** The canvas-to-timeline compiler: playable nodes (spine and satellite)
    become clips ordered by absolute X, act and scene nodes become markers,
    and both are written out as Final Cut Pro 7 XML Interchange
    (`<xmeml version="5">`). */
module Sequencer {
  import opened Wrappers
  import opened StoryTypes
  import opened ParentWalk
  import opened TimelineSort
  import opened Interchange
  import Seqs

  /** Canvas pixels per second of timeline. */
  const PixelsPerSecond: real := 100.0

  /** `Math.round`: the nearest integer, halves rounded up. */
  function Round(v: real): (r: int)
    ensures v - 0.5 < r as real <= v + 0.5
  {
    (v + 0.5).Floor
  }

  lemma RoundMonotone(a: real, b: real)
    requires a <= b
    ensures Round(a) <= Round(b)
  {
  }

  /** The frame at which something at canvas X `x` lands, for a timeline whose origin is at `offset`. */
  function FrameAt(x: real, offset: real, fps: int): int
  {
    Round((x - offset) / PixelsPerSecond * fps as real)
  }

  /** Further right on the canvas is no earlier on the timeline. */
  lemma FrameAtMonotone(x: real, y: real, offset: real, fps: int)
    requires x <= y && fps >= 0
    ensures FrameAt(x, offset, fps) <= FrameAt(y, offset, fps)
  {
    var a, b := (x - offset) / PixelsPerSecond, (y - offset) / PixelsPerSecond;
    assert a * fps as real <= b * fps as real by {
      assert (b - a) * fps as real >= 0.0;
      assert (b - a) * fps as real == b * fps as real - a * fps as real;
    }
    RoundMonotone(a * fps as real, b * fps as real);
  }

  predicate IsPlayable(n: CanvasNode) { n.nodeType == SpineNode || n.nodeType == SatelliteNode }

  predicate IsStructural(n: CanvasNode) { n.nodeType == ActNode || n.nodeType == SceneNode }

  function Playable(nodes: seq<CanvasNode>): seq<CanvasNode> { Seqs.Filter(nodes, IsPlayable) }

  function Structural(nodes: seq<CanvasNode>): seq<CanvasNode> { Seqs.Filter(nodes, IsStructural) }

  /** `(data[key] as number) || default`, for a value that is a number or falsy. */
  function NumberOr(data: NodeData, key: string, default: real): real
  {
    if key in data && data[key].JNum? && data[key].num != 0.0 then data[key].num else default
  }

  /** `(data.label as string) || default`, for a value that is a string or falsy. */
  function LabelOr(data: NodeData, default: string): string
  {
    if "label" in data && data["label"].JStr? && data["label"].str != "" then data["label"].str else default
  }

  /** The `as number` cast holds: a truthy value under `key` is a number. */
  predicate NumberField(data: NodeData, key: string)
  {
    key in data && Truthy(data[key]) ==> data[key].JNum?
  }

  predicate LabelField(data: NodeData)
  {
    "label" in data && Truthy(data["label"]) ==> data["label"].JStr?
  }

  /** What compilation relies on: the parent walk of every playable and
      structural node terminates (the source recurses forever otherwise), and
      their data fields have the types the source casts them to. */
  predicate Compilable(nodes: seq<CanvasNode>)
  {
    forall i :: 0 <= i < |nodes| && (IsPlayable(nodes[i]) || IsStructural(nodes[i])) ==>
      && Resolves(nodes[i].id, nodes)
      && LabelField(nodes[i].data)
      && (IsPlayable(nodes[i]) ==>
            NumberField(nodes[i].data, "duration") && NumberField(nodes[i].data, "startTime") && NumberField(nodes[i].data, "endTime"))
  }

  predicate HasPlayable(nodes: seq<CanvasNode>)
  {
    Playable(nodes) != []
  }

  /** The absolute X the compiler computes for `n`. Compilation requires
      every walk it starts to terminate, so the fallback 0 is never taken there. */
  function NodeX(n: CanvasNode, nodes: seq<CanvasNode>): real
  {
    GetAbsoluteX(n.id, nodes).GetOr(0.0)
  }

  /** Pairs a node with its absolute X. */
  function PlaceIn(nodes: seq<CanvasNode>): CanvasNode -> Placed
  {
    (n: CanvasNode) => Placed(n, NodeX(n, nodes))
  }

  /** The playable nodes, left to right by absolute X. */
  function Ordered(nodes: seq<CanvasNode>): (r: seq<Placed>)
    ensures |r| == |Playable(nodes)|
  {
    SortByX(Seqs.Map(Playable(nodes), PlaceIn(nodes)))
  }

  function PlacedNode(p: Placed): CanvasNode { p.node }

  /** The absolute X of the leftmost playable node: the timeline's origin. */
  function StartOffset(nodes: seq<CanvasNode>): real
    requires HasPlayable(nodes)
  {
    Ordered(nodes)[0].absoluteX
  }

  function MakeClip(p: Placed, offset: real, fps: int): FlattenedClip
  {
    var startSeconds := (p.absoluteX - offset) / PixelsPerSecond;
    var duration := NumberOr(p.node.data, "duration", 5.0);
    FlattenedClip(
      p.node.id,
      LabelOr(p.node.data, "Untitled Clip"),
      FrameAt(p.absoluteX, offset, fps),
      Round((startSeconds + duration) * fps as real),
      Round(NumberOr(p.node.data, "startTime", 0.0) * fps as real),
      Round(NumberOr(p.node.data, "endTime", duration) * fps as real),
      if p.node.nodeType == SpineNode then 1 else 2)
  }

  function Clips(nodes: seq<CanvasNode>, fps: int): (r: seq<FlattenedClip>)
    requires HasPlayable(nodes)
    ensures |r| == |Ordered(nodes)|
  {
    var offset := StartOffset(nodes);
    Seqs.Map(Ordered(nodes), (p: Placed) => MakeClip(p, offset, fps))
  }

  function MakeMarker(n: CanvasNode, absoluteX: real, offset: real, fps: int): TimelineMarker
  {
    TimelineMarker(
      LabelOr(n.data, "Marker"),
      FrameAt(absoluteX, offset, fps),
      if n.nodeType == ActNode then 2400 else 240,
      if n.nodeType == ActNode then "blue" else "green")
  }

  function Markers(nodes: seq<CanvasNode>, fps: int): (r: seq<TimelineMarker>)
    requires HasPlayable(nodes)
    ensures |r| == |Structural(nodes)|
  {
    var offset := StartOffset(nodes);
    Seqs.Map(Structural(nodes), (n: CanvasNode) => MakeMarker(n, NodeX(n, nodes), offset, fps))
  }


  /** `flattenCanvasToTimeline`: `None` (the source's `null`) exactly when
      there is no spine or satellite node; otherwise the document built from
      the clips and markers. The edges are not used. */
  method FlattenCanvasToTimeline(nodes: seq<CanvasNode>, edges: seq<Edge>, fps: int, timestamp: string)
    returns (xml: Option<string>)
    requires HasPlayable(nodes) ==> Compilable(nodes)
    ensures xml.None? <==> !HasPlayable(nodes)
    ensures xml.Some? ==> HasPlayable(nodes) && xml.value == Xmeml(Clips(nodes, fps), Markers(nodes, fps), fps, timestamp)
  {
    var playable := Playable(nodes);
    if |playable| == 0 {
      return None;
    }
    assert playable[0] in nodes && IsPlayable(playable[0]);
    var doc := GenerateXmeml(Clips(nodes, fps), Markers(nodes, fps), fps, timestamp);
    xml := Some(doc);
  }

  // ---------------------------------------------------------------------
  // Properties of the compiled timeline

  /** The flattening has something to compile exactly when some node on the
      canvas is a spine or satellite node. */
  lemma HasPlayableIff(nodes: seq<CanvasNode>)
    ensures HasPlayable(nodes) <==> exists i :: 0 <= i < |nodes| && IsPlayable(nodes[i])
  {
    if HasPlayable(nodes) {
      assert Playable(nodes)[0] in nodes;
    }
  }

  /** Under `Compilable`, the X used for a playable or structural node is the
      one `getAbsoluteX` returns. */
  lemma CompiledX(nodes: seq<CanvasNode>, k: int)
    requires Compilable(nodes)
    requires 0 <= k < |nodes| && (IsPlayable(nodes[k]) || IsStructural(nodes[k]))
    ensures Resolves(nodes[k].id, nodes) && NodeX(nodes[k], nodes) == AbsoluteX(nodes[k].id, nodes)
    ensures LabelField(nodes[k].data)
  {
  }

  lemma {:induction false} PlaceAllNodes(ps: seq<CanvasNode>, nodes: seq<CanvasNode>)
    ensures Seqs.Map(Seqs.Map(ps, PlaceIn(nodes)), PlacedNode) == ps
  {
    var m := Seqs.Map(Seqs.Map(ps, PlaceIn(nodes)), PlacedNode);
    assert |m| == |ps|;
    forall i | 0 <= i < |ps| ensures m[i] == ps[i] { }
  }

  /** Every placed node is a playable node of the canvas, paired with its X. */
  lemma OrderedFrom(nodes: seq<CanvasNode>, i: int)
    requires 0 <= i < |Ordered(nodes)|
    ensures var p := Ordered(nodes)[i];
            p.node in nodes && IsPlayable(p.node) && p.absoluteX == NodeX(p.node, nodes)
  {
    var placed := Seqs.Map(Playable(nodes), PlaceIn(nodes));
    var o := Ordered(nodes);
    assert o[i] in multiset(placed);
    var k :| 0 <= k < |placed| && placed[k] == o[i];
    assert Playable(nodes)[k] in nodes;
  }

  /** One clip per playable node: the clips are made, in order, from a
      rearrangement of exactly the spine and satellite nodes, each clip
      keeping its node's id. */
  lemma ClipsFromPlayableNodes(nodes: seq<CanvasNode>, fps: int)
    requires HasPlayable(nodes)
    ensures |Clips(nodes, fps)| == |Playable(nodes)|
    ensures multiset(Seqs.Map(Ordered(nodes), PlacedNode)) == multiset(Playable(nodes))
    ensures forall i :: 0 <= i < |Clips(nodes, fps)| ==> Clips(nodes, fps)[i].id == Ordered(nodes)[i].node.id
  {
    var placed := Seqs.Map(Playable(nodes), PlaceIn(nodes));
    Seqs.MapPermutation(Ordered(nodes), placed, PlacedNode);
    PlaceAllNodes(Playable(nodes), nodes);
  }

  /** Clips come left to right: a clip's absolute X and timeline start are
      no smaller than those of every clip before it. */
  lemma ClipsInTimelineOrder(nodes: seq<CanvasNode>, fps: int, i: int, j: int)
    requires HasPlayable(nodes)
    requires fps >= 0
    requires 0 <= i < j < |Clips(nodes, fps)|
    ensures Ordered(nodes)[i].absoluteX <= Ordered(nodes)[j].absoluteX
    ensures Clips(nodes, fps)[i].timelineStart <= Clips(nodes, fps)[j].timelineStart
  {
    FrameAtMonotone(Ordered(nodes)[i].absoluteX, Ordered(nodes)[j].absoluteX, StartOffset(nodes), fps);
  }

  /** The leftmost playable node starts the timeline at frame 0, wherever it
      sits on the canvas, and no clip starts before it. */
  lemma TimelineStartsAtZero(nodes: seq<CanvasNode>, fps: int)
    requires HasPlayable(nodes)
    requires fps >= 0
    ensures Clips(nodes, fps)[0].timelineStart == 0
    ensures forall i :: 0 <= i < |Clips(nodes, fps)| ==> Clips(nodes, fps)[i].timelineStart >= 0
  {
    var clips := Clips(nodes, fps);
    forall i | 0 < i < |clips| ensures clips[i].timelineStart >= 0 {
      ClipsInTimelineOrder(nodes, fps, 0, i);
    }
  }

  /** What a clip is made of: the id, the frame formulas and the track
      chosen by node kind alone (overlapping clips are passed through
      unchanged). */
  lemma ClipFields(p: Placed, offset: real, fps: int)
    ensures MakeClip(p, offset, fps).id == p.node.id
    ensures MakeClip(p, offset, fps).timelineStart == Round((p.absoluteX - offset) / PixelsPerSecond * fps as real)
    ensures MakeClip(p, offset, fps).timelineEnd ==
              Round(((p.absoluteX - offset) / PixelsPerSecond + NumberOr(p.node.data, "duration", 5.0)) * fps as real)
    ensures MakeClip(p, offset, fps).track == 1 <==> p.node.nodeType == SpineNode
    ensures MakeClip(p, offset, fps).track == 2 <==> p.node.nodeType != SpineNode
  {
  }

  /** A clip's name: a truthy label, else "Untitled Clip" (an absent, empty
      or otherwise falsy label). */
  lemma ClipName(p: Placed, offset: real, fps: int)
    requires LabelField(p.node.data)
    ensures !("label" in p.node.data && Truthy(p.node.data["label"])) ==> MakeClip(p, offset, fps).name == "Untitled Clip"
    ensures "label" in p.node.data && Truthy(p.node.data["label"]) ==> MakeClip(p, offset, fps).name == p.node.data["label"].str
  {
  }

  /** The duration and source range of a clip: a missing or falsy duration
      (0 included) is 5 seconds and the duration is never 0; the source in
      and out points are the start and end times in frames, defaulting to 0
      and to the duration. */
  lemma ClipSourceRange(p: Placed, offset: real, fps: int)
    ensures NumberOr(p.node.data, "duration", 5.0) != 0.0
    ensures "duration" !in p.node.data ==> NumberOr(p.node.data, "duration", 5.0) == 5.0
    ensures "duration" in p.node.data && !Truthy(p.node.data["duration"]) ==> NumberOr(p.node.data, "duration", 5.0) == 5.0
    ensures MakeClip(p, offset, fps).sourceIn == Round(NumberOr(p.node.data, "startTime", 0.0) * fps as real)
    ensures MakeClip(p, offset, fps).sourceOut ==
              Round(NumberOr(p.node.data, "endTime", NumberOr(p.node.data, "duration", 5.0)) * fps as real)
    ensures "startTime" in p.node.data && p.node.data["startTime"].JNum? ==>
              MakeClip(p, offset, fps).sourceIn == Round(p.node.data["startTime"].num * fps as real)
    ensures "endTime" in p.node.data && p.node.data["endTime"].JNum? && p.node.data["endTime"].num != 0.0 ==>
              MakeClip(p, offset, fps).sourceOut == Round(p.node.data["endTime"].num * fps as real)
    ensures "startTime" !in p.node.data ==> MakeClip(p, offset, fps).sourceIn == 0
    ensures "endTime" !in p.node.data ==>
              MakeClip(p, offset, fps).sourceOut == Round(NumberOr(p.node.data, "duration", 5.0) * fps as real)
  {
  }

  /** The i-th clip is made from the i-th node in X order, a playable node of
      the canvas placed at its `getAbsoluteX`, relative to the leftmost one. */
  lemma ClipSource(nodes: seq<CanvasNode>, fps: int, i: int)
    requires Compilable(nodes) && HasPlayable(nodes)
    requires 0 <= i < |Clips(nodes, fps)|
    ensures var p := Ordered(nodes)[i];
            && p.node in nodes && IsPlayable(p.node)
            && Resolves(p.node.id, nodes) && p.absoluteX == AbsoluteX(p.node.id, nodes)
            && LabelField(p.node.data)
            && Clips(nodes, fps)[i] == MakeClip(p, Ordered(nodes)[0].absoluteX, fps)
  {
    OrderedFrom(nodes, i);
    var n := Ordered(nodes)[i].node;
    var k :| 0 <= k < |nodes| && nodes[k] == n;
    CompiledX(nodes, k);
  }

  /** Adding a non-negative duration never moves a frame earlier. */
  lemma LaterByDuration(seconds: real, duration: real, fps: int)
    requires duration >= 0.0 && fps >= 0
    ensures Round(seconds * fps as real) <= Round((seconds + duration) * fps as real)
  {
    assert seconds * fps as real <= (seconds + duration) * fps as real by {
      assert (seconds + duration) * fps as real == seconds * fps as real + duration * fps as real;
      assert duration * fps as real >= 0.0;
    }
    RoundMonotone(seconds * fps as real, (seconds + duration) * fps as real);
  }

  /** A clip made with a non-negative duration and frame rate ends no earlier than it starts. */
  lemma ClipSpan(p: Placed, offset: real, fps: int)
    requires fps >= 0 && NumberOr(p.node.data, "duration", 5.0) >= 0.0
    ensures MakeClip(p, offset, fps).timelineEnd >= MakeClip(p, offset, fps).timelineStart
  {
    LaterByDuration((p.absoluteX - offset) / PixelsPerSecond, NumberOr(p.node.data, "duration", 5.0), fps);
  }

  /** A clip never ends before it starts when its duration and the frame rate are not negative. */
  lemma ClipEndNotBeforeStart(nodes: seq<CanvasNode>, fps: int, i: int)
    requires HasPlayable(nodes)
    requires fps >= 0
    requires 0 <= i < |Clips(nodes, fps)|
    requires NumberOr(Ordered(nodes)[i].node.data, "duration", 5.0) >= 0.0
    ensures Clips(nodes, fps)[i].timelineEnd >= Clips(nodes, fps)[i].timelineStart
  {
    ClipSpan(Ordered(nodes)[i], StartOffset(nodes), fps);
  }

  /** What a marker is made of: its start is shifted by the same origin as
      the clips (and is not clamped at 0), its length and colour depend on
      the kind, and its name defaults to 'Marker'. */
  lemma MarkerFields(n: CanvasNode, absoluteX: real, offset: real, fps: int)
    requires LabelField(n.data)
    ensures MakeMarker(n, absoluteX, offset, fps).start == Round((absoluteX - offset) / PixelsPerSecond * fps as real)
    ensures MakeMarker(n, absoluteX, offset, fps).duration == (if n.nodeType == ActNode then 2400 else 240)
    ensures MakeMarker(n, absoluteX, offset, fps).color == (if n.nodeType == ActNode then "blue" else "green")
    ensures !("label" in n.data && Truthy(n.data["label"])) ==> MakeMarker(n, absoluteX, offset, fps).name == "Marker"
    ensures "label" in n.data && Truthy(n.data["label"]) ==> MakeMarker(n, absoluteX, offset, fps).name == n.data["label"].str
  {
  }

  /** One marker per act or scene node, in list order, each placed at its
      node's `getAbsoluteX` relative to the leftmost playable node. */
  lemma MarkerSource(nodes: seq<CanvasNode>, fps: int, i: int)
    requires Compilable(nodes) && HasPlayable(nodes)
    requires 0 <= i < |Structural(nodes)|
    ensures |Markers(nodes, fps)| == |Structural(nodes)|
    ensures var n := Structural(nodes)[i];
            && n in nodes && IsStructural(n) && Resolves(n.id, nodes) && LabelField(n.data)
            && Markers(nodes, fps)[i] == MakeMarker(n, AbsoluteX(n.id, nodes), Ordered(nodes)[0].absoluteX, fps)
  {
    var n := Structural(nodes)[i];
    assert n in nodes;
    var k :| 0 <= k < |nodes| && nodes[k] == n;
    CompiledX(nodes, k);
  }

  /** An act at x = 0 and a spine node at x = 100, neither with a parent or data. */
  function ActThenSpine(actId: string, spineId: string): seq<CanvasNode>
  {
    [CanvasNode(actId, ActNode, Position(0.0, 0.0), None, map[]),
     CanvasNode(spineId, SpineNode, Position(100.0, 200.0), None, map[])]
  }

  lemma {:induction false} ActThenSpinePlaced(actId: string, spineId: string)
    requires actId != spineId
    ensures var nodes := ActThenSpine(actId, spineId);
            && Compilable(nodes) && HasPlayable(nodes)
            && Structural(nodes) == [nodes[0]]
            && Ordered(nodes) == [Placed(nodes[1], 100.0)]
            && NodeX(nodes[0], nodes) == 0.0
  {
    var nodes := ActThenSpine(actId, spineId);
    var act, spine := nodes[0], nodes[1];
    assert FindIndex(nodes, actId) == Some(0);
    assert FindIndex(nodes[1..], spineId) == Some(0);
    assert FindIndex(nodes, spineId) == Some(1);
    assert GetAbsoluteX(actId, nodes) == Some(0.0);
    assert GetAbsoluteX(spineId, nodes) == Some(100.0);
    assert nodes[1..] == [spine] && nodes[1..][1..] == [];
    assert Seqs.Filter(nodes[1..], IsPlayable) == [spine];
    assert Playable(nodes) == [spine];
    assert Seqs.Filter(nodes[1..], IsStructural) == [];
  }

  /** An act to the left of every playable node gets a negative marker start:
      an act at x = 0 and a spine node at x = 100 give a marker at frame -24
      at 24 fps, while the spine clip starts at frame 0. */
  lemma {:induction false} MarkerBeforeFirstClip(actId: string, spineId: string)
    requires actId != spineId
    ensures Compilable(ActThenSpine(actId, spineId)) && HasPlayable(ActThenSpine(actId, spineId))
    ensures Markers(ActThenSpine(actId, spineId), 24) == [TimelineMarker("Marker", -24, 2400, "blue")]
    ensures Clips(ActThenSpine(actId, spineId), 24) == [FlattenedClip(spineId, "Untitled Clip", 0, 120, 0, 120, 1)]
  {
    var nodes := ActThenSpine(actId, spineId);
    ActThenSpinePlaced(actId, spineId);
    assert StartOffset(nodes) == 100.0;
    assert FrameAt(0.0, 100.0, 24) == -24;
    assert MakeMarker(nodes[0], 0.0, 100.0, 24) == TimelineMarker("Marker", -24, 2400, "blue");
    assert Markers(nodes, 24)[0] == MakeMarker(nodes[0], 0.0, 100.0, 24);
    assert FrameAt(100.0, 100.0, 24) == 0;
    assert Round((0.0 + 5.0) * 24 as real) == 120;
    assert MakeClip(Placed(nodes[1], 100.0), 100.0, 24) == FlattenedClip(spineId, "Untitled Clip", 0, 120, 0, 120, 1);
    assert Clips(nodes, 24)[0] == MakeClip(Placed(nodes[1], 100.0), 100.0, 24);
  }
}
