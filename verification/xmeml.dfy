/** Final Cut Pro 7 XML Interchange output (`generateXMEML`): the clip and
    marker records the compiler produces and the document text built from
    them. Numbers are written as JavaScript prints integers; names and ids
    are inserted without XML escaping, as in the source. */
module Interchange {
  import Text
  import Seqs

  datatype FlattenedClip = FlattenedClip(
    id: string,
    name: string,
    timelineStart: int,
    timelineEnd: int,
    sourceIn: int,
    sourceOut: int,
    track: int)

  datatype TimelineMarker = TimelineMarker(name: string, start: int, duration: int, color: string)

  function Header(timestamp: string, fps: int): string
  {
    "<?xml version=\"1.0\" encoding=\"UTF-8\"?>\n<xmeml version=\"5\">\n  <sequence>\n    <name>Story Graph - "
    + timestamp + "</name>\n    <rate><timebase>" + Text.IntToString(fps)
    + "</timebase></rate>\n    <media>\n      <video>\n        <track>"
  }

  /** One `clipitem`; the name goes in unescaped. */
  function ClipItem(c: FlattenedClip, fps: int): string
  {
    "\n          <clipitem id=\"" + c.id + "\">\n            <name>" + c.name
    + "</name>\n            <start>" + Text.IntToString(c.timelineStart)
    + "</start>\n            <end>" + Text.IntToString(c.timelineEnd)
    + "</end>\n            <in>" + Text.IntToString(c.sourceIn)
    + "</in>\n            <out>" + Text.IntToString(c.sourceOut)
    + "</out>\n            <rate><timebase>" + Text.IntToString(fps)
    + "</timebase></rate>\n          </clipitem>"
  }

  const Middle: string := "\n        </track>\n      </video>\n    </media>\n    <markerlist>"

  /** One `marker`; its `out` is its start plus its nominal length. */
  function MarkerItem(m: TimelineMarker): string
  {
    "\n      <marker>\n        <name>" + m.name + "</name>\n        <in>" + Text.IntToString(m.start)
    + "</in>\n        <out>" + Text.IntToString(m.start + m.duration)
    + "</out>\n        <comment>Imported from Story Graph</comment>\n      </marker>"
  }

  const Footer: string := "\n    </markerlist>\n  </sequence>\n</xmeml>"

  function ClipWriter(fps: int): FlattenedClip -> string
  {
    (c: FlattenedClip) => ClipItem(c, fps)
  }

  /** The `clipitem`s of the track, one per clip. */
  function ClipItems(clips: seq<FlattenedClip>, fps: int): string
  {
    Seqs.ConcatMap(clips, ClipWriter(fps))
  }

  /** The `marker`s of the marker list, one per marker. */
  function MarkerItems(markers: seq<TimelineMarker>): string
  {
    Seqs.ConcatMap(markers, MarkerItem)
  }

  /** The track lists the clips in the order given: each clip's item sits
      between the items of the clips before it and those after it. */
  lemma ClipItemsSplit(clips: seq<FlattenedClip>, i: nat, fps: int)
    requires i < |clips|
    ensures ClipItems(clips, fps) == ClipItems(clips[..i], fps) + ClipItem(clips[i], fps) + ClipItems(clips[i + 1..], fps)
  {
    Seqs.ConcatMapSplit(clips, i, ClipWriter(fps));
  }

  /** The marker list keeps the markers in the order given. */
  lemma MarkerItemsSplit(markers: seq<TimelineMarker>, j: nat)
    requires j < |markers|
    ensures MarkerItems(markers) == MarkerItems(markers[..j]) + MarkerItem(markers[j]) + MarkerItems(markers[j + 1..])
  {
    Seqs.ConcatMapSplit(markers, j, MarkerItem);
  }

  /** The document `generateXMEML` builds. */
  function Xmeml(clips: seq<FlattenedClip>, markers: seq<TimelineMarker>, fps: int, timestamp: string): string
  {
    Header(timestamp, fps) + ClipItems(clips, fps) + Middle + MarkerItems(markers) + Footer
  }

  /** The first `forEach` of `generateXMEML`: appends one `clipitem` per clip, in order. */
  method AppendClipItems(start: string, clips: seq<FlattenedClip>, fps: int) returns (xml: string)
    ensures xml == start + ClipItems(clips, fps)
  {
    xml := start;
    var i := 0;
    while i < |clips|
      invariant 0 <= i <= |clips|
      invariant xml == start + ClipItems(clips[..i], fps)
    {
      Seqs.ConcatMapStep(clips, i, ClipWriter(fps));
      Text.AppendAssociative(start, ClipItems(clips[..i], fps), ClipItem(clips[i], fps));
      xml := xml + ClipItem(clips[i], fps);
      i := i + 1;
    }
    assert clips[..|clips|] == clips;
  }

  /** The second `forEach` of `generateXMEML`: appends one `marker` per marker, in order. */
  method AppendMarkerItems(start: string, markers: seq<TimelineMarker>) returns (xml: string)
    ensures xml == start + MarkerItems(markers)
  {
    xml := start;
    var j := 0;
    while j < |markers|
      invariant 0 <= j <= |markers|
      invariant xml == start + MarkerItems(markers[..j])
    {
      Seqs.ConcatMapStep(markers, j, MarkerItem);
      Text.AppendAssociative(start, MarkerItems(markers[..j]), MarkerItem(markers[j]));
      xml := xml + MarkerItem(markers[j]);
      j := j + 1;
    }
    assert markers[..|markers|] == markers;
  }

  /** `generateXMEML`: the header, then the clip items, the section between,
      the marker items and the closing tags, appended to one growing string.
      The timestamp is passed in. */
  method GenerateXmeml(clips: seq<FlattenedClip>, markers: seq<TimelineMarker>, fps: int, timestamp: string)
    returns (xml: string)
    ensures xml == Xmeml(clips, markers, fps, timestamp)
  {
    xml := Header(timestamp, fps);
    xml := AppendClipItems(xml, clips, fps);
    xml := xml + Middle;
    xml := AppendMarkerItems(xml, markers);
    xml := xml + Footer;
  }
}
