# Story Graph — a verified model of the canvas, the timeline export and media ingest

Story Graph is a desktop editor in which a film is laid out as a graph on a
canvas. Acts and scenes are structural nodes. Spine nodes (audio, pinned to
one horizontal line) and satellite nodes (video) are the playable clips.
Nodes may be nested under a parent, and their x positions are then relative
to it. This project models four parts of the program in Dafny and proves
what each of them promises:

* **The sequencer** (`utils/Sequencer.ts`). A node's absolute x position is
  its own x plus that of each ancestor (`ParentWalk`). The playable nodes are
  placed by that position with a stable sort (`TimelineSort`) and become
  clips; acts and scenes become markers (`Sequencer`). Both are written out
  as Final Cut Pro XML (`xmeml`) text (`Interchange`). The XML writer is a
  method whose loops append text; it is proved to produce exactly the
  document defined by a function.
* **The graph store** (`store/useStore.ts`), modelled as class
  `Store.CanvasStore`. It holds the nodes and edges, the isolation state,
  the open project and a pending debounced save. Its invariant `Valid()`
  says two things: every spine node sits on y = 200, and isolation is on
  exactly when an active parent is set.
* **The canvas page** (`components/CanvasPage.tsx`), in `CanvasView`: the
  isolation filter over nodes and edges, dropping a media asset onto the
  canvas, and the "+ ACT" / "+ SCENE" toolbar.
* **The ingest dashboard** (`components/IngestDashboard.tsx`), in `Ingest`:
  it classifies files by extension, builds media assets, and maps the host
  bridge's answers to an error message and a registry write. Class
  `Ingest.IngestDashboard` is the component's state.

Supporting modules:

* `Wrappers`: `Option` and `Result`.
* `Seqs`: filter, map, subsequence and concat-map over sequences.
* `Text`: number-to-text with its parse round trip, a `parseFloat` subset,
  ASCII lower-casing and a case-insensitive suffix test.
* `StoryTypes`: nodes, edges, media assets, and a JavaScript value type for
  node data with its truthiness.

Modelling choices that follow the program's JavaScript semantics:

* `x || d` is "`x` if truthy, else `d`". Falsy values are 0, `""`, `false`
  and `null`; a key that is absent is also falsy.
* Node data is a map. The `...assetData` spread is map union in which the
  right-hand side wins.
* `Math.round(v)` is `floor(v + 0.5)`.
* `Array.prototype.sort` is stable.
* A parent walk that would revisit a node, and so recurse forever in the
  source, yields `None`.

Values the program takes from its environment become parameters. These are:

* node ids (`crypto.randomUUID`);
* the export timestamp;
* the drop point in canvas coordinates (`screenToFlowPosition`);
* the node and edge lists after the React Flow change helpers have been
  applied;
* the host bridge's answers.

## Model

| member | source | states |
|---|---|---|
| ParentWalk.FindIndex | utils/Sequencer.ts:24 | `nodes.find` by id: a found index holds the id and is the first such index; `None` means no node has the id |
| ParentWalk.GetAbsoluteX | utils/Sequencer.ts:23-30 | an unknown id gives 0; a node without a parent gives its own x |
| ParentWalk.ChildSum | utils/Sequencer.ts:26-27 | a nested node's absolute x is its own x plus its parent's absolute x, and the parent's walk also ends |
| ParentWalk.VisitedSubset | utils/Sequencer.ts:23-30 | a walk that ends gives the same value when started with fewer nodes already visited |
| ParentWalk.ChainWalk | utils/Sequencer.ts:23-30 | along a parent chain of distinct nodes ending at a root or a missing parent, the walk ends with the sum of the chain's x positions |
| ParentWalk.AncestorSum | utils/Sequencer.ts:23-30 | a node's absolute x is the sum of the x positions of it and all its ancestors, whenever they form a chain of distinct nodes |
| ParentWalk.ChainInRange | utils/Sequencer.ts:24-27 | every index on a parent chain names a node of the list |
| ParentWalk.SelfParentNeverResolves | utils/Sequencer.ts:26-27 | a node that is its own parent never resolves (the source would recurse without end) |
| ParentWalk.NestedExample | utils/Sequencer.ts:23-30 | a satellite at 25 inside a spine node at 50 inside a root scene at 0 is placed at 75; the spine node is placed at 50 |
| TimelineSort.Insert | utils/Sequencer.ts:41 | one insertion step adds exactly the inserted element: same elements plus one, length plus one |
| TimelineSort.InsertBounded | utils/Sequencer.ts:41 | inserting keeps a common lower bound on the absolute x positions |
| TimelineSort.InsertSorted | utils/Sequencer.ts:41 | inserting into a list sorted by absolute x keeps it sorted |
| TimelineSort.SortByX | utils/Sequencer.ts:38-41 | the sorted clips are in ascending absolute x, are a permutation of the input and have its length |
| TimelineSort.InsertKeepsTies | utils/Sequencer.ts:41 | inserting puts the new element before the existing elements at the same x, which keeps the back-to-front insertion sort stable |
| TimelineSort.SortIsStable | utils/Sequencer.ts:41 | elements at equal absolute x keep their input order (the sort is stable) |
| Sequencer.Round | utils/Sequencer.ts:54-57 | `Math.round` lands within half a unit of its argument |
| Sequencer.RoundMonotone | utils/Sequencer.ts:54-57 | `Math.round` is monotone |
| Sequencer.FrameAtMonotone | utils/Sequencer.ts:47-66 | with a non-negative frame rate, a later x never gives an earlier frame |
| Sequencer.HasPlayableIff | utils/Sequencer.ts:33-36 | there is a timeline exactly when some node is a spine or satellite node |
| Sequencer.Ordered | utils/Sequencer.ts:38-41 | there is one placed clip per playable node |
| Sequencer.Clips | utils/Sequencer.ts:46-60 | there is one clip per placed playable node |
| Sequencer.Markers | utils/Sequencer.ts:63-74 | there is one marker per act or scene node |
| Sequencer.StartOffset | utils/Sequencer.ts:43 | the timeline origin, the first placed clip's absolute x; specified by `Sequencer.TimelineStartsAtZero` |
| Sequencer.MakeClip | utils/Sequencer.ts:46-59 | one clip from a placed node; specified by `Sequencer.ClipFields`, `Sequencer.ClipName`, `Sequencer.ClipSourceRange` and `Sequencer.ClipSpan` |
| Sequencer.MakeMarker | utils/Sequencer.ts:63-74 | one marker from an act or scene node; specified by `Sequencer.MarkerFields` |
| Sequencer.Compilable | utils/Sequencer.ts:23-69 | what the compiler's walks and casts rely on; used by `Sequencer.CompiledX`, `Sequencer.ClipSource` and `Sequencer.MarkerSource` |
| Sequencer.CompiledX | utils/Sequencer.ts:38-64 | for a compilable graph, the position used for a playable or structural node is its resolved absolute x |
| Sequencer.PlaceAllNodes | utils/Sequencer.ts:38-40 | placing nodes keeps the nodes themselves, in order |
| Sequencer.OrderedFrom | utils/Sequencer.ts:38-41 | each placed clip is a playable node of the graph, carrying that node's absolute x |
| Sequencer.ClipsFromPlayableNodes | utils/Sequencer.ts:38-46 | the clips are exactly the playable nodes: as many, the same nodes as a multiset, each clip with its node's id |
| Sequencer.ClipsInTimelineOrder | utils/Sequencer.ts:41-54 | clips come in ascending absolute x and so in ascending timeline start |
| Sequencer.TimelineStartsAtZero | utils/Sequencer.ts:43-54 | the left-most clip starts at frame 0 and no clip starts before it |
| Sequencer.ClipFields | utils/Sequencer.ts:46-59 | clip fields: id from the node; start and end frames from the offset x and the duration; track 1 exactly for spine nodes, 2 otherwise |
| Sequencer.ClipName | utils/Sequencer.ts:53 | the clip name is a truthy string label, else "Untitled Clip" (absent, empty or other falsy label) |
| Sequencer.ClipSourceRange | utils/Sequencer.ts:49-57 | duration is 5 when absent or falsy (0 included) and is never 0; source in is the start time times fps (0 when absent or falsy); source out is the end time times fps (the duration when absent or falsy) |
| Sequencer.ClipSource | utils/Sequencer.ts:38-60 | clip i comes from a playable node of the graph whose walk ends, at its absolute x, measured from the first placed clip |
| Sequencer.ClipSpan | utils/Sequencer.ts:47-55 | a clip made with a non-negative duration and frame rate ends no earlier than it starts |
| Sequencer.ClipEndNotBeforeStart | utils/Sequencer.ts:54-55 | with a non-negative duration and frame rate, a clip never ends before it starts |
| Sequencer.MarkerFields | utils/Sequencer.ts:63-74 | marker fields: start frame from the offset x; acts last 2400 frames and are blue; scenes last 240 and are green; the name is a truthy label, else "Marker" (absent, empty or other falsy label) |
| Sequencer.MarkerSource | utils/Sequencer.ts:63-74 | marker i comes from the i-th act or scene node, in canvas order, at its absolute x measured from the first clip |
| Sequencer.ActThenSpinePlaced | utils/Sequencer.ts:32-77 | in a graph of an act at x 0 and a spine clip at x 100, the only placed clip is the spine at 100 |
| Sequencer.MarkerBeforeFirstClip | utils/Sequencer.ts:32-77 | an act left of the first clip gives a marker at a negative frame (-24 at 24 fps); the clip starts at 0 and runs 120 frames |
| Sequencer.FlattenCanvasToTimeline | utils/Sequencer.ts:32-77 | the export is `null` exactly when no node is playable, for every graph without one; otherwise it is the XML document built from the clips and markers |
| Interchange.ClipItemsSplit | utils/Sequencer.ts:90-100 | the clip section is the clips' items in clip order: items before i, item i, items after i |
| Interchange.Header | utils/Sequencer.ts:81-88 | the document head with the sequence name and time base; part of `Interchange.Xmeml` |
| Interchange.ClipItem | utils/Sequencer.ts:91-99 | one `clipitem` element; placed by `Interchange.ClipItemsSplit` |
| Interchange.MarkerItem | utils/Sequencer.ts:109-115 | one `marker` element, its out point the start plus the duration; placed by `Interchange.MarkerItemsSplit` |
| Interchange.Xmeml | utils/Sequencer.ts:79-123 | the whole document; what `Interchange.GenerateXmeml` and `Sequencer.FlattenCanvasToTimeline` are proved to produce |
| Interchange.MarkerItemsSplit | utils/Sequencer.ts:108-116 | the marker section is the markers' items in marker order |
| Interchange.AppendClipItems | utils/Sequencer.ts:90-100 | the `forEach` loop appends exactly the clip section to the text so far |
| Interchange.AppendMarkerItems | utils/Sequencer.ts:108-116 | the `forEach` loop appends exactly the marker section to the text so far |
| Interchange.GenerateXmeml | utils/Sequencer.ts:79-123 | the document is header, clip items, the middle template, marker items and footer, in that order |
| Text.NatToStringDigits | utils/Sequencer.ts:94-97 | a number written into the XML is a non-empty run of decimal digits without a leading zero, whose value is the number |
| Text.IntToStringRoundTrip | utils/Sequencer.ts:94-97 | a frame number written into the XML reads back as the same integer |
| Text.IntToString | utils/Sequencer.ts:94-97 | a frame number as decimal text; specified by `Text.NatToStringDigits` and `Text.IntToStringRoundTrip` |
| Text.ParseFloat | store/useStore.ts:154-166 | `parseFloat` on the modelled subset; specified by `Text.ParseFloatOfDigits` and `Text.ParseFloatOfNat` |
| Text.ParseFloatOfDigits | store/useStore.ts:154 | `parseFloat` of a plain run of digits is the number they spell |
| Text.ParseFloatOfNat | store/useStore.ts:154 | `parseFloat` of a written non-negative integer gives that integer back |
| Text.LowerCaseSuffix | components/IngestDashboard.tsx:26-27 | lower-casing commutes with taking a suffix |
| Text.LowerCaseIdempotent | components/IngestDashboard.tsx:26-27 | lower-casing twice is lower-casing once |
| Store.PinSpinesSpec | store/useStore.ts:109-119 | the spine pin keeps the length, puts every spine node at y = 200 with the same x and data, and leaves other nodes unchanged |
| Store.PinSpinesIdempotent | store/useStore.ts:109-119 | pinning an already pinned list changes nothing; pinning twice is pinning once |
| Store.PinSpines | store/useStore.ts:110-119 | the spine pin over all nodes; specified by `Store.PinSpinesSpec` and `Store.PinSpinesIdempotent` |
| Store.ParseNumberOr | store/useStore.ts:154-166 | `parseFloat(v) \|\| d` is the parsed number when it parses and is non-zero; it is the fallback when it does not parse or is 0 |
| Store.NewNodeSpec | store/useStore.ts:149-170 | new node: the given id and type; spine nodes at y = 200; parent is the active parent when set; every asset key kept as given; defaults for duration (5), start (0), end (the duration), transcript (empty) and label (name, else file name); `assetId` is the asset's `id`; the data has exactly the asset keys plus those defaults |
| Store.IngestedDurationStaysText | store/useStore.ts:154-168 | for an ingested video the spread keeps `duration` as text, while `endTime` holds the parsed number and `label` the file name |
| Store.NumericNewNodeSpec | store/useStore.ts:153-168 | corrected node: the same as the one built as written except that duration, start and end time hold the parsed numbers, the duration non-zero |
| Store.DefaultData | store/useStore.ts:150-167 | the fields filled in before the spread; specified by `Store.NewNodeSpec` |
| Store.NewNode | store/useStore.ts:149-170 | the appended node as written; specified by `Store.NewNodeSpec` |
| Store.NumericNewNode | store/useStore.ts:153-168 | the node with the parsed fields written last; specified by `Store.NumericNewNodeSpec` |
| Store.AddAnchorEdgeSpec | store/useStore.ts:130-137 | connecting keeps the old edges as a prefix and adds one anchor edge, with the library's handle-bearing id, exactly when both ends are named and the same two handles are not yet joined; no two edges join the same handles |
| Store.OtherHandleConnectsAgain | store/useStore.ts:130-137 | joining the same two nodes again through a different target handle adds a second edge |
| Store.AddAnchorEdge | store/useStore.ts:130-137 | the library's `addEdge` for an anchor connection; specified by `Store.AddAnchorEdgeSpec` |
| Store.RequestSaveSpec | store/useStore.ts:79-87 | without a project no save is scheduled; otherwise the pending save is the current graph, and a later request replaces an earlier one |
| Store.RequestSave | store/useStore.ts:79-87 | the pending save after a `saveGraph` call; specified by `Store.RequestSaveSpec` |
| Store.CanvasStore.constructor | store/useStore.ts:58-63 | the store starts empty, not isolated, with no project and nothing pending |
| Store.CanvasStore.SetProjectId | store/useStore.ts:65-77 | the same project changes nothing; a different one clears the graph and isolation and asks for that project's graph to be loaded |
| Store.CanvasStore.SaveGraph | store/useStore.ts:79-87 | changes only the pending save, to the debounced request for the current graph |
| Store.CanvasStore.OnNodesChange | store/useStore.ts:109-123 | the new nodes are the applied change with spines pinned; a save is requested; everything else is kept |
| Store.CanvasStore.OnEdgesChange | store/useStore.ts:125-128 | the edges become the applied change; a save is requested; everything else is kept |
| Store.CanvasStore.OnConnect | store/useStore.ts:130-139 | the edges gain the anchor edge for the connection, handles included; a save is requested; everything else is kept |
| Store.CanvasStore.EnterIsolation | store/useStore.ts:141-143 | isolation is on, with the given scene as active parent |
| Store.CanvasStore.ExitIsolation | store/useStore.ts:145-147 | isolation is off and no parent is active |
| Store.CanvasStore.AddNodeAtPosition | store/useStore.ts:149-174 | exactly the new node is appended, under the active parent; a save is requested; everything else is kept |
| CanvasView.Ids | components/CanvasPage.tsx:50 | the id set holds exactly the ids of the shown nodes |
| CanvasView.DisplayNodes | components/CanvasPage.tsx:43-46 | the nodes shown; specified by `CanvasView.DisplayNodesSpec` |
| CanvasView.DisplayEdges | components/CanvasPage.tsx:48-52 | the edges shown; specified by `CanvasView.DisplayEdgesSpec` |
| CanvasView.DisplayNodesSpec | components/CanvasPage.tsx:43-46 | shown nodes are a subsequence of the nodes: all of them outside isolation; in isolation, exactly the active parent and its direct children |
| CanvasView.DisplayEdgesSpec | components/CanvasPage.tsx:48-52 | shown edges are a subsequence of the edges: all of them outside isolation; in isolation, exactly those with both ends shown |
| CanvasView.FindAsset | components/CanvasPage.tsx:62 | the first asset with the dragged file name; `None` exactly when no asset has it |
| CanvasView.AssetData | components/CanvasPage.tsx:73 | the asset passed as node data carries its file name, duration text and media type; it carries a transcript exactly when the asset has one, as its array of word objects; it has no name, label, times or id |
| CanvasView.DroppedNode | components/CanvasPage.tsx:59-75 | a dropped audio asset becomes a spine node at y = 200, a video a satellite node; it is placed 100 left and 50 above the drop point and labelled with its file name; its transcript is the asset's when it has one, else empty |
| CanvasView.DroppedNodeNotCompilable | components/CanvasPage.tsx:70-74 | as written, no canvas holding a dropped node whose asset has a duration, wherever in the node list it sits, is one the timeline compiler's casts hold for |
| CanvasView.DroppedNumericNodeCompiles | components/CanvasPage.tsx:70-74 | with the corrected node, a dropped asset alone on the canvas compiles, has a playable node and gives exactly one clip |
| CanvasView.OnDrop | components/CanvasPage.tsx:59-75 | an unknown file name changes nothing; otherwise the store gains exactly the dropped asset's node |
| CanvasView.AddAct | components/CanvasPage.tsx:106 | the store gains a "New Act" act node at (0, 0) |
| CanvasView.AddScene | components/CanvasPage.tsx:112 | the store gains a "New Scene" scene node at (50, 50) |
| CanvasView.ToolbarNodes | components/CanvasPage.tsx:106-112 | the toolbar's nodes are labelled "New Act" and "New Scene", with the default 5-second duration |
| Ingest.ExtensionsDisjoint | components/IngestDashboard.tsx:26-27 | no file is both a video and an audio file |
| Ingest.CaseIgnored | components/IngestDashboard.tsx:26-27 | the extension tests ignore letter case |
| Ingest.OtherExtensionsIgnored | components/IngestDashboard.tsx:26-27 | `.aiff` and `.mp4.txt` files are neither video nor audio (the extension must end the name) |
| Ingest.IsVideoFile | components/IngestDashboard.tsx:26 | the video extension test; specified by `Ingest.ExtensionsDisjoint`, `Ingest.CaseIgnored` and `Ingest.OtherExtensionsIgnored` |
| Ingest.IsAudioFile | components/IngestDashboard.tsx:27 | the audio extension test; specified by the same three lemmas |
| Ingest.NewAssets | components/IngestDashboard.tsx:29-54 | the batch of new assets; specified by `Ingest.NewAssetsFields`, `Ingest.NewAssetsOrder`, `Ingest.NewAssetsCover` and `Ingest.NoAssetsIff` |
| Ingest.NewAssetsFields | components/IngestDashboard.tsx:29-54 | every new asset comes from a listed video or audio file, with the project, directory, file path and the fixed video or audio defaults |
| Ingest.NewAssetsOrder | components/IngestDashboard.tsx:29-54 | one asset per video file plus one per audio file; no video asset follows an audio asset; the video assets' files are the listing's video files in listing order, and the audio assets' files are its audio files in listing order |
| Ingest.NewAssetsCover | components/IngestDashboard.tsx:26-54 | every listed video or audio file yields an asset |
| Ingest.NoAssetsIff | components/IngestDashboard.tsx:26-56 | there are no new assets exactly when no listed file is video or audio |
| Ingest.IngestEarlyExits | components/IngestDashboard.tsx:12-63 | no bridge gives the bridge error; a cancelled pick ends with no error; a throwing picker or listing shows its message or "Ingest process failed."; a shown error is never empty |
| Ingest.IngestRegisters | components/IngestDashboard.tsx:56-63 | assets reach the registry exactly when the listing has a video or audio file; the batch is non-empty; an error shows exactly when the write threw; otherwise "No compatible media files found in selection." |
| Ingest.IngestOutcome | components/IngestDashboard.tsx:12-67 | the error shown and the batch registered; specified by `Ingest.IngestEarlyExits` and `Ingest.IngestRegisters` |
| Ingest.IngestDashboard.constructor | components/IngestDashboard.tsx:9-10 | the dashboard starts idle, with no error and nothing registered |
| Ingest.IngestDashboard.HandleManualIngest | components/IngestDashboard.tsx:12-67 | processing is off at the end, whichever branch ran; the error is the outcome's; the batch, if any, is registered once |

## Left out

- IndexedDB persistence (`openDB`, `persistToIDB`, `loadGraph`): the store only records which project's graph was requested (`pendingLoad`) and which snapshot a save would write (`pendingSave`). Reading and writing the database are I/O.
- The debounce timer: `pendingSave` is the snapshot the one-second timer would write. The timer firing is a clock event.
- `applyNodeChanges` / `applyEdgeChanges` belong to the React Flow library. `OnNodesChange` and `OnEdgesChange` take their results as inputs.
- `addEdge` belongs to the React Flow library. It is stood in for by `AddAnchorEdge`: the edge id is both ends each followed by its handle, and a connection is refused when an edge already joins the same ends through the same handles (a missing handle counts as the empty one).
- Store.CanvasStore.OnConnect: the edge's stroke style is not modelled.
- `crypto.randomUUID`, `new Date().toISOString()` and `screenToFlowPosition` become parameters.
- The registry (`hooks/useRegistry.ts`), the host bridge (`main.ts`, `preload.js`) and the node, edge, table and page components are not part of this model. Their answers are parameters.
- Sequencer.FlattenCanvasToTimeline: requires a `Compilable` graph when some node is playable; a graph without a playable node is accepted as it is and gives `null`. In a compilable graph every playable or structural node's parent walk ends, its label is a string when truthy, and a playable node's duration, start time and end time are numbers. For a graph with a playable node that breaks this, the source either recurses forever, or casts a non-number field or a non-string label, which JavaScript then coerces (a label `7` is written as `<name>7</name>`, a text duration is concatenated, a `true` start time counts as 1); that coercion is not modelled. This excludes every canvas holding a node dropped from the media registry: every asset's duration is text, the spread keeps it on the node, and so the timeline as the program builds it from such a canvas is not described by this model (`CanvasView.DroppedNodeNotCompilable`; see Findings). The program makes playable nodes only by dropping a registry asset; the toolbar adds acts and scenes, which are never playable (components/CanvasPage.tsx:106,112), and a canvas of those gives `null`. So no canvas the program builds with a playable node is compilable; only canvases holding nodes made the corrected way are (`CanvasView.DroppedNumericNodeCompiles`).
- Sequencer.NodeX: outside `Compilable` graphs it falls back to 0 where the walk does not end. The source does not terminate there.
- Frame rates are integers. The only caller passes the default 24. Writing non-integer numbers as text is not modelled.
- `NaN` and `undefined`: a key holding `undefined` is modelled as an absent key. `parseFloat` is modelled on optional sign, digits and optional fraction. It does not model leading whitespace, exponents or `Infinity`. A list value parses as no number.
- Number-to-text for numbers of 10^21 and beyond, which JavaScript writes in exponent form, is not modelled.
- Text escaping in the XML: the source inserts labels unescaped, and the model does the same.
- Ingest.IngestDashboard.HandleManualIngest: the intermediate `isProcessing = true` state seen while awaiting is not modelled, and neither are two ingests running at once. Only the state after the handler finishes is stated.
- The `edges` argument of `flattenCanvasToTimeline` is unused by the source and so by the model.
- Transcript words are carried into node data as they are; subtitle import, which fills them in, and timecode parsing are not part of this model, nor is the media table's display.

## Findings

| source | as written | input that shows it | evidently intended | confidence | as-written member | corrected member |
|---|---|---|---|---|---|---|
| store/useStore.ts:154-168 | `...assetData` is spread after the parsed `duration`, `startTime` and `endTime`, so an asset's text duration replaces the parsed number, although components/IngestDashboard.tsx:36 says the store makes it numeric | a video asset with duration `'10'` dropped onto the canvas: the node's `duration` stays `'10'`, and utils/Sequencer.ts:55 then computes `timelineStartSec + '10'` as text | the parsed numbers win over the asset's fields, so a dropped node's duration, start and end time are numbers | high (not executed) | Store.IngestedDurationStaysText, CanvasView.DroppedNodeNotCompilable | Store.NumericNewNodeSpec, CanvasView.DroppedNumericNodeCompiles |

The store's methods keep the node as the program builds it (`Store.NewNode`), so that they describe the program; the corrected node (`Store.NumericNewNode`) is stated beside it with what it gains.
