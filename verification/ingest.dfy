/** Manual media ingest (`IngestDashboard`'s `handleManualIngest`): the user
    picks a directory through the desktop host's bridge, the files in it with
    a video or audio extension become media assets with placeholder metadata,
    and those are written to the media registry. The bridge and the registry
    are outside this model: what they return (or the error they throw) is
    passed in, and the registry writes asked for are recorded. */
module Ingest {
  import opened Wrappers
  import opened StoryTypes
  import Text
  import Seqs

  // ---------------------------------------------------------------------
  // Extension filters

  /** `/\.(mp4|mov|mxf)$/i` */
  predicate IsVideoFile(f: string)
  {
    Text.EndsWithIgnoreCase(f, ".mp4") || Text.EndsWithIgnoreCase(f, ".mov") || Text.EndsWithIgnoreCase(f, ".mxf")
  }

  /** `/\.(wav|mp3|aif)$/i` */
  predicate IsAudioFile(f: string)
  {
    Text.EndsWithIgnoreCase(f, ".wav") || Text.EndsWithIgnoreCase(f, ".mp3") || Text.EndsWithIgnoreCase(f, ".aif")
  }

  /** No file is both video and audio, so no file becomes two assets. */
  lemma ExtensionsDisjoint(f: string)
    ensures !(IsVideoFile(f) && IsAudioFile(f))
  {
  }

  /** The extension is matched whatever the case of its letters: a name is
      a video (audio) file exactly when its lower-case form is. */
  lemma CaseIgnored(f: string)
    ensures IsVideoFile(f) == IsVideoFile(Text.LowerCase(f))
    ensures IsAudioFile(f) == IsAudioFile(Text.LowerCase(f))
  {
    forall k | 0 <= k <= |f| ensures Text.LowerCase(Text.LowerCase(f)[k..]) == Text.LowerCase(f[k..]) {
      Text.LowerCaseSuffix(f, k);
      Text.LowerCaseIdempotent(f[k..]);
    }
  }

  /** Only the last extension counts, and it must be exactly one of the six:
      '.aiff' and '.mp4.txt' are neither video nor audio. */
  lemma {:induction false} OtherExtensionsIgnored(base: string)
    ensures !IsVideoFile(base + ".aiff") && !IsAudioFile(base + ".aiff")
    ensures !IsVideoFile(base + ".mp4.txt") && !IsAudioFile(base + ".mp4.txt")
  {
    var a, t := base + ".aiff", base + ".mp4.txt";
    assert a[|a| - 4..] == "aiff" by { assert a[|a| - 4..] == ".aiff"[1..]; }
    assert t[|t| - 4..] == ".txt" by { assert t[|t| - 4..] == ".mp4.txt"[4..]; }
    assert Text.LowerCase("aiff")[0] == 'a';
    assert Text.LowerCase(".txt")[1] == 't';
  }

  // ---------------------------------------------------------------------
  // Assets with placeholder metadata

  /** A video file as registered: a 10-second UHD clip at 23.976 fps starting at 00:00:00:00. */
  function VideoAsset(dir: string, projectId: string): string -> MediaAsset
  {
    (f: string) => MediaAsset(f, projectId, dir, "00:00:00:00", "00:00:10:00", "10", 23.976, "3840x2160",
                              dir + "/" + f, Video, None, None, None)
  }

  /** An audio file as registered: a 60-second recording at 48000 samples per second. */
  function AudioAsset(dir: string, projectId: string): string -> MediaAsset
  {
    (f: string) => MediaAsset(f, projectId, dir, "00:00:00:00", "00:01:00:00", "60", 48000.0, "Audio",
                              dir + "/" + f, Audio, None, None, None)
  }

  /** `newAssets`: the video files' assets, then the audio files' assets, each in listing order. */
  function NewAssets(files: seq<string>, dir: string, projectId: string): seq<MediaAsset>
  {
    Seqs.Map(Seqs.Filter(files, IsVideoFile), VideoAsset(dir, projectId))
    + Seqs.Map(Seqs.Filter(files, IsAudioFile), AudioAsset(dir, projectId))
  }

  /** The assets of a listing: one per video or audio file and no others,
      each pointing at its file in the chosen directory and carrying the
      placeholder metadata of its kind. */
  lemma NewAssetsFields(files: seq<string>, dir: string, projectId: string, i: int)
    requires 0 <= i < |NewAssets(files, dir, projectId)|
    ensures var a := NewAssets(files, dir, projectId)[i];
            && a.fileName in files
            && a.projectId == projectId && a.clipDirectory == dir
            && a.filePath == dir + "/" + a.fileName
            && a.scene.None? && a.take.None? && a.transcript.None?
            && (a.mediaType == Video <==> IsVideoFile(a.fileName))
            && (a.mediaType == Audio <==> IsAudioFile(a.fileName))
            && (a.mediaType == Video ==>
                  a.startTC == "00:00:00:00" && a.endTC == "00:00:10:00" && a.duration == "10"
                  && a.fps == 23.976 && a.resolution == "3840x2160")
            && (a.mediaType == Audio ==>
                  a.startTC == "00:00:00:00" && a.endTC == "00:01:00:00" && a.duration == "60"
                  && a.fps == 48000.0 && a.resolution == "Audio")
  {
    var videos, audios := Seqs.Filter(files, IsVideoFile), Seqs.Filter(files, IsAudioFile);
    var r := NewAssets(files, dir, projectId);
    if i < |videos| {
      assert r[i] == VideoAsset(dir, projectId)(videos[i]);
      ExtensionsDisjoint(videos[i]);
    } else {
      assert r[i] == AudioAsset(dir, projectId)(audios[i - |videos|]);
      ExtensionsDisjoint(audios[i - |videos|]);
    }
  }

  function FileNameOf(a: MediaAsset): string { a.fileName }

  /** Video assets come first, then audio; the video assets' files are the
      listing's video files in listing order, and likewise for audio. */
  lemma NewAssetsOrder(files: seq<string>, dir: string, projectId: string)
    ensures var r := NewAssets(files, dir, projectId);
            var nv := |Seqs.Filter(files, IsVideoFile)|;
            && |r| == nv + |Seqs.Filter(files, IsAudioFile)|
            && (forall i, j :: 0 <= i < j < |r| && r[i].mediaType == Audio ==> r[j].mediaType == Audio)
            && Seqs.Map(r[..nv], FileNameOf) == Seqs.Filter(files, IsVideoFile)
            && Seqs.Map(r[nv..], FileNameOf) == Seqs.Filter(files, IsAudioFile)
  {
    var videos, audios := Seqs.Filter(files, IsVideoFile), Seqs.Filter(files, IsAudioFile);
    var nv := |videos|;
    var r := NewAssets(files, dir, projectId);
    forall i | 0 <= i < |r| ensures r[i].mediaType == Audio <==> i >= nv {
    }
    var vn, an := Seqs.Map(r[..nv], FileNameOf), Seqs.Map(r[nv..], FileNameOf);
    forall i | 0 <= i < nv ensures vn[i] == videos[i] {
      assert r[..nv][i] == VideoAsset(dir, projectId)(videos[i]);
    }
    forall i | 0 <= i < |audios| ensures an[i] == audios[i] {
      assert r[nv..][i] == AudioAsset(dir, projectId)(audios[i]);
    }
  }

  /** There is an asset for every video or audio file of the listing. */
  lemma NewAssetsCover(files: seq<string>, dir: string, projectId: string, k: int)
    requires 0 <= k < |files| && (IsVideoFile(files[k]) || IsAudioFile(files[k]))
    ensures exists i :: 0 <= i < |NewAssets(files, dir, projectId)| && NewAssets(files, dir, projectId)[i].fileName == files[k]
  {
    var videos, audios := Seqs.Filter(files, IsVideoFile), Seqs.Filter(files, IsAudioFile);
    var r := NewAssets(files, dir, projectId);
    if IsVideoFile(files[k]) {
      var v :| 0 <= v < |videos| && videos[v] == files[k];
      assert r[v].fileName == files[k];
    } else {
      var a :| 0 <= a < |audios| && audios[a] == files[k];
      assert r[|videos| + a].fileName == files[k];
    }
  }

  /** Nothing is registered exactly when the listing has no video or audio file. */
  lemma NoAssetsIff(files: seq<string>, dir: string, projectId: string)
    ensures NewAssets(files, dir, projectId) == [] <==>
              forall k :: 0 <= k < |files| ==> !IsVideoFile(files[k]) && !IsAudioFile(files[k])
  {
    if NewAssets(files, dir, projectId) != [] {
      NewAssetsFields(files, dir, projectId, 0);
      var r := NewAssets(files, dir, projectId);
      var k :| 0 <= k < |files| && files[k] == r[0].fileName;
    } else {
      forall k | 0 <= k < |files| ensures !IsVideoFile(files[k]) && !IsAudioFile(files[k]) {
        if IsVideoFile(files[k]) || IsAudioFile(files[k]) {
          NewAssetsCover(files, dir, projectId, k);
        }
      }
    }
  }

  // ---------------------------------------------------------------------
  // The ingest handler

  const BridgeMissing: string := "Electron bridge not detected. Please run in the Story Graph host."
  const NoCompatibleMedia: string := "No compatible media files found in selection."
  const IngestFailed: string := "Ingest process failed."

  /** `err.message || "Ingest process failed."` */
  function FailureMessage(message: string): string
  {
    if message != "" then message else IngestFailed
  }

  /** What one ingest ends with: the error shown, and the assets handed to the registry, if any. */
  datatype Outcome = Outcome(error: Option<string>, registered: Option<seq<MediaAsset>>)

  /** The ingest, given whether the host bridge exists, what the directory
      picker returned (a directory, nothing when cancelled, or a thrown
      error's message), what the listing returned, and whether the registry
      write threw. */
  function IngestOutcome(projectId: string, bridgeAvailable: bool, selection: Result<Option<string>, string>,
                         listing: Result<seq<string>, string>, upsertFailure: Option<string>): Outcome
  {
    if !bridgeAvailable then Outcome(Some(BridgeMissing), None)
    else match selection
      case Failure(m) => Outcome(Some(FailureMessage(m)), None)
      case Success(dir) =>
        if dir.None? || dir.value == "" then Outcome(None, None)
        else match listing
          case Failure(m) => Outcome(Some(FailureMessage(m)), None)
          case Success(files) =>
            var assets := NewAssets(files, dir.value, projectId);
            if |assets| == 0 then Outcome(Some(NoCompatibleMedia), None)
            else Outcome(if upsertFailure.Some? then Some(FailureMessage(upsertFailure.value)) else None, Some(assets))
  }

  /** The ways an ingest stops early: without the bridge it says so; a
      cancelled pick ends quietly, clearing any earlier error; a picker or
      listing that throws shows its message, or the generic one. */
  lemma IngestEarlyExits(projectId: string, bridgeAvailable: bool, selection: Result<Option<string>, string>,
                         listing: Result<seq<string>, string>, upsertFailure: Option<string>)
    ensures var o := IngestOutcome(projectId, bridgeAvailable, selection, listing, upsertFailure);
            && (!bridgeAvailable ==> o == Outcome(Some(BridgeMissing), None))
            && (bridgeAvailable && selection.Failure? ==> o == Outcome(Some(FailureMessage(selection.error)), None))
            && (bridgeAvailable && selection.Success? && (selection.value.None? || selection.value.value == "") ==>
                  o == Outcome(None, None))
            && ((bridgeAvailable && selection.Success? && selection.value.Some? && selection.value.value != ""
                 && listing.Failure?) ==> o == Outcome(Some(FailureMessage(listing.error)), None))
            && (o.error.Some? ==> o.error.value != "")
  {
  }

  /** The new assets are handed to the registry exactly when the picked
      directory lists some video or audio file; the batch is then never
      empty, and an error shows exactly when the registry write threw.
      A listing with nothing usable says so instead. */
  lemma IngestRegisters(projectId: string, bridgeAvailable: bool, selection: Result<Option<string>, string>,
                        listing: Result<seq<string>, string>, upsertFailure: Option<string>)
    ensures var o := IngestOutcome(projectId, bridgeAvailable, selection, listing, upsertFailure);
            && (o.registered.Some? <==>
                  bridgeAvailable && selection.Success? && selection.value.Some? && selection.value.value != ""
                  && listing.Success?
                  && (exists k :: 0 <= k < |listing.value| && (IsVideoFile(listing.value[k]) || IsAudioFile(listing.value[k]))))
            && (o.registered.Some? ==>
                  o.registered.value == NewAssets(listing.value, selection.value.value, projectId) && o.registered.value != []
                  && (o.error.None? <==> upsertFailure.None?))
            && ((bridgeAvailable && selection.Success? && selection.value.Some? && selection.value.value != ""
                 && listing.Success? && o.registered.None?) ==> o == Outcome(Some(NoCompatibleMedia), None))
  {
    if bridgeAvailable && selection.Success? && selection.value.Some? && selection.value.value != "" && listing.Success? {
      NoAssetsIff(listing.value, selection.value.value, projectId);
    }
  }

  class IngestDashboard {
    /** Whether an ingest is under way (the spinner). */
    var isProcessing: bool
    /** The error banner, if any. */
    var error: Option<string>
    /** The batches handed to `bulkUpsertMedia`, oldest first. */
    var registered: seq<seq<MediaAsset>>

    constructor()
      ensures !isProcessing && error == None && registered == []
    {
      isProcessing, error, registered := false, None, [];
    }

    /** `handleManualIngest`. The `finally` clause turns the spinner off on
        every path, early returns included. */
    method HandleManualIngest(projectId: string, bridgeAvailable: bool, selection: Result<Option<string>, string>,
                              listing: Result<seq<string>, string>, upsertFailure: Option<string>)
      modifies this
      ensures !isProcessing
      ensures error == IngestOutcome(projectId, bridgeAvailable, selection, listing, upsertFailure).error
      ensures var o := IngestOutcome(projectId, bridgeAvailable, selection, listing, upsertFailure);
              registered == old(registered) + (if o.registered.Some? then [o.registered.value] else [])
    {
      error := None;
      if !bridgeAvailable {
        error := Some(BridgeMissing);
        isProcessing := false;
        return;
      }
      if selection.Failure? {
        error := Some(FailureMessage(selection.error));
        isProcessing := false;
        return;
      }
      var selectedDir := selection.value;
      if selectedDir.None? || selectedDir.value == "" {
        isProcessing := false;
        return;
      }
      isProcessing := true;
      if listing.Failure? {
        error := Some(FailureMessage(listing.error));
        isProcessing := false;
        return;
      }
      var newAssets := NewAssets(listing.value, selectedDir.value, projectId);
      if |newAssets| > 0 {
        registered := registered + [newAssets];
        if upsertFailure.Some? {
          error := Some(FailureMessage(upsertFailure.value));
        }
      } else {
        error := Some(NoCompatibleMedia);
      }
      isProcessing := false;
    }
  }
}
