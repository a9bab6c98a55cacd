/** Frame resolution for one manifest entry: pre-extracted frames, the single-video burst fallback, the label
    index, and the resize map over the chosen frames. */
module Frames {
  import opened Common
  import opened Naming
  import opened Sorting

  /** What the modelled code observes of the filesystem and of the foreign helpers it calls. */
  datatype World = World(
    jpgGlob: string -> seq<string>,    // glob.glob(folder + '/*.jpg'), in whatever order the filesystem lists
    mp4Glob: string -> seq<string>,    // glob.glob(folder + '*.mp4'), the candidate source videos
    files: set<string>,                // the paths for which os.path.isfile holds
    burstGlob: string -> seq<string>,  // the .jpg paths found in the scratch directory after bursting a video
    imread: string -> Image,           // cv2.imread
    resize: (Image, nat) -> Image)     // resize_by_short_edge

  /** The module-level configuration the source reads from globals. */
  datatype Settings = Settings(
    videoPath: string,                 // the video directory; "" (falsy) in frames mode
    framesPath: string,                // the directory of pre-extracted frames
    dumpLabels: bool,                  // whether label indices are looked up
    labels2idx: map<string, int>)

  /** An entry after resolution: `(video_id, imgs, label_idx, label)` in the source. */
  datatype Resolved = Resolved(videoId: string, imgs: seq<string>, labelIdx: int, labelName: string)

  /** The pre-extracted frames of a folder, in ascending path order. */
  function FindJpgsInFolder(w: World, folder: string): (imgs: seq<string>)
    ensures Sorted(imgs)
    ensures multiset(imgs) == multiset(w.jpgGlob(folder))
  {
    Sort(w.jpgGlob(folder))
  }

  /** The single-video check, with the evident intent on an empty candidate list (no video: false). It holds
      exactly when there is one candidate and that candidate is a file. */
  function CheckOneMp4FilePresent(candidates: seq<string>, files: set<string>): (ok: bool)
    ensures ok <==> |candidates| == 1 && candidates[0] in files
  {
    if |candidates| > 1 then false
    else if |candidates| == 0 then false
    else candidates[0] in files
  }

  /** The single-video check as written: with no candidate it indexes `vid_path[0]` and raises IndexError. */
  function CheckOneMp4FilePresentAsWritten(candidates: seq<string>, files: set<string>): (r: Result<bool, PyError>)
    ensures |candidates| == 0 ==> r == Err(IndexError)
    ensures |candidates| > 0 ==> r == Ok(CheckOneMp4FilePresent(candidates, files))
  {
    if |candidates| > 1 then Ok(false)
    else if candidates == [] then Err(IndexError)
    else Ok(candidates[0] in files)
  }

  /** An entry whose folder holds neither frames nor a video makes the as-written check raise, where the
      corrected check answers false and the entry is packaged with no frames. */
  lemma {:induction false} AsWrittenCheckRaisesWithoutVideo(files: set<string>)
    ensures CheckOneMp4FilePresentAsWritten([], files) == Err(IndexError)
    ensures !CheckOneMp4FilePresent([], files)
  {
  }

  /** The frames burst from one video: the scratch directory's .jpg files in ascending order. */
  function BurstVideoIntoFrames(w: World, vidPath: string): (imgs: seq<string>)
    ensures Sorted(imgs)
    ensures multiset(imgs) == multiset(w.burstGlob(vidPath))
  {
    Sort(w.burstGlob(vidPath))
  }

  /** The frame-source decision for a folder. The source reaches the fallback through
      `check_frames_are_present`, which as written returns nothing, and calls a `check_mp4_file_present` that
      does not exist; the intent modelled is: keep the pre-extracted frames when there are any, otherwise burst
      the one candidate video when the single-video check passes, otherwise no frames. */
  function ResolveFrames(w: World, folder: string): seq<string> {
    var imgs := FindJpgsInFolder(w, folder);
    if |imgs| > 0 then imgs
    else if CheckOneMp4FilePresent(w.mp4Glob(folder), w.files) then BurstVideoIntoFrames(w, w.mp4Glob(folder)[0])
    else []
  }

  /** The frames chosen for a folder are always in ascending order and are: the pre-extracted frames when
      there are any; otherwise the burst frames of the single candidate video when it passes the check;
      otherwise none. */
  lemma ResolveFramesDecision(w: World, folder: string)
    ensures Sorted(ResolveFrames(w, folder))
    ensures |w.jpgGlob(folder)| > 0 ==> multiset(ResolveFrames(w, folder)) == multiset(w.jpgGlob(folder))
    ensures |w.jpgGlob(folder)| == 0 && CheckOneMp4FilePresent(w.mp4Glob(folder), w.files) ==>
              multiset(ResolveFrames(w, folder)) == multiset(w.burstGlob(w.mp4Glob(folder)[0]))
    ensures |w.jpgGlob(folder)| == 0 && !CheckOneMp4FilePresent(w.mp4Glob(folder), w.files) ==>
              ResolveFrames(w, folder) == []
  {
    var jpgs := FindJpgsInFolder(w, folder);
    assert |jpgs| == |multiset(jpgs)| == |w.jpgGlob(folder)|;
  }

  /** A folder whose pre-extracted listing is non-empty and already ascending yields that listing unchanged. */
  lemma ResolveFramesKeepsSortedListing(w: World, folder: string)
    requires |w.jpgGlob(folder)| > 0 && Sorted(w.jpgGlob(folder))
    ensures ResolveFrames(w, folder) == w.jpgGlob(folder)
  {
    ResolveFramesDecision(w, folder);
    SortedUnique(ResolveFrames(w, folder), w.jpgGlob(folder));
  }

  /** `labels2idx[label]` when labels are dumped (KeyError when absent), else -1. */
  function LabelIndex(labelName: string, s: Settings): Result<int, PyError> {
    if s.dumpLabels then
      if labelName in s.labels2idx then Ok(s.labels2idx[labelName]) else Err(KeyError(labelName))
    else Ok(-1)
  }

  /** The folder an entry's frames are looked for in. */
  function EntryFolder(entry: Entry, s: Settings): string {
    CreateFolderName(entry.id, s.videoPath, s.framesPath, entry.labelName, entry.startTime, entry.endTime)
  }

  /** One entry resolved to its id, frames, label index and label. The source returns an undefined `label_id`;
      the `label_idx` it computes is returned here. It raises only for a label missing from the dictionary. */
  function GetVideoAsLabelAndFrames(entry: Entry, w: World, s: Settings): (r: Result<Resolved, PyError>)
    ensures r.Err? <==> s.dumpLabels && entry.labelName !in s.labels2idx
    ensures r.Err? ==> r.error == KeyError(entry.labelName)
    ensures r.Ok? ==> r.value.videoId == entry.id && r.value.labelName == entry.labelName
    ensures r.Ok? ==> r.value.imgs == ResolveFrames(w, EntryFolder(entry, s))
    ensures r.Ok? ==> r.value.labelIdx == (if s.dumpLabels then s.labels2idx[entry.labelName] else -1)
  {
    var imgs := ResolveFrames(w, EntryFolder(entry, s));
    match LabelIndex(entry.labelName, s)
    case Err(e) => Err(e)
    case Ok(labelIdx) => Ok(Resolved(entry.id, imgs, labelIdx, entry.labelName))
  }

  /** `get_resized_image`: each frame path read and resized, one image per path, in the same order. */
  function GetResizedImage(imgs: seq<string>, imgSize: nat, w: World): (out: seq<Image>)
    ensures |out| == |imgs|
    ensures forall i :: 0 <= i < |imgs| ==> out[i] == w.resize(w.imread(imgs[i]), imgSize)
  {
    if imgs == [] then [] else [w.resize(w.imread(imgs[0]), imgSize)] + GetResizedImage(imgs[1..], imgSize, w)
  }
}
