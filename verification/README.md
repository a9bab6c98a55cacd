# GulpIO binary chunk builder — a Dafny model

This project models the core of GulpIO's `create_binary_db.py`. The script packs a shuffled list of labelled
video entries into numbered chunks. Each chunk gets a data file `data{n}.bin` and a meta file `meta{n}.bin`
in the output folder. For every entry of a chunk, the script:

1. finds the entry's frames: the pre-extracted `.jpg` files of its folder in sorted order, or, when there are
   none, the frames burst from the single video matching `<folder>*.mp4` (the glob at line 86 has no `/`
   before the pattern, so it matches files next to the folder whose names extend the folder's path, such as
   `videos/<id>.mp4`, and never a file inside the folder);
2. looks up the entry's label index (or uses -1 when labels are not dumped);
3. resizes each frame and issues one `write(label_idx, video_id, img)` call on the chunk's writer.

The chunks are planned by cutting the list into windows of `vid_per_chunk` entries, and each chunk is
packaged by `create_chunk`. The script defines `parallel_process`, a worker-pool map that collects each task's
outcome (its return value or the exception it raised) in submission order. Its call (line 229) is commented
out, and the script dispatches through `joblib.Parallel` (line 230) instead. The model covers
`parallel_process` as defined; see "Left out" for the dispatch the script actually uses.

Modules, one per component:

- `Common` (common.dfy): `Result`, the Python exceptions that can be raised, entries and tasks.
- `Naming` (naming.dfy): decimal formatting, `{:06d}` zero padding, POSIX `os.path.join`, output file names
  and frame-folder names.
- `Sorting` (sorting.dfy): Python's `sorted` on strings (code-point lexicographic order).
- `Frames` (frames.dfy): the frame-source decision, the single-video check, the label index and the resize
  map. The filesystem and the foreign helpers are a `World` value: glob results, the set of regular files,
  the burst result, `imread` and `resize`.
- `Writer` (writer.dfy): the chunk writer as a class holding an open flag and an append-only log of writes.
- `Packager` (packager.dfy): `create_chunk` as a method with nested loops, specified by `ChunkLog` and
  `ChunkOutcome`.
- `Planner` (planner.dfy): the planning loop as a method, specified by `Plan`.
- `Orchestrator` (orchestrator.dfy): `parallel_process`'s result collection over `create_chunk`, and the lemma
  that packaging the plan chunk by chunk writes exactly what packaging the whole list would.

The script as written does not run. It has a `continue` outside a loop at line 83, `.vid_per_chunk` at
line 220, and several undefined names. The model follows the evident intent in each case:

- `check_frames_are_present` (78-83) returns nothing. It is read as "the list is non-empty".
- The call to `check_mp4_file_present` (53) is read as `check_one_mp4_file_present`.
- `folder_name` in `get_video_path` (86) is read as its parameter `folder`.
- `vid_path` in `create_folder_name` (67) is read as its parameter `video_path`.
- The returned `label_id` (62) is read as the computed `label_idx`.
- `chunk_id * .vid_per_chunk` (220) is read as `chunk_id * vid_per_chunk`.
- `shutil` is never imported (lines 14-28), so as written `shutil.rmtree` in `check_frames_are_present` (82)
  and in `clear_temp_dir` (113, called at 109) raises NameError, and the burst fallback never returns
  frames. The module is read as imported: `Frames.BurstVideoIntoFrames` returns the burst frames.
- `args.frames_path` in `create_folder_name` (68) is read as the main block's `frames_path` (182); `args` is
  undefined.
- `video_path` in `get_video_as_label_and_frames` (47) is read as the main block's `videos_path` (179).
- `dump_labels2idx_in_pickel` (58) is read as the main block's `dump_label2idx` (190).

The chunk count follows the code, `len(data) // vid_per_chunk + 1`, not a ceiling division. A list whose
length is a multiple of `vid_per_chunk` therefore gets a trailing empty chunk. An empty list gets one empty
chunk. `Planner.ChunkSizes`, `Planner.PlanExamples` and `Planner.PlanEmptyList` state this. Nothing checks
the sign of `vid_per_chunk`. Python's `//` rounds down, so a negative window makes the count at most 0 for
a non-empty list: no task is planned and every entry is silently dropped. `Planner.PlanChunks` states this.

## Model

| member | source | states |
|---|---|---|
| `Naming.Decimal` | src/main/scripts/create_binary_db.py:33-34 | the `{}` rendering of a chunk number is a non-empty string of decimal digits |
| `Naming.ParseDecimalOfDecimal` | src/main/scripts/create_binary_db.py:33-34 | the digits of n read back as n |
| `Naming.DecimalInjective` | src/main/scripts/create_binary_db.py:33-34 | distinct chunk numbers are rendered differently |
| `Naming.DecimalLength` | src/main/scripts/create_binary_db.py:70 | n has at most k digits exactly when n < 10^k |
| `Naming.ZeroPad6Width` | src/main/scripts/create_binary_db.py:70 | `{:06d}` gives exactly six digits iff n < 10^6; above that it gives the plain, longer digits |
| `Naming.ZeroPad6RoundTrip` | src/main/scripts/create_binary_db.py:70 | the zero-padded field reads back as the number |
| `Naming.ZeroPad6` | src/main/scripts/create_binary_db.py:70 | `{:06d}` on a non-negative number; its width, digits and read-back are stated by `ZeroPad6Width` and `ZeroPad6RoundTrip` |
| `Naming.Join` | src/main/scripts/create_binary_db.py:33-34 | `os.path.join`: an absolute component replaces the path; a relative one keeps the directory as prefix and itself as suffix, with one `/` added between them exactly when the directory is non-empty and does not already end in `/` |
| `Naming.JoinedBinNames` | src/main/scripts/create_binary_db.py:33-34 | two relative `.bin` names with different first characters give different paths in one folder, and both paths end in `.bin` |
| `Naming.InitializeFilenames` | src/main/scripts/create_binary_db.py:32-35 | the data and meta paths of a chunk never coincide, and both end in `.bin` |
| `Naming.InitializeFilenamesInjective` | src/main/scripts/create_binary_db.py:32-35 | in one folder, distinct chunk numbers give distinct data paths and distinct meta paths; no data path equals any meta path |
| `Naming.FolderNameFramesMode` | src/main/scripts/create_binary_db.py:68-70 | frames-mode folder = `frames_path/label/video_id` + `_` + six-digit start + `_` + six-digit end; start and end read back from the name |
| `Naming.CreateFolderName` | src/main/scripts/create_binary_db.py:64-70 | the entry's frame folder; its two modes are stated by `FolderNameVideoMode` and `FolderNameFramesMode` |
| `Naming.FolderNameVideoMode` | src/main/scripts/create_binary_db.py:66-67 | in video mode the folder ignores the frames path, label and markers; it ends in the video id, follows the video directory for a relative id and is the id itself for an absolute one |
| `Sorting.StrLeq` | src/main/scripts/create_binary_db.py:75 | Python's `<=` on strings, compared code point by code point; proved a total order by the three lemmas below |
| `Sorting.StrLeqTotal` | src/main/scripts/create_binary_db.py:75 | any two paths are comparable in Python's string order |
| `Sorting.StrLeqTransitive` | src/main/scripts/create_binary_db.py:75 | Python's string order is transitive |
| `Sorting.StrLeqAntisymmetric` | src/main/scripts/create_binary_db.py:75 | two paths each at most the other are equal |
| `Sorting.Sort` | src/main/scripts/create_binary_db.py:75 | `sorted` returns an ascending permutation of its input |
| `Sorting.SortedUnique` | src/main/scripts/create_binary_db.py:75 | two ascending lists with the same elements are equal |
| `Sorting.SortKeepsSorted` | src/main/scripts/create_binary_db.py:75 | an already ascending listing comes back unchanged |
| `Sorting.SortIgnoresListingOrder` | src/main/scripts/create_binary_db.py:75 | the sorted result does not depend on the order of the listing |
| `Frames.FindJpgsInFolder` | src/main/scripts/create_binary_db.py:74-75 | the folder's `.jpg` files, ascending, each exactly once |
| `Frames.CheckOneMp4FilePresent` | src/main/scripts/create_binary_db.py:88-95 | true exactly when there is one candidate video and it is a file (false for two or more, and for none) |
| `Frames.CheckOneMp4FilePresentAsWritten` | src/main/scripts/create_binary_db.py:88-95 | as written: IndexError on an empty candidate list; otherwise the corrected answer |
| `Frames.AsWrittenCheckRaisesWithoutVideo` | src/main/scripts/create_binary_db.py:89-92 | with no candidate the as-written check raises, while the corrected check answers false |
| `Frames.BurstVideoIntoFrames` | src/main/scripts/create_binary_db.py:105-110 | the burst frames, ascending, each exactly once |
| `Frames.ResolveFrames` | src/main/scripts/create_binary_db.py:51-57 | the frame-source decision; its three outcomes are stated by `ResolveFramesDecision` |
| `Frames.ResolveFramesDecision` | src/main/scripts/create_binary_db.py:51-57 | frames are ascending; they are the pre-extracted ones when any exist, else the burst frames when the single-video check passes, else none |
| `Frames.ResolveFramesKeepsSortedListing` | src/main/scripts/create_binary_db.py:51-52 | a non-empty, already ascending listing is returned unchanged |
| `Frames.LabelIndex` | src/main/scripts/create_binary_db.py:58-61 | `labels2idx[label]` when dumping, else -1, with KeyError for a missing label; stated through `GetVideoAsLabelAndFrames` |
| `Frames.GetVideoAsLabelAndFrames` | src/main/scripts/create_binary_db.py:38-62 | returns the entry's id, label and chosen frames, with label index `labels2idx[label]` when dumping, else -1; raises KeyError exactly when dumping and the label is missing |
| `Frames.GetResizedImage` | src/main/scripts/create_binary_db.py:98-102 | one resized image per frame path, in the same order |
| `Writer.GulpVideoIO.constructor` | src/main/scripts/create_binary_db.py:119 | a new writer is bound to the given data and meta paths, closed, with an empty log |
| `Writer.GulpVideoIO.Open` | src/main/scripts/create_binary_db.py:120 | opening in `wb` mode leaves the writer open with an empty log |
| `Writer.GulpVideoIO.Write` | src/main/scripts/create_binary_db.py:124 | a write appends exactly one record and keeps all earlier ones |
| `Writer.GulpVideoIO.Close` | src/main/scripts/create_binary_db.py:126 | closing keeps the log and leaves the writer closed |
| `Packager.ChunkOutcomeFirstFailure` | src/main/scripts/create_binary_db.py:121-127 | a chunk raises iff one of its rows does, with the first such row's exception; otherwise it returns True |
| `Packager.ChunkFailsOnFirstMissingLabel` | src/main/scripts/create_binary_db.py:58-59 | with the modelled resolver, whose bursting, `imread` and `resize` never raise, a chunk fails iff labels are dumped and some entry's label is missing; the KeyError is that of the first such entry |
| `Packager.ChunkOutcomeAppend` | src/main/scripts/create_binary_db.py:121-122 | after a prefix that does not raise, the outcome is that of the rest |
| `Packager.ChunkLogAppend` | src/main/scripts/create_binary_db.py:121-125 | the log of `a + b` is the log of `a` followed by the log of `b` when `a` does not raise |
| `Packager.ChunkLogEntryRun` | src/main/scripts/create_binary_db.py:121-125 | entry k's records form one run right after the earlier entries' records; record j is frame j resized, tagged with entry k's label index and id |
| `Packager.WriteEntry` | src/main/scripts/create_binary_db.py:124-125 | appends exactly the entry's records, one per resized frame, in frame order |
| `Packager.WriteRows` | src/main/scripts/create_binary_db.py:121-125 | the row loop on an open writer: it returns `ChunkOutcome` of the rows and appends exactly `ChunkLog` of the rows to the log |
| `Packager.CreateChunk` | src/main/scripts/create_binary_db.py:115-127 | writer on `initialize_filenames`' paths; log = `ChunkLog`; result = `ChunkOutcome`; closed iff no exception |
| `Planner.Plan` | src/main/scripts/create_binary_db.py:216-225 | `len(data) // vid_per_chunk + 1` tasks; task k has chunk id k and the common output folder and image size |
| `Planner.Slice` | src/main/scripts/create_binary_db.py:222-223 | Python's `s[lo:hi]` with bounds clamped to the list; its meaning is stated by `SliceSemantics` |
| `Planner.SliceSemantics` | src/main/scripts/create_binary_db.py:222-223 | `s[lo:hi]` is never longer than s; the plain slice for in-range bounds, the tail for a stop past the end, empty when the stop is not past the start |
| `Planner.SliceFrom` | src/main/scripts/create_binary_db.py:220 | Python's `s[lo:]` with the start clamped to the list; its meaning is stated by `SliceFromSemantics` |
| `Planner.SliceFromSemantics` | src/main/scripts/create_binary_db.py:220 | `s[lo:]` is never longer than s; the tail from lo, empty from the end on, and counted from the end for a negative lo |
| `Planner.FloorDivRoundsDown` | src/main/scripts/create_binary_db.py:208 | `//` rounds down for either sign of the divisor: the remainder lies in [0, b) for b > 0 and in (b, 0] for b < 0 |
| `Planner.NegativeWindowCount` | src/main/scripts/create_binary_db.py:208 | with a negative window the chunk count is 1 for an empty list and at most 0 otherwise |
| `Planner.PlanChunks` | src/main/scripts/create_binary_db.py:208-225 | ZeroDivisionError for a window size of 0; exactly the plan for a positive one; for a negative one no task for a non-empty list and one empty task for an empty list |
| `Planner.FullChunk` | src/main/scripts/create_binary_db.py:221-223 | a chunk before the last is the full window `[k*vpc, (k+1)*vpc)` of the list and holds vpc entries |
| `Planner.LastChunk` | src/main/scripts/create_binary_db.py:219-220 | the last chunk is the tail of the list after its full windows and holds `len % vpc` entries |
| `Planner.ChunkSizes` | src/main/scripts/create_binary_db.py:218-223 | every chunk but the last is the window `[k*vpc, (k+1)*vpc)` with vpc entries; the last is the tail with `len % vpc` entries, empty iff the length is a multiple |
| `Planner.PlanPrefix` | src/main/scripts/create_binary_db.py:218-223 | the first m chunks, concatenated, are the first m*vpc entries |
| `Planner.PlanReassembles` | src/main/scripts/create_binary_db.py:218-223 | all chunks, concatenated in id order, are the input list |
| `Planner.PlanPathsDisjoint` | src/main/scripts/create_binary_db.py:216-225 | no two tasks of a plan share a data or meta path |
| `Planner.PlanExamples` | src/main/scripts/create_binary_db.py:208 | 5 entries in windows of 2 give chunks of 2, 2, 1; 4 entries give 2, 2 and an empty chunk |
| `Planner.PlanEmptyList` | src/main/scripts/create_binary_db.py:208 | an empty list plans a single empty chunk |
| `Orchestrator.ParallelProcess` | src/main/scripts/create_binary_db.py:157-164 | one slot per task in submission order; slot i is task i's own result or exception; log i is what task i wrote |
| `Orchestrator.PrefixOutcomeOk` | src/main/scripts/create_binary_db.py:121-122 | every prefix of a list that does not raise also does not raise |
| `Orchestrator.ConcatLogsOfEntries` | src/main/scripts/create_binary_db.py:115-127 | packaging any task list chunk by chunk at one image size writes what packaging its concatenated entries as one chunk writes, when nothing raises |
| `Orchestrator.PlanLogsReassemble` | src/main/scripts/create_binary_db.py:216-225 | with no missing label, the chunk logs in id order equal the log of packaging the whole list as one chunk |

## Left out

- Image decoding and resampling (`cv2.imread`, `resize_by_short_edge`) are foreign numeric code. They are the
  uninterpreted `imread` and `resize` functions of a `World`.
- Filesystem listings and tests (`glob.glob`, `os.path.isfile`) are data in a `World`: glob results per
  pattern and the set of regular files. The glob patterns themselves are not modelled.
- Bursting (`burst_frames_to_shm`) is a `World` function from a video path to the listing of the scratch
  directory. Creating and removing the scratch directory (`shutil.rmtree`, `clear_temp_dir`) is left out.
  As written, `burst_video_into_frames` deletes that directory before the returned frame paths are read. The
  model reads frames through `imread` as a function of the path, so it does not capture that deletion.
- `Frames.BurstVideoIntoFrames` returns `[]` when bursting yields no `.jpg`, so the entry is packaged with no
  frames and the chunk can still return True. Under the readings above, the source instead raises there:
  `check_frames_are_present` (82) removes the scratch directory because the list is empty, and
  `clear_temp_dir` (113, called at 109) then removes it again, which raises FileNotFoundError out of
  `create_chunk`. Filesystem state and its exceptions are not part of the `World`, so this failure is not
  modelled, and `Packager.ChunkFailsOnFirstMissingLabel` holds only for the modelled resolver.
- `os.makedirs` (`ensure_output_dir_exists`) and the pickle dump of the label dictionary are file output.
- gulpio/gulpio.py is not part of this model. The writer's byte offsets and on-disk record format are not
  modelled, only the sequence of `write` calls.
- `Writer.GulpVideoIO.Write` requires an open writer. `create_chunk` always opens before writing, and the
  writer's own behaviour on a closed file is not visible.
- `ProcessPoolExecutor` and `tqdm` in `parallel_process`: tasks run one after another. Completion order and
  progress bars are not modelled.
- The dispatch the script actually runs, `joblib.Parallel` (line 230), is not modelled; `parallel_process`
  (called only from the commented-out line 229) is. `joblib.Parallel` re-raises the first exception a task
  raises. So the whole run aborts on the first chunk that raises, for example one holding an entry whose
  label is missing while labels are dumped, and no per-task exception slots are collected.
- The `front_num`/`front` prefix of `parallel_process` is unfinished code (`front` is undefined). The model
  collects all tasks.
- `docopt` argument parsing, the CSV/JSON manifest readers and `shuffle` are foreign or I/O. The shuffled
  entry list, the label dictionary and the settings are inputs. `vid_per_chunk` is taken as an integer of
  either sign, although docopt would deliver a string.
- The manifest lookups `entry['id']`, `entry['label']`, `entry['start_time']` and `entry['end_time']` (44-50)
  raise KeyError for a row without that key. An `Entry` always has all four fields, so that KeyError is not
  modelled.
- Start and end markers are non-negative integers. `{:06d}` on a negative number is not modelled.
- `get_resized_image` is a lazy generator. The model computes the same images in the same order; the
  one-image-at-a-time memory bound is not modelled.
- The `print` diagnostics are not modelled.

## Findings

| source | as written | input that shows it | evidently intended | confidence | as-written member | corrected member |
|---|---|---|---|---|---|---|
| src/main/scripts/create_binary_db.py:89-92 | with no candidate video, `len(vid_path) > 1` is false, so `vid_path[0]` is indexed and raises IndexError | an entry whose folder has no `.jpg` and with no file matching `<folder>*.mp4` (candidate list `[]`) | answer False, so the entry gets no frames | high (not executed) | `Frames.CheckOneMp4FilePresentAsWritten`, `Frames.AsWrittenCheckRaisesWithoutVideo` | `Frames.CheckOneMp4FilePresent` |
