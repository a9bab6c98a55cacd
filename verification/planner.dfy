/** The chunk-planning loop of the script's main block: the shuffled entry list cut into windows of
    `vid_per_chunk` entries, one task per window. */
module Planner {
  import opened Common
  import opened Naming

  /** Where Python puts a slice bound `i` on a list of length n: a negative bound counts from the end, and
      the result is clamped to [0, n]. */
  function SliceBound(i: int, n: nat): (j: nat)
    ensures j <= n
  {
    if i < 0 then (if i + n < 0 then 0 else i + n)
    else if i > n then n else i
  }

  /** Python's `s[lo:hi]`. */
  function Slice<T>(s: seq<T>, lo: int, hi: int): seq<T> {
    var i, j := SliceBound(lo, |s|), SliceBound(hi, |s|);
    if j <= i then [] else s[i..j]
  }

  /** Python's `s[lo:]`. */
  function SliceFrom<T>(s: seq<T>, lo: int): seq<T> {
    s[SliceBound(lo, |s|)..]
  }

  /** `s[lo:hi]` is never longer than s; with bounds inside the list it is the run from lo up to hi, a stop
      past the end reaches the end, and a stop that is not past the start gives the empty list. */
  lemma SliceSemantics<T>(s: seq<T>, lo: int, hi: int)
    ensures |Slice(s, lo, hi)| <= |s|
    ensures 0 <= lo <= hi <= |s| ==> Slice(s, lo, hi) == s[lo..hi]
    ensures 0 <= lo <= |s| <= hi ==> Slice(s, lo, hi) == s[lo..]
    ensures 0 <= hi <= lo ==> Slice(s, lo, hi) == []
  {
  }

  /** `s[lo:]` is never longer than s; it is the tail from lo, empty from the end on, and a negative lo
      counts from the end. */
  lemma SliceFromSemantics<T>(s: seq<T>, lo: int)
    ensures |SliceFrom(s, lo)| <= |s|
    ensures 0 <= lo <= |s| ==> SliceFrom(s, lo) == s[lo..]
    ensures lo >= |s| ==> SliceFrom(s, lo) == []
    ensures lo < 0 && -lo <= |s| ==> SliceFrom(s, lo) == s[|s| + lo..]
  {
  }

  /** Python's `a // b` (Dafny's own `/` is Euclidean, which differs for a negative divisor). */
  function FloorDiv(a: int, b: int): int
    requires b != 0
  {
    if b > 0 then a / b else (-a) / (-b)
  }

  /** `FloorDiv` rounds the quotient down, whatever the signs: q is the largest integer with b * q on a's side
      of zero-or-less remainder, so a - b * q lies in [0, b) for b > 0 and in (b, 0] for b < 0. */
  lemma FloorDivRoundsDown(a: int, b: int)
    requires b != 0
    ensures b > 0 ==> b * FloorDiv(a, b) <= a < b * FloorDiv(a, b) + b
    ensures b < 0 ==> b * FloorDiv(a, b) + b < a <= b * FloorDiv(a, b)
  {
  }

  /** `len(data) // vid_per_chunk + 1`: one more than the number of full windows, so a length that is a
      multiple of the window size gets a trailing empty chunk. */
  function NumChunks(n: nat, vpc: nat): nat
    requires vpc > 0
  {
    n / vpc + 1
  }

  /** The entries of chunk k: the tail from k * vpc for the last chunk, the window [k * vpc, (k + 1) * vpc)
      for every other one. */
  function ChunkEntries(data: seq<Entry>, vpc: nat, k: nat): seq<Entry>
    requires vpc > 0
  {
    ChunkWindow(data, vpc, NumChunks(|data|, vpc), k)
  }

  /** The list of tasks the planning loop builds: one task per chunk id, in id order, all with the same output
      folder and image size. */
  function Plan(data: seq<Entry>, vpc: nat, outputFolder: string, imgSize: nat): (tasks: seq<Task>)
    requires vpc > 0
    ensures |tasks| == |data| / vpc + 1
    ensures forall k :: 0 <= k < |tasks| ==>
      tasks[k].chunkNo == k && tasks[k].outputFolder == outputFolder && tasks[k].imgSize == imgSize
  {
    seq(NumChunks(|data|, vpc), k requires 0 <= k < NumChunks(|data|, vpc) =>
      Task(ChunkEntries(data, vpc, k), outputFolder, k, imgSize))
  }

  /** The entries the planning loop takes for chunk k out of `numChunks`: the tail from `k * vpc` for the
      last chunk, the window `[k * vpc : (k + 1) * vpc]` for every other one, as Python slices them. */
  function ChunkWindow(data: seq<Entry>, vpc: int, numChunks: int, k: nat): seq<Entry> {
    if k == numChunks - 1 then SliceFrom(data, k * vpc) else Slice(data, k * vpc, (k + 1) * vpc)
  }

  /** With a negative window, `len(data) // vid_per_chunk + 1` is 1 for an empty list and at most 0 otherwise. */
  lemma NegativeWindowCount(n: nat, vpc: int)
    requires vpc < 0
    ensures n == 0 ==> FloorDiv(n, vpc) + 1 == 1
    ensures n > 0 ==> FloorDiv(n, vpc) + 1 <= 0
  {
    FloorDivRoundsDown(n, vpc);
  }

  /** The planning loop. A window size of 0 makes `len(data) // vid_per_chunk` raise ZeroDivisionError; a
      positive one yields the plan. A negative one rounds `len(data) // vid_per_chunk` down to a negative
      number, so a non-empty list plans no task at all and every entry is dropped, while an empty list still
      plans its one empty chunk. The source's `chunk_id * .vid_per_chunk` on the last chunk is read as
      `chunk_id * vid_per_chunk`. */
  method PlanChunks(data: seq<Entry>, vpc: int, outputFolder: string, imgSize: nat)
    returns (r: Result<seq<Task>, PyError>)
    ensures vpc == 0 ==> r == Err(ZeroDivisionError)
    ensures vpc > 0 ==> r == Ok(Plan(data, vpc, outputFolder, imgSize))
    ensures vpc < 0 && data != [] ==> r == Ok([])
    ensures vpc < 0 && data == [] ==> r == Ok([Task([], outputFolder, 0, imgSize)])
  {
    if vpc == 0 {
      return Err(ZeroDivisionError);
    }
    var numChunks := FloorDiv(|data|, vpc) + 1;
    var inputs: seq<Task> := [];
    var chunkId := 0;
    while chunkId < numChunks
      invariant 0 <= chunkId && (chunkId <= numChunks || chunkId == 0)
      invariant |inputs| == chunkId
      invariant forall k :: 0 <= k < chunkId ==>
        inputs[k] == Task(ChunkWindow(data, vpc, numChunks, k), outputFolder, k, imgSize)
    {
      var dfSub;
      if chunkId == numChunks - 1 {
        dfSub := SliceFrom(data, chunkId * vpc);
      } else {
        dfSub := Slice(data, chunkId * vpc, (chunkId + 1) * vpc);
      }
      assert dfSub == ChunkWindow(data, vpc, numChunks, chunkId);
      inputs := inputs + [Task(dfSub, outputFolder, chunkId, imgSize)];
      chunkId := chunkId + 1;
    }
    if vpc > 0 {
      assert numChunks == NumChunks(|data|, vpc);
      ghost var plan := Plan(data, vpc, outputFolder, imgSize);
      assert |inputs| == |plan|;
      assert forall k :: 0 <= k < |inputs| ==> inputs[k] == plan[k];
      assert inputs == plan;
    } else {
      NegativeWindowCount(|data|, vpc);
      if data == [] {
        assert numChunks == 1 && chunkId == 1;
        assert ChunkWindow(data, vpc, numChunks, 0) == SliceFrom(data, 0) == [];
        assert inputs == [Task([], outputFolder, 0, imgSize)];
      }
    }
    return Ok(inputs);
  }

  /** Products grow with their left factor; the window bounds below rely on it. */
  lemma MulMonotone(a: nat, b: nat, c: nat)
    requires a <= b
    ensures a * c <= b * c
  {
  }

  /** A window that ends at or before the last full one lies inside the list. */
  lemma WindowInside(n: nat, vpc: nat, k: nat)
    requires vpc > 0 && k < n / vpc
    ensures 0 <= k * vpc && (k + 1) * vpc == k * vpc + vpc && (k + 1) * vpc <= n
  {
    MulMonotone(k + 1, n / vpc, vpc);
  }

  /** A chunk before the last is the full window `[k * vpc, (k + 1) * vpc)` of the list. */
  lemma FullChunk(data: seq<Entry>, vpc: nat, k: nat)
    requires vpc > 0 && k < NumChunks(|data|, vpc) - 1
    ensures (k + 1) * vpc <= |data| && ChunkEntries(data, vpc, k) == data[k * vpc..(k + 1) * vpc]
    ensures |ChunkEntries(data, vpc, k)| == vpc
  {
    WindowInside(|data|, vpc, k);
    SliceSemantics(data, k * vpc, (k + 1) * vpc);
  }

  /** The last chunk is the tail of the list after its full windows, `len(data) % vpc` entries long. */
  lemma LastChunk(data: seq<Entry>, vpc: nat)
    requires vpc > 0
    ensures var k := NumChunks(|data|, vpc) - 1;
      && k * vpc <= |data| && ChunkEntries(data, vpc, k) == data[k * vpc..]
      && |ChunkEntries(data, vpc, k)| == |data| % vpc
  {
    var q := |data| / vpc;
    assert |data| == q * vpc + |data| % vpc;
    SliceFromSemantics(data, q * vpc);
  }

  /** Every chunk but the last is exactly the window [k * vpc, (k + 1) * vpc) of the list and holds vpc entries;
      the last is the tail from k * vpc and holds `len(data) % vpc` entries, so it is empty exactly when the
      length is a multiple of vpc. */
  lemma ChunkSizes(data: seq<Entry>, vpc: nat, k: nat)
    requires vpc > 0 && k < NumChunks(|data|, vpc)
    ensures k < NumChunks(|data|, vpc) - 1 ==>
      (k + 1) * vpc <= |data| && ChunkEntries(data, vpc, k) == data[k * vpc..(k + 1) * vpc]
      && |ChunkEntries(data, vpc, k)| == vpc
    ensures k == NumChunks(|data|, vpc) - 1 ==>
      k * vpc <= |data| && ChunkEntries(data, vpc, k) == data[k * vpc..]
      && |ChunkEntries(data, vpc, k)| == |data| % vpc
      && (ChunkEntries(data, vpc, k) == [] <==> |data| % vpc == 0)
  {
    if k < NumChunks(|data|, vpc) - 1 {
      FullChunk(data, vpc, k);
    } else {
      LastChunk(data, vpc);
    }
  }

  /** The entries of a task list, chunk after chunk. */
  function ConcatEntries(tasks: seq<Task>): seq<Entry> {
    if tasks == [] then [] else ConcatEntries(tasks[..|tasks| - 1]) + tasks[|tasks| - 1].entries
  }

  /** A task list whose last task holds the tail of a list from `cut`, and whose other tasks hold the part
      before `cut`, holds exactly that list. */
  lemma ConcatEntriesSplit(tasks: seq<Task>, data: seq<Entry>, cut: nat)
    requires |tasks| > 0 && cut <= |data|
    requires ConcatEntries(tasks[..|tasks| - 1]) == data[..cut] && tasks[|tasks| - 1].entries == data[cut..]
    ensures ConcatEntries(tasks) == data
  {
    assert data[..cut] + data[cut..] == data;
  }

  lemma {:induction false} PlanPrefix(data: seq<Entry>, vpc: nat, outputFolder: string, imgSize: nat, m: nat)
    requires vpc > 0 && m < NumChunks(|data|, vpc)
    ensures m * vpc <= |data|
    ensures ConcatEntries(Plan(data, vpc, outputFolder, imgSize)[..m]) == data[..m * vpc]
  {
    var tasks := Plan(data, vpc, outputFolder, imgSize);
    if m == 0 {
      assert tasks[..0] == [];
    } else {
      PlanPrefix(data, vpc, outputFolder, imgSize, m - 1);
      ChunkSizes(data, vpc, m - 1);
      assert tasks[..m][..m - 1] == tasks[..m - 1];
      assert (m - 1) * vpc + vpc == m * vpc;
      assert data[..(m - 1) * vpc] + data[(m - 1) * vpc..m * vpc] == data[..m * vpc];
    }
  }

  /** The plan's last task holds the tail of the list after its full windows. */
  lemma PlanLastChunk(data: seq<Entry>, vpc: nat, outputFolder: string, imgSize: nat)
    requires vpc > 0
    ensures var tasks := Plan(data, vpc, outputFolder, imgSize);
      (|tasks| - 1) * vpc <= |data| && tasks[|tasks| - 1].entries == data[(|tasks| - 1) * vpc..]
  {
    LastChunk(data, vpc);
  }

  /** The chunks, concatenated in id order, give back the input list: no entry is lost, duplicated or
      reordered. */
  lemma PlanReassembles(data: seq<Entry>, vpc: nat, outputFolder: string, imgSize: nat)
    requires vpc > 0
    ensures ConcatEntries(Plan(data, vpc, outputFolder, imgSize)) == data
  {
    var tasks := Plan(data, vpc, outputFolder, imgSize);
    var last := |tasks| - 1;
    PlanPrefix(data, vpc, outputFolder, imgSize, last);
    PlanLastChunk(data, vpc, outputFolder, imgSize);
    ConcatEntriesSplit(tasks, data, last * vpc);
  }

  /** No two tasks of a plan write to the same file: their data paths, their meta paths, and any data path
      against any meta path, all differ. */
  lemma PlanPathsDisjoint(data: seq<Entry>, vpc: nat, outputFolder: string, imgSize: nat, i: nat, j: nat)
    requires vpc > 0
    requires i < j < NumChunks(|data|, vpc)
    ensures var tasks := Plan(data, vpc, outputFolder, imgSize);
      var pi := InitializeFilenames(tasks[i].outputFolder, tasks[i].chunkNo);
      var pj := InitializeFilenames(tasks[j].outputFolder, tasks[j].chunkNo);
      && pi.0 != pj.0 && pi.1 != pj.1 && pi.0 != pj.1 && pi.1 != pj.0
  {
    InitializeFilenamesInjective(outputFolder, i, j);
    InitializeFilenamesInjective(outputFolder, j, i);
  }

  /** Five entries in windows of two plan chunks of 2, 2 and 1 entries; four entries plan 2, 2 and an empty
      third chunk. */
  lemma PlanExamples(five: seq<Entry>, four: seq<Entry>)
    requires |five| == 5 && |four| == 4
    ensures var p := Plan(five, 2, "out", 224);
      |p| == 3 && |p[0].entries| == 2 && |p[1].entries| == 2 && |p[2].entries| == 1
    ensures var p := Plan(four, 2, "out", 224);
      |p| == 3 && |p[0].entries| == 2 && |p[1].entries| == 2 && p[2].entries == []
  {
  }

  /** An empty entry list still plans one (empty) chunk. */
  lemma PlanEmptyList(vpc: nat)
    requires vpc > 0
    ensures Plan([], vpc, "out", 224) == [Task([], "out", 0, 224)]
  {
  }
}
