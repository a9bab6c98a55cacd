/** `parallel_process` as the script defines it, over the planned tasks: each task packaged by `create_chunk`,
    each outcome collected in its own slot, in submission order. The script's main block leaves its call
    commented out and dispatches through `joblib.Parallel` instead, which is not modelled here. */
module Orchestrator {
  import opened Common
  import opened Frames
  import opened Writer
  import opened Packager
  import opened Planner

  /** `parallel_process(inputs, create_chunk)`, run one task after another. Slot i holds what task i's
      `create_chunk` returned or the exception it raised, so a failing task affects no slot but its own;
      `logs[i]` is what task i's writer received. The ghost `resolve` is not an input of the source
      function: callers pass `Resolver(w, s)`, the per-entry resolution `create_chunk` uses. */
  method ParallelProcess(tasks: seq<Task>, w: World, s: Settings, ghost resolve: ResolveFn)
    returns (out: seq<Result<bool, PyError>>, logs: seq<seq<WriteRecord>>)
    requires resolve == Resolver(w, s)
    ensures |out| == |tasks| && |logs| == |tasks|
    ensures forall i :: 0 <= i < |tasks| ==> out[i] == ChunkOutcome(tasks[i].entries, resolve)
    ensures forall i :: 0 <= i < |tasks| ==>
      logs[i] == ChunkLog(tasks[i].entries, tasks[i].imgSize, w, resolve)
  {
    out, logs := [], [];
    var i := 0;
    while i < |tasks|
      invariant 0 <= i <= |tasks|
      invariant |out| == i && |logs| == i
      invariant forall k :: 0 <= k < i ==> out[k] == ChunkOutcome(tasks[k].entries, resolve)
      invariant forall k :: 0 <= k < i ==> logs[k] == ChunkLog(tasks[k].entries, tasks[k].imgSize, w, resolve)
    {
      var result, gulp := CreateChunk(tasks[i], w, s, resolve);
      OutcomeSlotAppended(out, tasks, result, resolve);
      LogSlotAppended(logs, tasks, gulp.log, w, resolve);
      out := out + [result];
      logs := logs + [gulp.log];
      i := i + 1;
    }
  }

  /** Appending task i's outcome to the outcomes of tasks 0..i-1 gives the outcomes of tasks 0..i. Stated
      apart from the collection loop so that it is proved for an arbitrary resolution. */
  lemma OutcomeSlotAppended(out: seq<Result<bool, PyError>>, tasks: seq<Task>, result: Result<bool, PyError>,
                            resolve: ResolveFn)
    requires |out| < |tasks|
    requires forall k :: 0 <= k < |out| ==> out[k] == ChunkOutcome(tasks[k].entries, resolve)
    requires result == ChunkOutcome(tasks[|out|].entries, resolve)
    ensures forall k :: 0 <= k <= |out| ==> (out + [result])[k] == ChunkOutcome(tasks[k].entries, resolve)
  {
  }

  /** Appending task i's log to the logs of tasks 0..i-1 gives the logs of tasks 0..i, again for an
      arbitrary resolution. */
  lemma LogSlotAppended(logs: seq<seq<WriteRecord>>, tasks: seq<Task>, written: seq<WriteRecord>,
                        w: World, resolve: ResolveFn)
    requires |logs| < |tasks|
    requires forall k :: 0 <= k < |logs| ==> logs[k] == ChunkLog(tasks[k].entries, tasks[k].imgSize, w, resolve)
    requires written == ChunkLog(tasks[|logs|].entries, tasks[|logs|].imgSize, w, resolve)
    ensures forall k :: 0 <= k <= |logs| ==>
      (logs + [written])[k] == ChunkLog(tasks[k].entries, tasks[k].imgSize, w, resolve)
  {
  }

  /** The records of a task list's chunks, chunk after chunk. */
  function ConcatLogs(tasks: seq<Task>, w: World, resolve: ResolveFn): seq<WriteRecord> {
    if tasks == [] then []
    else
      var last := tasks[|tasks| - 1];
      ConcatLogs(tasks[..|tasks| - 1], w, resolve) + ChunkLog(last.entries, last.imgSize, w, resolve)
  }

  /** If a list packages without raising, so does every prefix of it. */
  lemma PrefixOutcomeOk(df: seq<Entry>, m: nat, resolve: ResolveFn)
    requires m <= |df| && ChunkOutcome(df, resolve).Ok?
    ensures ChunkOutcome(df[..m], resolve).Ok?
  {
    ChunkOutcomeFirstFailure(df, resolve);
    ChunkOutcomeFirstFailure(df[..m], resolve);
  }

  /** Packaging a task list chunk by chunk, all at one image size, writes what packaging its concatenated
      entries as one chunk writes, when nothing in them raises. */
  lemma {:induction false} ConcatLogsOfEntries(tasks: seq<Task>, imgSize: nat, w: World, resolve: ResolveFn)
    requires forall k :: 0 <= k < |tasks| ==> tasks[k].imgSize == imgSize
    requires ChunkOutcome(ConcatEntries(tasks), resolve).Ok?
    ensures ConcatLogs(tasks, w, resolve) == ChunkLog(ConcatEntries(tasks), imgSize, w, resolve)
  {
    if tasks != [] {
      var init := tasks[..|tasks| - 1];
      var last := tasks[|tasks| - 1];
      var all := ConcatEntries(tasks);
      var front := ConcatEntries(init);
      assert all == front + last.entries;
      assert all[..|front|] == front;
      PrefixOutcomeOk(all, |front|, resolve);
      ConcatLogsOfEntries(init, imgSize, w, resolve);
      ChunkLogAppend(front, last.entries, imgSize, w, resolve);
    }
  }

  /** When the whole list packages without raising, packaging the plan's chunks writes, chunk after chunk,
      exactly the records that packaging the whole list as one chunk would: every frame of every entry, in
      entry order and frame order, none lost or repeated. */
  lemma PlanLogsReassemble(data: seq<Entry>, vpc: nat, outputFolder: string, imgSize: nat,
                           w: World, resolve: ResolveFn)
    requires vpc > 0
    requires ChunkOutcome(data, resolve).Ok?
    ensures ConcatLogs(Plan(data, vpc, outputFolder, imgSize), w, resolve) == ChunkLog(data, imgSize, w, resolve)
  {
    PlanReassembles(data, vpc, outputFolder, imgSize);
    ConcatLogsOfEntries(Plan(data, vpc, outputFolder, imgSize), imgSize, w, resolve);
  }
}
