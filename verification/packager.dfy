/** `create_chunk`: one chunk's entries resolved in order and written, frame by frame, to the chunk's writer. */
module Packager {
  import opened Common
  import opened Naming
  import opened Frames
  import opened Writer

  /** How each row of a chunk is resolved; `create_chunk` uses `Resolver(w, s)`, the lemmas hold for any. */
  type ResolveFn = Entry -> Result<Resolved, PyError>

  function Resolver(w: World, s: Settings): ResolveFn {
    e => GetVideoAsLabelAndFrames(e, w, s)
  }

  /** The writes one resolved entry contributes: one record per resized frame, each tagged with the entry's
      label index and id. */
  function EntryRecords(r: Resolved, imgSize: nat, w: World): seq<WriteRecord> {
    var imgs := GetResizedImage(r.imgs, imgSize, w);
    seq(|imgs|, i requires 0 <= i < |imgs| => WriteRecord(r.labelIdx, r.videoId, imgs[i]))
  }

  /** The log a chunk's writer holds once `create_chunk` returns or raises: the records of the entries in
      input order, up to the first entry whose resolution raises. */
  function ChunkLog(df: seq<Entry>, imgSize: nat, w: World, resolve: ResolveFn): seq<WriteRecord> {
    if df == [] then []
    else match resolve(df[0])
      case Err(_) => []
      case Ok(r) => EntryRecords(r, imgSize, w) + ChunkLog(df[1..], imgSize, w, resolve)
  }

  /** What `create_chunk` returns, or the first exception it raises. */
  function ChunkOutcome(df: seq<Entry>, resolve: ResolveFn): Result<bool, PyError> {
    if df == [] then Ok(true)
    else match resolve(df[0])
      case Err(e) => Err(e)
      case Ok(_) => ChunkOutcome(df[1..], resolve)
  }

  /** A chunk raises exactly when one of its rows does, and then with the exception of the first such row;
      otherwise it returns True. */
  lemma {:induction false} ChunkOutcomeFirstFailure(df: seq<Entry>, resolve: ResolveFn)
    ensures ChunkOutcome(df, resolve).Err? <==> exists i :: 0 <= i < |df| && resolve(df[i]).Err?
    ensures ChunkOutcome(df, resolve).Ok? ==> ChunkOutcome(df, resolve) == Ok(true)
    ensures ChunkOutcome(df, resolve).Err? ==>
      exists i :: 0 <= i < |df| && resolve(df[i]).Err?
        && ChunkOutcome(df, resolve) == Err(resolve(df[i]).error)
        && forall j :: 0 <= j < i ==> resolve(df[j]).Ok?
  {
    if df != [] {
      ChunkOutcomeFirstFailure(df[1..], resolve);
      if resolve(df[0]).Ok? {
        if ChunkOutcome(df, resolve).Err? {
          var i :| 0 <= i < |df[1..]| && resolve(df[1..][i]).Err?
            && ChunkOutcome(df[1..], resolve) == Err(resolve(df[1..][i]).error)
            && forall j :: 0 <= j < i ==> resolve(df[1..][j]).Ok?;
          assert df[1..][i] == df[i + 1];
          forall j | 0 <= j < i + 1 ensures resolve(df[j]).Ok? {
            if j > 0 { assert df[j] == df[1..][j - 1]; }
          }
        } else {
          forall i | 0 <= i < |df| ensures resolve(df[i]).Ok? {
            if i > 0 { assert df[i] == df[1..][i - 1]; }
          }
        }
      }
    }
  }

  /** The label of an entry that makes the source's resolution raise. */
  predicate MissingLabel(e: Entry, s: Settings) {
    s.dumpLabels && e.labelName !in s.labels2idx
  }

  /** With the modelled resolver, whose bursting, image reading and resizing never raise, a chunk fails exactly
      when labels are dumped and one of its entries has a label the dictionary lacks, and it raises the
      KeyError of the first such entry. */
  lemma ChunkFailsOnFirstMissingLabel(df: seq<Entry>, w: World, s: Settings)
    ensures ChunkOutcome(df, Resolver(w, s)).Err? <==> exists i :: 0 <= i < |df| && MissingLabel(df[i], s)
    ensures ChunkOutcome(df, Resolver(w, s)).Err? ==>
      exists i :: 0 <= i < |df| && MissingLabel(df[i], s)
        && ChunkOutcome(df, Resolver(w, s)) == Err(KeyError(df[i].labelName))
        && forall j :: 0 <= j < i ==> !MissingLabel(df[j], s)
  {
    var resolve := Resolver(w, s);
    ChunkOutcomeFirstFailure(df, resolve);
    assert forall e :: resolve(e) == GetVideoAsLabelAndFrames(e, w, s);
  }

  /** When nothing in `a` raises, a chunk `a + b` has the outcome of `b`. */
  lemma {:induction false} ChunkOutcomeAppend(a: seq<Entry>, b: seq<Entry>, resolve: ResolveFn)
    requires ChunkOutcome(a, resolve).Ok?
    ensures ChunkOutcome(a + b, resolve) == ChunkOutcome(b, resolve)
  {
    if a == [] {
      assert a + b == b;
    } else {
      var c := a + b;
      assert c[0] == a[0] && c[1..] == a[1..] + b;
      ChunkOutcomeAppend(a[1..], b, resolve);
    }
  }

  /** Packaging `a + b` in one chunk writes what packaging `a` writes followed by what packaging `b` writes,
      when nothing in `a` raises. */
  lemma {:induction false} ChunkLogAppend(a: seq<Entry>, b: seq<Entry>, imgSize: nat, w: World, resolve: ResolveFn)
    requires ChunkOutcome(a, resolve).Ok?
    ensures ChunkLog(a + b, imgSize, w, resolve) == ChunkLog(a, imgSize, w, resolve) + ChunkLog(b, imgSize, w, resolve)
  {
    if a == [] {
      assert a + b == b;
    } else {
      var c := a + b;
      assert c[0] == a[0] && c[1..] == a[1..] + b;
      ChunkLogAppend(a[1..], b, imgSize, w, resolve);
    }
  }

  /** When a chunk does not raise, entry k's records form one consecutive run of the log, right after the
      records of the entries before it: frame j of entry k, resized, tagged with entry k's label index and id. */
  lemma ChunkLogEntryRun(df: seq<Entry>, k: nat, imgSize: nat, w: World, resolve: ResolveFn)
    requires k < |df|
    requires ChunkOutcome(df, resolve).Ok?
    ensures resolve(df[k]).Ok?
    ensures var r := resolve(df[k]).value;
      var before := ChunkLog(df[..k], imgSize, w, resolve);
      var log := ChunkLog(df, imgSize, w, resolve);
      && |before| + |r.imgs| <= |log|
      && log[..|before|] == before
      && forall j :: 0 <= j < |r.imgs| ==>
           log[|before| + j] == WriteRecord(r.labelIdx, r.videoId, w.resize(w.imread(r.imgs[j]), imgSize))
  {
    ChunkOutcomeFirstFailure(df, resolve);
    assert df[..k][..] == df[..k];
    ChunkOutcomeFirstFailure(df[..k], resolve);
    assert resolve(df[k]).Ok?;
    assert df == df[..k] + df[k..];
    ChunkLogAppend(df[..k], df[k..], imgSize, w, resolve);
    assert df[k..][0] == df[k];
  }

  /** Regrouping a concatenation; stated on its own so that the row loop below uses it as one fact instead
      of searching for it among the log's definitions. */
  lemma ConcatAssoc<T>(a: seq<T>, b: seq<T>, c: seq<T>)
    ensures (a + b) + c == a + (b + c)
  {
  }

  /** Unfolding the log and outcome of the rows from `idx` on, when row `idx` resolves. */
  lemma ChunkStep(df: seq<Entry>, idx: nat, imgSize: nat, w: World, resolve: ResolveFn)
    requires idx < |df| && resolve(df[idx]).Ok?
    ensures ChunkLog(df[idx..], imgSize, w, resolve)
         == EntryRecords(resolve(df[idx]).value, imgSize, w) + ChunkLog(df[idx + 1..], imgSize, w, resolve)
    ensures ChunkOutcome(df[idx..], resolve) == ChunkOutcome(df[idx + 1..], resolve)
  {
    assert df[idx..][0] == df[idx] && df[idx..][1..] == df[idx + 1..];
  }

  /** The inner loop of `create_chunk`: one `write` per resized frame of a resolved entry, in frame order. */
  method WriteEntry(gulp: GulpVideoIO, r: Resolved, imgSize: nat, w: World)
    requires gulp.isOpen
    modifies gulp
    ensures gulp.isOpen
    ensures gulp.log == old(gulp.log) + EntryRecords(r, imgSize, w)
  {
    var imgs := GetResizedImage(r.imgs, imgSize, w);
    var j := 0;
    while j < |imgs|
      invariant 0 <= j <= |imgs|
      invariant gulp.isOpen
      invariant gulp.log == old(gulp.log) + EntryRecords(r, imgSize, w)[..j]
    {
      gulp.Write(r.labelIdx, r.videoId, imgs[j]);
      j := j + 1;
    }
    assert EntryRecords(r, imgSize, w)[..j] == EntryRecords(r, imgSize, w);
  }

  /** The row loop of `create_chunk`: each row resolved in order and its records written, stopping at the
      first row that raises. The writer ends up holding, after what it held, exactly the chunk's log. */
  method WriteRows(gulp: GulpVideoIO, df: seq<Entry>, imgSize: nat, w: World, resolve: ResolveFn)
    returns (outcome: Result<bool, PyError>)
    requires gulp.isOpen
    modifies gulp
    ensures gulp.isOpen
    ensures outcome == ChunkOutcome(df, resolve)
    ensures gulp.log == old(gulp.log) + ChunkLog(df, imgSize, w, resolve)
  {
    var idx := 0;
    assert df[idx..] == df;
    while idx < |df|
      invariant 0 <= idx <= |df|
      invariant gulp.isOpen
      invariant gulp.log + ChunkLog(df[idx..], imgSize, w, resolve) == old(gulp.log) + ChunkLog(df, imgSize, w, resolve)
      invariant ChunkOutcome(df[idx..], resolve) == ChunkOutcome(df, resolve)
    {
      var row := resolve(df[idx]);
      if row.Err? {
        assert df[idx..][0] == df[idx];
        return Err(row.error);
      }
      ChunkStep(df, idx, imgSize, w, resolve);
      ghost var entry := EntryRecords(row.value, imgSize, w);
      ghost var rest := ChunkLog(df[idx + 1..], imgSize, w, resolve);
      ghost var before := gulp.log;
      WriteEntry(gulp, row.value, imgSize, w);
      ConcatAssoc(before, entry, rest);
      idx := idx + 1;
    }
    assert df[idx..] == [];
    return Ok(true);
  }

  /** `create_chunk`: opens the chunk's writer on the paths `initialize_filenames` gives, resolves each entry in
      order and writes one record per resized frame. A raising entry ends the call with its exception, the
      writer left open and holding the records written so far; otherwise the writer is closed and True is
      returned. The ghost `resolve` is not an input of `create_chunk`: callers pass `Resolver(w, s)`, and
      the contract speaks of that name so the proof does not unfold the resolution of every entry. */
  method CreateChunk(task: Task, w: World, s: Settings, ghost resolve: ResolveFn)
    returns (outcome: Result<bool, PyError>, gulp: GulpVideoIO)
    requires resolve == Resolver(w, s)
    ensures fresh(gulp)
    ensures (gulp.binPath, gulp.metaPath) == InitializeFilenames(task.outputFolder, task.chunkNo)
    ensures outcome == ChunkOutcome(task.entries, resolve)
    ensures gulp.log == ChunkLog(task.entries, task.imgSize, w, resolve)
    ensures gulp.isOpen <==> outcome.Err?
  {
    var paths := InitializeFilenames(task.outputFolder, task.chunkNo);
    gulp := new GulpVideoIO(paths.0, paths.1);
    gulp.Open();
    outcome := WriteRows(gulp, task.entries, task.imgSize, w, Resolver(w, s));
    if outcome.Ok? {
      gulp.Close();
    }
  }
}
