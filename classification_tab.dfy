/** gui/tabs/classification_tab.py: the background worker that feeds each
    selected file to the classification routines and merges their results,
    and the tab's handling of a finished run (save the record, pick the
    newest history file, export it).

    Qt signals are the sequence `emitted` of the worker; the user's cancel
    clicks are the stop requests scheduled in the worker's `Flag`. */
module ClassificationTab {
  import opened Base
  import opened Inference
  import opened FileOperations

  // ---------------------------------------------------------------------
  // Merging the counts of one input
  // ---------------------------------------------------------------------

  /** `class_counts` after adding `newCounts` key by key with
      `class_counts.get(key, 0) + value`. */
  function Merged(counts: Counts, newCounts: Counts): (r: Counts)
    ensures r.Keys == counts.Keys + newCounts.Keys
  {
    map k | k in counts.Keys + newCounts.Keys :: Get(counts, k) + Get(newCounts, k)
  }

  /** Merging adds the totals. */
  lemma {:induction false} MergedTotal(counts: Counts, newCounts: Counts)
    ensures Total(Merged(counts, newCounts)) == Total(counts) + Total(newCounts)
    decreases |newCounts|
  {
    if newCounts == map[] {
      var m := Merged(counts, newCounts);
      assert m.Keys == counts.Keys;
      assert forall j :: j in m ==> m[j] == counts[j];
      assert m == counts;
      assert Total(newCounts) == 0;
    } else {
      var k :| k in newCounts;
      MergedTotal(counts, newCounts - {k});
      MergedStep(counts, newCounts, k);
      TotalRemove(newCounts, k);
    }
  }

  /** Merging one more key adds its count to the merged total. */
  lemma MergedStep(counts: Counts, newCounts: Counts, k: Label)
    requires k in newCounts
    ensures Total(Merged(counts, newCounts)) == Total(Merged(counts, newCounts - {k})) + newCounts[k]
  {
    var m := Merged(counts, newCounts - {k});
    var whole := Merged(counts, newCounts);
    var updated := m[k := Get(counts, k) + newCounts[k]];
    assert whole.Keys == updated.Keys;
    forall j | j in whole
      ensures whole[j] == updated[j]
    {
      if j != k {
        assert Get(newCounts - {k}, j) == Get(newCounts, j);
      }
    }
    assert whole == updated;
    assert Get(m, k) == Get(counts, k);
    TotalUpdate(m, k, Get(counts, k) + newCounts[k]);
  }

  /** A key on one side only keeps its count, a key on both sides gets the
      sum, so every count of a merge is at least the count on either side. */
  lemma MergedBounds(counts: Counts, newCounts: Counts)
    ensures forall k :: k in Merged(counts, newCounts) <==> k in counts || k in newCounts
    ensures forall k :: k in counts && k !in newCounts ==> Merged(counts, newCounts)[k] == counts[k]
    ensures forall k :: k !in counts && k in newCounts ==> Merged(counts, newCounts)[k] == newCounts[k]
    ensures forall k :: k in counts && k in newCounts ==> Merged(counts, newCounts)[k] == counts[k] + newCounts[k]
    ensures forall k :: k in counts ==> Merged(counts, newCounts)[k] >= counts[k]
    ensures forall k :: k in newCounts ==> Merged(counts, newCounts)[k] >= newCounts[k]
  {
  }

  /** Two consistent results merge into a consistent one. */
  lemma MergeKeepsConsistency(a: Batch, b: Batch, names: seq<Label>)
    requires Consistent(a, names) && Consistent(b, names)
    ensures Consistent(Batch(Merged(a.counts, b.counts), a.entries + b.entries), names)
  {
    MergedTotal(a.counts, b.counts);
    LabelTotalAppend(a.entries, b.entries);
  }

  /** The `for key, value in new_class_counts.items()` loop. */
  method MergeCounts(counts: Counts, newCounts: Counts) returns (merged: Counts)
    ensures merged == Merged(counts, newCounts)
  {
    merged := counts;
    var remaining := newCounts.Keys;
    while remaining != {}
      invariant remaining <= newCounts.Keys
      invariant merged == Merged(counts, newCounts - remaining)
      decreases remaining
    {
      var key :| key in remaining;
      MergeLoopStep(counts, newCounts, remaining, key);
      merged := merged[key := Get(merged, key) + newCounts[key]];
      remaining := remaining - {key};
    }
    assert newCounts - {} == newCounts;
  }

  /** One turn of that loop: adding the next key's count to the merge of
      the keys already done is the merge with that key done too. */
  lemma MergeLoopStep(counts: Counts, newCounts: Counts, remaining: set<Label>, key: Label)
    requires key in remaining && remaining <= newCounts.Keys
    ensures var before := Merged(counts, newCounts - remaining);
            Merged(counts, newCounts - (remaining - {key}))
            == before[key := Get(before, key) + newCounts[key]]
  {
    var before := Merged(counts, newCounts - remaining);
    var after := Merged(counts, newCounts - (remaining - {key}));
    var stepped := before[key := Get(before, key) + newCounts[key]];
    assert after.Keys == stepped.Keys;
    forall k | k in after.Keys
      ensures after[k] == stepped[k]
    {
      if k == key {
        assert Get(newCounts - (remaining - {key}), k) == newCounts[k];
        assert Get(newCounts - remaining, k) == 0;
      } else {
        assert Get(newCounts - (remaining - {key}), k) == Get(newCounts - remaining, k);
      }
    }
  }

  // ---------------------------------------------------------------------
  // ClassificationWorker.run
  // ---------------------------------------------------------------------

  datatype InputKind = Archive | Image | Unsupported

  /** The dispatch on the file name: `.zip` first, then the image
      extensions; anything else is skipped. */
  function Kind(path: string): InputKind
  {
    if EndsWith(path, ".zip") then Archive
    else if IsImageName(path) then Image
    else Unsupported
  }

  /** Whatever the stem, a `.zip` name is an archive and a `.png`, `.jpg`
      or `.jpeg` name an image. */
  lemma KindOfExtension(stem: string)
    ensures Kind(stem + ".zip") == Archive
    ensures Kind(stem + ".png") == Image && Kind(stem + ".jpg") == Image && Kind(stem + ".jpeg") == Image
  {
    var z, p, j, e := stem + ".zip", stem + ".png", stem + ".jpg", stem + ".jpeg";
    assert z[|z| - 4..] == ".zip";
    assert p[|p| - 4..] == ".png" && j[|j| - 4..] == ".jpg" && e[|e| - 5..] == ".jpeg";
    assert e[|e| - 4..] == "jpeg";
  }

  /** A name without a dot is skipped. */
  lemma KindWithoutDot(name: string)
    requires '.' !in name
    ensures Kind(name) == Unsupported
  {
    if |name| >= 4 {
      var c := name[|name| - 4];
      assert c in name;
      assert name[|name| - 4..][0] == c;
    }
    if |name| >= 5 {
      var c := name[|name| - 5];
      assert c in name;
      assert name[|name| - 5..][0] == c;
    }
    assert !EndsWith(name, ".zip") && !IsImageName(name);
  }

  /** What the worker emits: `progress_changed(i + 1)`,
      `classification_done(class_counts, image_classifications)` and
      `error_occurred(str(e))` (the exception itself stands for its text). */
  datatype Signal =
    | Progress(value: nat)
    | Done(counts: Counts, entries: seq<Entry>)
    | Failed(error: Error)

  /** The worker's fixed inputs. */
  datatype Job = Job(model: Model, unzip: string -> Option<seq<string>>,
                     filePaths: seq<string>, extractTo: string)

  /** The worker's state between two inputs: the stop event, the files in
      the shared extraction directory, the merged result so far and the
      signals emitted so far. */
  datatype RunState = RunState(flag: Flag, scratch: seq<string>, acc: Batch, emitted: seq<Signal>)

  datatype InputRun = InputRun(result: Result<Batch, Error>, flag: Flag, scratch: seq<string>)

  /** One input: an archive is extracted into the shared directory and all
      images there are classified; an image is classified alone. */
  function ProcessInput(job: Job, path: string, f: Flag, scratch: seq<string>): InputRun
  {
    if Kind(path) == Archive then
      var run := ClassifyArchive(job.model, job.unzip, path, job.extractTo, scratch, f);
      InputRun(run.classified.result, run.classified.flag, run.files)
    else
      var c := ClassifyFrom(job.model, [path], f, Empty);
      InputRun(c.result, c.flag, scratch)
  }

  /** The check after the loop: the result is emitted only if the event is
      still clear. */
  function Finish(s: RunState): RunState
  {
    var f := Poll(s.flag);
    if f.isSet then s.(flag := f)
    else s.(flag := f, emitted := s.emitted + [Done(s.acc.counts, s.acc.entries)])
  }

  /** `run()` from input `i` on: the stop check breaks out of the loop, an
      exception emits `error_occurred` and ends the run, a finished input
      is merged and reported as progress `i + 1`. */
  function RunFrom(job: Job, i: nat, s: RunState): RunState
    requires i <= |job.filePaths|
    decreases |job.filePaths| - i
  {
    if i == |job.filePaths| then Finish(s)
    else
      var f := Poll(s.flag);
      if f.isSet then Finish(s.(flag := f))
      else
        var path := job.filePaths[i];
        if Kind(path) == Unsupported then RunFrom(job, i + 1, s.(flag := f))
        else
          var out := ProcessInput(job, path, f, s.scratch);
          match out.result
          case Err(e) => RunState(out.flag, out.scratch, s.acc, s.emitted + [Failed(e)])
          case Ok(b) =>
            RunFrom(job, i + 1, RunState(out.flag, out.scratch,
              Batch(Merged(s.acc.counts, b.counts), s.acc.entries + b.entries),
              s.emitted + [Progress(i + 1)]))
  }

  // ---------------------------------------------------------------------
  // What a run that nobody stops produces
  // ---------------------------------------------------------------------

  /** The image paths a supported input has classified, and the extraction
      directory afterwards; `None` for an archive zipfile cannot open. */
  function InputPaths(job: Job, path: string, scratch: seq<string>): Option<(seq<string>, seq<string>)>
  {
    if Kind(path) == Archive then
      match job.unzip(path)
      case None => None
      case Some(members) =>
        var after := AddFiles(scratch, members);
        Some((ImagePaths(job.extractTo, after), after))
    else Some(([path], scratch))
  }

  /** The classifications of the inputs from `i` on when nobody asks to
      stop: those of every supported input, in input order, or the first
      error. Defined on the expected entries of each input, without the
      stop event. */
  function ExpectedRun(job: Job, i: nat, scratch: seq<string>): Result<seq<Entry>, Error>
    requires i <= |job.filePaths|
    decreases |job.filePaths| - i
  {
    if i == |job.filePaths| then Ok([])
    else
      var path := job.filePaths[i];
      if Kind(path) == Unsupported then ExpectedRun(job, i + 1, scratch)
      else
        match InputPaths(job, path, scratch)
        case None => Err(BadArchive(path))
        case Some(pa) =>
          match ExpectedEntries(job.model, pa.0)
          case Err(e) => Err(e)
          case Ok(es) => Then(es, ExpectedRun(job, i + 1, pa.1))
  }

  /** The entries `es` followed by those of `rest`, or the error of `rest`. */
  function Then(es: seq<Entry>, rest: Result<seq<Entry>, Error>): Result<seq<Entry>, Error>
  {
    match rest
    case Err(e) => Err(e)
    case Ok(more) => Ok(es + more)
  }

  /** The progress values reported from input `i` on: `i + 1` for every
      supported input. */
  function ProgressFrom(paths: seq<string>, i: nat): seq<Signal>
    requires i <= |paths|
    decreases |paths| - i
  {
    if i == |paths| then []
    else (if Kind(paths[i]) == Unsupported then [] else [Progress(i + 1)]) + ProgressFrom(paths, i + 1)
  }

  /** Merging a count of one more label is counting that label on the
      merged counts. */
  lemma MergedBump(c: Counts, d: Counts, l: Label)
    ensures Merged(c, d[l := Get(d, l) + 1]) == Merged(c, d)[l := Get(Merged(c, d), l) + 1]
  {
    var bumped := d[l := Get(d, l) + 1];
    var m := Merged(c, d);
    var lhs := Merged(c, bumped);
    var rhs := m[l := Get(m, l) + 1];
    assert lhs.Keys == rhs.Keys;
    forall k | k in lhs
      ensures lhs[k] == rhs[k]
    {
      assert lhs[k] == Get(c, k) + Get(bumped, k);
      if k != l {
        assert Get(bumped, k) == Get(d, k);
      }
    }
  }

  /** Merging tallied counts is tallying on top of the merge. */
  lemma {:induction false} MergedTally(c: Counts, d: Counts, labels: seq<Label>)
    ensures Merged(c, Tally(d, labels)) == Tally(Merged(c, d), labels)
    decreases |labels|
  {
    if labels != [] {
      var init := labels[..|labels| - 1];
      MergedTally(c, d, init);
      MergedBump(c, Tally(d, init), labels[|labels| - 1]);
    }
  }

  lemma {:induction false} MergedTallyAll(c: Counts, d: Counts, es: seq<Entry>)
    ensures Merged(c, TallyAll(d, es)) == TallyAll(Merged(c, d), es)
    decreases |es|
  {
    if es != [] {
      MergedTallyAll(c, Tally(d, es[0].classes), es[1..]);
      MergedTally(c, d, es[0].classes);
    }
  }

  lemma {:induction false} TallyAllAppend(c: Counts, a: seq<Entry>, b: seq<Entry>)
    ensures TallyAll(c, a + b) == TallyAll(TallyAll(c, a), b)
    decreases |a|
  {
    if a == [] {
      assert a + b == b;
    } else {
      assert (a + b)[0] == a[0] && (a + b)[1..] == a[1..] + b;
      TallyAllAppend(Tally(c, a[0].classes), a[1..], b);
    }
  }

  /** Merging the counts of a result counted from nothing is counting its
      entries on top of the counts so far. */
  lemma MergedFresh(c: Counts, es: seq<Entry>)
    ensures Merged(c, TallyAll(map[], es)) == TallyAll(c, es)
  {
    MergedTallyAll(c, map[], es);
    assert Merged(c, map[]) == c;
  }

  /** One supported input with nobody asking to stop: the expected entries
      of the paths it covers, counted from nothing. */
  lemma QuietInput(job: Job, path: string, f: Flag, scratch: seq<string>)
    requires Quiet(f) && Kind(path) != Unsupported
    ensures var out := ProcessInput(job, path, f, scratch);
            match InputPaths(job, path, scratch)
            case None => out.result == Err(BadArchive(path))
            case Some(pa) =>
              && out.scratch == pa.1 && Quiet(out.flag)
              && out.result == match ExpectedEntries(job.model, pa.0)
                               case Err(e) => Err(e)
                               case Ok(es) => Ok(Batch(TallyAll(map[], es), es))
  {
    match InputPaths(job, path, scratch) {
      case None =>
      case Some(pa) =>
        ClassifyWithoutStop(job.model, pa.0, f, Empty);
        ClassifyKeepsQuiet(job.model, pa.0, f, Empty);
        match ExpectedEntries(job.model, pa.0) {
          case Err(_) =>
          case Ok(es) => assert Empty.entries + es == es;
        }
    }
  }

  /** The signals `r` has added to those of `s`, given the expected result
      of the inputs in between and their progress reports: the progress,
      then `classification_done` with the expected entries counted on top
      of the counts of `s` and appended to its entries; or the expected
      error, last. */
  ghost predicate Emits(s: RunState, r: RunState, expected: Result<seq<Entry>, Error>, progress: seq<Signal>)
  {
    match expected
    case Ok(es) => r.emitted == s.emitted + progress + [Done(TallyAll(s.acc.counts, es), s.acc.entries + es)]
    case Err(e) => |r.emitted| > |s.emitted| && r.emitted[|r.emitted| - 1] == Failed(e)
  }

  /** Emitting one progress report and taking in the entries `es` before
      the rest of a run composes with what the rest emits. */
  lemma EmitsAfter(s: RunState, next: RunState, r: RunState, es: seq<Entry>, p: Signal,
                   expected: Result<seq<Entry>, Error>, progress: seq<Signal>)
    requires next.emitted == s.emitted + [p]
    requires next.acc == Batch(TallyAll(s.acc.counts, es), s.acc.entries + es)
    requires Emits(next, r, expected, progress)
    ensures Emits(s, r, Then(es, expected), [p] + progress)
  {
    match expected {
      case Err(_) =>
      case Ok(rest) =>
        TallyAllAppend(s.acc.counts, es, rest);
        assert s.acc.entries + es + rest == s.acc.entries + (es + rest);
        assert s.emitted + [p] + progress == s.emitted + ([p] + progress);
    }
  }

  /** One supported input that succeeds, with nobody asking to stop: the
      run goes on from the next input with the input's entries appended,
      their labels counted, and its progress reported. */
  lemma QuietStep(job: Job, i: nat, s: RunState, pa: (seq<string>, seq<string>), es: seq<Entry>)
    returns (next: RunState)
    requires i < |job.filePaths| && Quiet(s.flag) && Kind(job.filePaths[i]) != Unsupported
    requires InputPaths(job, job.filePaths[i], s.scratch) == Some(pa)
    requires ExpectedEntries(job.model, pa.0) == Ok(es)
    ensures RunFrom(job, i, s) == RunFrom(job, i + 1, next)
    ensures Quiet(next.flag) && next.scratch == pa.1
    ensures next.acc == Batch(TallyAll(s.acc.counts, es), s.acc.entries + es)
    ensures next.emitted == s.emitted + [Progress(i + 1)]
    ensures ExpectedRun(job, i, s.scratch) == Then(es, ExpectedRun(job, i + 1, pa.1))
    ensures ProgressFrom(job.filePaths, i) == [Progress(i + 1)] + ProgressFrom(job.filePaths, i + 1)
  {
    var f := Poll(s.flag);
    PollKeepsQuiet(s.flag);
    var out := ProcessInput(job, job.filePaths[i], f, s.scratch);
    QuietInput(job, job.filePaths[i], f, s.scratch);
    MergedFresh(s.acc.counts, es);
    next := RunState(out.flag, out.scratch,
      Batch(Merged(s.acc.counts, TallyAll(map[], es)), s.acc.entries + es),
      s.emitted + [Progress(i + 1)]);
  }

  /** One skipped input, with nobody asking to stop: only the poll of the
      stop event happens. */
  lemma QuietSkip(job: Job, i: nat, s: RunState) returns (next: RunState)
    requires i < |job.filePaths| && Quiet(s.flag) && Kind(job.filePaths[i]) == Unsupported
    ensures RunFrom(job, i, s) == RunFrom(job, i + 1, next)
    ensures Quiet(next.flag) && next.scratch == s.scratch && next.acc == s.acc && next.emitted == s.emitted
    ensures ExpectedRun(job, i, s.scratch) == ExpectedRun(job, i + 1, s.scratch)
    ensures ProgressFrom(job.filePaths, i) == ProgressFrom(job.filePaths, i + 1)
  {
    PollKeepsQuiet(s.flag);
    next := s.(flag := Poll(s.flag));
  }

  /** One supported input that raises, with nobody asking to stop: the run
      ends with that error. */
  lemma QuietFail(job: Job, i: nat, s: RunState)
    requires i < |job.filePaths| && Quiet(s.flag) && Kind(job.filePaths[i]) != Unsupported
    requires var path := job.filePaths[i];
             match InputPaths(job, path, s.scratch)
             case None => true
             case Some(pa) => ExpectedEntries(job.model, pa.0).Err?
    ensures Emits(s, RunFrom(job, i, s), ExpectedRun(job, i, s.scratch), ProgressFrom(job.filePaths, i))
  {
    var f := Poll(s.flag);
    PollKeepsQuiet(s.flag);
    QuietInput(job, job.filePaths[i], f, s.scratch);
  }

  /** A run nobody stops reports progress for every supported input and
      then emits `classification_done` with the counts of all their
      entries added key by key to those so far, and the entries appended in
      input order; or, if an input raises, ends with that error. */
  lemma {:induction false} QuietRunResult(job: Job, i: nat, s: RunState)
    requires i <= |job.filePaths| && Quiet(s.flag)
    ensures Emits(s, RunFrom(job, i, s), ExpectedRun(job, i, s.scratch), ProgressFrom(job.filePaths, i))
    decreases |job.filePaths| - i, 1
  {
    if i == |job.filePaths| {
      assert RunFrom(job, i, s) == Finish(s);
      assert ExpectedRun(job, i, s.scratch) == Ok([]) && ProgressFrom(job.filePaths, i) == [];
      assert s.acc.entries + [] == s.acc.entries;
    } else if Kind(job.filePaths[i]) == Unsupported {
      var next := QuietSkip(job, i, s);
      QuietRunResult(job, i + 1, next);
    } else {
      match InputPaths(job, job.filePaths[i], s.scratch) {
        case None => QuietFail(job, i, s);
        case Some(pa) =>
          match ExpectedEntries(job.model, pa.0) {
            case Err(_) => QuietFail(job, i, s);
            case Ok(es) => QuietRunContinue(job, i, s, pa, es);
          }
      }
    }
  }

  /** `QuietRunResult` past a supported input that succeeds. */
  lemma {:induction false} QuietRunContinue(job: Job, i: nat, s: RunState,
                                            pa: (seq<string>, seq<string>), es: seq<Entry>)
    requires i < |job.filePaths| && Quiet(s.flag) && Kind(job.filePaths[i]) != Unsupported
    requires InputPaths(job, job.filePaths[i], s.scratch) == Some(pa)
    requires ExpectedEntries(job.model, pa.0) == Ok(es)
    ensures Emits(s, RunFrom(job, i, s), ExpectedRun(job, i, s.scratch), ProgressFrom(job.filePaths, i))
    decreases |job.filePaths| - i, 0
  {
    var next := QuietStep(job, i, s, pa, es);
    QuietRunResult(job, i + 1, next);
    EmitsAfter(s, next, RunFrom(job, i + 1, next), es, Progress(i + 1),
               ExpectedRun(job, i + 1, pa.1), ProgressFrom(job.filePaths, i + 1));
  }

  /** A whole run over images only, nobody stopping it, reports progress
      `1 .. n` and then the expected entries of all the images, in order,
      with their label counts. */
  lemma QuietImageRun(job: Job, f: Flag, scratch: seq<string>)
    requires Quiet(f)
    requires forall k :: 0 <= k < |job.filePaths| ==> Kind(job.filePaths[k]) == Image
    ensures var r := RunFrom(job, 0, Start(f, scratch, []));
            match ExpectedEntries(job.model, job.filePaths)
            case Ok(es) =>
              r.emitted == seq(|job.filePaths|, k requires 0 <= k < |job.filePaths| => Progress(k + 1)) + [Done(TallyAll(map[], es), es)]
            case Err(e) => r.emitted != [] && r.emitted[|r.emitted| - 1] == Failed(e)
  {
    var s := Start(f, scratch, []);
    var progress := seq(|job.filePaths|, k requires 0 <= k < |job.filePaths| => Progress(k + 1));
    QuietImageEmits(job, s);
    match ExpectedEntries(job.model, job.filePaths) {
      case Err(_) =>
      case Ok(es) =>
        assert s.emitted + progress == progress && s.acc.entries + es == es;
    }
  }

  /** `QuietRunResult` from the first input when every input is an image. */
  lemma QuietImageEmits(job: Job, s: RunState)
    requires Quiet(s.flag)
    requires forall k :: 0 <= k < |job.filePaths| ==> Kind(job.filePaths[k]) == Image
    ensures Emits(s, RunFrom(job, 0, s), ExpectedEntries(job.model, job.filePaths),
                  seq(|job.filePaths|, k requires 0 <= k < |job.filePaths| => Progress(k + 1)))
  {
    QuietRunResult(job, 0, s);
    assert job.filePaths[0..] == job.filePaths;
    ExpectedRunOfImages(job, 0, s.scratch);
    ProgressOfImages(job.filePaths, 0);
  }

  /** Over images only, the run's expected result is the expected entries
      of the remaining paths. */
  lemma {:induction false} ExpectedRunOfImages(job: Job, i: nat, scratch: seq<string>)
    requires i <= |job.filePaths|
    requires forall k :: i <= k < |job.filePaths| ==> Kind(job.filePaths[k]) == Image
    ensures ExpectedRun(job, i, scratch) == ExpectedEntries(job.model, job.filePaths[i..])
    decreases |job.filePaths| - i
  {
    if i < |job.filePaths| {
      var path := job.filePaths[i];
      ExpectedRunOfImages(job, i + 1, scratch);
      assert job.filePaths[i..] == [path] + job.filePaths[i + 1..];
      ExpectedEntriesCons(job.model, path, job.filePaths[i + 1..]);
    }
  }

  /** The expected entries of a path followed by more paths. */
  lemma ExpectedEntriesCons(m: Model, p: string, rest: seq<string>)
    ensures ExpectedEntries(m, [p] + rest) ==
            match ExpectedEntries(m, [p])
            case Err(e) => Err(e)
            case Ok(es) =>
              match ExpectedEntries(m, rest)
              case Err(e) => Err(e)
              case Ok(more) => Ok(es + more)
  {
    assert ([p] + rest)[0] == p && ([p] + rest)[1..] == rest && [p][1..] == [];
    match ExpectedEntries(m, rest) {
      case Err(_) =>
      case Ok(more) =>
        assert [] + more == more;
        match m.predict(p) {
          case DecodeFail =>
          case InferFail =>
          case Outputs(top1) =>
            match TopLabels(m.names, top1) {
              case Err(_) =>
              case Ok(labels) => assert [Entry(p, labels)] + [] == [Entry(p, labels)];
            }
        }
    }
  }

  lemma {:induction false} ProgressOfImages(paths: seq<string>, i: nat)
    requires i <= |paths|
    requires forall k :: i <= k < |paths| ==> Kind(paths[k]) == Image
    ensures ProgressFrom(paths, i) == seq(|paths| - i, k requires 0 <= k < |paths| - i => Progress(i + k + 1))
    decreases |paths| - i
  {
    if i < |paths| {
      assert Kind(paths[i]) == Image;
      assert ProgressFrom(paths, i) == [Progress(i + 1)] + ProgressFrom(paths, i + 1);
      ProgressOfImages(paths, i + 1);
      var all := seq(|paths| - i, k requires 0 <= k < |paths| - i => Progress(i + k + 1));
      var rest := seq(|paths| - (i + 1), k requires 0 <= k < |paths| - (i + 1) => Progress(i + 1 + k + 1));
      assert all == [Progress(i + 1)] + rest by {
        assert forall k :: 0 <= k < |rest| ==> all[k + 1] == rest[k];
      }
    }
  }

  /** Facts about one input that the run relies on. */
  lemma InputFacts(job: Job, path: string, f: Flag, scratch: seq<string>)
    ensures var out := ProcessInput(job, path, f, scratch);
            && (out.result.Ok? ==> Consistent(out.result.value, job.model.names))
            && (f.isSet ==> out.flag.isSet)
            && (Quiet(f) ==> Quiet(out.flag))
  {
    var m := job.model;
    var paths := if Kind(path) == Archive && job.unzip(path).Some?
                 then ImagePaths(job.extractTo, AddFiles(scratch, job.unzip(path).value))
                 else [path];
    assert Consistent(Empty, m.names);
    ClassifyKeepsConsistency(m, paths, f, Empty);
    ClassifyFlagSticky(m, paths, f, Empty);
    if Quiet(f) {
      ClassifyKeepsQuiet(m, paths, f, Empty);
    }
  }

  /** The signals of a run over `n` inputs that has reported progress up to
      `last`: progress values that strictly increase and stay at most `n`,
      then at most one terminal signal, last. */
  predicate WellFormed(ev: seq<Signal>, last: nat, n: nat)
    decreases |ev|
  {
    ev == [] ||
    match ev[0]
    case Progress(v) => last < v <= n && WellFormed(ev[1..], v, n)
    case _ => |ev| == 1
  }

  lemma {:induction false} WellFormedWeaken(ev: seq<Signal>, last: nat, lower: nat, n: nat)
    requires lower <= last && WellFormed(ev, last, n)
    ensures WellFormed(ev, lower, n)
  {
  }

  /** What a well-formed sequence promises, spelled out. */
  lemma {:induction false} WellFormedFacts(ev: seq<Signal>, last: nat, n: nat)
    requires WellFormed(ev, last, n)
    ensures forall k :: 0 <= k < |ev| - 1 ==> ev[k].Progress?
    ensures forall k :: 0 <= k < |ev| && ev[k].Progress? ==> last < ev[k].value <= n
    ensures forall j, k :: 0 <= j < k < |ev| && ev[j].Progress? && ev[k].Progress? ==>
              ev[j].value < ev[k].value
    decreases |ev|
  {
    if ev != [] && ev[0].Progress? {
      WellFormedFacts(ev[1..], ev[0].value, n);
      assert forall k :: 1 <= k < |ev| ==> ev[k] == ev[1..][k - 1];
    }
  }

  /** Every progress value names an input the worker did not skip. */
  predicate ReportsSupported(ev: seq<Signal>, paths: seq<string>)
  {
    forall k :: 0 <= k < |ev| && ev[k].Progress? ==>
      1 <= ev[k].value <= |paths| && Kind(paths[ev[k].value - 1]) != Unsupported
  }

  lemma ReportsSupportedCons(v: nat, tail: seq<Signal>, paths: seq<string>)
    requires 1 <= v <= |paths| && Kind(paths[v - 1]) != Unsupported
    requires ReportsSupported(tail, paths)
    ensures ReportsSupported([Progress(v)] + tail, paths)
  {
    assert forall k :: 1 <= k < 1 + |tail| ==> ([Progress(v)] + tail)[k] == tail[k - 1];
  }

  /** A run only appends to the signals already emitted. */
  lemma {:induction false} RunAppends(job: Job, i: nat, s: RunState)
    requires i <= |job.filePaths|
    ensures var r := RunFrom(job, i, s);
            |s.emitted| <= |r.emitted| && r.emitted[..|s.emitted|] == s.emitted
    decreases |job.filePaths| - i
  {
    var r := RunFrom(job, i, s);
    var f := Poll(s.flag);
    if i == |job.filePaths| || f.isSet {
      assert r.emitted[..|s.emitted|] == s.emitted;
    } else if Kind(job.filePaths[i]) == Unsupported {
      RunAppends(job, i + 1, s.(flag := f));
    } else {
      var out := ProcessInput(job, job.filePaths[i], f, s.scratch);
      if out.result.Err? {
        assert r.emitted[..|s.emitted|] == s.emitted;
      } else {
        var b := out.result.value;
        var s' := RunState(out.flag, out.scratch,
          Batch(Merged(s.acc.counts, b.counts), s.acc.entries + b.entries),
          s.emitted + [Progress(i + 1)]);
        RunAppends(job, i + 1, s');
        assert r.emitted[..|s.emitted|] == r.emitted[..|s'.emitted|][..|s.emitted|];
      }
    }
  }

  /** The signals `r` has added to those of `s`, a run from input `i` on:
      a well-formed sequence of progress reports for inputs the worker
      processed, then at most one terminal signal. */
  ghost predicate Signals(s: RunState, r: RunState, i: nat, paths: seq<string>)
  {
    && |s.emitted| <= |r.emitted|
    && WellFormed(r.emitted[|s.emitted|..], i, |paths|)
    && ReportsSupported(r.emitted[|s.emitted|..], paths)
  }

  /** A progress report for a processed input `i` before the rest of a run
      keeps the signals well formed. */
  lemma SignalsAfterProgress(s: RunState, next: RunState, r: RunState, i: nat, paths: seq<string>)
    requires i < |paths| && Kind(paths[i]) != Unsupported
    requires next.emitted == s.emitted + [Progress(i + 1)]
    requires |next.emitted| <= |r.emitted| && r.emitted[..|next.emitted|] == next.emitted
    requires Signals(next, r, i + 1, paths)
    ensures Signals(s, r, i, paths)
  {
    var tail := r.emitted[|next.emitted|..];
    assert r.emitted[|s.emitted|..] == [Progress(i + 1)] + tail;
    ReportsSupportedCons(i + 1, tail, paths);
  }

  /** A skipped input lowers the starting point of a well-formed run. */
  lemma SignalsAfterSkip(s: RunState, r: RunState, i: nat, paths: seq<string>)
    requires Signals(s, r, i + 1, paths)
    ensures Signals(s, r, i, paths)
  {
    WellFormedWeaken(r.emitted[|s.emitted|..], i + 1, i, |paths|);
  }

  /** The signals a run adds: a well-formed sequence of progress reports
      for inputs it processed, then at most one terminal signal. */
  lemma {:induction false} RunSignals(job: Job, i: nat, s: RunState)
    requires i <= |job.filePaths|
    ensures Signals(s, RunFrom(job, i, s), i, job.filePaths)
    decreases |job.filePaths| - i
  {
    var r := RunFrom(job, i, s);
    var f := Poll(s.flag);
    if i == |job.filePaths| || f.isSet {
      RunAppends(job, i, s);
      assert r.emitted[|s.emitted|..] == [] || r.emitted[|s.emitted|..] == [Done(s.acc.counts, s.acc.entries)];
    } else if Kind(job.filePaths[i]) == Unsupported {
      assert r == RunFrom(job, i + 1, s.(flag := f));
      RunSignals(job, i + 1, s.(flag := f));
      SignalsAfterSkip(s, r, i, job.filePaths);
    } else {
      var out := ProcessInput(job, job.filePaths[i], f, s.scratch);
      if out.result.Err? {
        assert r.emitted[|s.emitted|..] == [Failed(out.result.error)];
      } else {
        var b := out.result.value;
        var next := RunState(out.flag, out.scratch,
          Batch(Merged(s.acc.counts, b.counts), s.acc.entries + b.entries),
          s.emitted + [Progress(i + 1)]);
        assert r == RunFrom(job, i + 1, next);
        RunSignals(job, i + 1, next);
        RunAppends(job, i + 1, next);
        SignalsAfterProgress(s, next, r, i, job.filePaths);
      }
    }
  }

  /** `classification_done` ends the signals `r` added to those of `s`
      exactly when the run did not fail and the event was clear at the
      last check, and it carries the merged result. */
  ghost predicate Outcome(s: RunState, r: RunState)
  {
    && |s.emitted| <= |r.emitted|
    && (|r.emitted| > |s.emitted| && r.emitted[|r.emitted| - 1].Done? ==>
          r.emitted[|r.emitted| - 1] == Done(r.acc.counts, r.acc.entries) && !r.flag.isSet)
    && (!r.flag.isSet && (|r.emitted| == |s.emitted| || !r.emitted[|r.emitted| - 1].Failed?) ==>
          |r.emitted| > |s.emitted| && r.emitted[|r.emitted| - 1].Done?)
  }

  /** A progress report before the rest of a run keeps its outcome. */
  lemma OutcomeAfterProgress(s: RunState, next: RunState, r: RunState, p: nat)
    requires next.emitted == s.emitted + [Progress(p)]
    requires |next.emitted| <= |r.emitted| && r.emitted[..|next.emitted|] == next.emitted
    requires Outcome(next, r)
    ensures Outcome(s, r)
  {
    if |r.emitted| == |next.emitted| {
      assert r.emitted[|r.emitted| - 1] == next.emitted[|next.emitted| - 1];
    }
  }

  /** The run emits `classification_done` exactly when it neither failed
      nor found the event set at its last check, and then with the merged
      result. */
  lemma {:induction false} RunOutcome(job: Job, i: nat, s: RunState)
    requires i <= |job.filePaths|
    ensures Outcome(s, RunFrom(job, i, s))
    decreases |job.filePaths| - i
  {
    var f := Poll(s.flag);
    if i == |job.filePaths| || f.isSet {
    } else if Kind(job.filePaths[i]) == Unsupported {
      RunOutcome(job, i + 1, s.(flag := f));
    } else {
      var out := ProcessInput(job, job.filePaths[i], f, s.scratch);
      if out.result.Ok? {
        var b := out.result.value;
        var next := RunState(out.flag, out.scratch,
          Batch(Merged(s.acc.counts, b.counts), s.acc.entries + b.entries),
          s.emitted + [Progress(i + 1)]);
        var r := RunFrom(job, i + 1, next);
        assert RunFrom(job, i, s) == r;
        RunOutcome(job, i + 1, next);
        RunAppends(job, i + 1, next);
        assert Outcome(next, r);
        OutcomeAfterProgress(s, next, r, i + 1);
      } else {
        var r := RunFrom(job, i, s);
        assert r.emitted == s.emitted + [Failed(out.result.error)];
      }
    }
  }

  /** The merged result stays consistent: counts add up to the class
      entries and every counted label is one of the model's names. */
  lemma {:induction false} RunKeepsConsistency(job: Job, i: nat, s: RunState)
    requires i <= |job.filePaths| && Consistent(s.acc, job.model.names)
    ensures Consistent(RunFrom(job, i, s).acc, job.model.names)
    decreases |job.filePaths| - i
  {
    if i < |job.filePaths| {
      var f := Poll(s.flag);
      if !f.isSet {
        var path := job.filePaths[i];
        if Kind(path) == Unsupported {
          RunKeepsConsistency(job, i + 1, s.(flag := f));
        } else {
          var out := ProcessInput(job, path, f, s.scratch);
          InputFacts(job, path, f, s.scratch);
          if out.result.Ok? {
            var b := out.result.value;
            MergeKeepsConsistency(s.acc, b, job.model.names);
            RunKeepsConsistency(job, i + 1, RunState(out.flag, out.scratch,
              Batch(Merged(s.acc.counts, b.counts), s.acc.entries + b.entries),
              s.emitted + [Progress(i + 1)]));
          }
        }
      }
    }
  }

  /** Once the event is set the worker emits nothing more: a stop made
      before the run starts suppresses every signal. */
  lemma StoppedRunEmitsNothing(job: Job, i: nat, s: RunState)
    requires i <= |job.filePaths| && s.flag.isSet
    ensures RunFrom(job, i, s).emitted == s.emitted
  {
  }

  /** `r` has emitted something beyond the signals of `s`, and its last
      signal is `classification_done` or `error_occurred`. */
  ghost predicate Terminated(s: RunState, r: RunState)
  {
    |r.emitted| > |s.emitted| && (r.emitted[|r.emitted| - 1].Done? || r.emitted[|r.emitted| - 1].Failed?)
  }

  /** A run nobody stops ends with exactly one terminal signal. */
  lemma {:induction false} QuietRunTerminates(job: Job, i: nat, s: RunState)
    requires i <= |job.filePaths| && Quiet(s.flag)
    ensures Terminated(s, RunFrom(job, i, s))
    decreases |job.filePaths| - i
  {
    var r := RunFrom(job, i, s);
    var f := Poll(s.flag);
    PollKeepsQuiet(s.flag);
    if i == |job.filePaths| {
      assert r == Finish(s);
    } else {
      var path := job.filePaths[i];
      if Kind(path) == Unsupported {
        assert r == RunFrom(job, i + 1, s.(flag := f));
        QuietRunTerminates(job, i + 1, s.(flag := f));
      } else {
        var out := ProcessInput(job, path, f, s.scratch);
        InputFacts(job, path, f, s.scratch);
        if out.result.Ok? {
          var b := out.result.value;
          var next := RunState(out.flag, out.scratch,
            Batch(Merged(s.acc.counts, b.counts), s.acc.entries + b.entries),
            s.emitted + [Progress(i + 1)]);
          assert r == RunFrom(job, i + 1, next);
          QuietRunTerminates(job, i + 1, next);
        } else {
          assert r.emitted == s.emitted + [Failed(out.result.error)];
        }
      }
    }
  }

  /** The first state of `run()`: empty counts and classifications. */
  function Start(f: Flag, scratch: seq<string>, emitted: seq<Signal>): RunState
  {
    RunState(f, scratch, Empty, emitted)
  }

  /** The signals of a whole run: progress reports that climb strictly up
      to at most the number of files (the progress dialog's maximum), each
      for a file that was processed, then at most one of `done` and
      `error`; `done` carries counts consistent with its classifications. */
  lemma WholeRun(job: Job, f: Flag, scratch: seq<string>)
    ensures var r := RunFrom(job, 0, Start(f, scratch, []));
            && (forall k :: 0 <= k < |r.emitted| - 1 ==> r.emitted[k].Progress?)
            && (forall k :: 0 <= k < |r.emitted| && r.emitted[k].Progress? ==>
                  0 < r.emitted[k].value <= |job.filePaths|
                  && Kind(job.filePaths[r.emitted[k].value - 1]) != Unsupported)
            && (forall j, k :: 0 <= j < k < |r.emitted| && r.emitted[j].Progress? && r.emitted[k].Progress? ==>
                  r.emitted[j].value < r.emitted[k].value)
            && (forall k :: 0 <= k < |r.emitted| && r.emitted[k].Done? ==>
                  Consistent(Batch(r.emitted[k].counts, r.emitted[k].entries), job.model.names))
  {
    var s := Start(f, scratch, []);
    var r := RunFrom(job, 0, s);
    RunSignals(job, 0, s);
    RunOutcome(job, 0, s);
    assert Consistent(Empty, job.model.names);
    RunKeepsConsistency(job, 0, s);
    WholeRunSignals(s, r, job.filePaths, job.model.names);
  }

  /** The facts of `WholeRun` about the signals of a run from its first
      state. */
  lemma WholeRunSignals(s: RunState, r: RunState, paths: seq<string>, names: seq<Label>)
    requires s.emitted == []
    requires Signals(s, r, 0, paths) && Outcome(s, r) && Consistent(r.acc, names)
    ensures forall k :: 0 <= k < |r.emitted| - 1 ==> r.emitted[k].Progress?
    ensures forall k :: 0 <= k < |r.emitted| && r.emitted[k].Progress? ==>
              0 < r.emitted[k].value <= |paths| && Kind(paths[r.emitted[k].value - 1]) != Unsupported
    ensures forall j, k :: 0 <= j < k < |r.emitted| && r.emitted[j].Progress? && r.emitted[k].Progress? ==>
              r.emitted[j].value < r.emitted[k].value
    ensures forall k :: 0 <= k < |r.emitted| && r.emitted[k].Done? ==>
              Consistent(Batch(r.emitted[k].counts, r.emitted[k].entries), names)
  {
    assert r.emitted[0..] == r.emitted;
    WellFormedFacts(r.emitted, 0, |paths|);
    forall k | 0 <= k < |r.emitted| && r.emitted[k].Done?
      ensures Consistent(Batch(r.emitted[k].counts, r.emitted[k].entries), names)
    {
      assert k == |r.emitted| - 1;
    }
  }

  class ClassificationWorker {
    const filePaths: seq<string>
    const model: Model
    /** The zip reader the archive routine uses. */
    const unzip: string -> Option<seq<string>>
    const extractTo: string
    /** `self.stop_event`, with the stop requests still to come. */
    var stopEvent: Flag
    /** The files in the extraction directory. */
    var scratch: seq<string>
    /** The signals emitted so far. */
    var emitted: seq<Signal>

    function AsJob(): Job
    {
      Job(model, unzip, filePaths, extractTo)
    }

    /** A worker over a fresh, empty extraction directory with a clear stop
        event; `requests` says at which checks a cancel has come in. */
    constructor (filePaths: seq<string>, model: Model, unzip: string -> Option<seq<string>>,
                 extractTo: string, requests: seq<bool>)
      ensures this.filePaths == filePaths && this.model == model && this.unzip == unzip
      ensures this.extractTo == extractTo
      ensures stopEvent == Flag(false, requests) && scratch == [] && emitted == []
    {
      this.filePaths := filePaths;
      this.model := model;
      this.unzip := unzip;
      this.extractTo := extractTo;
      stopEvent := Flag(false, requests);
      scratch := [];
      emitted := [];
    }

    /** `run()`. */
    method Run()
      modifies this
      ensures var r := RunFrom(AsJob(), 0, Start(old(stopEvent), old(scratch), old(emitted)));
              stopEvent == r.flag && scratch == r.scratch && emitted == r.emitted
    {
      ghost var start := Start(stopEvent, scratch, emitted);
      var counts: Counts := map[];
      var entries: seq<Entry> := [];
      var i := 0;
      while i < |filePaths|
        invariant 0 <= i <= |filePaths|
        invariant RunFrom(AsJob(), 0, start)
                  == RunFrom(AsJob(), i, RunState(stopEvent, scratch, Batch(counts, entries), emitted))
      {
        stopEvent := Poll(stopEvent);
        if stopEvent.isSet {
          assert RunFrom(AsJob(), 0, start)
                 == Finish(RunState(stopEvent, scratch, Batch(counts, entries), emitted));
          break;
        }
        var path := filePaths[i];
        var kind := Kind(path);
        if kind == Unsupported {
          i := i + 1;
          continue;
        }
        var result;
        if kind == Archive {
          result, stopEvent, scratch := ProcessArchiveClassification(model, unzip, path, extractTo, scratch, stopEvent);
        } else {
          result, stopEvent := ProcessImagesClassification(model, [path], stopEvent);
        }
        if result.Err? {
          emitted := emitted + [Failed(result.error)];
          return;
        }
        counts := MergeCounts(counts, result.value.counts);
        entries := entries + result.value.entries;
        emitted := emitted + [Progress(i + 1)];
        i := i + 1;
      }
      assert RunFrom(AsJob(), 0, start)
             == Finish(RunState(stopEvent, scratch, Batch(counts, entries), emitted));
      stopEvent := Poll(stopEvent);
      if !stopEvent.isSet {
        emitted := emitted + [Done(counts, entries)];
      }
    }

    /** `stop()`: sets the event (the wait for the thread is not modelled). */
    method Stop()
      modifies this
      ensures stopEvent == old(stopEvent).(isSet := true)
      ensures scratch == old(scratch) && emitted == old(emitted)
    {
      stopEvent := stopEvent.(isSet := true);
    }
  }

  /** `load_file_classification`: nothing happens when no file is chosen;
      otherwise a worker starts on a new temporary directory. */
  method LoadFileClassification(filePaths: seq<string>, model: Model,
                                unzip: string -> Option<seq<string>>,
                                tempDir: string, requests: seq<bool>)
    returns (worker: ClassificationWorker?)
    ensures filePaths == [] <==> worker == null
    ensures worker != null ==>
              && fresh(worker) && worker.filePaths == filePaths && worker.extractTo == tempDir
              && worker.model == model && worker.unzip == unzip
              && worker.stopEvent == Flag(false, requests) && worker.scratch == [] && worker.emitted == []
  {
    if filePaths == [] {
      return null;
    }
    worker := new ClassificationWorker(filePaths, model, unzip, tempDir, requests);
  }

  // ---------------------------------------------------------------------
  // ClassificationTab.on_classification_done
  // ---------------------------------------------------------------------

  /** `x` comes last in `sorted(names)`. */
  predicate IsLatest(names: set<string>, x: string)
  {
    x in names && forall y :: y in names && y != x ==> LexLess(y, x)
  }

  lemma {:induction false} LatestExists(names: set<string>)
    requires names != {}
    ensures exists x :: IsLatest(names, x)
    decreases |names|
  {
    var y :| y in names;
    var rest := names - {y};
    if rest == {} {
      assert names == rest + {y};
      assert IsLatest(names, y);
    } else {
      LatestExists(rest);
      var z :| IsLatest(rest, z);
      LexLessTotal(y, z);
      if LexLess(y, z) {
        assert IsLatest(names, z);
      } else {
        forall w | w in names && w != y
          ensures LexLess(w, y)
        {
          if w != z {
            LexLessTransitive(w, z, y);
          }
        }
        assert IsLatest(names, y);
      }
    }
  }

  lemma LatestUnique(names: set<string>)
    ensures forall x, x' :: IsLatest(names, x) && IsLatest(names, x') ==> x == x'
  {
    forall x, x' | IsLatest(names, x) && IsLatest(names, x')
      ensures x == x'
    {
      if x != x' {
        LexLessAsymmetric(x', x);
      }
    }
  }

  /** `sorted(history_files)[-1]`. */
  function Latest(names: set<string>): (r: string)
    requires names != {}
    ensures r in names
    ensures forall y :: y in names && y != r ==> LexLess(y, r)
  {
    LatestExists(names);
    LatestUnique(names);
    var x :| IsLatest(names, x);
    x
  }

  /** How `on_classification_done` ends: no counts (error box, nothing
      saved), the report written, or an exception from the save or the
      export. */
  datatype Completion = NothingSaved | Reported(path: string) | Raised(error: IoError)

  /** `on_classification_done(class_counts, image_classifications)`, with
      the clock read by the save and by the export. The plot and the list
      refreshes are left out. */
  function OnClassificationDone(fs: FileSystem, b: Batch, saveTime: DateTime, exportTime: DateTime)
    : (r: (FileSystem, Completion))
    requires ValidDateTime(saveTime) && ValidDateTime(exportTime)
    ensures b.counts == map[] ==> r == (fs, NothingSaved)
    ensures b.counts != map[] ==> !r.1.NothingSaved?
    ensures b.counts != map[] && r.1.Reported? ==>
              && r.0.metadata.Some? && RecordName(saveTime) in r.0.metadata.value
              && r.0.metadata.value[RecordName(saveTime)] == File(JsonText(EncodeRecord(b)))
              && r.0.reports.Some? && exists name :: name in r.0.reports.value && r.1.path == JoinPath(ReportsDirectory, name)
    ensures b.counts != map[] ==> r.0.metadata == SaveClassificationResults(fs, b, saveTime).fs.metadata
    ensures r.1.Reported? ==>
              var saved := SaveClassificationResults(fs, b, saveTime).fs;
              && saved.metadata.Some?
              && exists x :: IsLatest(RegularFiles(saved.metadata.value), x)
                             && r.1.path == JoinPath(ReportsDirectory, ReportName(x, exportTime))
    ensures b.counts != map[] && SaveClassificationResults(fs, b, saveTime).result.Err? ==>
              var saved := SaveClassificationResults(fs, b, saveTime);
              r == (saved.fs, Raised(saved.result.error))
    ensures b.counts != map[] && SaveClassificationResults(fs, b, saveTime).result.Ok? ==>
              var saved := SaveClassificationResults(fs, b, saveTime).fs;
              && saved.metadata.Some?
              && exists x :: IsLatest(RegularFiles(saved.metadata.value), x)
                             && var e := ExportToExcel(saved, x, exportTime);
                                r == (e.fs, if e.result.Ok? then Reported(e.result.value) else Raised(e.result.error))
  {
    if b.counts == map[] then (fs, NothingSaved)
    else
      var saved := SaveClassificationResults(fs, b, saveTime);
      if saved.result.Err? then (saved.fs, Raised(saved.result.error))
      else
        var listing := LoadHistoryFiles(saved.fs);
        assert listing.0 == saved.fs;
        assert RecordName(saveTime) in listing.1;
        var latest := Latest(listing.1);
        assert IsLatest(RegularFiles(saved.fs.metadata.value), latest);
        var exported := ExportToExcel(listing.0, latest, exportTime);
        match exported.result
        case Err(e) => (exported.fs, Raised(e))
        case Ok(path) => (exported.fs, Reported(path))
  }

  /** A consistent result with some count has an image with a class. */
  lemma NonEmptyCountsHaveEntries(b: Batch, names: seq<Label>)
    requires Consistent(b, names) && b.counts != map[]
    ensures exists i :: 0 <= i < |b.entries| && b.entries[i].classes != []
  {
    var k :| k in b.counts;
    TotalRemove(b.counts, k);
    LabelTotalPositive(b.entries);
  }

  lemma {:induction false} LabelTotalPositive(es: seq<Entry>)
    requires LabelTotal(es) > 0
    ensures exists i :: 0 <= i < |es| && es[i].classes != []
    decreases |es|
  {
    var n := |es|;
    if es[n - 1].classes == [] {
      LabelTotalPositive(es[..n - 1]);
      var i :| 0 <= i < n - 1 && es[..n - 1][i].classes != [];
      assert es[i] == es[..n - 1][i];
    }
  }

  /** If every other history file sorts before the new record (earlier
      records do), the newest record is the one exported: the tab reports
      the workbook of exactly the saved classifications. */
  lemma DoneExportsNewestRecord(fs: FileSystem, b: Batch, names: seq<Label>,
                                saveTime: DateTime, exportTime: DateTime)
    requires ValidDateTime(saveTime) && ValidDateTime(exportTime)
    requires Consistent(b, names) && b.counts != map[]
    requires fs.metadata.Some? && fs.reports.Some?
    requires forall name :: name in fs.metadata.value && fs.metadata.value[name].File? ==>
               name == RecordName(saveTime) || LexLess(name, RecordName(saveTime))
    requires RecordName(saveTime) !in fs.metadata.value || fs.metadata.value[RecordName(saveTime)].File?
    requires var report := ReportName(RecordName(saveTime), exportTime);
             report !in fs.reports.value || fs.reports.value[report].File?
    ensures var r := OnClassificationDone(fs, b, saveTime, exportTime);
            var report := ReportName(RecordName(saveTime), exportTime);
            && r.1 == Reported(JoinPath(ReportsDirectory, report))
            && r.0.metadata.Some? && RecordName(saveTime) in r.0.metadata.value
            && r.0.metadata.value[RecordName(saveTime)] == File(JsonText(EncodeRecord(b)))
            && r.0.reports.Some? && report in r.0.reports.value
            && r.0.reports.value[report] == File(Workbook(Sheet(ReportColumns, ExpectedRows(b.entries))))
  {
    var record := RecordName(saveTime);
    var saved := SaveClassificationResults(fs, b, saveTime);
    var listing := LoadHistoryFiles(saved.fs);
    SavedRecordIsLatest(fs, b, saveTime);
    NonEmptyCountsHaveEntries(b, names);
    assert b.entries != [];
    ExportSavedRecord(listing.0, b, saveTime, exportTime);
    var exported := ExportToExcel(listing.0, record, exportTime);
    assert exported.result.Ok?;
    assert OnClassificationDone(fs, b, saveTime, exportTime) == (exported.fs, Reported(exported.result.value));
  }

  /** After saving, the history listing is unchanged by listing it, and the
      new record sorts last when every other history file sorted before it. */
  lemma SavedRecordIsLatest(fs: FileSystem, b: Batch, saveTime: DateTime)
    requires ValidDateTime(saveTime)
    requires fs.metadata.Some?
    requires forall name :: name in fs.metadata.value && fs.metadata.value[name].File? ==>
               name == RecordName(saveTime) || LexLess(name, RecordName(saveTime))
    requires RecordName(saveTime) !in fs.metadata.value || fs.metadata.value[RecordName(saveTime)].File?
    ensures var saved := SaveClassificationResults(fs, b, saveTime);
            var listing := LoadHistoryFiles(saved.fs);
            && saved.result.Ok? && listing.0 == saved.fs
            && Latest(listing.1) == RecordName(saveTime)
  {
    var record := RecordName(saveTime);
    var saved := SaveClassificationResults(fs, b, saveTime);
    assert saved.result.Ok?;
    var listing := LoadHistoryFiles(saved.fs);
    assert listing.0 == saved.fs;
    assert IsLatest(listing.1, record);
    LatestUnique(listing.1);
  }

  /** Records saved at earlier instants all sort before the new one. */
  lemma EarlierRecordsSortFirst(saveTime: DateTime, earlier: set<DateTime>)
    requires ValidDateTime(saveTime)
    requires forall t :: t in earlier ==> ValidDateTime(t) && Before(t, saveTime)
    ensures forall t :: t in earlier ==> LexLess(RecordName(t), RecordName(saveTime))
  {
    forall t | t in earlier
      ensures LexLess(RecordName(t), RecordName(saveTime))
    {
      RecordNameOrder(t, saveTime);
    }
  }

  /** As written, the worker's classifications are saved as
      `(label, confidence)` pairs, so whenever a run has any count the
      export of its record raises TypeError and no report is written. */
  lemma PipelineRecordNeverExports(fs: FileSystem, b: Batch, names: seq<Label>,
                                   saveTime: DateTime, exportTime: DateTime)
    requires ValidDateTime(saveTime) && ValidDateTime(exportTime)
    requires Consistent(b, names) && b.counts != map[]
    requires fs.metadata.Some? && RecordName(saveTime) in fs.metadata.value
    requires fs.metadata.value[RecordName(saveTime)] == File(JsonText(EncodeRecordAsWritten(b)))
    ensures ExportToExcel(fs, RecordName(saveTime), exportTime) == Effect(fs, Err(WrongType))
  {
    NonEmptyCountsHaveEntries(b, names);
    AsWrittenRecordCannotBeExported(fs, b, saveTime, exportTime);
  }
}
