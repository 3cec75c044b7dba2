/** The classification half of backend/inference.py: the per-image loop of
    `process_images_classification`, the stop check of `run_inference`, and
    the extension filter and walk of `process_archive_classification`.

    The vision model and image decoding are an oracle `Model.predict` from a
    path to what opening and predicting that path gives; the zip reader is an
    oracle from an archive path to its member files. The shared
    `threading.Event` is a `Flag`: once set it stays set, and each time the
    code asks `is_set()` one pending stop request (made by the interactive
    thread since the previous check) is taken into account. */
module Inference {
  import opened Base

  type Label = string

  /** `class_counts`: label to number of top-1 predictions. */
  type Counts = map<Label, nat>

  /** One element of `image_classifications`. Only the label of each class
      is kept; the confidence the source pairs with it is dropped. */
  datatype Entry = Entry(image: string, classes: seq<Label>)

  /** What opening a path and running `model.predict` on it gives: PIL
      cannot open or convert it, the prediction raises, or the list of
      results, each with its top-1 class index if it has `probs`. */
  datatype Prediction = DecodeFail | InferFail | Outputs(top1: seq<Option<nat>>)

  /** The classification model: its `names` table and its behaviour. */
  datatype Model = Model(names: seq<Label>, predict: string -> Prediction)

  /** Exceptions that leave `process_images_classification` or
      `process_archive_classification`. */
  datatype Error =
    | Interrupted              // InterruptedError("Inference was stopped.")
    | UnknownClass(index: nat) // `model.names[label]` has no such index
    | BadArchive(path: string) // zipfile cannot open the archive

  /** The pair `(class_counts, image_classifications)`. */
  datatype Batch = Batch(counts: Counts, entries: seq<Entry>)

  const Empty: Batch := Batch(map[], [])

  /** The stop event: whether it is set, and the stop requests that the
      next checks will observe, one per check. */
  datatype Flag = Flag(isSet: bool, pending: seq<bool>)

  /** One `stop_event.is_set()` check. */
  function Poll(f: Flag): Flag
  {
    if f.pending == [] then f else Flag(f.isSet || f.pending[0], f.pending[1..])
  }

  /** Nobody asks the run to stop. */
  predicate Quiet(f: Flag)
  {
    !f.isSet && forall i :: 0 <= i < |f.pending| ==> !f.pending[i]
  }

  function Get(c: Counts, l: Label): nat
  {
    if l in c then c[l] else 0
  }

  // ---------------------------------------------------------------------
  // Counting
  // ---------------------------------------------------------------------

  /** Sum of the values of `class_counts`. */
  ghost function Total(c: Counts): nat
    decreases |c|
  {
    if c == map[] then 0
    else
      var k :| k in c;
      c[k] + Total(c - {k})
  }

  lemma {:induction false} TotalRemove(c: Counts, k: Label)
    requires k in c
    ensures Total(c) == c[k] + Total(c - {k})
    decreases |c|
  {
    var j :| j in c && Total(c) == c[j] + Total(c - {j});
    if j != k {
      TotalRemove(c - {j}, k);
      TotalRemove(c - {k}, j);
      assert c - {j} - {k} == c - {k} - {j};
    }
  }

  /** Setting one key changes the total by the difference of its values. */
  lemma TotalUpdate(c: Counts, k: Label, v: nat)
    ensures Total(c[k := v]) == Total(c) - Get(c, k) + v
  {
    var d := c[k := v];
    TotalRemove(d, k);
    if k in c {
      TotalRemove(c, k);
      assert d - {k} == c - {k};
    } else {
      assert d - {k} == c;
    }
  }

  /** Sum of the lengths of the `classes` lists. */
  function LabelTotal(es: seq<Entry>): nat
  {
    if es == [] then 0 else LabelTotal(es[..|es| - 1]) + |es[|es| - 1].classes|
  }

  lemma {:induction false} LabelTotalAppend(a: seq<Entry>, b: seq<Entry>)
    ensures LabelTotal(a + b) == LabelTotal(a) + LabelTotal(b)
    decreases |b|
  {
    if b == [] {
      assert a + b == a;
    } else {
      assert (a + b)[..|a + b| - 1] == a + b[..|b| - 1];
      LabelTotalAppend(a, b[..|b| - 1]);
    }
  }

  /** Adding one count per label, in order:
      `class_counts[label_name] = class_counts.get(label_name, 0) + 1`. */
  function Tally(c: Counts, labels: seq<Label>): Counts
  {
    if labels == [] then c
    else
      var t := Tally(c, labels[..|labels| - 1]);
      var l := labels[|labels| - 1];
      t[l := Get(t, l) + 1]
  }

  lemma TallySnoc(c: Counts, labels: seq<Label>, l: Label)
    ensures Tally(c, labels + [l]) == Tally(c, labels)[l := Get(Tally(c, labels), l) + 1]
  {
    assert (labels + [l])[..|labels|] == labels;
  }

  /** Tallying adds exactly one to the total per label, keeps the old keys,
      adds the labels as keys, and gives every new key a count of at least
      one. */
  lemma {:induction false} TallyTotal(c: Counts, labels: seq<Label>)
    ensures Total(Tally(c, labels)) == Total(c) + |labels|
    ensures forall k :: k in Tally(c, labels) <==> k in c || k in labels
    ensures forall k :: k in Tally(c, labels) && k !in c ==> Tally(c, labels)[k] >= 1
    ensures forall k :: k in c ==> Tally(c, labels)[k] >= c[k]
    decreases |labels|
  {
    if labels != [] {
      var init := labels[..|labels| - 1];
      var l := labels[|labels| - 1];
      TallyTotal(c, init);
      var t := Tally(c, init);
      TallyStep(t, l);
      assert Tally(c, labels) == t[l := Get(t, l) + 1];
      assert labels == init + [l];
      assert forall k :: k in labels <==> k in init || k == l;
    }
  }

  /** Counting one more label adds one to the total, adds the label as a
      key and lowers no count. */
  lemma TallyStep(t: Counts, l: Label)
    ensures var u := t[l := Get(t, l) + 1];
            && Total(u) == Total(t) + 1 && u.Keys == t.Keys + {l} && u[l] >= 1
            && forall k :: k in t ==> u[k] >= t[k]
  {
    TotalUpdate(t, l, Get(t, l) + 1);
  }

  /** The invariant of the returned pair: the counts add up to the number of
      class entries, every key is one of the model's names, and every count
      is at least one. */
  ghost predicate Consistent(b: Batch, names: seq<Label>)
  {
    && Total(b.counts) == LabelTotal(b.entries)
    && forall k :: k in b.counts ==> k in names && b.counts[k] >= 1
  }

  // ---------------------------------------------------------------------
  // Reading the results of one prediction
  // ---------------------------------------------------------------------

  /** `int(result.probs.top1)` of each result that has `probs`, in order. */
  function SomeIndices(top1: seq<Option<nat>>): seq<nat>
  {
    if top1 == [] then []
    else
      var last := top1[|top1| - 1];
      SomeIndices(top1[..|top1| - 1]) + if last.Some? then [last.value] else []
  }

  /** Every index is a row of the names table. */
  predicate InTable(names: seq<Label>, indices: seq<nat>)
  {
    forall j :: 0 <= j < |indices| ==> indices[j] < |names|
  }

  /** The labels `model.names[int(result.probs.top1)]` of the results that
      have `probs`, in order; the first index missing from the names table
      raises. */
  function TopLabels(names: seq<Label>, top1: seq<Option<nat>>): (r: Result<seq<Label>, Error>)
    ensures r.Ok? <==> InTable(names, SomeIndices(top1))
    ensures r.Ok? ==> |r.value| == |SomeIndices(top1)|
    ensures r.Ok? ==> forall j :: 0 <= j < |r.value| ==> r.value[j] == names[SomeIndices(top1)[j]]
    ensures r.Err? ==> (exists k :: 0 <= k < |SomeIndices(top1)| && SomeIndices(top1)[k] >= |names|
                                    && InTable(names, SomeIndices(top1)[..k])
                                    && r.error == UnknownClass(SomeIndices(top1)[k]))
  {
    if top1 == [] then Ok([])
    else
      var init := top1[..|top1| - 1];
      assert SomeIndices(top1)[..|SomeIndices(init)|] == SomeIndices(init);
      match TopLabels(names, init)
      case Err(e) => Err(e)
      case Ok(labels) =>
        match top1[|top1| - 1]
        case None =>
          assert SomeIndices(top1) == SomeIndices(init);
          Ok(labels)
        case Some(index) =>
          assert SomeIndices(top1) == SomeIndices(init) + [index];
          if index < |names| then Ok(labels + [names[index]])
          else
            assert SomeIndices(top1)[|SomeIndices(init)|] == index;
            Err(UnknownClass(index))
  }

  lemma {:induction false} TopLabelsFailedPrefix(names: seq<Label>, top1: seq<Option<nat>>, j: nat)
    requires j <= |top1| && TopLabels(names, top1[..j]).Err?
    ensures TopLabels(names, top1) == TopLabels(names, top1[..j])
    decreases |top1|
  {
    if j < |top1| {
      var init := top1[..|top1| - 1];
      assert init[..j] == top1[..j];
      TopLabelsFailedPrefix(names, init, j);
    } else {
      assert top1[..j] == top1;
    }
  }

  /** Reading one more result after the first `j`. */
  lemma TopLabelsSnoc(names: seq<Label>, top1: seq<Option<nat>>, j: nat)
    requires j < |top1|
    ensures TopLabels(names, top1[..j + 1])
            == match TopLabels(names, top1[..j])
               case Err(e) => Err(e)
               case Ok(labels) =>
                 match top1[j]
                 case None => Ok(labels)
                 case Some(index) =>
                   if index < |names| then Ok(labels + [names[index]]) else Err(UnknownClass(index))
  {
    assert top1[..j + 1][..j] == top1[..j];
  }

  /** The inner loop over one prediction's results: collects the labels
      and counts each one. */
  method ReadResults(names: seq<Label>, top1: seq<Option<nat>>, counts: Counts)
    returns (labels: Result<seq<Label>, Error>, tallied: Counts)
    ensures labels == TopLabels(names, top1)
    ensures labels.Ok? ==> tallied == Tally(counts, labels.value)
  {
    var classes: seq<Label> := [];
    tallied := counts;
    for j := 0 to |top1|
      invariant TopLabels(names, top1[..j]) == Ok(classes)
      invariant tallied == Tally(counts, classes)
    {
      TopLabelsSnoc(names, top1, j);
      match top1[j] {
        case None =>
          assert TopLabels(names, top1[..j + 1]) == Ok(classes);
        case Some(index) =>
          if index >= |names| {
            assert TopLabels(names, top1[..j + 1]) == Err(UnknownClass(index));
            TopLabelsFailedPrefix(names, top1, j + 1);
            labels := Err(UnknownClass(index));
            return;
          }
          var className := names[index];
          assert TopLabels(names, top1[..j + 1]) == Ok(classes + [className]);
          TallySnoc(counts, classes, className);
          tallied := tallied[className := Get(tallied, className) + 1];
          classes := classes + [className];
      }
    }
    assert top1[..|top1|] == top1;
    labels := Ok(classes);
  }

  // ---------------------------------------------------------------------
  // process_images_classification
  // ---------------------------------------------------------------------

  datatype Classified = Classified(result: Result<Batch, Error>, flag: Flag)

  /** The loop of `process_images_classification` over `paths`, having
      accumulated `acc` so far. Per path: the stop check (raises), opening
      and predicting (a failure skips the path), the stop check inside
      `run_inference` (its InterruptedError is caught by the loop's own
      handler, so it too only skips the path), then one entry for the image
      and one count per label. */
  function ClassifyFrom(m: Model, paths: seq<string>, f: Flag, acc: Batch): Classified
    decreases |paths|
  {
    if paths == [] then Classified(Ok(acc), f)
    else
      var checked := Poll(f);
      if checked.isSet then Classified(Err(Interrupted), checked)
      else
        match m.predict(paths[0])
        case DecodeFail => ClassifyFrom(m, paths[1..], checked, acc)
        case InferFail => ClassifyFrom(m, paths[1..], checked, acc)
        case Outputs(top1) =>
          var inferred := Poll(checked);
          if inferred.isSet then ClassifyFrom(m, paths[1..], inferred, acc)
          else
            match TopLabels(m.names, top1)
            case Err(e) => Classified(Err(e), inferred)
            case Ok(labels) =>
              ClassifyFrom(m, paths[1..], inferred,
                Batch(Tally(acc.counts, labels), acc.entries + [Entry(paths[0], labels)]))
  }

  function Images(es: seq<Entry>): seq<string>
  {
    if es == [] then [] else [es[0].image] + Images(es[1..])
  }

  /** The loop keeps the counts consistent with the entries. */
  lemma {:induction false} ClassifyKeepsConsistency(m: Model, paths: seq<string>, f: Flag, acc: Batch)
    requires Consistent(acc, m.names)
    ensures var r := ClassifyFrom(m, paths, f, acc);
            r.result.Ok? ==> Consistent(r.result.value, m.names)
    decreases |paths|
  {
    if paths != [] {
      var checked := Poll(f);
      if !checked.isSet {
        match m.predict(paths[0]) {
          case DecodeFail => ClassifyKeepsConsistency(m, paths[1..], checked, acc);
          case InferFail => ClassifyKeepsConsistency(m, paths[1..], checked, acc);
          case Outputs(top1) =>
            var inferred := Poll(checked);
            if inferred.isSet {
              ClassifyKeepsConsistency(m, paths[1..], inferred, acc);
            } else if TopLabels(m.names, top1).Ok? {
              var labels := TopLabels(m.names, top1).value;
              var e := Entry(paths[0], labels);
              var next := Batch(Tally(acc.counts, labels), acc.entries + [e]);
              TallyTotal(acc.counts, labels);
              LabelTotalAppend(acc.entries, [e]);
              assert LabelTotal([e]) == |labels| by {
                assert [e][..0] == [];
              }
              ClassifyKeepsConsistency(m, paths[1..], inferred, next);
            }
        }
      }
    }
  }

  lemma {:induction false} ImagesCons(e: Entry, es: seq<Entry>)
    ensures Images([e] + es) == [e.image] + Images(es)
  {
    assert ([e] + es)[1..] == es;
  }

  /** The loop only appends, and the images of the entries it appends are
      the paths as given, in their order, each at most once. */
  lemma {:induction false} ClassifyKeepsOrder(m: Model, paths: seq<string>, f: Flag, acc: Batch)
    ensures var r := ClassifyFrom(m, paths, f, acc);
            r.result.Ok? ==>
              && |acc.entries| <= |r.result.value.entries|
              && r.result.value.entries[..|acc.entries|] == acc.entries
              && IsSubsequence(Images(r.result.value.entries[|acc.entries|..]), paths)
    decreases |paths|
  {
    var r := ClassifyFrom(m, paths, f, acc);
    if paths == [] {
      assert r.result.value.entries[|acc.entries|..] == [];
    } else if r.result.Ok? {
      var checked := Poll(f);
      assert paths == [paths[0]] + paths[1..];
      match m.predict(paths[0]) {
        case DecodeFail =>
          ClassifyKeepsOrder(m, paths[1..], checked, acc);
          SubsequenceCons(Images(r.result.value.entries[|acc.entries|..]), paths[0], paths[1..]);
        case InferFail =>
          ClassifyKeepsOrder(m, paths[1..], checked, acc);
          SubsequenceCons(Images(r.result.value.entries[|acc.entries|..]), paths[0], paths[1..]);
        case Outputs(top1) =>
          var inferred := Poll(checked);
          if inferred.isSet {
            ClassifyKeepsOrder(m, paths[1..], inferred, acc);
            SubsequenceCons(Images(r.result.value.entries[|acc.entries|..]), paths[0], paths[1..]);
          } else {
            var labels := TopLabels(m.names, top1).value;
            var e := Entry(paths[0], labels);
            var next := Batch(Tally(acc.counts, labels), acc.entries + [e]);
            ClassifyKeepsOrder(m, paths[1..], inferred, next);
            var all := r.result.value.entries;
            var n := |acc.entries|;
            assert all[..n + 1] == acc.entries + [e];
            assert all[..n] == all[..n + 1][..n];
            assert all[n..] == [e] + all[n + 1..];
            ImagesCons(e, all[n + 1..]);
          }
      }
    }
  }

  /** The entries and counts a run produces when nobody asks it to stop:
      one entry per path that opens and predicts, in order. */
  function ExpectedEntries(m: Model, paths: seq<string>): Result<seq<Entry>, Error>
  {
    if paths == [] then Ok([])
    else
      match m.predict(paths[0])
      case DecodeFail => ExpectedEntries(m, paths[1..])
      case InferFail => ExpectedEntries(m, paths[1..])
      case Outputs(top1) =>
        match TopLabels(m.names, top1)
        case Err(e) => Err(e)
        case Ok(labels) =>
          match ExpectedEntries(m, paths[1..])
          case Err(e) => Err(e)
          case Ok(rest) => Ok([Entry(paths[0], labels)] + rest)
  }

  /** Counting every label of `es`, entry by entry. */
  function TallyAll(c: Counts, es: seq<Entry>): Counts
    decreases |es|
  {
    if es == [] then c else TallyAll(Tally(c, es[0].classes), es[1..])
  }

  /** Without a stop request the loop returns exactly the expected entries
      after those accumulated, counted on top of the accumulated counts. */
  lemma {:induction false} ClassifyWithoutStop(m: Model, paths: seq<string>, f: Flag, acc: Batch)
    requires Quiet(f)
    ensures ClassifyFrom(m, paths, f, acc).result ==
            match ExpectedEntries(m, paths)
            case Err(e) => Err(e)
            case Ok(es) => Ok(Batch(TallyAll(acc.counts, es), acc.entries + es))
    decreases |paths|
  {
    if paths == [] {
      assert acc.entries + [] == acc.entries;
    } else {
      var checked := Poll(f);
      assert Quiet(checked) by {
        if f.pending != [] {
          assert forall i :: 0 <= i < |checked.pending| ==> checked.pending[i] == f.pending[i + 1];
        }
      }
      match m.predict(paths[0]) {
        case DecodeFail => ClassifyWithoutStop(m, paths[1..], checked, acc);
        case InferFail => ClassifyWithoutStop(m, paths[1..], checked, acc);
        case Outputs(top1) =>
          var inferred := Poll(checked);
          assert Quiet(inferred) by {
            if checked.pending != [] {
              assert forall i :: 0 <= i < |inferred.pending| ==> inferred.pending[i] == checked.pending[i + 1];
            }
          }
          if TopLabels(m.names, top1).Ok? {
            var labels := TopLabels(m.names, top1).value;
            var e := Entry(paths[0], labels);
            var next := Batch(Tally(acc.counts, labels), acc.entries + [e]);
            ClassifyWithoutStop(m, paths[1..], inferred, next);
            match ExpectedEntries(m, paths[1..]) {
              case Err(_) =>
              case Ok(rest) =>
                assert acc.entries + [e] + rest == acc.entries + ([e] + rest);
                assert ([e] + rest)[1..] == rest;
            }
          }
      }
    }
  }

  /** Once the event is set it stays set, and the loop raises
      InterruptedError only when the event is set. */
  lemma {:induction false} ClassifyFlagSticky(m: Model, paths: seq<string>, f: Flag, acc: Batch)
    ensures f.isSet ==> ClassifyFrom(m, paths, f, acc).flag.isSet
    ensures ClassifyFrom(m, paths, f, acc).result == Err(Interrupted) ==> ClassifyFrom(m, paths, f, acc).flag.isSet
    ensures paths != [] && Poll(f).isSet ==> ClassifyFrom(m, paths, f, acc).result == Err(Interrupted)
    decreases |paths|
  {
    if paths != [] {
      var checked := Poll(f);
      if !checked.isSet {
        match m.predict(paths[0]) {
          case DecodeFail => ClassifyFlagSticky(m, paths[1..], checked, acc);
          case InferFail => ClassifyFlagSticky(m, paths[1..], checked, acc);
          case Outputs(top1) =>
            var inferred := Poll(checked);
            if inferred.isSet {
              ClassifyFlagSticky(m, paths[1..], inferred, acc);
            } else if TopLabels(m.names, top1).Ok? {
              var labels := TopLabels(m.names, top1).value;
              ClassifyFlagSticky(m, paths[1..], inferred,
                Batch(Tally(acc.counts, labels), acc.entries + [Entry(paths[0], labels)]));
            }
        }
      }
    }
  }

  /** One check takes one request off the schedule; with none asking to
      stop the event stays clear. */
  lemma PollKeepsQuiet(f: Flag)
    requires Quiet(f)
    ensures Quiet(Poll(f))
  {
    if f.pending != [] {
      assert forall i :: 0 <= i < |Poll(f).pending| ==> Poll(f).pending[i] == f.pending[i + 1];
    }
  }

  /** If nobody asks to stop, the loop hands back a clear event. */
  lemma {:induction false} ClassifyKeepsQuiet(m: Model, paths: seq<string>, f: Flag, acc: Batch)
    requires Quiet(f)
    ensures Quiet(ClassifyFrom(m, paths, f, acc).flag)
    decreases |paths|
  {
    if paths != [] {
      var checked := Poll(f);
      PollKeepsQuiet(f);
      match m.predict(paths[0]) {
        case DecodeFail => ClassifyKeepsQuiet(m, paths[1..], checked, acc);
        case InferFail => ClassifyKeepsQuiet(m, paths[1..], checked, acc);
        case Outputs(top1) =>
          var inferred := Poll(checked);
          PollKeepsQuiet(checked);
          if TopLabels(m.names, top1).Ok? {
            var labels := TopLabels(m.names, top1).value;
            ClassifyKeepsQuiet(m, paths[1..], inferred,
              Batch(Tally(acc.counts, labels), acc.entries + [Entry(paths[0], labels)]));
          }
      }
    }
  }

  /** A stop observed inside `run_inference` is swallowed for that image; the
      check before the next image then raises, so no result is returned. */
  lemma AbsorbedStopRaisesAtNextImage(m: Model, paths: seq<string>, f: Flag, acc: Batch)
    requires |paths| >= 2 && !Poll(f).isSet && m.predict(paths[0]).Outputs?
    requires Poll(Poll(f)).isSet
    ensures ClassifyFrom(m, paths, f, acc).result == Err(Interrupted)
  {
    assert paths[1..] != [];
  }

  /** On the last image the same swallowed stop makes the loop return
      normally, without that image's entry. */
  lemma AbsorbedStopOnLastImage(m: Model, path: string, f: Flag, acc: Batch)
    requires !Poll(f).isSet && m.predict(path).Outputs? && Poll(Poll(f)).isSet
    ensures ClassifyFrom(m, [path], f, acc).result == Ok(acc)
  {
    assert [path][1..] == [];
  }

  /** `process_images_classification(model, image_paths, stop_event)`. */
  method ProcessImagesClassification(m: Model, paths: seq<string>, f: Flag)
    returns (result: Result<Batch, Error>, flag: Flag)
    ensures Classified(result, flag) == ClassifyFrom(m, paths, f, Empty)
    ensures result.Ok? ==> Consistent(result.value, m.names)
    ensures result.Ok? ==> IsSubsequence(Images(result.value.entries), paths)
    ensures result.Ok? ==> |result.value.entries| <= |paths|
  {
    var counts: Counts := map[];
    var entries: seq<Entry> := [];
    flag := f;
    var i := 0;
    while i < |paths|
      invariant 0 <= i <= |paths|
      invariant ClassifyFrom(m, paths, f, Empty) == ClassifyFrom(m, paths[i..], flag, Batch(counts, entries))
    {
      var path := paths[i];
      assert paths[i..][0] == path && paths[i..][1..] == paths[i + 1..];
      flag := Poll(flag);
      if flag.isSet {
        return Err(Interrupted), flag;
      }
      var prediction := m.predict(path);
      if prediction.DecodeFail? || prediction.InferFail? {
        i := i + 1;
        continue;
      }
      flag := Poll(flag);
      if flag.isSet {
        i := i + 1;
        continue;
      }
      var labels;
      labels, counts := ReadResults(m.names, prediction.top1, counts);
      if labels.Err? {
        return Err(labels.error), flag;
      }
      entries := entries + [Entry(path, labels.value)];
      i := i + 1;
    }
    result := Ok(Batch(counts, entries));
    ClassifyKeepsConsistency(m, paths, f, Empty);
    ClassifyKeepsOrder(m, paths, f, Empty);
    assert entries[0..] == entries;
    SubsequenceLength(Images(entries), paths);
    ImagesLength(entries);
  }

  lemma {:induction false} ImagesLength(es: seq<Entry>)
    ensures |Images(es)| == |es|
  {
    if es != [] {
      ImagesLength(es[1..]);
    }
  }

  // ---------------------------------------------------------------------
  // process_archive_classification
  // ---------------------------------------------------------------------

  /** The files under the extraction directory after `extractall` of an
      archive with the given members: a member already present is
      overwritten in place, a new one is added after the existing files. */
  function AddFiles(files: seq<string>, members: seq<string>): seq<string>
    decreases |members|
  {
    if members == [] then files
    else AddFiles(if members[0] in files then files else files + [members[0]], members[1..])
  }

  lemma {:induction false} AddFilesContents(files: seq<string>, members: seq<string>)
    ensures forall x :: x in AddFiles(files, members) <==> x in files || x in members
    ensures |files| <= |AddFiles(files, members)| && AddFiles(files, members)[..|files|] == files
    decreases |members|
  {
    if members != [] {
      var next := if members[0] in files then files else files + [members[0]];
      AddFilesContents(next, members[1..]);
      assert forall x :: x in members <==> x == members[0] || x in members[1..] by {
        assert members == [members[0]] + members[1..];
      }
      assert next[..|files|] == files;
      assert AddFiles(files, members)[..|files|] == AddFiles(files, members)[..|next|][..|files|];
    }
  }

  /** Extracting an archive a second time adds nothing. */
  lemma {:induction false} AddFilesIdempotent(files: seq<string>, members: seq<string>)
    requires forall x :: x in members ==> x in files
    ensures AddFiles(files, members) == files
    decreases |members|
  {
    if members != [] {
      AddFilesIdempotent(files, members[1..]);
    }
  }

  /** `file.endswith(('.png', '.jpg', '.jpeg'))`. */
  predicate IsImageName(name: string)
  {
    EndsWith(name, ".png") || EndsWith(name, ".jpg") || EndsWith(name, ".jpeg")
  }

  /** The image paths collected by the walk over the extraction directory. */
  function ImagePaths(dir: string, files: seq<string>): seq<string>
  {
    if files == [] then []
    else
      var init := ImagePaths(dir, files[..|files| - 1]);
      var name := files[|files| - 1];
      if IsImageName(name) then init + [JoinPath(dir, name)] else init
  }

  /** The collected list is exactly the image files under the directory. */
  lemma {:induction false} ImagePathsExact(dir: string, files: seq<string>)
    ensures forall p :: p in ImagePaths(dir, files) <==>
              exists name :: name in files && IsImageName(name) && p == JoinPath(dir, name)
    decreases |files|
  {
    if files != [] {
      var init := files[..|files| - 1];
      ImagePathsExact(dir, init);
      assert files == init + [files[|files| - 1]];
      assert forall name :: name in files <==> name in init || name == files[|files| - 1];
    }
  }

  /** The `for root, _, files in os.walk(extract_to)` loop. */
  method CollectImagePaths(dir: string, files: seq<string>) returns (paths: seq<string>)
    ensures paths == ImagePaths(dir, files)
    ensures forall p :: p in paths <==>
              exists name :: name in files && IsImageName(name) && p == JoinPath(dir, name)
  {
    paths := [];
    for i := 0 to |files|
      invariant paths == ImagePaths(dir, files[..i])
    {
      assert files[..i + 1][..i] == files[..i];
      if IsImageName(files[i]) {
        paths := paths + [JoinPath(dir, files[i])];
      }
    }
    assert files[..|files|] == files;
    ImagePathsExact(dir, files);
  }

  datatype ArchiveRun = ArchiveRun(classified: Classified, files: seq<string>)

  /** `process_archive_classification`: extract into the shared directory
      (`files` lists what is already there), collect every image under it,
      classify them. */
  function ClassifyArchive(m: Model, unzip: string -> Option<seq<string>>, archive: string,
                           extractTo: string, files: seq<string>, f: Flag): (r: ArchiveRun)
    ensures unzip(archive).None? ==> r.classified.result == Err(BadArchive(archive)) && r.files == files
    ensures unzip(archive).Some? ==>
              && (forall x :: x in r.files <==> x in files || x in unzip(archive).value)
              && |files| <= |r.files| && r.files[..|files|] == files
              && r.classified == ClassifyFrom(m, ImagePaths(extractTo, r.files), f, Empty)
  {
    match unzip(archive)
    case None => ArchiveRun(Classified(Err(BadArchive(archive)), f), files)
    case Some(members) =>
      var after := AddFiles(files, members);
      AddFilesContents(files, members);
      ArchiveRun(ClassifyFrom(m, ImagePaths(extractTo, after), f, Empty), after)
  }

  /** Images extracted by an earlier archive into the same directory are
      collected again for a later one. */
  lemma ArchiveRecollectsEarlierImages(m: Model, unzip: string -> Option<seq<string>>, archive: string,
                                       extractTo: string, files: seq<string>, f: Flag, name: string)
    requires unzip(archive).Some? && name in files && IsImageName(name)
    ensures JoinPath(extractTo, name) in ImagePaths(extractTo, ClassifyArchive(m, unzip, archive, extractTo, files, f).files)
  {
    var after := AddFiles(files, unzip(archive).value);
    AddFilesContents(files, unzip(archive).value);
    ImagePathsExact(extractTo, after);
  }

  /** Resolving the same archive again into the directory it was extracted
      to yields the same image list. */
  lemma ArchiveResolutionStable(m: Model, unzip: string -> Option<seq<string>>, archive: string,
                                extractTo: string, files: seq<string>, f: Flag, g: Flag)
    requires unzip(archive).Some?
    ensures var once := ClassifyArchive(m, unzip, archive, extractTo, files, f).files;
            ClassifyArchive(m, unzip, archive, extractTo, once, g).files == once
  {
    var members := unzip(archive).value;
    AddFilesContents(files, members);
    AddFilesIdempotent(AddFiles(files, members), members);
  }

  method ProcessArchiveClassification(m: Model, unzip: string -> Option<seq<string>>, archive: string,
                                      extractTo: string, files: seq<string>, f: Flag)
    returns (result: Result<Batch, Error>, flag: Flag, after: seq<string>)
    ensures ArchiveRun(Classified(result, flag), after) == ClassifyArchive(m, unzip, archive, extractTo, files, f)
    ensures result.Ok? ==> Consistent(result.value, m.names)
    ensures result.Ok? ==> forall e :: e in result.value.entries ==>
              exists name :: name in after && IsImageName(name) && e.image == JoinPath(extractTo, name)
  {
    match unzip(archive) {
      case None =>
        return Err(BadArchive(archive)), f, files;
      case Some(members) =>
        after := AddFiles(files, members);
        var paths := CollectImagePaths(extractTo, after);
        result, flag := ProcessImagesClassification(m, paths, f);
        if result.Ok? {
          forall e | e in result.value.entries
            ensures exists name :: name in after && IsImageName(name) && e.image == JoinPath(extractTo, name)
          {
            ImagesMembers(result.value.entries, e);
            SubsequenceMembers(Images(result.value.entries), paths, e.image);
          }
        }
    }
  }

  lemma {:induction false} ImagesMembers(es: seq<Entry>, e: Entry)
    requires e in es
    ensures e.image in Images(es)
  {
    if es[0] != e {
      ImagesMembers(es[1..], e);
    }
  }
}
