/** gui/utils/file_operations.py: the history store under `metadata/` and
    the reports under `reports/`.

    The two directories are maps from a file name to what is there: a
    regular file or a sub-directory. A file holds either a JSON document
    (as `json.dump` wrote it and `json.load` reads it back), a workbook
    (`DataFrame.to_excel`), or bytes that do not parse as JSON. A missing
    directory is `None`. The wall clock read by `datetime.now()` is a
    parameter; the confirmation dialog's answer is a boolean. */
module FileOperations {
  import opened Base
  import opened Inference

  const MetadataDirectory: string := "metadata"
  const ReportsDirectory: string := "reports"

  /** JSON values. A floating-point number keeps no value. */
  datatype Json =
    | JStr(s: string)
    | JInt(n: int)
    | JFloat
    | JArr(items: seq<Json>)
    | JObj(fields: map<string, Json>)

  /** One report row: the `Изображение` and `Класс` cells. */
  datatype Row = Row(image: string, classes: string)

  datatype Sheet = Sheet(columns: seq<string>, rows: seq<Row>)

  datatype Data = JsonText(json: Json) | Workbook(sheet: Sheet) | Unparsable

  datatype Node = File(data: Data) | Folder

  type Directory = map<string, Node>

  datatype FileSystem = FileSystem(metadata: Option<Directory>, reports: Option<Directory>)

  /** The exceptions the functions of this file let through. */
  datatype IoError =
    | NotFound(path: string)      // FileNotFoundError
    | IsADirectory(path: string)  // IsADirectoryError
    | NotJson(path: string)       // json.JSONDecodeError
    | MissingKey(key: string)     // KeyError on a dict
    | WrongType                   // TypeError: not the shape the code indexes
    | NoColumns                   // KeyError: an empty table has no columns to select

  /** A call that may change the file system and then return or raise. */
  datatype Effect<+T> = Effect(fs: FileSystem, result: Result<T, IoError>)

  // ---------------------------------------------------------------------
  // ensure_directories_exist, listings
  // ---------------------------------------------------------------------

  function EnsureDirectoriesExist(fs: FileSystem): (r: FileSystem)
    ensures r.metadata.Some? && r.reports.Some?
    ensures fs.metadata.Some? ==> r.metadata == fs.metadata
    ensures fs.reports.Some? ==> r.reports == fs.reports
    ensures fs.metadata.None? ==> r.metadata == Some(map[])
    ensures fs.reports.None? ==> r.reports == Some(map[])
  {
    FileSystem(if fs.metadata.None? then Some(map[]) else fs.metadata,
               if fs.reports.None? then Some(map[]) else fs.reports)
  }

  /** Names of the regular files of a directory: the comprehension with
      `os.path.isfile`. */
  function RegularFiles(d: Directory): set<string>
  {
    set name | name in d && d[name].File?
  }

  /** `load_history_files()`: creates both directories if missing, then
      lists the regular files of `metadata/`. */
  function LoadHistoryFiles(fs: FileSystem): (r: (FileSystem, set<string>))
    ensures r.0 == EnsureDirectoriesExist(fs)
    ensures forall name :: name in r.1 <==> name in r.0.metadata.value && r.0.metadata.value[name].File?
  {
    var after := EnsureDirectoriesExist(fs);
    (after, RegularFiles(after.metadata.value))
  }

  /** `load_report_files()`: the same for `reports/`. */
  function LoadReportFiles(fs: FileSystem): (r: (FileSystem, set<string>))
    ensures r.0 == EnsureDirectoriesExist(fs)
    ensures forall name :: name in r.1 <==> name in r.0.reports.value && r.0.reports.value[name].File?
  {
    var after := EnsureDirectoriesExist(fs);
    (after, RegularFiles(after.reports.value))
  }

  /** Listing creates the directories once; listing again changes nothing. */
  lemma ListingIdempotent(fs: FileSystem)
    ensures LoadHistoryFiles(LoadHistoryFiles(fs).0) == LoadHistoryFiles(fs)
    ensures LoadReportFiles(LoadReportFiles(fs).0) == LoadReportFiles(fs)
    ensures LoadHistoryFiles(fs).0 == LoadReportFiles(fs).0
  {
  }

  // ---------------------------------------------------------------------
  // get_timestamp
  // ---------------------------------------------------------------------

  /** A reading of the local wall clock. */
  datatype DateTime = DateTime(year: int, month: int, day: int, hour: int, minute: int, second: int)

  /** What `datetime.now()` can give (four-digit years; the day is not
      checked against the month's length). */
  predicate ValidDateTime(t: DateTime)
  {
    && 1000 <= t.year <= 9999
    && 1 <= t.month <= 12
    && 1 <= t.day <= 31
    && 0 <= t.hour < 24
    && 0 <= t.minute < 60
    && 0 <= t.second < 60
  }

  /** `a` is an earlier instant than `b`. */
  predicate Before(a: DateTime, b: DateTime)
  {
    a.year < b.year || (a.year == b.year &&
    (a.month < b.month || (a.month == b.month &&
    (a.day < b.day || (a.day == b.day &&
    (a.hour < b.hour || (a.hour == b.hour &&
    (a.minute < b.minute || (a.minute == b.minute && a.second < b.second)))))))))
  }

  function Pow10(n: nat): nat
  {
    if n == 0 then 1 else 10 * Pow10(n - 1)
  }

  function DigitChar(d: nat): char
    requires d < 10
  {
    ('0' as int + d) as char
  }

  /** `n` written in decimal on exactly `width` digits, zero-padded. */
  function Digits(n: nat, width: nat): (r: string)
    requires n < Pow10(width)
    ensures |r| == width
    ensures forall i :: 0 <= i < |r| ==> '0' <= r[i] <= '9'
  {
    if width == 0 then "" else Digits(n / 10, width - 1) + [DigitChar(n % 10)]
  }

  /** Zero-padded numbers of one width compare as strings as they compare
      as numbers. */
  lemma {:induction false} DigitsOrder(n: nat, m: nat, width: nat)
    requires n < Pow10(width) && m < Pow10(width)
    ensures LexLess(Digits(n, width), Digits(m, width)) <==> n < m
    ensures Digits(n, width) == Digits(m, width) <==> n == m
  {
    if width > 0 {
      DigitsOrder(n / 10, m / 10, width - 1);
      var dn, dm := [DigitChar(n % 10)], [DigitChar(m % 10)];
      LexLessConcat(Digits(n / 10, width - 1), dn, Digits(m / 10, width - 1), dm);
      assert LexLess(dn, dm) <==> n % 10 < m % 10 by {
        assert dn[1..] == [] && dm[1..] == [];
      }
      assert n == 10 * (n / 10) + n % 10 && m == 10 * (m / 10) + m % 10;
      if Digits(n, width) == Digits(m, width) {
        assert Digits(n, width)[..width - 1] == Digits(n / 10, width - 1);
        assert Digits(m, width)[..width - 1] == Digits(m / 10, width - 1);
        assert Digits(n, width)[width - 1] == DigitChar(n % 10);
        assert Digits(m, width)[width - 1] == DigitChar(m % 10);
      }
    }
  }

  /** `datetime.now().strftime("%Y%m%d_%H%M%S")`. */
  function GetTimestamp(t: DateTime): (r: string)
    requires ValidDateTime(t)
    ensures |r| == 15 && r[8] == '_'
    ensures forall i :: 0 <= i < 15 && i != 8 ==> '0' <= r[i] <= '9'
  {
    Digits(t.year, 4) + (Digits(t.month, 2) + (Digits(t.day, 2) + ("_"
      + (Digits(t.hour, 2) + (Digits(t.minute, 2) + Digits(t.second, 2))))))
  }

  /** String order of timestamps is time order, in both directions, and
      two readings give one timestamp only if they are the same instant. */
  lemma TimestampOrder(a: DateTime, b: DateTime)
    requires ValidDateTime(a) && ValidDateTime(b)
    ensures LexLess(GetTimestamp(a), GetTimestamp(b)) <==> Before(a, b)
    ensures GetTimestamp(a) == GetTimestamp(b) <==> a == b
  {
    LexLessIrreflexive("_");
    var ha := Digits(a.hour, 2) + (Digits(a.minute, 2) + Digits(a.second, 2));
    var hb := Digits(b.hour, 2) + (Digits(b.minute, 2) + Digits(b.second, 2));
    ClockOrder(a, b);
    BlockStep("_", ha, "_", hb);
    DateOrder(a, b, "_" + ha, "_" + hb);
  }

  /** The date part of timestamps compares like the date, and ties are
      broken by what follows it. */
  lemma DateOrder(a: DateTime, b: DateTime, ua: string, ub: string)
    requires ValidDateTime(a) && ValidDateTime(b) && |ua| == |ub|
    ensures var ta := Digits(a.year, 4) + (Digits(a.month, 2) + (Digits(a.day, 2) + ua));
            var tb := Digits(b.year, 4) + (Digits(b.month, 2) + (Digits(b.day, 2) + ub));
            && (LexLess(ta, tb) <==>
                  a.year < b.year || (a.year == b.year &&
                  (a.month < b.month || (a.month == b.month &&
                  (a.day < b.day || (a.day == b.day && LexLess(ua, ub)))))))
            && (ta == tb <==> a.year == b.year && a.month == b.month && a.day == b.day && ua == ub)
  {
    DigitsOrder(a.year, b.year, 4);
    DigitsOrder(a.month, b.month, 2);
    DigitsOrder(a.day, b.day, 2);
    var da, db := Digits(a.day, 2) + ua, Digits(b.day, 2) + ub;
    BlockStep(Digits(a.day, 2), ua, Digits(b.day, 2), ub);
    var moa, mob := Digits(a.month, 2) + da, Digits(b.month, 2) + db;
    BlockStep(Digits(a.month, 2), da, Digits(b.month, 2), db);
    BlockStep(Digits(a.year, 4), moa, Digits(b.year, 4), mob);
  }

  /** The time-of-day part of timestamps compares like the time of day. */
  lemma ClockOrder(a: DateTime, b: DateTime)
    requires ValidDateTime(a) && ValidDateTime(b)
    ensures var ha := Digits(a.hour, 2) + (Digits(a.minute, 2) + Digits(a.second, 2));
            var hb := Digits(b.hour, 2) + (Digits(b.minute, 2) + Digits(b.second, 2));
            && (LexLess(ha, hb) <==>
                  a.hour < b.hour || (a.hour == b.hour &&
                  (a.minute < b.minute || (a.minute == b.minute && a.second < b.second))))
            && (ha == hb <==> a.hour == b.hour && a.minute == b.minute && a.second == b.second)
  {
    DigitsOrder(a.hour, b.hour, 2);
    DigitsOrder(a.minute, b.minute, 2);
    DigitsOrder(a.second, b.second, 2);
    var sa, sb := Digits(a.second, 2), Digits(b.second, 2);
    var mia, mib := Digits(a.minute, 2) + sa, Digits(b.minute, 2) + sb;
    BlockStep(Digits(a.minute, 2), sa, Digits(b.minute, 2), sb);
    BlockStep(Digits(a.hour, 2), mia, Digits(b.hour, 2), mib);
  }

  /** Two strings made of a block of one width followed by a rest compare
      by block first, then by rest. */
  lemma BlockStep(x1: string, y1: string, x2: string, y2: string)
    requires |x1| == |x2|
    ensures LexLess(x1 + y1, x2 + y2) <==> LexLess(x1, x2) || (x1 == x2 && LexLess(y1, y2))
    ensures x1 + y1 == x2 + y2 <==> x1 == x2 && y1 == y2
  {
    LexLessConcat(x1, y1, x2, y2);
    EqualConcat(x1, y1, x2, y2);
  }

  lemma EqualConcat(x1: string, y1: string, x2: string, y2: string)
    requires |x1| == |x2|
    ensures x1 + y1 == x2 + y2 <==> x1 == x2 && y1 == y2
  {
    if x1 + y1 == x2 + y2 {
      assert x1 == (x1 + y1)[..|x1|] && x2 == (x2 + y2)[..|x2|];
      assert y1 == (x1 + y1)[|x1|..] && y2 == (x2 + y2)[|x2|..];
    }
  }

  // ---------------------------------------------------------------------
  // File names
  // ---------------------------------------------------------------------

  const RecordPrefix: string := "classification_results_"

  /** The name `save_classification_results` writes under `metadata/`. */
  function RecordName(t: DateTime): (r: string)
    requires ValidDateTime(t)
    ensures |r| == |RecordPrefix| + 20 && r[..|RecordPrefix|] == RecordPrefix
    ensures r[|RecordPrefix|..|RecordPrefix| + 15] == GetTimestamp(t) && r[|r| - 5..] == ".json"
  {
    RecordPrefix + (GetTimestamp(t) + ".json")
  }

  /** Records saved at different instants get different names, ordered as
      the instants are. */
  lemma RecordNameOrder(a: DateTime, b: DateTime)
    requires ValidDateTime(a) && ValidDateTime(b)
    ensures LexLess(RecordName(a), RecordName(b)) <==> Before(a, b)
    ensures RecordName(a) == RecordName(b) <==> a == b
  {
    var ta, tb := GetTimestamp(a), GetTimestamp(b);
    assert LexLess(ta, tb) <==> Before(a, b) by { TimestampOrder(a, b); }
    assert ta == tb <==> a == b by { TimestampOrder(a, b); }
    assert !LexLess(RecordPrefix, RecordPrefix) by { LexLessIrreflexive(RecordPrefix); }
    assert !LexLess(".json", ".json") by { LexLessIrreflexive(".json"); }
    BlockStep(ta, ".json", tb, ".json");
    BlockStep(RecordPrefix, ta + ".json", RecordPrefix, tb + ".json");
  }

  /** Index of the last occurrence of `c` in `s`, or -1 (`str.rfind`). */
  function LastIndexOf(s: string, c: char): (r: int)
    ensures -1 <= r < |s|
    ensures r >= 0 ==> s[r] == c
    ensures forall i :: r < i < |s| ==> s[i] != c
  {
    if s == [] then -1
    else if s[|s| - 1] == c then |s| - 1
    else LastIndexOf(s[..|s| - 1], c)
  }

  /** The extension of `p` starts at `d`: a dot followed by neither a dot
      nor a separator, in a path component that has some character other
      than a dot before it. */
  predicate ExtStart(p: string, d: int)
  {
    && 0 <= d < |p| && p[d] == '.'
    && (forall j :: d < j < |p| ==> p[j] != '.' && p[j] != '/')
    && exists i :: 0 <= i < d && p[i] != '.' && p[i] != '/' && forall j :: i < j < d ==> p[j] != '/'
  }

  /** `os.path.splitext(p)[0]`: drops the text from the last dot of the
      last path component, unless that component has only dots before it. */
  function SplitExtRoot(p: string): (r: string)
    ensures |r| <= |p| && r == p[..|r|]
    ensures |r| < |p| ==> ExtStart(p, |r|)
    ensures |r| == |p| ==> forall d :: !ExtStart(p, d)
  {
    var sepIndex := LastIndexOf(p, '/');
    var dotIndex := LastIndexOf(p, '.');
    if dotIndex > sepIndex && exists i :: sepIndex + 1 <= i < dotIndex && p[i] != '.'
    then p[..dotIndex]
    else
      ExtStartIsLastDot(p);
      p
  }

  /** Where an extension starts, the last dot comes after the last
      separator and has a character other than a dot before it in its
      component. */
  lemma ExtStartIsLastDot(p: string)
    ensures forall d :: ExtStart(p, d) ==>
              && d == LastIndexOf(p, '.') && LastIndexOf(p, '/') < d
              && exists i :: LastIndexOf(p, '/') + 1 <= i < d && p[i] != '.'
  {
    forall d | ExtStart(p, d)
      ensures d == LastIndexOf(p, '.') && LastIndexOf(p, '/') < d
      ensures exists i :: LastIndexOf(p, '/') + 1 <= i < d && p[i] != '.'
    {
      var i :| 0 <= i < d && p[i] != '.' && p[i] != '/' && forall j :: i < j < d ==> p[j] != '/';
      assert LastIndexOf(p, '/') < i;
    }
  }

  /** The name `export_to_excel` gives the report of `filename`. */
  function ReportName(filename: string, t: DateTime): (r: string)
    requires ValidDateTime(t)
    ensures var root := SplitExtRoot(filename);
            && |r| == |root| + 21 && r[..|root|] == root && r[|root|] == '_'
            && r[|root| + 1..|root| + 16] == GetTimestamp(t) && r[|r| - 5..] == ".xlsx"
  {
    SplitExtRoot(filename) + "_" + GetTimestamp(t) + ".xlsx"
  }

  /** The report of a saved record is named after the record's timestamp,
      then the export's. */
  /** A dot between a stem with no `/` that does not start with a dot and
      an extension with no dot or `/` starts the extension. */
  lemma ExtStartAfterStem(stem: string, ext: string)
    requires stem != [] && stem[0] != '.' && '/' !in stem
    requires '.' !in ext && '/' !in ext
    ensures ExtStart(stem + ("." + ext), |stem|)
  {
    var p := stem + ("." + ext);
    assert p[|stem|] == '.';
    forall j | |stem| < j < |p|
      ensures p[j] != '.' && p[j] != '/'
    {
      assert p[j] == ext[j - |stem| - 1];
    }
    forall j | 0 < j < |stem|
      ensures p[j] != '/'
    {
      assert p[j] == stem[j];
    }
    assert p[0] == stem[0];
  }

  /** A record name has no `/` before its `.json`. */
  lemma RecordStemHasNoSlash(saved: DateTime)
    requires ValidDateTime(saved)
    ensures '/' !in RecordPrefix + GetTimestamp(saved)
  {
    var ts := GetTimestamp(saved);
    var stem := RecordPrefix + ts;
    forall k | 0 <= k < |stem|
      ensures stem[k] != '/'
    {
      if k < |RecordPrefix| {
        assert stem[k] == RecordPrefix[k];
      } else {
        assert stem[k] == ts[k - |RecordPrefix|];
      }
    }
  }

  /** The `.json` of a record name is its extension. */
  lemma RecordNameExtStart(saved: DateTime)
    requires ValidDateTime(saved)
    ensures ExtStart(RecordName(saved), |RecordPrefix| + |GetTimestamp(saved)|)
  {
    var stem := RecordPrefix + GetTimestamp(saved);
    RecordStemHasNoSlash(saved);
    assert stem[0] == 'c';
    ExtStartAfterStem(stem, "json");
    assert RecordName(saved) == stem + ("." + "json");
  }

  lemma ReportNameOfRecord(saved: DateTime, exported: DateTime)
    requires ValidDateTime(saved) && ValidDateTime(exported)
    ensures ReportName(RecordName(saved), exported)
            == RecordPrefix + GetTimestamp(saved) + "_" + GetTimestamp(exported) + ".xlsx"
  {
    var stem := RecordPrefix + GetTimestamp(saved);
    var p := RecordName(saved);
    assert p == stem + ".json";
    RecordNameExtStart(saved);
    ExtStartIsLastDot(p);
    var root := SplitExtRoot(p);
    assert |root| < |p| && ExtStart(p, |root|);
    assert root == p[..|stem|] == stem;
  }

  lemma {:induction false} LastIndexOfSkips(a: string, b: string, c: char)
    requires c !in b && a != [] && a[|a| - 1] == c
    ensures LastIndexOf(a + b, c) == |a| - 1
    decreases |b|
  {
    if b == [] {
      assert a + b == a;
    } else {
      assert (a + b)[..|a + b| - 1] == a + b[..|b| - 1];
      LastIndexOfSkips(a, b[..|b| - 1], c);
    }
  }

  // ---------------------------------------------------------------------
  // The saved record
  // ---------------------------------------------------------------------

  function EncodeCounts(c: Counts): Json
  {
    JObj(map k | k in c :: JInt(c[k]))
  }

  function EncodeLabels(labels: seq<Label>): seq<Json>
  {
    seq(|labels|, i requires 0 <= i < |labels| => JStr(labels[i]))
  }

  function EncodeEntry(e: Entry): Json
  {
    JObj(map["image" := JStr(e.image), "classes" := JArr(EncodeLabels(e.classes))])
  }

  function EncodeEntries(es: seq<Entry>): seq<Json>
  {
    seq(|es|, i requires 0 <= i < |es| => EncodeEntry(es[i]))
  }

  /** The dict `save_classification_results` dumps: exactly the keys
      `class_counts` and `image_classifications`. */
  function EncodeRecord(b: Batch): (j: Json)
    ensures j.JObj? && j.fields.Keys == {"class_counts", "image_classifications"}
  {
    JObj(map["class_counts" := EncodeCounts(b.counts),
             "image_classifications" := JArr(EncodeEntries(b.entries))])
  }

  function DecodeCounts(j: Json): Option<Counts>
  {
    if j.JObj? && forall k :: k in j.fields ==> j.fields[k].JInt? && j.fields[k].n >= 0
    then Some(map k | k in j.fields :: j.fields[k].n as nat)
    else None
  }

  function DecodeLabels(items: seq<Json>): Option<seq<Label>>
  {
    if items == [] then Some([])
    else if !items[0].JStr? then None
    else
      match DecodeLabels(items[1..])
      case None => None
      case Some(rest) => Some([items[0].s] + rest)
  }

  function DecodeEntry(j: Json): Option<Entry>
  {
    if j.JObj? && "image" in j.fields && "classes" in j.fields
       && j.fields["image"].JStr? && j.fields["classes"].JArr?
    then
      match DecodeLabels(j.fields["classes"].items)
      case None => None
      case Some(labels) => Some(Entry(j.fields["image"].s, labels))
    else None
  }

  function DecodeEntries(items: seq<Json>): Option<seq<Entry>>
  {
    if items == [] then Some([])
    else
      match DecodeEntry(items[0])
      case None => None
      case Some(e) =>
        match DecodeEntries(items[1..])
        case None => None
        case Some(rest) => Some([e] + rest)
  }

  /** Reads a history record back as the pair it was saved from. */
  function DecodeRecord(j: Json): Option<Batch>
  {
    if j.JObj? && "class_counts" in j.fields && "image_classifications" in j.fields
       && j.fields["image_classifications"].JArr?
    then
      match DecodeCounts(j.fields["class_counts"])
      case None => None
      case Some(c) =>
        match DecodeEntries(j.fields["image_classifications"].items)
        case None => None
        case Some(es) => Some(Batch(c, es))
    else None
  }

  lemma {:induction false} DecodeEncodeLabels(labels: seq<Label>)
    ensures DecodeLabels(EncodeLabels(labels)) == Some(labels)
    decreases |labels|
  {
    if labels != [] {
      assert EncodeLabels(labels)[1..] == EncodeLabels(labels[1..]);
      DecodeEncodeLabels(labels[1..]);
      assert labels == [labels[0]] + labels[1..];
    }
  }

  lemma {:induction false} DecodeEncodeEntries(es: seq<Entry>)
    ensures DecodeEntries(EncodeEntries(es)) == Some(es)
    decreases |es|
  {
    if es != [] {
      assert EncodeEntries(es)[1..] == EncodeEntries(es[1..]);
      DecodeEncodeLabels(es[0].classes);
      DecodeEncodeEntries(es[1..]);
      assert es == [es[0]] + es[1..];
    }
  }

  /** A saved record reads back as the pair it was saved from. */
  lemma DecodeEncodeRecord(b: Batch)
    ensures DecodeRecord(EncodeRecord(b)) == Some(b)
  {
    DecodeEncodeEntries(b.entries);
    var j := EncodeCounts(b.counts);
    assert DecodeCounts(j) == Some(b.counts) by {
      assert (map k | k in j.fields :: j.fields[k].n as nat) == b.counts;
    }
  }

  // ---------------------------------------------------------------------
  // save_classification_results, load_classification_history
  // ---------------------------------------------------------------------

  /** `save_classification_results(class_counts, image_classifications)`:
      creates the directories, then writes the record under the name of the
      current second, replacing a file of that name. */
  function SaveClassificationResults(fs: FileSystem, b: Batch, now: DateTime): (r: Effect<()>)
    requires ValidDateTime(now)
    ensures r.fs.reports == EnsureDirectoriesExist(fs).reports
    ensures r.result.Ok? <==> RecordName(now) !in EnsureDirectoriesExist(fs).metadata.value
                              || EnsureDirectoriesExist(fs).metadata.value[RecordName(now)].File?
    ensures r.result.Ok? ==>
              && r.fs.metadata.Some?
              && r.fs.metadata.value.Keys == EnsureDirectoriesExist(fs).metadata.value.Keys + {RecordName(now)}
              && r.fs.metadata.value[RecordName(now)] == File(JsonText(EncodeRecord(b)))
              && forall name :: name in r.fs.metadata.value && name != RecordName(now) ==>
                   r.fs.metadata.value[name] == EnsureDirectoriesExist(fs).metadata.value[name]
  {
    var ready := EnsureDirectoriesExist(fs);
    var d := ready.metadata.value;
    var name := RecordName(now);
    if name in d && d[name].Folder? then Effect(ready, Err(IsADirectory(JoinPath(MetadataDirectory, name))))
    else Effect(ready.(metadata := Some(d[name := File(JsonText(EncodeRecord(b)))])), Ok(()))
  }

  /** `load_classification_history(filename)`: the parsed JSON of
      `metadata/filename`, or the error `open` or `json.load` raises. */
  function LoadClassificationHistory(fs: FileSystem, filename: string): (r: Result<Json, IoError>)
    ensures r.Ok? <==> fs.metadata.Some? && filename in fs.metadata.value
                       && fs.metadata.value[filename].File? && fs.metadata.value[filename].data.JsonText?
    ensures r.Ok? ==> r.value == fs.metadata.value[filename].data.json
    ensures (fs.metadata.None? || filename !in fs.metadata.value) ==>
              r == Err(NotFound(JoinPath(MetadataDirectory, filename)))
  {
    var path := JoinPath(MetadataDirectory, filename);
    if fs.metadata.None? || filename !in fs.metadata.value then Err(NotFound(path))
    else
      match fs.metadata.value[filename]
      case Folder => Err(IsADirectory(path))
      case File(JsonText(j)) => Ok(j)
      case File(_) => Err(NotJson(path))
  }

  /** Loading the name a save wrote gives back the saved record. */
  lemma SaveLoadRoundTrip(fs: FileSystem, b: Batch, now: DateTime)
    requires ValidDateTime(now)
    requires SaveClassificationResults(fs, b, now).result.Ok?
    ensures var saved := SaveClassificationResults(fs, b, now).fs;
            && LoadClassificationHistory(saved, RecordName(now)) == Ok(EncodeRecord(b))
            && DecodeRecord(EncodeRecord(b)) == Some(b)
  {
    DecodeEncodeRecord(b);
  }

  /** Two saves within one second leave one file: the later record. */
  lemma SaveTwiceSameSecond(fs: FileSystem, b1: Batch, b2: Batch, now: DateTime)
    requires ValidDateTime(now)
    requires SaveClassificationResults(fs, b1, now).result.Ok?
    ensures var once := SaveClassificationResults(fs, b1, now).fs;
            var twice := SaveClassificationResults(once, b2, now);
            && twice.result.Ok?
            && twice.fs.metadata.value.Keys == once.metadata.value.Keys
            && LoadClassificationHistory(twice.fs, RecordName(now)) == Ok(EncodeRecord(b2))
  {
  }

  // ---------------------------------------------------------------------
  // export_to_excel
  // ---------------------------------------------------------------------

  /** `animal_dict` of `export_to_excel`. */
  const AnimalDict: map<string, string> := map["roedeer" := "Косуля", "deer" := "Олень", "muskdeer" := "Кабарга"]

  /** `animal_dict.get(cls, cls)`. */
  function Translate(cls: string): string
  {
    if cls in AnimalDict then AnimalDict[cls] else cls
  }

  function TranslateAll(labels: seq<string>): seq<string>
  {
    seq(|labels|, i requires 0 <= i < |labels| => Translate(labels[i]))
  }

  /** The `Класс` cell of an image with these labels. */
  function ClassText(labels: seq<Label>): string
  {
    Join(TranslateAll(labels), ", ")
  }

  /** The cell `", ".join(...)` makes of a `classes` value; only a list of
      strings can be looked up in the dict and joined. */
  function ClassCell(v: Json): Result<string, IoError>
  {
    if v.JArr? && forall i :: 0 <= i < |v.items| ==> v.items[i].JStr?
    then Ok(ClassText(seq(|v.items|, i requires 0 <= i < |v.items| => v.items[i].s)))
    else Err(WrongType)
  }

  /** The row of one element of `image_classifications`. */
  function RowOf(item: Json): Result<Row, IoError>
  {
    if !item.JObj? then Err(WrongType)
    else if "classes" !in item.fields then Err(MissingKey("classes"))
    else
      match ClassCell(item.fields["classes"])
      case Err(e) => Err(e)
      case Ok(cell) =>
        if "image" in item.fields && item.fields["image"].JStr?
        then Ok(Row(item.fields["image"].s, cell))
        else Err(WrongType)
  }

  /** The rows of the table, one per item, in order. */
  function Rows(items: seq<Json>): Result<seq<Row>, IoError>
  {
    if items == [] then Ok([])
    else
      match Rows(items[..|items| - 1])
      case Err(e) => Err(e)
      case Ok(rows) =>
        match RowOf(items[|items| - 1])
        case Err(e) => Err(e)
        case Ok(row) => Ok(rows + [row])
  }

  lemma {:induction false} RowsFailedPrefix(items: seq<Json>, j: nat)
    requires j <= |items| && Rows(items[..j]).Err?
    ensures Rows(items) == Rows(items[..j])
    decreases |items|
  {
    if j < |items| {
      var init := items[..|items| - 1];
      assert init[..j] == items[..j];
      RowsFailedPrefix(init, j);
    } else {
      assert items[..j] == items;
    }
  }

  /** The loop that rewrites each item's `classes` into its cell, followed
      by the projection onto the two columns. */
  method FlattenClassifications(items: seq<Json>) returns (rows: Result<seq<Row>, IoError>)
    ensures rows == Rows(items)
    ensures rows.Ok? ==> |rows.value| == |items|
  {
    var done: seq<Row> := [];
    for i := 0 to |items|
      invariant Rows(items[..i]) == Ok(done)
      invariant |done| == i
    {
      assert items[..i + 1][..i] == items[..i];
      var row := RowOf(items[i]);
      if row.Err? {
        RowsFailedPrefix(items, i + 1);
        return Err(row.error);
      }
      done := done + [row.value];
    }
    assert items[..|items|] == items;
    rows := Ok(done);
  }

  /** The rows expected of a record's entries: one per entry, in order. */
  function ExpectedRows(es: seq<Entry>): seq<Row>
  {
    seq(|es|, i requires 0 <= i < |es| => Row(es[i].image, ClassText(es[i].classes)))
  }

  lemma {:induction false} RowsOfEncoded(es: seq<Entry>)
    ensures Rows(EncodeEntries(es)) == Ok(ExpectedRows(es))
    decreases |es|
  {
    if es != [] {
      var n := |es|;
      var items := EncodeEntries(es);
      assert items[..n - 1] == EncodeEntries(es[..n - 1]);
      assert items[n - 1] == EncodeEntry(es[n - 1]);
      RowsOfEncoded(es[..n - 1]);
      RowOfEncoded(es[n - 1]);
      assert ExpectedRows(es) == ExpectedRows(es[..n - 1]) + [Row(es[n - 1].image, ClassText(es[n - 1].classes))];
    } else {
      assert EncodeEntries(es) == [] && ExpectedRows(es) == [];
    }
  }

  /** The row of one saved entry: its image and its translated labels. */
  lemma RowOfEncoded(e: Entry)
    ensures RowOf(EncodeEntry(e)) == Ok(Row(e.image, ClassText(e.classes)))
  {
    var items := EncodeLabels(e.classes);
    assert seq(|items|, i requires 0 <= i < |items| => items[i].s) == e.classes;
  }

  const ReportColumns: seq<string> := ["Изображение", "Класс"]

  /** The `image_classifications` list of `metadata/filename`, when that is
      a JSON object holding such a list. */
  function RecordItems(fs: FileSystem, filename: string): Option<seq<Json>>
  {
    if fs.metadata.Some? && filename in fs.metadata.value
       && fs.metadata.value[filename].File? && fs.metadata.value[filename].data.JsonText?
    then
      var j := fs.metadata.value[filename].data.json;
      if j.JObj? && "image_classifications" in j.fields && j.fields["image_classifications"].JArr?
      then Some(j.fields["image_classifications"].items)
      else None
    else None
  }

  /** `export_to_excel(filename)`: reads `metadata/filename`, builds the
      table and writes it to `reports/`, returning the report's path. */
  function ExportToExcel(fs: FileSystem, filename: string, now: DateTime): (r: Effect<string>)
    requires ValidDateTime(now)
    ensures r.fs.metadata == fs.metadata
    ensures r.result.Ok? <==>
              && RecordItems(fs, filename).Some?
              && Rows(RecordItems(fs, filename).value).Ok?
              && Rows(RecordItems(fs, filename).value).value != []
              && fs.reports.Some?
              && (ReportName(filename, now) !in fs.reports.value
                  || fs.reports.value[ReportName(filename, now)].File?)
    ensures r.result.Ok? ==>
              && r.result.value == JoinPath(ReportsDirectory, ReportName(filename, now))
              && r.fs.reports.Some? && fs.reports.Some?
              && r.fs.reports.value.Keys == fs.reports.value.Keys + {ReportName(filename, now)}
              && r.fs.reports.value[ReportName(filename, now)]
                 == File(Workbook(Sheet(ReportColumns, Rows(RecordItems(fs, filename).value).value)))
              && forall name :: name in fs.reports.value && name != ReportName(filename, now) ==>
                   r.fs.reports.value[name] == fs.reports.value[name]
    ensures r.result.Err? ==> r.fs == fs
  {
    match LoadClassificationHistory(fs, filename)
    case Err(e) => Effect(fs, Err(e))
    case Ok(data) =>
      if !data.JObj? then Effect(fs, Err(WrongType))
      else if "image_classifications" !in data.fields then Effect(fs, Err(MissingKey("image_classifications")))
      else if !data.fields["image_classifications"].JArr? then Effect(fs, Err(WrongType))
      else
        match Rows(data.fields["image_classifications"].items)
        case Err(e) => Effect(fs, Err(e))
        case Ok(rows) =>
          var name := ReportName(filename, now);
          var path := JoinPath(ReportsDirectory, name);
          if rows == [] then Effect(fs, Err(NoColumns))
          else if fs.reports.None? then Effect(fs, Err(NotFound(path)))
          else if name in fs.reports.value && fs.reports.value[name].Folder? then Effect(fs, Err(IsADirectory(path)))
          else Effect(fs.(reports := Some(fs.reports.value[name := File(Workbook(Sheet(ReportColumns, rows)))])), Ok(path))
  }

  /** Exporting a saved record writes one row per entry, in order, with the
      image path and the translated labels joined by ", "; a record with no
      entries cannot be exported. */
  lemma ExportSavedRecord(fs: FileSystem, b: Batch, saved: DateTime, exported: DateTime)
    requires ValidDateTime(saved) && ValidDateTime(exported)
    requires fs.metadata.Some? && fs.reports.Some?
    requires RecordName(saved) in fs.metadata.value
    requires fs.metadata.value[RecordName(saved)] == File(JsonText(EncodeRecord(b)))
    requires var name := ReportName(RecordName(saved), exported);
             name !in fs.reports.value || fs.reports.value[name].File?
    ensures var r := ExportToExcel(fs, RecordName(saved), exported);
            var name := ReportName(RecordName(saved), exported);
            && name == RecordPrefix + GetTimestamp(saved) + "_" + GetTimestamp(exported) + ".xlsx"
            && (b.entries == [] ==> r.result == Err(NoColumns))
            && (b.entries != [] ==>
                  && r.result == Ok(JoinPath(ReportsDirectory, name))
                  && r.fs.reports.value[name] == File(Workbook(Sheet(ReportColumns, ExpectedRows(b.entries)))))
  {
    var j := EncodeRecord(b);
    assert LoadClassificationHistory(fs, RecordName(saved)) == Ok(j);
    assert j.fields["image_classifications"] == JArr(EncodeEntries(b.entries));
    RowsOfEncoded(b.entries);
    assert ExpectedRows(b.entries) == [] <==> b.entries == [];
    ReportNameOfRecord(saved, exported);
  }

  /** The table does not depend on when it is exported: two exports of one
      record write the same sheet under different names. */
  lemma ExportContentIndependentOfTime(fs: FileSystem, filename: string, t1: DateTime, t2: DateTime)
    requires ValidDateTime(t1) && ValidDateTime(t2)
    requires ExportToExcel(fs, filename, t1).result.Ok? && ExportToExcel(fs, filename, t2).result.Ok?
    ensures ExportToExcel(fs, filename, t1).fs.reports.value[ReportName(filename, t1)]
            == ExportToExcel(fs, filename, t2).fs.reports.value[ReportName(filename, t2)]
  {
  }

  // ---------------------------------------------------------------------
  // The record as the pipeline writes it
  // ---------------------------------------------------------------------

  /** One element of `image_classifications` as the classification loop
      builds it: every class is the tuple `(label, confidence)`, which
      `json.dump` writes as a two-element list. */
  function EncodeEntryAsWritten(e: Entry): Json
  {
    JObj(map["image" := JStr(e.image),
             "classes" := JArr(seq(|e.classes|, i requires 0 <= i < |e.classes| =>
                                     JArr([JStr(e.classes[i]), JFloat])))])
  }

  function EncodeEntriesAsWritten(es: seq<Entry>): seq<Json>
  {
    seq(|es|, i requires 0 <= i < |es| => EncodeEntryAsWritten(es[i]))
  }

  /** The dict `save_classification_results` dumps for the pair the worker
      actually hands it. */
  function EncodeRecordAsWritten(b: Batch): (j: Json)
    ensures j.JObj? && j.fields.Keys == {"class_counts", "image_classifications"}
  {
    JObj(map["class_counts" := EncodeCounts(b.counts),
             "image_classifications" := JArr(EncodeEntriesAsWritten(b.entries))])
  }

  /** Some image of `es` has a class. */
  predicate SomeClassified(es: seq<Entry>)
  {
    exists i :: 0 <= i < |es| && es[i].classes != []
  }

  lemma SomeClassifiedSnoc(es: seq<Entry>)
    requires es != []
    ensures SomeClassified(es) <==> SomeClassified(es[..|es| - 1]) || es[|es| - 1].classes != []
  {
    var init := es[..|es| - 1];
    if SomeClassified(es) && es[|es| - 1].classes == [] {
      var k :| 0 <= k < |es| && es[k].classes != [];
      assert init[k] == es[k];
    }
    if SomeClassified(init) {
      var k :| 0 <= k < |init| && init[k].classes != [];
      assert es[k] == init[k];
    }
  }

  /** The row of one entry as written: its first class is a list, not a
      string. */
  lemma RowOfAsWritten(e: Entry)
    ensures RowOf(EncodeEntryAsWritten(e))
            == if e.classes != [] then Err(WrongType) else Ok(Row(e.image, ClassText([])))
  {
    var item := EncodeEntryAsWritten(e);
    if e.classes != [] {
      assert !item.fields["classes"].items[0].JStr?;
    } else {
      assert item.fields["classes"].items == [];
    }
  }

  /** Looking a two-element list up in `animal_dict` raises TypeError, so
      the table of such a record fails as soon as one image has a class. */
  lemma {:induction false} RowsOfAsWritten(es: seq<Entry>)
    ensures Rows(EncodeEntriesAsWritten(es))
            == if SomeClassified(es) then Err(WrongType) else Ok(ExpectedRows(es))
    decreases |es|
  {
    if es == [] {
      assert EncodeEntriesAsWritten(es) == [] && ExpectedRows(es) == [];
    } else {
      var n := |es|;
      var init := es[..n - 1];
      var items := EncodeEntriesAsWritten(es);
      assert items[..n - 1] == EncodeEntriesAsWritten(init);
      assert items[n - 1] == EncodeEntryAsWritten(es[n - 1]);
      RowsOfAsWritten(init);
      RowOfAsWritten(es[n - 1]);
      SomeClassifiedSnoc(es);
      if SomeClassified(init) {
        assert Rows(items) == Err(WrongType);
      } else if es[n - 1].classes != [] {
        assert Rows(items) == Err(WrongType);
      } else {
        assert Rows(items) == Ok(ExpectedRows(init) + [Row(es[n - 1].image, ClassText([]))]);
        assert ExpectedRows(es) == ExpectedRows(init) + [Row(es[n - 1].image, ClassText([]))];
      }
    }
  }

  /** A record saved as written cannot be exported once any image has a
      class: the export raises TypeError and writes nothing. */
  lemma AsWrittenRecordCannotBeExported(fs: FileSystem, b: Batch, saved: DateTime, exported: DateTime)
    requires ValidDateTime(saved) && ValidDateTime(exported)
    requires fs.metadata.Some? && RecordName(saved) in fs.metadata.value
    requires fs.metadata.value[RecordName(saved)] == File(JsonText(EncodeRecordAsWritten(b)))
    requires SomeClassified(b.entries)
    ensures ExportToExcel(fs, RecordName(saved), exported) == Effect(fs, Err(WrongType))
  {
    var j := EncodeRecordAsWritten(b);
    assert LoadClassificationHistory(fs, RecordName(saved)) == Ok(j);
    assert j.fields["image_classifications"] == JArr(EncodeEntriesAsWritten(b.entries));
    RowsOfAsWritten(b.entries);
  }

  // ---------------------------------------------------------------------
  // clear_directory
  // ---------------------------------------------------------------------

  /** `clear_directory(directory_path, parent)`: asks the user; on Yes
      removes every regular file of the directory and keeps its
      sub-directories. */
  method ClearDirectory(d: Directory, answeredYes: bool) returns (cleared: bool, after: Directory)
    ensures cleared == answeredYes
    ensures !answeredYes ==> after == d
    ensures answeredYes ==> forall name :: name in after <==> name in d && d[name].Folder?
    ensures forall name :: name in after ==> name in d && after[name] == d[name]
  {
    if !answeredYes {
      return false, d;
    }
    after := d;
    var remaining := d.Keys;
    while remaining != {}
      invariant remaining <= d.Keys
      invariant forall name :: name in after <==> name in d && (name in remaining || d[name].Folder?)
      invariant forall name :: name in after ==> after[name] == d[name]
      decreases remaining
    {
      var name :| name in remaining;
      if d[name].File? {
        after := after - {name};
      }
      remaining := remaining - {name};
    }
    cleared := true;
  }
}
