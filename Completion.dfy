/**
 * The `CompletionPage`: the metadata CSV of the recorded files and the ZIP
 * archive `downloadAllRecordings` assembles from them.
 *
 * The storage download is a function parameter from a path to what the call
 * yielded; the archive is the list of entries a JSZip object holds, in the
 * order it holds them. Generating the archive, the date in the saved file
 * names, `saveAs` and the progress bar are outside the model.
 */
module Completion {
  import opened Wrappers
  import opened JsText
  import opened Sequences

  /** An element of `recordedFiles`. */
  datatype RecordedFile = RecordedFile(path: string, emotion: string, sentence: string)

  // ---------------------------------------------------------------------
  // downloadMetadata
  // ---------------------------------------------------------------------

  const CsvHeader := "Emotion,Sentence,Filename,Path"

  /** A field between double quotes; quotes inside it are not doubled. */
  function Quoted(field: string): string
  {
    "\"" + field + "\""
  }

  /** The line of one file: emotion, sentence, the path's last segment and the path, each quoted. */
  function CsvRow(file: RecordedFile): string
  {
    Quoted(file.emotion) + "," + Quoted(file.sentence) + "," + Quoted(LastSegment(file.path, '/')) + "," + Quoted(file.path)
  }

  /** The rows of the files, one per file, in order. */
  function CsvRows(files: seq<RecordedFile>): (rows: seq<string>)
    ensures |rows| == |files|
  {
    seq(|files|, k requires 0 <= k < |files| => CsvRow(files[k]))
  }

  /** `downloadMetadata`: the header and the rows joined by '\n', with no line break at the end. */
  function MetadataCsv(files: seq<RecordedFile>): string
  {
    Join([CsvHeader] + CsvRows(files), '\n')
  }

  /** The quote-separated pieces of a row: its four fields sit at the odd positions. */
  function RowPieces(file: RecordedFile): seq<string>
  {
    ["", file.emotion, ",", file.sentence, ",", LastSegment(file.path, '/'), ",", file.path, ""]
  }

  /** Reading a row back: the text between each pair of quotes, when there are exactly eight quotes. */
  function DecodeRow(row: string): (fields: Option<seq<string>>)
    ensures fields.Some? ==> |fields.value| == 4
  {
    var pieces := Split(row, '"');
    if |pieces| == 9 then Some([pieces[1], pieces[3], pieces[5], pieces[7]]) else None
  }

  /** Joining a part in front of at least one more puts a separator between them. */
  lemma JoinCons(parts: seq<string>, sep: char)
    requires |parts| >= 2
    ensures Join(parts, sep) == parts[0] + ([sep] + Join(parts[1..], sep))
  {
    AppendAssoc(parts[0], [sep], Join(parts[1..], sep));
  }

  /** A quoted field followed by more text. */
  lemma QuotedThen(x: string, rest: string)
    ensures Quoted(x) + rest == "\"" + (x + ("\"" + rest))
  {
    AppendAssoc("\"" + x, "\"", rest);
    AppendAssoc("\"", x, "\"" + rest);
  }

  /** A row is its pieces joined by quotes. */
  lemma CsvRowPieces(file: RecordedFile)
    ensures CsvRow(file) == Join(RowPieces(file), '"')
  {
    var pieces := RowPieces(file);
    var q, c := "\"", ",";
    var filename := LastSegment(file.path, '/');
    var a, b, d, e := Quoted(file.emotion), Quoted(file.sentence), Quoted(filename), Quoted(file.path);
    // The row, regrouped to the right.
    AppendAssoc(a + c + b + c + d, c, e);
    AppendAssoc(a + c + b + c, d, c + e);
    AppendAssoc(a + c + b, c, d + (c + e));
    AppendAssoc(a + c, b, c + (d + (c + e)));
    AppendAssoc(a, c, b + (c + (d + (c + e))));
    var r4 := c + e;
    var r3 := c + (d + r4);
    var r2 := c + (b + r3);
    assert CsvRow(file) == a + r2;
    // The join, unfolded from the right.
    var j8 := Join(pieces[8..], '"');
    assert j8 == "";
    JoinCons(pieces[7..], '"');
    assert pieces[7..][1..] == pieces[8..];
    var j7 := Join(pieces[7..], '"');
    assert j7 == file.path + q;
    JoinCons(pieces[6..], '"');
    assert pieces[6..][1..] == pieces[7..];
    var j6 := Join(pieces[6..], '"');
    assert j6 == c + (q + j7);
    JoinCons(pieces[5..], '"');
    assert pieces[5..][1..] == pieces[6..];
    var j5 := Join(pieces[5..], '"');
    assert j5 == filename + (q + j6);
    JoinCons(pieces[4..], '"');
    assert pieces[4..][1..] == pieces[5..];
    var j4 := Join(pieces[4..], '"');
    assert j4 == c + (q + j5);
    JoinCons(pieces[3..], '"');
    assert pieces[3..][1..] == pieces[4..];
    var j3 := Join(pieces[3..], '"');
    assert j3 == file.sentence + (q + j4);
    JoinCons(pieces[2..], '"');
    assert pieces[2..][1..] == pieces[3..];
    var j2 := Join(pieces[2..], '"');
    assert j2 == c + (q + j3);
    JoinCons(pieces[1..], '"');
    assert pieces[1..][1..] == pieces[2..];
    var j1 := Join(pieces[1..], '"');
    assert j1 == file.emotion + (q + j2);
    JoinCons(pieces, '"');
    assert Join(pieces, '"') == q + j1;
    // Both sides agree piece by piece.
    assert e == q + file.path + q;
    AppendAssoc(q, file.path, q);
    assert c + e == j6;
    QuotedThen(filename, r4);
    assert d + r4 == q + j5;
    assert r3 == j4;
    QuotedThen(file.sentence, r3);
    assert b + r3 == q + j3;
    assert r2 == j2;
    QuotedThen(file.emotion, r2);
  }

  /** No quote in any field: the row reads back as exactly its four fields. */
  lemma CsvRowRoundTrip(file: RecordedFile)
    requires '"' !in file.emotion && '"' !in file.sentence && '"' !in file.path
    ensures DecodeRow(CsvRow(file)) == Some([file.emotion, file.sentence, LastSegment(file.path, '/'), file.path])
  {
    var pieces := RowPieces(file);
    LastSegmentSuffix(file.path, '/');
    var filename := LastSegment(file.path, '/');
    assert '"' !in filename;
    CsvRowPieces(file);
    SplitJoin(pieces, '"');
  }

  /** Quotes are not escaped: a field holding `","` can shift text into the next field and give
      the same row as a different file, against rule 7 of section 2 of RFC 4180. */
  lemma QuotesNotEscaped(path: string, x: string, y: string, z: string)
    ensures CsvRow(RecordedFile(path, x + "\",\"" + y, z)) == CsvRow(RecordedFile(path, x, y + "\",\"" + z))
  {
  }

  /** The first line is the header: the CSV starts with it and goes on, if at all, with a line break. */
  lemma CsvStartsWithHeader(files: seq<RecordedFile>)
    ensures CsvHeader <= MetadataCsv(files)
    ensures files == [] ==> MetadataCsv(files) == CsvHeader
    ensures files != [] ==> |MetadataCsv(files)| > |CsvHeader| && MetadataCsv(files)[|CsvHeader|] == '\n'
  {
    var lines := [CsvHeader] + CsvRows(files);
    if files != [] {
      assert MetadataCsv(files) == CsvHeader + ['\n'] + Join(lines[1..], '\n');
    }
  }

  /** The CSV never ends in a line break: it ends with the header's last letter or a row's closing quote. */
  lemma CsvNoTrailingNewline(files: seq<RecordedFile>)
    ensures !EndsWith(MetadataCsv(files), '\n')
  {
    var lines := [CsvHeader] + CsvRows(files);
    var last := lines[|lines| - 1];
    JoinEndsWithLast(lines, '\n');
    var csv := MetadataCsv(files);
    assert last != [] && last[|last| - 1] != '\n';
    assert csv[|csv| - 1] == last[|last| - 1];
  }

  /** A row holds a line break only when one of the file's fields does. */
  lemma RowWithoutNewline(file: RecordedFile)
    requires '\n' !in file.emotion && '\n' !in file.sentence && '\n' !in file.path
    ensures '\n' !in CsvRow(file)
  {
    LastSegmentSuffix(file.path, '/');
    var filename := LastSegment(file.path, '/');
    assert '\n' !in filename;
  }

  /** With no line break inside a field, the CSV's lines are the header and one row per file, in order. */
  lemma CsvLines(files: seq<RecordedFile>)
    requires forall k | 0 <= k < |files| ::
      '\n' !in files[k].emotion && '\n' !in files[k].sentence && '\n' !in files[k].path
    ensures Split(MetadataCsv(files), '\n') == [CsvHeader] + CsvRows(files)
  {
    var lines := [CsvHeader] + CsvRows(files);
    forall k | 0 <= k < |lines|
      ensures '\n' !in lines[k]
    {
      if k > 0 {
        RowWithoutNewline(files[k - 1]);
      }
    }
    SplitJoin(lines, '\n');
  }

  // ---------------------------------------------------------------------
  // downloadAllRecordings
  // ---------------------------------------------------------------------

  /** What the storage download of one path yielded: data, an error or no data, or an exception. */
  datatype Fetch<D> = Fetched(data: D) | Missing | Threw

  /** An entry of the archive. */
  datatype ZipEntry<D> = ZipEntry(name: string, data: D)

  /** How `downloadAllRecordings` ends: no signed-in user, an archive handed to `saveAs`, or an
      exception caught before any archive was generated. */
  datatype ZipOutcome<D> = NoUser | Saved(entries: seq<ZipEntry<D>>) | Aborted

  const FallbackName := "recording.wav"

  /** `file.path.split('/').pop() || 'recording.wav'`. */
  function ZipFileName(path: string): (name: string)
    ensures name != []
    ensures '/' !in name
  {
    LastSegmentSuffix(path, '/');
    var segment := LastSegment(path, '/');
    if segment == "" then FallbackName else segment
  }

  /** The name falls back only when the path is empty or ends in '/'; otherwise it is the text after the last '/'. */
  lemma ZipFileNameFallback(path: string)
    ensures ZipFileName(path) == FallbackName <== path == [] || EndsWith(path, '/')
    ensures path != [] && !EndsWith(path, '/') ==> ZipFileName(path) == LastSegment(path, '/')
  {
    LastSegmentSuffix(path, '/');
    if EndsWith(path, '/') {
      LastSegmentAfterTrailing(path, '/');
    }
  }

  /** `${file.emotion}/${fileName}`: one folder per emotion. */
  function ZipEntryName(file: RecordedFile): (name: string)
    ensures name == file.emotion + "/" + ZipFileName(file.path)
  {
    file.emotion + "/" + ZipFileName(file.path)
  }

  /** The names of the entries, in order. */
  function Names<D>(entries: seq<ZipEntry<D>>): (names: seq<string>)
    ensures |names| == |entries|
  {
    seq(|entries|, k requires 0 <= k < |entries| => entries[k].name)
  }

  /** No two entries share a name. */
  predicate UniqueNames<D>(entries: seq<ZipEntry<D>>)
  {
    forall i, j | 0 <= i < j < |entries| :: entries[i].name != entries[j].name
  }

  /** `zip.file(name, data)`: an entry of that name gets the new data where it stands; a new
      name is added at the end. */
  function AddFile<D>(entries: seq<ZipEntry<D>>, name: string, data: D): (updated: seq<ZipEntry<D>>)
    ensures name !in Names(entries) ==> updated == entries + [ZipEntry(name, data)]
    ensures name in Names(entries) ==> |updated| == |entries|
    ensures name in Names(entries) ==> forall k | 0 <= k < |entries| ::
      updated[k] == if entries[k].name == name then ZipEntry(name, data) else entries[k]
    ensures name in Names(updated)
  {
    if name in Names(entries) then
      var updated := seq(|entries|, k requires 0 <= k < |entries| =>
        if entries[k].name == name then ZipEntry(name, data) else entries[k]);
      var k :| 0 <= k < |entries| && Names(entries)[k] == name;
      assert Names(updated)[k] == name;
      updated
    else
      var updated := entries + [ZipEntry(name, data)];
      assert Names(updated)[|entries|] == name;
      updated
  }

  /** Adding a file keeps the names unique. */
  lemma AddFileKeepsUnique<D>(entries: seq<ZipEntry<D>>, name: string, data: D)
    requires UniqueNames(entries)
    ensures UniqueNames(AddFile(entries, name, data))
  {
    var updated := AddFile(entries, name, data);
    if name !in Names(entries) {
      forall i, j | 0 <= i < j < |updated|
        ensures updated[i].name != updated[j].name
      {
        if j == |entries| {
          assert Names(entries)[i] == entries[i].name;
        }
      }
    }
  }

  /** The archive after the loop over `files`: None once a download threw. */
  function ZipOf<D>(files: seq<RecordedFile>, download: string -> Fetch<D>): Option<seq<ZipEntry<D>>>
  {
    if files == [] then Some([])
    else
      var file := files[|files| - 1];
      match ZipOf(files[..|files| - 1], download)
      case None => None
      case Some(entries) =>
        match download(file.path)
        case Threw => None
        case Missing => Some(entries)
        case Fetched(data) => Some(AddFile(entries, ZipEntryName(file), data))
  }

  /** Some download of the files threw. */
  predicate AnyThrew<D>(files: seq<RecordedFile>, download: string -> Fetch<D>)
  {
    exists k | 0 <= k < |files| :: download(files[k].path).Threw?
  }

  /** The loop is aborted exactly when one of the downloads throws. */
  lemma {:induction false} ZipAbortsOnThrow<D>(files: seq<RecordedFile>, download: string -> Fetch<D>)
    ensures ZipOf(files, download).None? <==> AnyThrew(files, download)
    decreases |files|
  {
    if files != [] {
      var init := files[..|files| - 1];
      ZipAbortsOnThrow(init, download);
      if AnyThrew(init, download) {
        var k :| 0 <= k < |init| && download(init[k].path).Threw?;
        assert files[k] == init[k];
      }
      if AnyThrew(files, download) && !download(files[|files| - 1].path).Threw? {
        var k :| 0 <= k < |files| && download(files[k].path).Threw?;
        assert init[k] == files[k];
      }
    }
  }

  /** The archive never holds two entries of the same name. */
  lemma {:induction false} ZipUniqueNames<D>(files: seq<RecordedFile>, download: string -> Fetch<D>)
    requires ZipOf(files, download).Some?
    ensures UniqueNames(ZipOf(files, download).value)
    decreases |files|
  {
    if files != [] {
      var file := files[|files| - 1];
      ZipUniqueNames(files[..|files| - 1], download);
      if download(file.path).Fetched? {
        AddFileKeepsUnique(ZipOf(files[..|files| - 1], download).value, ZipEntryName(file), download(file.path).data);
      }
    }
  }

  /** The entries one per fetched file, in the order of the files. */
  function FetchedEntries<D>(files: seq<RecordedFile>, download: string -> Fetch<D>): (entries: seq<ZipEntry<D>>)
    ensures |entries| <= |files|
  {
    if files == [] then []
    else
      var file := files[|files| - 1];
      FetchedEntries(files[..|files| - 1], download)
        + (if download(file.path).Fetched? then [ZipEntry(ZipEntryName(file), download(file.path).data)] else [])
  }

  lemma NamesAppend<D>(a: seq<ZipEntry<D>>, b: seq<ZipEntry<D>>)
    ensures Names(a + b) == Names(a) + Names(b)
  {
  }

  /** Every fetched entry is named after a file that was fetched. */
  lemma {:induction false} FetchedEntryNames<D>(files: seq<RecordedFile>, download: string -> Fetch<D>, name: string)
    requires name in Names(FetchedEntries(files, download))
    ensures exists k | 0 <= k < |files| :: download(files[k].path).Fetched? && ZipEntryName(files[k]) == name
    decreases |files|
  {
    var init := files[..|files| - 1];
    var file := files[|files| - 1];
    var before := FetchedEntries(init, download);
    if name in Names(before) {
      FetchedEntryNames(init, download, name);
      var k :| 0 <= k < |init| && download(init[k].path).Fetched? && ZipEntryName(init[k]) == name;
      assert files[k] == init[k];
    } else {
      var tail := if download(file.path).Fetched? then [ZipEntry(ZipEntryName(file), download(file.path).data)] else [];
      NamesAppend(before, tail);
      assert name in Names(tail);
      assert files[|files| - 1] == file;
    }
  }

  /** A name no fetched file maps to names no entry. */
  lemma {:induction false} NameNotFetched<D>(files: seq<RecordedFile>, download: string -> Fetch<D>, name: string)
    requires forall k | 0 <= k < |files| && download(files[k].path).Fetched? :: ZipEntryName(files[k]) != name
    ensures name !in Names(FetchedEntries(files, download))
    decreases |files|
  {
    if files != [] {
      var init := files[..|files| - 1];
      var file := files[|files| - 1];
      forall k | 0 <= k < |init| && download(init[k].path).Fetched?
        ensures ZipEntryName(init[k]) != name
      {
        assert init[k] == files[k];
      }
      NameNotFetched(init, download, name);
      var tail := if download(file.path).Fetched? then [ZipEntry(ZipEntryName(file), download(file.path).data)] else [];
      NamesAppend(FetchedEntries(init, download), tail);
    }
  }

  /** The fetched files land in distinct entries. */
  predicate DistinctFetchedNames<D>(files: seq<RecordedFile>, download: string -> Fetch<D>)
  {
    forall i, j | 0 <= i < j < |files| && download(files[i].path).Fetched? && download(files[j].path).Fetched? ::
      ZipEntryName(files[i]) != ZipEntryName(files[j])
  }

  /** With no exception and distinct names, the archive holds exactly the fetched files, in order:
      a failed download skips its file and the loop goes on with the next. */
  lemma {:induction false} ZipSkipsFailures<D>(files: seq<RecordedFile>, download: string -> Fetch<D>)
    requires !AnyThrew(files, download)
    requires DistinctFetchedNames(files, download)
    ensures ZipOf(files, download) == Some(FetchedEntries(files, download))
    decreases |files|
  {
    if files != [] {
      var init := files[..|files| - 1];
      var file := files[|files| - 1];
      forall k | 0 <= k < |init|
        ensures !download(init[k].path).Threw?
      {
        assert init[k] == files[k];
      }
      assert DistinctFetchedNames(init, download) by {
        forall i, j | 0 <= i < j < |init| && download(init[i].path).Fetched? && download(init[j].path).Fetched?
          ensures ZipEntryName(init[i]) != ZipEntryName(init[j])
        {
          assert init[i] == files[i] && init[j] == files[j];
        }
      }
      ZipSkipsFailures(init, download);
      var before := FetchedEntries(init, download);
      if download(file.path).Fetched? {
        var name := ZipEntryName(file);
        forall k | 0 <= k < |init| && download(init[k].path).Fetched?
          ensures ZipEntryName(init[k]) != name
        {
          assert init[k] == files[k];
        }
        NameNotFetched(init, download, name);
        var entry := ZipEntry(name, download(file.path).data);
        assert ZipOf(files, download) == Some(AddFile(before, name, entry.data));
        assert FetchedEntries(files, download) == before + [entry];
      } else {
        assert !download(files[|files| - 1].path).Threw?;
        assert ZipOf(files, download) == Some(before);
        assert FetchedEntries(files, download) == before + [];
        assert before + [] == before;
      }
    }
  }

  /** `downloadAllRecordings`: without a user nothing happens; otherwise each file is downloaded in
      turn and added under its folder name, failed downloads are skipped, and an exception ends
      the loop with no archive. */
  method DownloadAllRecordings<D>(user: Option<string>, recordedFiles: seq<RecordedFile>, download: string -> Fetch<D>)
    returns (outcome: ZipOutcome<D>)
    ensures user.None? ==> outcome == NoUser
    ensures user.Some? && AnyThrew(recordedFiles, download) ==> outcome == Aborted
    ensures user.Some? && !AnyThrew(recordedFiles, download) ==>
      outcome.Saved? && Some(outcome.entries) == ZipOf(recordedFiles, download) && UniqueNames(outcome.entries)
  {
    if user.None? {
      return NoUser;
    }
    ZipAbortsOnThrow(recordedFiles, download);
    var zip: seq<ZipEntry<D>> := [];
    for i := 0 to |recordedFiles|
      invariant ZipOf(recordedFiles[..i], download) == Some(zip)
    {
      var file := recordedFiles[i];
      assert recordedFiles[..i + 1][..i] == recordedFiles[..i];
      match download(file.path)
      case Threw =>
        ZipAbortsOnThrow(recordedFiles[..i + 1], download);
        assert recordedFiles[..i + 1][i] == file;
        return Aborted;
      case Missing =>
      case Fetched(data) =>
        var fileName := LastSegment(file.path, '/');
        if fileName == "" {
          fileName := FallbackName;
        }
        var folderPath := file.emotion + "/" + fileName;
        zip := AddFile(zip, folderPath, data);
    }
    assert recordedFiles[..|recordedFiles|] == recordedFiles;
    ZipUniqueNames(recordedFiles, download);
    outcome := Saved(zip);
  }
}
