/**
 * `CloudStorage`: per-user lists of recordings kept in the browser's
 * localStorage under the key `emorecorder_recordings_<userId>`.
 *
 * localStorage is a map from keys to stored texts. A stored text either
 * parses as a JSON list of records or it does not; JSON serialisation is
 * taken as an exact round trip for these records. The clock, the base64
 * encoding of the audio and `URL.createObjectURL` are outside the model:
 * the timestamp and the encoded audio are parameters.
 */
module Storage {
  import opened Wrappers
  import opened JsText
  import opened Sequences

  /** The `type` of a recording. */
  datatype RecordingType = Batch | Single

  /** A stored recording: `RecordingMetadata & { audioData }`. */
  datatype Record = Record(
    userId: string,
    sentence: string,
    emotion: Option<string>,
    timestamp: nat,
    filename: string,
    kind: RecordingType,
    audioData: string)

  /** What `localStorage.getItem` can hand back for a key that is present. */
  datatype Stored = Json(records: seq<Record>) | Unparseable

  /** `getRecordingStats`. */
  datatype Stats = Stats(totalRecordings: nat, batchRecordings: nat, singleRecordings: nat, totalDuration: nat)

  const StorageKey := "emorecorder_recordings"

  /** The localStorage key of one user's list. */
  function Key(userId: string): string
  {
    StorageKey + "_" + userId
  }

  /** Different users never share a key. */
  lemma KeyInjective(a: string, b: string)
    requires Key(a) == Key(b)
    ensures a == b
  {
    var n := |StorageKey + "_"|;
    assert a == Key(a)[n..];
    assert b == Key(b)[n..];
  }

  // ---------------------------------------------------------------------
  // The file name of an upload
  // ---------------------------------------------------------------------

  /** An ASCII letter or digit: what `[^a-z0-9]` with the `i` flag does not match. */
  predicate IsAsciiAlnum(c: char)
  {
    'a' <= c <= 'z' || 'A' <= c <= 'Z' || '0' <= c <= '9'
  }

  /** `.replace(/[^a-z0-9]/gi, '_')`. */
  function UnderscoreOthers(s: string): (r: string)
    ensures |r| == |s|
  {
    if s == [] then []
    else
      var c := s[|s| - 1];
      UnderscoreOthers(s[..|s| - 1]) + [if IsAsciiAlnum(c) then c else '_']
  }

  /** The sanitised sentence in the file name. */
  function SanitizeSentence(sentence: string): (r: string)
    ensures |r| == if |sentence| < 50 then |sentence| else 50
    ensures forall k | 0 <= k < |r| :: 'a' <= r[k] <= 'z' || '0' <= r[k] <= '9' || r[k] == '_'
    ensures forall k | 0 <= k < |r| ::
      r[k] == if IsAsciiAlnum(sentence[k]) then LowerChar(sentence[k]) else '_'
  {
    var cut := Slice(sentence, 50);
    var replaced := UnderscoreOthers(cut);
    UnderscoreOthersAt(cut);
    ToLowerCase(replaced)
  }

  lemma {:induction false} UnderscoreOthersAt(s: string)
    ensures forall k | 0 <= k < |s| :: UnderscoreOthers(s)[k] == if IsAsciiAlnum(s[k]) then s[k] else '_'
    decreases |s|
  {
    if s != [] {
      UnderscoreOthersAt(s[..|s| - 1]);
    }
  }

  /** The decimal digits of a natural number, as `${n}` writes them. */
  function DecimalString(n: nat): (s: string)
    ensures |s| >= 1
    ensures forall k | 0 <= k < |s| :: '0' <= s[k] <= '9'
  {
    (if n < 10 then "" else DecimalString(n / 10)) + [('0' as int + n % 10) as char]
  }

  /** The value of a string of decimal digits. */
  function DecimalValue(s: string): nat
  {
    if s == [] then 0
    else
      var d := s[|s| - 1] as int - '0' as int;
      DecimalValue(s[..|s| - 1]) * 10 + (if 0 <= d < 10 then d else 0)
  }

  /** Reading the digits back gives the number. */
  lemma {:induction false} DecimalRoundTrip(n: nat)
    ensures DecimalValue(DecimalString(n)) == n
    decreases n
  {
    var digit := n % 10;
    var c := ('0' as int + digit) as char;
    var high := if n < 10 then "" else DecimalString(n / 10);
    assert DecimalString(n) == high + [c];
    DecimalValueSnoc(high, c);
    if n >= 10 {
      DecimalRoundTrip(n / 10);
    }
    assert n == (n / 10) * 10 + digit;
  }

  /** One more digit on the right: ten times the value, plus the digit. */
  lemma DecimalValueSnoc(s: string, c: char)
    requires '0' <= c <= '9'
    ensures DecimalValue(s + [c]) == DecimalValue(s) * 10 + (c as int - '0' as int)
  {
    assert (s + [c])[..|s|] == s;
  }

  /** The template literal, read left to right, is the prefix followed by the tail. */
  lemma FileNameTemplate(prefix: string, sanitized: string, tag: string)
    ensures prefix + "_" + sanitized + "_" + tag + ".wav" == prefix + ("_" + sanitized + "_" + tag + ".wav")
  {
    AppendAssoc(prefix, "_", sanitized);
    AppendAssoc(prefix, "_" + sanitized, "_");
    AppendAssoc(prefix, "_" + sanitized + "_", tag);
    AppendAssoc(prefix, "_" + sanitized + "_" + tag, ".wav");
  }

  /** `metadata.emotion || 'single'`: an absent or empty emotion becomes "single". */
  function EmotionTag(emotion: Option<string>): (tag: string)
    ensures tag != []
    ensures emotion.Some? && emotion.value != [] ==> tag == emotion.value
  {
    if emotion.None? || emotion.value == "" then "single" else emotion.value
  }

  /** What follows the timestamp in a file name: `_${sanitizedSentence}_${emotion || 'single'}.wav`. */
  function NameTail(sentence: string, emotion: Option<string>): (tail: string)
    ensures tail != [] && tail[0] == '_'
  {
    "_" + SanitizeSentence(sentence) + "_" + EmotionTag(emotion) + ".wav"
  }

  /** `${userId}_${timestamp}_${sanitizedSentence}_${emotion || 'single'}.wav`. */
  function FileName(userId: string, timestamp: nat, sentence: string, emotion: Option<string>): string
  {
    userId + "_" + DecimalString(timestamp) + NameTail(sentence, emotion)
  }

  /** Equal strings that start with the same prefix agree after it. */
  lemma DropCommonPrefix(p: string, x: string, y: string)
    requires p + x == p + y
    ensures x == y
  {
    assert x == (p + x)[|p|..];
    assert y == (p + y)[|p|..];
  }

  /** Two strings free of a separator, each followed by a text starting with it, are equal
      when the results are. */
  lemma BeforeSeparator(a: string, b: string, x: string, y: string, sep: char)
    requires sep !in a && sep !in b
    requires x != [] && x[0] == sep && y != [] && y[0] == sep
    requires a + x == b + y
    ensures a == b
  {
    var joined := a + x;
    assert joined[|a|] == sep;
    assert joined[|b|] == sep;
    if |a| < |b| {
      assert false;
    } else if |b| < |a| {
      assert false;
    } else {
      assert a == (a + x)[..|a|];
      assert b == (b + y)[..|b|];
    }
  }

  /** One user's uploads at different times get different file names: the name holds the timestamp. */
  lemma FileNameIdentifiesTimestamp(userId: string, t1: nat, s1: string, e1: Option<string>,
                                    t2: nat, s2: string, e2: Option<string>)
    requires FileName(userId, t1, s1, e1) == FileName(userId, t2, s2, e2)
    ensures t1 == t2
  {
    var p := userId + "_";
    var d1, d2 := DecimalString(t1), DecimalString(t2);
    var r1, r2 := NameTail(s1, e1), NameTail(s2, e2);
    AppendAssoc(p, d1, r1);
    AppendAssoc(p, d2, r2);
    DropCommonPrefix(p, d1 + r1, d2 + r2);
    BeforeSeparator(d1, d2, r1, r2, '_');
    DecimalRoundTrip(t1);
    DecimalRoundTrip(t2);
  }

  // ---------------------------------------------------------------------
  // The record lists
  // ---------------------------------------------------------------------

  /** Some record of the list has that file name. */
  predicate HasFile(records: seq<Record>, filename: string)
  {
    exists k | 0 <= k < |records| :: records[k].filename == filename
  }

  /** `getUserRecordings` on a given localStorage: the parsed list, or [] when the key is
      absent or its text does not parse. */
  function UserRecordings(items: map<string, Stored>, userId: string): seq<Record>
  {
    var key := Key(userId);
    if key !in items then []
    else match items[key]
      case Json(records) => records
      case Unparseable => []
  }

  /** `recordings.filter(r => r.filename !== filename)`. */
  function WithoutFile(records: seq<Record>, filename: string): (kept: seq<Record>)
    ensures |kept| <= |records|
    ensures forall k | 0 <= k < |kept| :: kept[k].filename != filename && kept[k] in records
    ensures |kept| == |records| <==> !HasFile(records, filename)
  {
    if records == [] then []
    else
      var prefix, last := records[..|records| - 1], records[|records| - 1];
      var kept := WithoutFile(prefix, filename);
      assert HasFile(records, filename) <==> HasFile(prefix, filename) || last.filename == filename by {
        if HasFile(records, filename) && last.filename != filename {
          var k :| 0 <= k < |records| && records[k].filename == filename;
          assert prefix[k] == records[k];
        }
        if HasFile(prefix, filename) {
          var k :| 0 <= k < |prefix| && prefix[k].filename == filename;
          assert records[k] == prefix[k];
        }
      }
      kept + (if last.filename != filename then [last] else [])
  }

  /** The filter works record by record: it keeps the others in their order. */
  lemma {:induction false} WithoutFileAppend(a: seq<Record>, b: seq<Record>, filename: string)
    ensures WithoutFile(a + b, filename) == WithoutFile(a, filename) + WithoutFile(b, filename)
    decreases |b|
  {
    if b == [] {
      assert a + b == a;
    } else {
      assert (a + b)[..|a + b| - 1] == a + b[..|b| - 1];
      WithoutFileAppend(a, b[..|b| - 1], filename);
    }
  }

  /** Deleting a file name that no record has keeps the list as it is. */
  lemma {:induction false} WithoutAbsentFile(records: seq<Record>, filename: string)
    requires !HasFile(records, filename)
    ensures WithoutFile(records, filename) == records
    decreases |records|
  {
    if records != [] {
      var prefix := records[..|records| - 1];
      WithoutAbsentFile(prefix, filename);
    }
  }

  /** `recordings.find(r => r.filename === filename)`, as the position of the first match. */
  function FirstWithFile(records: seq<Record>, filename: string): (found: Option<nat>)
    ensures found.None? <==> !HasFile(records, filename)
    ensures found.Some? ==> found.value < |records| && records[found.value].filename == filename
    ensures found.Some? ==> forall j | 0 <= j < found.value :: records[j].filename != filename
  {
    if records == [] then None
    else if records[0].filename == filename then Some(0)
    else
      var rest := FirstWithFile(records[1..], filename);
      assert HasFile(records, filename) <==> HasFile(records[1..], filename) by {
        if HasFile(records, filename) {
          var k :| 0 <= k < |records| && records[k].filename == filename;
          assert records[1..][k - 1] == records[k];
        }
        if HasFile(records[1..], filename) {
          var k :| 0 <= k < |records[1..]| && records[1..][k].filename == filename;
          assert records[k + 1] == records[1..][k];
        }
      }
      if rest.None? then None else Some(rest.value + 1)
  }

  /** The type of each record, in list order. */
  function KindsOf(records: seq<Record>): (kinds: seq<RecordingType>)
    ensures |kinds| == |records|
    ensures forall i | 0 <= i < |records| :: kinds[i] == records[i].kind
  {
    seq(|records|, i requires 0 <= i < |records| => records[i].kind)
  }

  /** The records of one type: how often `kind` occurs among the records' types. */
  function CountType(records: seq<Record>, kind: RecordingType): (n: nat)
    ensures n <= |records|
    ensures n == multiset(KindsOf(records))[kind]
  {
    if records == [] then 0
    else
      var init := records[..|records| - 1];
      assert KindsOf(records) == KindsOf(init) + [records[|records| - 1].kind];
      CountType(init, kind) + (if records[|records| - 1].kind == kind then 1 else 0)
  }

  /** Every record is either a batch or a single recording. */
  lemma {:induction false} CountsCoverAll(records: seq<Record>)
    ensures CountType(records, Batch) + CountType(records, Single) == |records|
    decreases |records|
  {
    if records != [] {
      CountsCoverAll(records[..|records| - 1]);
    }
  }

  /** `getRecordingStats` on a list. */
  function StatsOf(records: seq<Record>): (stats: Stats)
    ensures stats.batchRecordings + stats.singleRecordings == stats.totalRecordings == |records|
    ensures stats.batchRecordings == multiset(KindsOf(records))[Batch]
    ensures stats.singleRecordings == multiset(KindsOf(records))[Single]
    ensures stats.totalDuration == 0
  {
    CountsCoverAll(records);
    Stats(|records|, CountType(records, Batch), CountType(records, Single), 0)
  }

  // ---------------------------------------------------------------------
  // Upload, delete, download, as seen through one user's list
  // ---------------------------------------------------------------------

  /** After an upload the new record is what a download of its file name finds, unless an
      earlier record already had that name, which `find` then still returns. */
  lemma DownloadAfterUpload(records: seq<Record>, r: Record)
    ensures FirstWithFile(records + [r], r.filename)
      == if HasFile(records, r.filename) then FirstWithFile(records, r.filename) else Some(|records|)
  {
    var all := records + [r];
    assert all[|records|] == r;
    if HasFile(records, r.filename) {
      var i := FirstWithFile(records, r.filename).value;
      assert all[i] == records[i];
      assert HasFile(all, r.filename);
      assert FirstWithFile(all, r.filename).value == i;
    } else {
      assert HasFile(all, r.filename);
      assert FirstWithFile(all, r.filename).value == |records|;
    }
  }

  /** Deleting the file name of the last upload removes it, and every earlier record of that name. */
  lemma DeleteAfterUpload(records: seq<Record>, r: Record)
    ensures WithoutFile(records + [r], r.filename) == WithoutFile(records, r.filename)
  {
    WithoutFileAppend(records, [r], r.filename);
    assert [r][..0] == [];
    assert WithoutFile([r], r.filename) == [];
  }

  /** An upload adds one to the total and one to the count of the new record's type. */
  lemma StatsAfterUpload(records: seq<Record>, r: Record)
    ensures StatsOf(records + [r]).totalRecordings == StatsOf(records).totalRecordings + 1
    ensures StatsOf(records + [r]).batchRecordings
      == StatsOf(records).batchRecordings + (if r.kind == Batch then 1 else 0)
    ensures StatsOf(records + [r]).singleRecordings
      == StatsOf(records).singleRecordings + (if r.kind == Single then 1 else 0)
  {
    assert (records + [r])[..|records|] == records;
  }

  /** A write under one user's key leaves every other user's list as it was. */
  lemma OtherUsersUnaffected(items: map<string, Stored>, userId: string, value: Stored, other: string)
    requires other != userId
    ensures UserRecordings(items[Key(userId) := value], other) == UserRecordings(items, other)
  {
    if Key(other) == Key(userId) {
      KeyInjective(other, userId);
    }
  }

  /** An upload: read the list, append, write it back. */
  class CloudStorage {
    /** The browser's localStorage. */
    var localStorage: map<string, Stored>

    constructor (items: map<string, Stored>)
      ensures localStorage == items
    {
      localStorage := items;
    }

    /** `getUserRecordings`. */
    function GetUserRecordings(userId: string): seq<Record>
      reads this
    {
      UserRecordings(localStorage, userId)
    }

    /** `uploadRecording`: the record, with its generated file name, appended to the user's list;
        nothing else is written. `timestamp` is `Date.now()` and `audioData` the base64 text of the Blob. */
    method UploadRecording(audioData: string, userId: string, sentence: string, emotion: Option<string>,
                           kind: RecordingType, timestamp: nat)
      returns (filename: string)
      modifies this
      ensures filename == FileName(userId, timestamp, sentence, emotion)
      ensures localStorage == old(localStorage)[Key(userId) := Json(old(GetUserRecordings(userId))
        + [Record(userId, sentence, emotion, timestamp, filename, kind, audioData)])]
      ensures GetUserRecordings(userId)
        == old(GetUserRecordings(userId)) + [Record(userId, sentence, emotion, timestamp, filename, kind, audioData)]
    {
      var sanitizedSentence := SanitizeSentence(sentence);
      filename := userId + "_" + DecimalString(timestamp) + "_" + sanitizedSentence + "_" + EmotionTag(emotion) + ".wav";
      FileNameTemplate(userId + "_" + DecimalString(timestamp), sanitizedSentence, EmotionTag(emotion));
      var recordingData := Record(userId, sentence, emotion, timestamp, filename, kind, audioData);
      var existingRecordings := GetUserRecordings(userId);
      existingRecordings := existingRecordings + [recordingData];
      localStorage := localStorage[Key(userId) := Json(existingRecordings)];
    }

    /** `downloadRecording`: the audio data of the first record with that file name, or null. */
    function DownloadRecording(userId: string, filename: string): (data: Option<string>)
      reads this
      ensures data.None? <==> !HasFile(GetUserRecordings(userId), filename)
      ensures data.Some? ==>
        data.value == GetUserRecordings(userId)[FirstWithFile(GetUserRecordings(userId), filename).value].audioData
    {
      var recordings := GetUserRecordings(userId);
      var found := FirstWithFile(recordings, filename);
      if found.None? then None else Some(recordings[found.value].audioData)
    }

    /** `deleteRecording`: every record with that file name removed, the others kept in order. It
        reports whether anything was removed and writes to localStorage only when something was. */
    method DeleteRecording(userId: string, filename: string) returns (deleted: bool)
      modifies this
      ensures deleted <==> HasFile(old(GetUserRecordings(userId)), filename)
      ensures !deleted ==> localStorage == old(localStorage)
      ensures deleted ==>
        localStorage == old(localStorage)[Key(userId) := Json(WithoutFile(old(GetUserRecordings(userId)), filename))]
    {
      var recordings := GetUserRecordings(userId);
      var filteredRecordings := WithoutFile(recordings, filename);
      if |filteredRecordings| == |recordings| {
        return false;
      }
      localStorage := localStorage[Key(userId) := Json(filteredRecordings)];
      return true;
    }

    /** `getRecordingStats`. */
    function GetRecordingStats(userId: string): (stats: Stats)
      reads this
      ensures stats.totalRecordings == |GetUserRecordings(userId)|
      ensures stats.batchRecordings + stats.singleRecordings == stats.totalRecordings
      ensures stats.batchRecordings == multiset(KindsOf(GetUserRecordings(userId)))[Batch]
      ensures stats.singleRecordings == multiset(KindsOf(GetUserRecordings(userId)))[Single]
      ensures stats.totalDuration == 0
    {
      StatsOf(GetUserRecordings(userId))
    }
  }
}
