/**
 * The `Recorder` page: the storage path of a saved recording, the prompt
 * cursor and the upload gating of `handleSave`.
 *
 * The upload to the `emo-recordings` bucket is the `await` that splits
 * `handleSave` in two: `BeginSave` runs up to the upload and names the path,
 * `FinishSave` takes what the upload returned. The signed-in user, the
 * upload's result, `alert` and the console are parameters or results.
 */
module RecorderPage {
  import opened Wrappers
  import opened JsText
  import opened Slug
  import opened Prompts

  /** `${emotion}_${sentenceSlug}.wav`: the lower-cased emotion and the slug of the sentence's first 50 characters. */
  function EntryFileName(prompt: Prompt): (filename: string)
    ensures |filename| >= 5 && filename[|filename| - 4..] == ".wav"
    ensures filename[..|filename| - 4] == ToLowerCase(prompt.emotion) + "_" + Slug.Slug(Slice(prompt.sentence, 50))
  {
    var emotion := ToLowerCase(prompt.emotion);
    var sentenceSlug := Slug.Slug(Slice(prompt.sentence, 50));
    var stem := emotion + "_" + sentenceSlug;
    assert (stem + ".wav")[..|stem|] == stem;
    stem + ".wav"
  }

  /** `${user.id}/${emotion}/${filename}`. */
  function UploadPath(userId: string, prompt: Prompt): string
  {
    userId + "/" + ToLowerCase(prompt.emotion) + "/" + EntryFileName(prompt)
  }

  /** The characters after the emotion in a file name: `_`, a slug and `.wav`, none of them a '/'. */
  lemma SlugHasNoSlash(slug: string)
    requires IsSlug(slug)
    ensures '/' !in slug
  {
  }

  lemma Regroup(a: string, b: string, c: string, sep: char)
    ensures a + [sep] + b + [sep] + c == a + [sep] + (b + [sep] + c)
  {
  }

  /** The path splits into the user id's segments, the lower-cased emotion's segments and the
      file name's segments: the emotion is not slugified, so each '/' in it adds a level. */
  lemma UploadPathSegments(userId: string, prompt: Prompt)
    ensures Split(UploadPath(userId, prompt), '/')
      == Split(userId, '/') + Split(ToLowerCase(prompt.emotion), '/') + Split(EntryFileName(prompt), '/')
  {
    var emotion := ToLowerCase(prompt.emotion);
    var filename := EntryFileName(prompt);
    var tail := emotion + ['/'] + filename;
    assert UploadPath(userId, prompt) == userId + ['/'] + tail by {
      Regroup(userId, emotion, filename, '/');
    }
    SplitAround(userId, tail, '/');
    SplitAround(emotion, filename, '/');
  }

  /** A file name holds a '/' only when the emotion does. */
  lemma FileNameHasNoSlash(prompt: Prompt)
    requires '/' !in prompt.emotion
    ensures '/' !in EntryFileName(prompt)
  {
    var filename := EntryFileName(prompt);
    var stem := filename[..|filename| - 4];
    LowerKeepsCaseless(prompt.emotion, '/');
    SlugHasNoSlash(Slug.Slug(Slice(prompt.sentence, 50)));
    assert '/' !in stem;
    assert filename == stem + filename[|filename| - 4..];
  }

  /** With no '/' in the user id or the emotion the path has exactly three levels:
      user, lower-cased emotion, file name. */
  lemma UploadPathLevels(userId: string, prompt: Prompt)
    requires '/' !in userId && '/' !in prompt.emotion
    ensures Split(UploadPath(userId, prompt), '/') == [userId, ToLowerCase(prompt.emotion), EntryFileName(prompt)]
  {
    var emotion := ToLowerCase(prompt.emotion);
    var filename := EntryFileName(prompt);
    LowerKeepsCaseless(prompt.emotion, '/');
    FileNameHasNoSlash(prompt);
    SplitWhole(userId, '/');
    SplitWhole(emotion, '/');
    SplitWhole(filename, '/');
    UploadPathSegments(userId, prompt);
  }

  /** The last segment of such a path, which the completion page uses, is the file name. */
  lemma UploadPathFileName(userId: string, prompt: Prompt)
    requires '/' !in userId && '/' !in prompt.emotion
    ensures LastSegment(UploadPath(userId, prompt), '/') == EntryFileName(prompt)
  {
    UploadPathLevels(userId, prompt);
  }

  /** A '/' in the emotion gives the path more than three levels. */
  lemma EmotionSlashAddsLevels(userId: string, prompt: Prompt)
    requires '/' in prompt.emotion
    ensures |Split(UploadPath(userId, prompt), '/')| > 3
  {
    LowerKeepsCaseless(prompt.emotion, '/');
    SplitAtSeparator(ToLowerCase(prompt.emotion), '/');
    UploadPathSegments(userId, prompt);
  }

  /** `moveToNext` on the index alone: the next prompt, or the same index when the current
      one is the last (or there are none), which is when `onComplete` is called. */
  function NextIndex(index: nat, count: nat): (next: nat)
    ensures index + 1 < count ==> next == index + 1
    ensures index + 1 >= count ==> next == index
  {
    if index < count - 1 then index + 1 else index
  }

  /** `moveToNext` calls `onComplete` exactly when it does not advance. */
  predicate CompletesAt(index: nat, count: nat)
  {
    !(index < count - 1)
  }

  /** The cursor never leaves the prompts: starting from a valid index, it stays valid. */
  lemma NextIndexInRange(index: nat, count: nat)
    requires index < count || index == 0
    ensures NextIndex(index, count) < count || NextIndex(index, count) == 0
    ensures CompletesAt(index, count) <==> NextIndex(index, count) == index
  {
  }

  /** The index after `steps` successful saves or skips. */
  function IndexAfter(index: nat, count: nat, steps: nat): nat
  {
    if steps == 0 then index else NextIndex(IndexAfter(index, count, steps - 1), count)
  }

  /** From the first prompt, `steps` moves reach prompt `steps`, stopping at the last one. */
  lemma {:induction false} IndexAfterSteps(count: nat, steps: nat)
    requires count > 0
    ensures IndexAfter(0, count, steps) == if steps < count then steps else count - 1
    decreases steps
  {
    if steps > 0 {
      IndexAfterSteps(count, steps - 1);
    }
  }

  /** What the upload call returned: no error, an error (whose `message` may be undefined),
      or an exception thrown by the call itself. */
  datatype UploadResult = Uploaded | Rejected(message: Option<string>) | Threw

  const UploadFailurePrefix := "Failed to upload audio. "
  const RlsHint := "RLS policy error. Please disable RLS for the bucket or add proper policies. See SUPABASE_RLS_FIX.md for instructions."
  const BucketHint := "Storage bucket \"emo-recordings\" not found. Please create it in Supabase."
  const SignatureHint := "Authentication error. Please check your Supabase keys."
  const SaveFailure := "Failed to save recording. Please try again."

  /** The alert shown for a rejected upload: a fixed hint for the three known causes, checked
      in order, otherwise the message itself (`undefined` when there is none). */
  function UploadErrorMessage(message: Option<string>): (alert: string)
    ensures UploadFailurePrefix <= alert
    ensures message.None? ==> alert == UploadFailurePrefix + "undefined"
    ensures message.Some? && Includes(message.value, "row-level security") ==> alert == UploadFailurePrefix + RlsHint
    ensures message.Some? && !Includes(message.value, "row-level security") && Includes(message.value, "bucket not found")
      ==> alert == UploadFailurePrefix + BucketHint
    ensures message.Some? && !Includes(message.value, "row-level security") && !Includes(message.value, "bucket not found") ==>
      (Includes(message.value, "signature") ==> alert == UploadFailurePrefix + SignatureHint)
    ensures message.Some? && !Includes(message.value, "row-level security") && !Includes(message.value, "bucket not found") ==>
      (!Includes(message.value, "signature") ==> alert == UploadFailurePrefix + message.value)
  {
    var hint :=
      if message.None? then "undefined"
      else if Includes(message.value, "row-level security") then RlsHint
      else if Includes(message.value, "bucket not found") then BucketHint
      else if Includes(message.value, "signature") then SignatureHint
      else message.value;
    assert (UploadFailurePrefix + hint)[..|UploadFailurePrefix|] == UploadFailurePrefix;
    UploadFailurePrefix + hint
  }

  /** How the part of `handleSave` before the upload ends. */
  datatype SaveStart = NoUser | Upload(path: string) | Failed(alert: string)

  class Recorder {
    const prompts: seq<Prompt>
    var currentIndex: nat
    var isUploading: bool
    /** How many times `onComplete` was called. */
    var completions: nat

    /** The cursor points at a prompt, or is 0 when there are none. */
    predicate Valid()
      reads this
    {
      currentIndex < |prompts| || currentIndex == 0
    }

    constructor (prompts: seq<Prompt>)
      ensures this.prompts == prompts
      ensures currentIndex == 0 && !isUploading && completions == 0
      ensures Valid()
    {
      this.prompts := prompts;
      currentIndex := 0;
      isUploading := false;
      completions := 0;
    }

    /** `moveToNext`, used by a successful save and by the skip button. */
    method MoveToNext()
      requires Valid()
      modifies this`currentIndex, this`completions
      ensures Valid()
      ensures currentIndex == NextIndex(old(currentIndex), |prompts|)
      ensures completions == old(completions) + (if CompletesAt(old(currentIndex), |prompts|) then 1 else 0)
    {
      NextIndexInRange(currentIndex, |prompts|);
      if currentIndex < |prompts| - 1 {
        currentIndex := currentIndex + 1;
      } else {
        completions := completions + 1;
      }
    }

    /** `handleSave` up to the upload. Without a user nothing happens. Otherwise the page shows
        the uploading state and names the path; when there is no current prompt, reading its
        emotion throws, the catch block alerts, and the finally block clears the flag. */
    method BeginSave(user: Option<string>) returns (start: SaveStart)
      modifies this`isUploading
      ensures user.None? ==> start == NoUser && isUploading == old(isUploading)
      ensures user.Some? && currentIndex < |prompts| ==>
        start == Upload(UploadPath(user.value, prompts[currentIndex])) && isUploading
      ensures user.Some? && currentIndex >= |prompts| ==> start == Failed(SaveFailure) && !isUploading
    {
      if user.None? {
        return NoUser;
      }
      isUploading := true;
      if currentIndex >= |prompts| {
        isUploading := false;
        return Failed(SaveFailure);
      }
      var currentPrompt := prompts[currentIndex];
      var emotion := ToLowerCase(currentPrompt.emotion);
      var sentenceSlug := Slugify(Slice(currentPrompt.sentence, 50));
      var filename := emotion + "_" + sentenceSlug + ".wav";
      var path := user.value + "/" + emotion + "/" + filename;
      start := Upload(path);
    }

    /** `handleSave` after the upload: only an upload without error moves the cursor; an error
        or an exception leaves it and raises an alert. The flag is cleared on every path. */
    method FinishSave(result: UploadResult) returns (alert: Option<string>)
      requires Valid()
      modifies this`currentIndex, this`completions, this`isUploading
      ensures Valid() && !isUploading
      ensures result.Uploaded? ==>
        && alert.None?
        && currentIndex == NextIndex(old(currentIndex), |prompts|)
        && completions == old(completions) + (if CompletesAt(old(currentIndex), |prompts|) then 1 else 0)
      ensures result.Rejected? ==>
        && alert == Some(UploadErrorMessage(result.message))
        && currentIndex == old(currentIndex) && completions == old(completions)
      ensures result.Threw? ==>
        && alert == Some(SaveFailure)
        && currentIndex == old(currentIndex) && completions == old(completions)
    {
      match result {
        case Uploaded =>
          MoveToNext();
          alert := None;
        case Rejected(message) =>
          alert := Some(UploadErrorMessage(message));
        case Threw =>
          alert := Some(SaveFailure);
      }
      isUploading := false;
    }
  }
}
