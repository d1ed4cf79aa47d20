/**
 * `parsePrompts`: turns pasted or uploaded text into (emotion, sentence)
 * prompts. It runs in two stages:
 *
 *  - the pre-clean, which applies twelve case-insensitive global regular
 *    expressions one after another and replaces every match (a file
 *    picker's "Choose file / No file chosen" text in several languages)
 *    with a newline;
 *  - the parse, which trims the cleaned text, splits it into lines and
 *    walks them with a current emotion. A line ending in ':' sets the
 *    emotion. Any other non-blank, non-artifact line becomes a prompt, as
 *    long as the current emotion is not empty.
 *
 * The method `ParsePrompts` keeps the source's two loops and is proved
 * equal to `PromptsOf`, a definition built from the functions below.
 */
module Prompts {
  import opened Wrappers
  import opened JsText
  import opened Sequences

  datatype Prompt = Prompt(emotion: string, sentence: string)

  // ---------------------------------------------------------------------
  // The pre-clean
  // ---------------------------------------------------------------------

  /** The two shapes of the artifact expressions: `first[\s\n]*second`, and
      `\n\s*X\s*\n` where X is one of several alternative literals. */
  datatype Pattern = Pair(first: string, second: string) | Line(alternatives: seq<string>)

  /** A literal the scanner can use: not empty, and its first character
      (in either case) is not whitespace. */
  predicate UsableLiteral(lit: string)
  {
    lit != [] && !IsJsSpace(LowerChar(lit[0]))
  }

  /** Each expression is anchored on a literal that cannot match empty or start inside whitespace. */
  predicate ValidPattern(p: Pattern)
  {
    match p
    case Pair(a, b) => UsableLiteral(a) && UsableLiteral(b)
    case Line(alts) => forall k | 0 <= k < |alts| :: UsableLiteral(alts[k])
  }

  /** The twelve expressions, in the order they are applied. */
  const Patterns: seq<Pattern> := [
    Pair("Datei ausw\U{E4}hlen", "Keine Datei ausgew\U{E4}hlt"),
    Pair("Choose file", "No file chosen"),
    Pair("Select file", "No file selected"),
    Pair("Choisir un fichier", "Aucun fichier s\U{E9}lectionn\U{E9}"),
    Pair("S\U{E9}lectionner un fichier", "Aucun fichier s\U{E9}lectionn\U{E9}"),
    Pair("Seleccionar archivo", "Ning\U{FA}n archivo seleccionado"),
    Pair("Elegir archivo", "Ning\U{FA}n archivo elegido"),
    Pair("Scegli file", "Nessun file selezionato"),
    Line(["Datei ausw\U{E4}hlen"]),
    Line(["Keine Datei ausgew\U{E4}hlt"]),
    Line(["Choose file"]),
    Line(["No file chosen", "No file selected"])
  ]

  lemma PatternsValid()
    ensures forall k | 0 <= k < |Patterns| :: ValidPattern(Patterns[k])
  {
  }

  /** Case-insensitive comparison of one text character with one pattern character. */
  predicate SameLetter(c: char, p: char)
  {
    LowerChar(c) == LowerChar(p)
  }

  /** `lit` occurs at position `i` of `text`, ignoring case. */
  predicate LiteralAt(text: string, i: nat, lit: string)
  {
    i + |lit| <= |text| && forall k | 0 <= k < |lit| :: SameLetter(text[i + k], lit[k])
  }

  /** The last newline in `text[i..j]`, if there is one. */
  function LastNewline(text: string, i: nat, j: nat): (k: Option<nat>)
    requires i <= j <= |text|
    ensures k.Some? ==> (i <= k.value < j && text[k.value] == '\n'
        && forall m | k.value < m < j :: text[m] != '\n')
    ensures k.None? ==> forall m | i <= m < j :: text[m] != '\n'
    decreases j - i
  {
    if i == j then None
    else if text[j - 1] == '\n' then Some(j - 1)
    else LastNewline(text, i, j - 1)
  }

  /** `(X1|X2|…)\s*\n` at position `j`. Each alternative is tried in order. The greedy `\s*`
      backtracks to the last newline of the whitespace run after the literal, and the match
      ends just past that newline. */
  function AlternativeEnd(text: string, j: nat, alts: seq<string>): (e: Option<nat>)
    requires j <= |text|
    ensures e.Some? ==> j < e.value <= |text| && text[e.value - 1] == '\n'
  {
    if alts == [] then None
    else if LiteralAt(text, j, alts[0]) then
      var m := j + |alts[0]|;
      match LastNewline(text, m, SkipSpace(text, m))
      case Some(k) => Some(k + 1)
      case None => AlternativeEnd(text, j, alts[1..])
    else AlternativeEnd(text, j, alts[1..])
  }

  /** Where a match of `p` that starts at position `i` ends, or None when `p` does not match there.
      The greedy whitespace runs never need to give characters back before a literal, because
      no literal starts with whitespace. */
  function MatchAt(text: string, i: nat, p: Pattern): (e: Option<nat>)
    requires i < |text| && ValidPattern(p)
    ensures e.Some? ==> i < e.value <= |text|
  {
    match p
    case Pair(a, b) =>
      if LiteralAt(text, i, a) then
        var j := SkipSpace(text, i + |a|);
        if LiteralAt(text, j, b) then Some(j + |b|) else None
      else None
    case Line(alts) =>
      if text[i] == '\n' then AlternativeEnd(text, SkipSpace(text, i + 1), alts) else None
  }

  /** `text.replace(p, '\n')` for a global expression, from position `i` on: matches are found
      left to right, do not overlap, and each becomes one newline. */
  function ReplaceFrom(text: string, i: nat, p: Pattern): string
    requires i <= |text| && ValidPattern(p)
    decreases |text| - i
  {
    if i == |text| then []
    else match MatchAt(text, i, p)
      case Some(e) => "\n" + ReplaceFrom(text, e, p)
      case None => [text[i]] + ReplaceFrom(text, i + 1, p)
  }

  function ReplaceAll(text: string, p: Pattern): string
    requires ValidPattern(p)
  {
    ReplaceFrom(text, 0, p)
  }

  /** The expressions of `ps` applied in order, each to the result of the ones before it. */
  function CleanWith(text: string, ps: seq<Pattern>): string
    requires forall k | 0 <= k < |ps| :: ValidPattern(ps[k])
  {
    if ps == [] then text
    else ReplaceAll(CleanWith(text, ps[..|ps| - 1]), ps[|ps| - 1])
  }

  /** The cleaned text. */
  function Clean(text: string): string
  {
    PatternsValid();
    CleanWith(text, Patterns)
  }

  /** Where an expression matches nowhere from `i` on, the text is left as it is. */
  lemma {:induction false} ReplaceFromUnchanged(text: string, i: nat, p: Pattern)
    requires i <= |text| && ValidPattern(p)
    requires forall k | i <= k < |text| :: MatchAt(text, k, p).None?
    ensures ReplaceFrom(text, i, p) == text[i..]
    decreases |text| - i
  {
    if i < |text| {
      ReplaceFromUnchanged(text, i + 1, p);
      assert text[i..] == [text[i]] + text[i + 1..];
    }
  }

  /** An expression never matches in text that is all whitespace: every literal starts with a
      character that is not whitespace. */
  lemma NoMatchInSpace(text: string, i: nat, p: Pattern)
    requires i < |text| && ValidPattern(p)
    requires forall k | 0 <= k < |text| :: IsJsSpace(text[k])
    ensures MatchAt(text, i, p).None?
  {
    match p
    case Pair(a, b) =>
      assert !SameLetter(text[i], a[0]);
    case Line(alts) =>
      var j := SkipSpace(text, i + 1);
      NoAlternativeAtEnd(text, alts);
  }

  lemma {:induction false} NoAlternativeAtEnd(text: string, alts: seq<string>)
    requires forall k | 0 <= k < |alts| :: UsableLiteral(alts[k])
    ensures AlternativeEnd(text, |text|, alts).None?
  {
    if alts != [] {
      assert !LiteralAt(text, |text|, alts[0]);
      NoAlternativeAtEnd(text, alts[1..]);
    }
  }

  /** Cleaning leaves text that is all whitespace unchanged. */
  lemma {:induction false} CleanWithSpace(text: string, ps: seq<Pattern>)
    requires forall k | 0 <= k < |ps| :: ValidPattern(ps[k])
    requires forall k | 0 <= k < |text| :: IsJsSpace(text[k])
    ensures CleanWith(text, ps) == text
  {
    if ps != [] {
      CleanWithSpace(text, ps[..|ps| - 1]);
      var p := ps[|ps| - 1];
      forall k | 0 <= k < |text|
        ensures MatchAt(text, k, p).None?
      {
        NoMatchInSpace(text, k, p);
      }
      ReplaceFromUnchanged(text, 0, p);
    }
  }

  /** A picker's two labels, written in any mix of upper and lower case and separated by any
      whitespace (line breaks included), collapse to one newline. */
  lemma PairReplaced(a: string, b: string, u: string, ws: string, v: string)
    requires UsableLiteral(a) && UsableLiteral(b)
    requires |u| == |a| && LiteralAt(u, 0, a)
    requires forall k | 0 <= k < |ws| :: IsJsSpace(ws[k])
    requires |v| == |b| && LiteralAt(v, 0, b)
    ensures ReplaceAll(u + ws + v, Pair(a, b)) == "\n"
  {
    var text := u + ws + v;
    assert LiteralAt(text, 0, a) by {
      forall k | 0 <= k < |a|
        ensures SameLetter(text[k], a[k])
      {
        assert text[k] == u[k];
      }
    }
    assert !IsJsSpace(v[0]) by {
      assert SameLetter(v[0], b[0]);
    }
    assert SkipSpace(text, |a|) == |a| + |ws| by {
      SkipSpaceRun(text, |a|, |a| + |ws|);
    }
    assert LiteralAt(text, |a| + |ws|, b) by {
      forall k | 0 <= k < |b|
        ensures SameLetter(text[|a| + |ws| + k], b[k])
      {
        assert text[|a| + |ws| + k] == v[k];
      }
    }
    assert MatchAt(text, 0, Pair(a, b)) == Some(|text|);
    assert ReplaceFrom(text, |text|, Pair(a, b)) == [];
  }

  /** A label on a line of its own, between a newline (plus any indentation) and whitespace that
      ends in a newline, collapses to one newline. The match takes all trailing blank lines with
      it, however many there are. */
  lemma LineReplaced(alts: seq<string>, ws1: string, u: string, ws2: string)
    requires alts != [] && forall k | 0 <= k < |alts| :: UsableLiteral(alts[k])
    requires |u| == |alts[0]| && LiteralAt(u, 0, alts[0])
    requires forall k | 0 <= k < |ws1| :: IsJsSpace(ws1[k])
    requires forall k | 0 <= k < |ws2| :: IsJsSpace(ws2[k])
    requires ws2 != [] && ws2[|ws2| - 1] == '\n'
    ensures ReplaceAll("\n" + ws1 + u + ws2, Line(alts)) == "\n"
  {
    var text := "\n" + ws1 + u + ws2;
    var j := 1 + |ws1|;
    var m := j + |u|;
    assert !IsJsSpace(u[0]) by {
      assert SameLetter(u[0], alts[0][0]);
    }
    assert SkipSpace(text, 1) == j by {
      SkipSpaceRun(text, 1, j);
    }
    assert LiteralAt(text, j, alts[0]) by {
      forall k | 0 <= k < |u|
        ensures SameLetter(text[j + k], alts[0][k])
      {
        assert text[j + k] == u[k];
      }
    }
    assert SkipSpace(text, m) == |text| by {
      SkipSpaceRun(text, m, |text|);
    }
    assert text[|text| - 1] == '\n';
    assert LastNewline(text, m, |text|) == Some(|text| - 1);
    assert MatchAt(text, 0, Line(alts)) == Some(|text|);
    assert ReplaceFrom(text, |text|, Line(alts)) == [];
  }

  // ---------------------------------------------------------------------
  // The parse
  // ---------------------------------------------------------------------

  /** Lines that are exactly a file picker's label, after trimming; compared case-sensitively. */
  const Artifacts: seq<string> := [
    "Datei ausw\U{E4}hlen", "Keine Datei ausgew\U{E4}hlt", "Choose file",
    "No file chosen", "No file selected", "Select file"
  ]

  /** What one line means to the parser. */
  datatype LineKind = Blank | Artifact | Header(name: string) | Sentence(text: string)

  /** The sentences `Classify` can produce: trimmed, not blank, not a picker's label, not a header. */
  predicate ValidKind(k: LineKind)
  {
    k.Sentence? ==> k.text != "" && IsTrimmed(k.text) && k.text !in Artifacts && !EndsWith(k.text, ':')
  }

  /** The tests the loop applies to the trimmed line, in the same order. */
  function Classify(line: string): (k: LineKind)
    ensures ValidKind(k)
  {
    var t := Trim(line);
    if t == "" then Blank
    else if t in Artifacts then Artifact
    else if EndsWith(t, ':') then
      assert t == t[..|t| - 1] + ":";
      Header(t[..|t| - 1])
    else Sentence(t)
  }

  /** Every line classified, in order. */
  function Kinds(lines: seq<string>): (kinds: seq<LineKind>)
    ensures |kinds| == |lines|
  {
    if lines == [] then [] else Kinds(lines[..|lines| - 1]) + [Classify(lines[|lines| - 1])]
  }

  lemma {:induction false} KindsAt(lines: seq<string>, k: nat)
    requires k < |lines|
    ensures Kinds(lines)[k] == Classify(lines[k])
  {
    if k < |lines| - 1 {
      KindsAt(lines[..|lines| - 1], k);
    }
  }

  lemma {:induction false} KindsAppend(a: seq<string>, b: seq<string>)
    ensures Kinds(a + b) == Kinds(a) + Kinds(b)
    decreases |b|
  {
    if b == [] {
      assert a + b == a;
    } else {
      assert (a + b)[..|a + b| - 1] == a + b[..|b| - 1];
      KindsAppend(a, b[..|b| - 1]);
    }
  }

  /** The lines the loop walks: the cleaned text, trimmed, split at '\n'. */
  function Lines(cleaned: string): (lines: seq<string>)
    ensures |lines| >= 1
  {
    Split(Trim(cleaned), '\n')
  }

  /** A prompt as the parser produces it: a non-empty emotion and a trimmed sentence that is
      neither blank, nor a picker's label, nor a header. */
  predicate WellFormed(p: Prompt)
  {
    p.emotion != "" && p.sentence != "" && IsTrimmed(p.sentence)
    && p.sentence !in Artifacts && !EndsWith(p.sentence, ':')
  }

  /** The current emotion once a line of kind `k` has been read: a header's name replaces it. */
  function NextEmotion(emotion: string, k: LineKind): string
  {
    if k.Header? then k.name else emotion
  }

  /** What a line of kind `k` yields under `emotion`: one prompt for a sentence when the emotion is not empty. */
  function Emit(emotion: string, k: LineKind): seq<Prompt>
  {
    if k.Sentence? && emotion != "" then [Prompt(emotion, k.text)] else []
  }

  /** The current emotion after the lines, starting from `start`: the name of the last header. */
  function EmotionAfter(start: string, kinds: seq<LineKind>): string
  {
    if kinds == [] then start
    else NextEmotion(EmotionAfter(start, kinds[..|kinds| - 1]), kinds[|kinds| - 1])
  }

  /** The prompts the lines yield when the current emotion starts as `start`. Each sentence
      is tagged with the emotion in force just before it, and dropped when that emotion is empty. */
  function ParseFrom(start: string, kinds: seq<LineKind>): (prompts: seq<Prompt>)
    ensures |prompts| <= |kinds|
  {
    if kinds == [] then []
    else
      var before := kinds[..|kinds| - 1];
      ParseFrom(start, before) + Emit(EmotionAfter(start, before), kinds[|kinds| - 1])
  }

  /** The parse of some lines, with no emotion at the start. */
  function Parse(lines: seq<string>): (prompts: seq<Prompt>)
    ensures |prompts| <= |lines|
    ensures forall k | 0 <= k < |prompts| :: WellFormed(prompts[k])
  {
    var kinds := Kinds(lines);
    assert forall k | 0 <= k < |kinds| :: ValidKind(kinds[k]) by {
      forall k | 0 <= k < |kinds|
        ensures ValidKind(kinds[k])
      {
        KindsAt(lines, k);
      }
    }
    ParseWellFormed("", kinds);
    ParseFrom("", kinds)
  }

  /** Sentences that pass `Classify`'s tests become well-formed prompts. */
  lemma {:induction false} ParseWellFormed(start: string, kinds: seq<LineKind>)
    requires forall k | 0 <= k < |kinds| :: ValidKind(kinds[k])
    ensures forall k | 0 <= k < |ParseFrom(start, kinds)| :: WellFormed(ParseFrom(start, kinds)[k])
  {
    if kinds != [] {
      ParseWellFormed(start, kinds[..|kinds| - 1]);
    }
  }

  /** `parsePrompts(text)`, the definition the method is proved equal to. */
  function PromptsOf(text: string): seq<Prompt>
  {
    Parse(Lines(Clean(text)))
  }

  /** The `forEach` over the expressions, each replacing the text cleaned so far. */
  method CleanText(text: string) returns (cleanedText: string)
    ensures cleanedText == Clean(text)
  {
    PatternsValid();
    cleanedText := text;
    for n := 0 to |Patterns|
      invariant cleanedText == CleanWith(text, Patterns[..n])
    {
      assert Patterns[..n + 1][..n] == Patterns[..n];
      cleanedText := ReplaceAll(cleanedText, Patterns[n]);
    }
    assert Patterns[..|Patterns|] == Patterns;
  }

  /** `parsePrompts`: the pattern loop, then the line loop. */
  method ParsePrompts(text: string) returns (prompts: seq<Prompt>)
    ensures prompts == PromptsOf(text)
    ensures forall k | 0 <= k < |prompts| :: WellFormed(prompts[k])
  {
    var cleanedText := CleanText(text);
    var lines := Split(Trim(cleanedText), '\n');
    prompts := ReadLines(lines);
  }

  /** The line loop of `parsePrompts`, from an empty emotion and no prompts. */
  method ReadLines(lines: seq<string>) returns (prompts: seq<Prompt>)
    ensures prompts == Parse(lines)
  {
    var currentEmotion := "";
    prompts := [];
    for n := 0 to |lines|
      invariant currentEmotion == EmotionAfter("", Kinds(lines[..n]))
      invariant prompts == ParseFrom("", Kinds(lines[..n]))
    {
      ParseStep(lines, n);
      currentEmotion, prompts := ReadLine(lines[n], currentEmotion, prompts);
    }
    assert lines[..|lines|] == lines;
  }

  /** One pass of the line loop; each early `return` is a `continue` of the source. */
  method ReadLine(line: string, currentEmotion: string, prompts: seq<Prompt>)
    returns (emotion: string, extended: seq<Prompt>)
    ensures emotion == NextEmotion(currentEmotion, Classify(line))
    ensures extended == prompts + Emit(currentEmotion, Classify(line))
  {
    emotion, extended := currentEmotion, prompts;
    var trimmedLine := Trim(line);
    if trimmedLine == "" {
      return;
    }
    if trimmedLine in Artifacts {
      return;
    }
    if EndsWith(trimmedLine, ':') {
      emotion := trimmedLine[..|trimmedLine| - 1];
    } else if currentEmotion != "" {
      extended := prompts + [Prompt(currentEmotion, trimmedLine)];
    }
  }

  /** Reading one more line. */
  lemma ParseStep(lines: seq<string>, n: nat)
    requires n < |lines|
    ensures var before := Kinds(lines[..n]);
      && EmotionAfter("", Kinds(lines[..n + 1])) == NextEmotion(EmotionAfter("", before), Classify(lines[n]))
      && ParseFrom("", Kinds(lines[..n + 1])) == ParseFrom("", before) + Emit(EmotionAfter("", before), Classify(lines[n]))
  {
    assert lines[..n + 1][..n] == lines[..n];
  }

  /** The lines can be parsed in two parts: the second starts from the emotion the first leaves. */
  lemma {:induction false} ParseAppend(start: string, a: seq<LineKind>, b: seq<LineKind>)
    ensures EmotionAfter(start, a + b) == EmotionAfter(EmotionAfter(start, a), b)
    ensures ParseFrom(start, a + b) == ParseFrom(start, a) + ParseFrom(EmotionAfter(start, a), b)
    decreases |b|
  {
    if b == [] {
      assert a + b == a;
    } else {
      assert (a + b)[..|a + b| - 1] == a + b[..|b| - 1];
      ParseAppend(start, a, b[..|b| - 1]);
    }
  }

  /** Reading the line of kind `x` and then the lines `b`, from `emotion`. */
  lemma ConsLine(emotion: string, x: LineKind, b: seq<LineKind>)
    ensures ParseFrom(emotion, [x] + b) == Emit(emotion, x) + ParseFrom(NextEmotion(emotion, x), b)
  {
    ParseAppend(emotion, [x], b);
    assert [x][..0] == [];
    assert EmotionAfter(emotion, [x]) == NextEmotion(emotion, x);
    assert ParseFrom(emotion, [x]) == Emit(emotion, x);
  }

  /** A line that yields nothing and sets no emotion may be inserted anywhere. */
  lemma SkippedKindNeutral(start: string, ka: seq<LineKind>, k: LineKind, kb: seq<LineKind>)
    requires k.Blank? || k.Artifact?
    ensures ParseFrom(start, ka + [k] + kb) == ParseFrom(start, ka + kb)
  {
    var e := EmotionAfter(start, ka);
    ConsLine(e, k, kb);
    assert NextEmotion(e, k) == e && Emit(e, k) == [];
    assert ParseFrom(e, [k] + kb) == ParseFrom(e, kb);
    AppendAssoc(ka, [k], kb);
    ParseAppend(start, ka, [k] + kb);
    ParseAppend(start, ka, kb);
  }

  /** Blank lines and picker labels may be inserted anywhere without changing the prompts. */
  lemma SkippedLineNeutral(start: string, a: seq<string>, x: string, b: seq<string>)
    requires Classify(x).Blank? || Classify(x).Artifact?
    ensures ParseFrom(start, Kinds(a + [x] + b)) == ParseFrom(start, Kinds(a + b))
  {
    KindsAppend(a + [x], b);
    KindsAppend(a, [x]);
    KindsAppend(a, b);
    assert Kinds([x]) == [Classify(x)];
    SkippedKindNeutral(start, Kinds(a), Classify(x), Kinds(b));
  }

  /** A header line starts a new section: what was in force before it no longer matters. */
  lemma HeaderStartsSection(start: string, h: string, b: seq<string>)
    requires Classify(h).Header?
    ensures ParseFrom(start, Kinds([h] + b)) == ParseFrom(Classify(h).name, Kinds(b))
  {
    KindsAppend([h], b);
    assert Kinds([h]) == [Classify(h)];
    ConsLine(start, Classify(h), Kinds(b));
    assert NextEmotion(start, Classify(h)) == Classify(h).name;
    assert Emit(start, Classify(h)) == [];
  }

  /** A sentence yields one prompt under a non-empty emotion, none otherwise; the emotion carries on. */
  lemma SentenceKind(start: string, ka: seq<LineKind>, t: string, kb: seq<LineKind>)
    ensures var e := EmotionAfter(start, ka);
      ParseFrom(start, ka + [Sentence(t)] + kb)
      == ParseFrom(start, ka) + (if e != "" then [Prompt(e, t)] else []) + ParseFrom(e, kb)
  {
    var e := EmotionAfter(start, ka);
    AppendAssoc(ka, [Sentence(t)], kb);
    ParseAppend(start, ka, [Sentence(t)] + kb);
    ConsLine(e, Sentence(t), kb);
    var p, emitted, q := ParseFrom(start, ka), Emit(e, Sentence(t)), ParseFrom(e, kb);
    assert emitted == (if e != "" then [Prompt(e, t)] else []);
    assert ParseFrom(start, ka + [Sentence(t)] + kb) == p + (emitted + q);
    AppendAssoc(p, emitted, q);
  }

  /** A sentence line yields exactly one prompt, tagged with the emotion in force before it,
      when that emotion is not empty, and nothing otherwise; the emotion carries on past it. */
  lemma SentenceLine(start: string, a: seq<string>, x: string, b: seq<string>)
    requires Classify(x).Sentence?
    ensures var e := EmotionAfter(start, Kinds(a));
      ParseFrom(start, Kinds(a + [x] + b))
      == ParseFrom(start, Kinds(a)) + (if e != "" then [Prompt(e, Trim(x))] else []) + ParseFrom(e, Kinds(b))
  {
    KindsAppend(a + [x], b);
    KindsAppend(a, [x]);
    assert Kinds([x]) == [Sentence(Trim(x))];
    SentenceKind(start, Kinds(a), Trim(x), Kinds(b));
  }

  /** Without a header line the emotion stays empty and no prompt is produced: sentences before
      the first header are dropped. */
  lemma {:induction false} NoHeaderNoPrompts(kinds: seq<LineKind>)
    requires forall k | 0 <= k < |kinds| :: !kinds[k].Header?
    ensures EmotionAfter("", kinds) == ""
    ensures ParseFrom("", kinds) == []
  {
    if kinds != [] {
      NoHeaderNoPrompts(kinds[..|kinds| - 1]);
    }
  }

  /** Empty or whitespace-only text yields no prompts. */
  lemma BlankTextNoPrompts(text: string)
    requires forall k | 0 <= k < |text| :: IsJsSpace(text[k])
    ensures PromptsOf(text) == []
  {
    PatternsValid();
    CleanWithSpace(text, Patterns);
    TrimAllSpace(text);
    assert Lines(Clean(text)) == [""];
    assert Kinds([""]) == [Blank];
    ConsLine("", Blank, []);
  }

  /** A section: a header, two sentences under it, and what follows. */
  lemma Section(start: string, name: string, s1: string, s2: string, rest: seq<LineKind>)
    requires name != ""
    ensures ParseFrom(start, [Header(name), Sentence(s1), Sentence(s2)] + rest)
      == [Prompt(name, s1), Prompt(name, s2)] + ParseFrom(name, rest)
  {
    var t1 := [Sentence(s1)] + ([Sentence(s2)] + rest);
    ThreeCons(Header(name), Sentence(s1), Sentence(s2), rest);
    ConsLine(start, Header(name), t1);
    TwoSentences(name, s1, s2, rest);
  }

  /** Two sentences under a header yield a prompt each. */
  lemma TwoSentences(name: string, s1: string, s2: string, rest: seq<LineKind>)
    requires name != ""
    ensures ParseFrom(name, [Sentence(s1)] + ([Sentence(s2)] + rest))
      == [Prompt(name, s1), Prompt(name, s2)] + ParseFrom(name, rest)
  {
    var t2 := [Sentence(s2)] + rest;
    ConsLine(name, Sentence(s1), t2);
    ConsLine(name, Sentence(s2), rest);
    var p1, p2, tail := Prompt(name, s1), Prompt(name, s2), ParseFrom(name, rest);
    assert [p1] + ([p2] + tail) == [p1, p2] + tail;
  }

  /** A three-element prefix, one element at a time. */
  lemma ThreeCons<T>(a: T, b: T, c: T, rest: seq<T>)
    ensures [a, b, c] + rest == [a] + ([b] + ([c] + rest))
  {
  }

  /** The three sections of the sample text on the import page, as lines. */
  const SadLines: seq<string> := [
    "Sad:",
    "I tried " + "everything, " + "but it " + "still hurts.",
    "Sometimes " + "I wonder " + "if things " + "will ever " + "get better.",
    ""]
  const ExcitedLines: seq<string> := [
    "Excited:",
    "Guess what? " + "We're going " + "to space!",
    "This is " + "the best " + "day of my " + "life!",
    ""]
  const AngryLines: seq<string> := [
    "Angry:",
    "I can't " + "believe " + "you would " + "say that.",
    "This is " + "absolutely " + "unacceptable."]
  const ExampleLines: seq<string> := SadLines + ExcitedLines + AngryLines

  /** The picker's labels are 11 to 22 characters long, so no shorter or longer line is one. */
  lemma NotArtifactByLength(line: string)
    requires |line| < 11 || |line| > 22
    ensures line !in Artifacts
  {
    assert forall k | 0 <= k < |Artifacts| :: 11 <= |Artifacts[k]| <= 22;
  }

  /** A trimmed line that is not a picker's label and does not end in ':' is a sentence. */
  lemma SentenceOf(line: string)
    requires line != [] && IsTrimmed(line) && line !in Artifacts && !EndsWith(line, ':')
    ensures Classify(line) == Sentence(line)
  {
    TrimOfTrimmed(line);
  }

  /** A name followed by ':' is a header for that name. */
  lemma HeaderOf(name: string)
    requires name != [] && !IsJsSpace(name[0]) && name + ":" !in Artifacts
    ensures Classify(name + ":") == Header(name)
  {
    var line := name + ":";
    assert line[0] == name[0];
    TrimOfTrimmed(line);
    assert line[..|line| - 1] == name;
  }

  lemma KindsSnoc(lines: seq<string>, line: string)
    ensures Kinds(lines + [line]) == Kinds(lines) + [Classify(line)]
  {
    assert (lines + [line])[..|lines|] == lines;
  }

  lemma KindsOfTwo(a: string, b: string)
    ensures Kinds([a, b]) == [Classify(a), Classify(b)]
  {
    KindsSnoc([], a);
    assert [] + [a] == [a];
    KindsSnoc([a], b);
    assert [a] + [b] == [a, b];
  }

  lemma KindsOfThree(a: string, b: string, c: string)
    ensures Kinds([a, b, c]) == [Classify(a), Classify(b), Classify(c)]
  {
    KindsOfTwo(a, b);
    KindsSnoc([a, b], c);
    assert [a, b] + [c] == [a, b, c];
  }

  /** A section of the sample: a header line, two sentence lines, and the lines after them. */
  lemma SectionLines(start: string, header: string, name: string, s1: string, s2: string, rest: seq<string>)
    requires name != ""
    requires Classify(header) == Header(name)
    requires Classify(s1) == Sentence(s1) && Classify(s2) == Sentence(s2)
    ensures ParseFrom(start, Kinds([header, s1, s2] + rest))
      == [Prompt(name, s1), Prompt(name, s2)] + ParseFrom(name, Kinds(rest))
  {
    KindsAppend([header, s1, s2], rest);
    KindsOfThree(header, s1, s2);
    Section(start, name, s1, s2, Kinds(rest));
  }

  /** A blank line between sections. */
  lemma BlankLine(emotion: string, rest: seq<string>)
    ensures ParseFrom(emotion, Kinds([""] + rest)) == ParseFrom(emotion, Kinds(rest))
  {
    KindsAppend([""], rest);
    assert [""][..0] == [];
    assert Kinds([""]) == [Blank];
    ConsLine(emotion, Blank, Kinds(rest));
  }

  /** A section of four lines whose last one is blank. */
  lemma BlankEndedSection(start: string, name: string, lines: seq<string>, rest: seq<string>)
    requires |lines| == 4 && lines[3] == "" && name != ""
    requires Classify(lines[0]) == Header(name)
    requires Classify(lines[1]) == Sentence(lines[1]) && Classify(lines[2]) == Sentence(lines[2])
    ensures ParseFrom(start, Kinds(lines + rest))
      == [Prompt(name, lines[1]), Prompt(name, lines[2])] + ParseFrom(name, Kinds(rest))
  {
    var tail := [""] + rest;
    assert lines + rest == [lines[0], lines[1], lines[2]] + tail;
    SectionLines(start, lines[0], name, lines[1], lines[2], tail);
    BlankLine(name, rest);
  }

  /** A section of three lines that ends the text. */
  lemma LastSection(start: string, name: string, lines: seq<string>)
    requires |lines| == 3 && name != ""
    requires Classify(lines[0]) == Header(name)
    requires Classify(lines[1]) == Sentence(lines[1]) && Classify(lines[2]) == Sentence(lines[2])
    ensures ParseFrom(start, Kinds(lines)) == [Prompt(name, lines[1]), Prompt(name, lines[2])]
  {
    assert lines == [lines[0], lines[1], lines[2]] + [];
    SectionLines(start, lines[0], name, lines[1], lines[2], []);
    assert Kinds([]) == [];
  }

  /** How the lines of the "Sad" section are classified. */
  lemma SadKinds()
    ensures Classify(SadLines[0]) == Header("Sad")
    ensures Classify(SadLines[1]) == Sentence(SadLines[1]) && Classify(SadLines[2]) == Sentence(SadLines[2])
  {
    NotArtifactByLength(SadLines[0]);
    HeaderOf("Sad");
    assert "Sad" + ":" == SadLines[0];
    NotArtifactByLength(SadLines[1]);
    SentenceOf(SadLines[1]);
    NotArtifactByLength(SadLines[2]);
    SentenceOf(SadLines[2]);
  }

  /** The "Sad" section and the blank line after it. */
  lemma SadSection(start: string, rest: seq<string>)
    ensures ParseFrom(start, Kinds(SadLines + rest))
      == [Prompt("Sad", SadLines[1]), Prompt("Sad", SadLines[2])] + ParseFrom("Sad", Kinds(rest))
  {
    SadKinds();
    BlankEndedSection(start, "Sad", SadLines, rest);
  }

  /** How the lines of the "Excited" section are classified. */
  lemma ExcitedKinds()
    ensures Classify(ExcitedLines[0]) == Header("Excited")
    ensures Classify(ExcitedLines[1]) == Sentence(ExcitedLines[1]) && Classify(ExcitedLines[2]) == Sentence(ExcitedLines[2])
  {
    NotArtifactByLength(ExcitedLines[0]);
    HeaderOf("Excited");
    assert "Excited" + ":" == ExcitedLines[0];
    NotArtifactByLength(ExcitedLines[1]);
    SentenceOf(ExcitedLines[1]);
    NotArtifactByLength(ExcitedLines[2]);
    SentenceOf(ExcitedLines[2]);
  }

  /** The "Excited" section and the blank line after it. */
  lemma ExcitedSection(start: string, rest: seq<string>)
    ensures ParseFrom(start, Kinds(ExcitedLines + rest))
      == [Prompt("Excited", ExcitedLines[1]), Prompt("Excited", ExcitedLines[2])] + ParseFrom("Excited", Kinds(rest))
  {
    ExcitedKinds();
    BlankEndedSection(start, "Excited", ExcitedLines, rest);
  }

  /** How the lines of the "Angry" section are classified. */
  lemma AngryKinds()
    ensures Classify(AngryLines[0]) == Header("Angry")
    ensures Classify(AngryLines[1]) == Sentence(AngryLines[1]) && Classify(AngryLines[2]) == Sentence(AngryLines[2])
  {
    NotArtifactByLength(AngryLines[0]);
    HeaderOf("Angry");
    assert "Angry" + ":" == AngryLines[0];
    NotArtifactByLength(AngryLines[1]);
    SentenceOf(AngryLines[1]);
    NotArtifactByLength(AngryLines[2]);
    SentenceOf(AngryLines[2]);
  }

  /** The "Angry" section, which ends the sample. */
  lemma AngrySection(start: string)
    ensures ParseFrom(start, Kinds(AngryLines)) == [Prompt("Angry", AngryLines[1]), Prompt("Angry", AngryLines[2])]
  {
    AngryKinds();
    LastSection(start, "Angry", AngryLines);
  }

  /** The sample's lines yield two prompts per section, in order, each tagged with its section's name. */
  lemma ExampleLinesParse()
    ensures Parse(ExampleLines)
      == [Prompt("Sad", SadLines[1]), Prompt("Sad", SadLines[2])]
       + [Prompt("Excited", ExcitedLines[1]), Prompt("Excited", ExcitedLines[2])]
       + [Prompt("Angry", AngryLines[1]), Prompt("Angry", AngryLines[2])]
  {
    var sad := [Prompt("Sad", SadLines[1]), Prompt("Sad", SadLines[2])];
    var excited := [Prompt("Excited", ExcitedLines[1]), Prompt("Excited", ExcitedLines[2])];
    var angry := [Prompt("Angry", AngryLines[1]), Prompt("Angry", AngryLines[2])];
    var later := ExcitedLines + AngryLines;
    assert ExampleLines == SadLines + later;
    SadSection("", later);
    ExcitedSection("Sad", AngryLines);
    AngrySection("Excited");
    assert ParseFrom("Sad", Kinds(later)) == excited + angry;
    assert Parse(ExampleLines) == sad + (excited + angry);
    AppendAssoc(sad, excited, angry);
  }

  // ---------------------------------------------------------------------
  // The sample as one text: none of the twelve expressions matches in it
  // ---------------------------------------------------------------------

  /** The sample text of the import page: its lines joined by line breaks. */
  const ExampleText: string := Join(ExampleLines, '\n')

  /** Two adjacent characters that spell "fi" or "ch", in any case. */
  predicate BlockingPair(x: char, y: char)
  {
    ((x == 'f' || x == 'F') && (y == 'i' || y == 'I'))
    || ((x == 'c' || x == 'C') && (y == 'h' || y == 'H'))
  }

  /** Position `k` of `s` holds a printable ASCII character (or a line break, where `breaks`
      allows one) that does not start "fi" or "ch". */
  predicate PlainAt(s: string, k: nat, breaks: bool)
    requires k < |s|
  {
    (' ' <= s[k] <= '~' || (breaks && s[k] == '\n'))
    && (k + 1 < |s| ==> !BlockingPair(s[k], s[k + 1]))
  }

  predicate Plain(s: string, breaks: bool)
  {
    forall k | 0 <= k < |s| :: PlainAt(s, k, breaks)
  }

  /** A literal position the scanner can never match in plain text: a letter outside ASCII,
      or the start of "fi" or "ch". */
  predicate BlocksAt(lit: string, o: nat)
  {
    o < |lit|
    && (LowerChar(lit[o]) > '~'
        || (o + 1 < |lit|
            && ((LowerChar(lit[o]) == 'f' && LowerChar(lit[o + 1]) == 'i')
                || (LowerChar(lit[o]) == 'c' && LowerChar(lit[o + 1]) == 'h'))))
  }

  /** The literal holds a position it can never match in plain text. */
  predicate LiteralBlocked(lit: string)
  {
    exists o | 0 <= o < |lit| :: BlocksAt(lit, o)
  }

  /** Every literal the expression starts from is blocked. */
  predicate Blocked(p: Pattern)
  {
    match p
    case Pair(a, _) => LiteralBlocked(a)
    case Line(alts) => forall m | 0 <= m < |alts| :: LiteralBlocked(alts[m])
  }

  /** Every picker's label holds a non-ASCII letter or one of the pairs "fi" and "ch". */
  lemma PatternsBlocked()
    ensures forall m | 0 <= m < |Patterns| :: Blocked(Patterns[m])
  {
    assert BlocksAt(Patterns[0].first, 10);
    assert BlocksAt(Patterns[1].first, 0);
    assert BlocksAt(Patterns[2].first, 7);
    assert BlocksAt(Patterns[3].first, 0);
    assert BlocksAt(Patterns[4].first, 1);
    assert BlocksAt(Patterns[5].first, 14);
    assert BlocksAt(Patterns[6].first, 9);
    assert BlocksAt(Patterns[7].first, 7);
    assert BlocksAt(Patterns[8].alternatives[0], 10);
    assert BlocksAt(Patterns[9].alternatives[0], 18);
    assert BlocksAt(Patterns[10].alternatives[0], 0);
    assert BlocksAt(Patterns[11].alternatives[0], 3);
    assert BlocksAt(Patterns[11].alternatives[1], 3);
  }

  /** A blocked literal occurs nowhere in plain text. */
  lemma NoLiteralInPlain(text: string, k: nat, lit: string, o: nat)
    requires Plain(text, true) && BlocksAt(lit, o)
    ensures !LiteralAt(text, k, lit)
  {
    if k + |lit| <= |text| {
      assert PlainAt(text, k + o, true);
      assert !SameLetter(text[k + o], lit[o]) || !SameLetter(text[k + o + 1], lit[o + 1]);
    }
  }

  lemma {:induction false} NoAlternativeInPlain(text: string, j: nat, alts: seq<string>)
    requires j <= |text| && Plain(text, true)
    requires forall m | 0 <= m < |alts| :: LiteralBlocked(alts[m])
    ensures AlternativeEnd(text, j, alts).None?
  {
    if alts != [] {
      var o: nat :| BlocksAt(alts[0], o);
      NoLiteralInPlain(text, j, alts[0], o);
      var later := alts[1..];
      assert forall m | 0 <= m < |later| :: later[m] == alts[m + 1];
      NoAlternativeInPlain(text, j, later);
    }
  }

  /** A blocked expression matches nowhere in plain text. */
  lemma NoMatchInPlain(text: string, i: nat, p: Pattern)
    requires i < |text| && ValidPattern(p) && Blocked(p) && Plain(text, true)
    ensures MatchAt(text, i, p).None?
  {
    match p
    case Pair(a, b) =>
      var o: nat :| BlocksAt(a, o);
      NoLiteralInPlain(text, i, a, o);
    case Line(alts) =>
      if text[i] == '\n' {
        NoAlternativeInPlain(text, SkipSpace(text, i + 1), alts);
      }
  }

  /** Plain text comes out of the clean-up as it went in. */
  lemma {:induction false} CleanWithPlain(text: string, ps: seq<Pattern>)
    requires forall k | 0 <= k < |ps| :: ValidPattern(ps[k]) && Blocked(ps[k])
    requires Plain(text, true)
    ensures CleanWith(text, ps) == text
  {
    if ps != [] {
      CleanWithPlain(text, ps[..|ps| - 1]);
      var p := ps[|ps| - 1];
      forall k | 0 <= k < |text|
        ensures MatchAt(text, k, p).None?
      {
        NoMatchInPlain(text, k, p);
      }
      ReplaceFromUnchanged(text, 0, p);
    }
  }

  /** Two plain strings stay plain side by side unless they meet in "fi" or "ch". */
  lemma PlainAppend(a: string, b: string, breaks: bool)
    requires Plain(a, breaks) && Plain(b, breaks)
    requires a != [] && b != [] ==> !BlockingPair(a[|a| - 1], b[0])
    ensures Plain(a + b, breaks)
  {
    var s := a + b;
    forall k | 0 <= k < |s|
      ensures PlainAt(s, k, breaks)
    {
      if k < |a| {
        assert PlainAt(a, k, breaks);
        if k + 1 < |a| {
          assert s[k + 1] == a[k + 1];
        } else if k + 1 < |s| {
          assert s[k + 1] == b[0];
        }
      } else {
        assert PlainAt(b, k - |a|, breaks);
        if k + 1 < |s| {
          assert s[k + 1] == b[k + 1 - |a|];
        }
      }
    }
  }

  /** Plain lines joined by line breaks give plain text. */
  lemma {:induction false} PlainJoin(lines: seq<string>)
    requires forall i | 0 <= i < |lines| :: Plain(lines[i], false)
    ensures Plain(Join(lines, '\n'), true)
    decreases |lines|
  {
    if |lines| > 0 {
      var first := lines[0];
      forall k | 0 <= k < |first|
        ensures PlainAt(first, k, true)
      {
        assert PlainAt(first, k, false);
      }
      if |lines| > 1 {
        PlainJoin(lines[1..]);
        PlainAppend(first, "\n", true);
        PlainAppend(first + "\n", Join(lines[1..], '\n'), true);
      }
    }
  }

  /** A plain line holds no line break. */
  lemma NoBreakInPlain(s: string)
    requires Plain(s, false)
    ensures '\n' !in s
  {
    forall k | 0 <= k < |s|
      ensures s[k] != '\n'
    {
      assert PlainAt(s, k, false);
    }
  }

  // Each line below is checked piece by piece: a piece of a dozen characters is cheap to check
  // character by character, and no two pieces meet in "fi" or "ch".

  lemma PlainSad1()
    ensures Plain(SadLines[1], false)
  {
    PlainAppend("I tried ", "everything, ", false);
    PlainAppend("I tried " + "everything, ", "but it ", false);
    PlainAppend("I tried " + "everything, " + "but it ", "still hurts.", false);
  }

  lemma PlainSad2()
    ensures Plain(SadLines[2], false)
  {
    PlainAppend("Sometimes ", "I wonder ", false);
    PlainAppend("Sometimes " + "I wonder ", "if things ", false);
    PlainAppend("Sometimes " + "I wonder " + "if things ", "will ever ", false);
    PlainAppend("Sometimes " + "I wonder " + "if things " + "will ever ", "get better.", false);
  }

  lemma PlainExcited1()
    ensures Plain(ExcitedLines[1], false)
  {
    PlainAppend("Guess what? ", "We're going ", false);
    PlainAppend("Guess what? " + "We're going ", "to space!", false);
  }

  lemma PlainExcited2()
    ensures Plain(ExcitedLines[2], false)
  {
    PlainAppend("This is ", "the best ", false);
    PlainAppend("This is " + "the best ", "day of my ", false);
    PlainAppend("This is " + "the best " + "day of my ", "life!", false);
  }

  lemma PlainAngry1()
    ensures Plain(AngryLines[1], false)
  {
    PlainAppend("I can't ", "believe ", false);
    PlainAppend("I can't " + "believe ", "you would ", false);
    PlainAppend("I can't " + "believe " + "you would ", "say that.", false);
  }

  lemma PlainAngry2()
    ensures Plain(AngryLines[2], false)
  {
    PlainAppend("This is ", "absolutely ", false);
    PlainAppend("This is " + "absolutely ", "unacceptable.", false);
  }

  /** Every line of the sample is plain. */
  lemma ExampleLinesPlain()
    ensures forall i | 0 <= i < |ExampleLines| :: Plain(ExampleLines[i], false)
  {
    PlainSad1();
    PlainSad2();
    PlainExcited1();
    PlainExcited2();
    PlainAngry1();
    PlainAngry2();
    assert Plain(SadLines[0], false) && Plain(ExcitedLines[0], false) && Plain(AngryLines[0], false);
    assert forall i | 0 <= i < |SadLines| :: ExampleLines[i] == SadLines[i];
    assert forall i | 0 <= i < |ExcitedLines| :: ExampleLines[4 + i] == ExcitedLines[i];
    assert forall i | 0 <= i < |AngryLines| :: ExampleLines[8 + i] == AngryLines[i];
  }

  /** The sample is plain text: printable ASCII and line breaks, with no "fi" and no "ch". */
  lemma ExampleTextPlain()
    ensures Plain(ExampleText, true)
    ensures forall i | 0 <= i < |ExampleLines| :: '\n' !in ExampleLines[i]
  {
    ExampleLinesPlain();
    forall i | 0 <= i < |ExampleLines|
      ensures '\n' !in ExampleLines[i]
    {
      NoBreakInPlain(ExampleLines[i]);
    }
    PlainJoin(ExampleLines);
  }

  /** The sample text of the import page yields two prompts per section, in order, each tagged
      with its section's name: the clean-up leaves it as it is and it splits into its lines. */
  lemma ExampleParse()
    ensures PromptsOf(ExampleText)
      == [Prompt("Sad", SadLines[1]), Prompt("Sad", SadLines[2])]
       + [Prompt("Excited", ExcitedLines[1]), Prompt("Excited", ExcitedLines[2])]
       + [Prompt("Angry", AngryLines[1]), Prompt("Angry", AngryLines[2])]
  {
    ExampleTextPlain();
    PatternsValid();
    PatternsBlocked();
    CleanWithPlain(ExampleText, Patterns);
    assert Clean(ExampleText) == ExampleText;
    var rest := Join(ExampleLines[1..], '\n');
    assert ExampleText == "Sad:" + "\n" + rest;
    JoinEndsWithLast(ExampleLines, '\n');
    var last := ExampleLines[|ExampleLines| - 1];
    assert ExampleText[|ExampleText| - 1] == last[|last| - 1];
    TrimOfTrimmed(ExampleText);
    SplitJoin(ExampleLines, '\n');
    assert Lines(Clean(ExampleText)) == ExampleLines;
    ExampleLinesParse();
  }
}
