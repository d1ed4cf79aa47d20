/**
 * The parts of JavaScript's String API that the application relies on:
 * whitespace as `\s` and `trim()` see it, `split` on one character,
 * `Array.prototype.join`, `toLowerCase` and the "text after the last
 * separator" idiom `s.split(sep).pop()`.
 */
module JsText {

  /** The characters matched by `\s` and removed by `String.prototype.trim`:
      ECMAScript's WhiteSpace and LineTerminator code points. */
  predicate IsJsSpace(c: char)
  {
    ('\t' <= c <= '\r') || c == ' ' || c == '\U{A0}' || c == '\U{1680}'
    || ('\U{2000}' <= c <= '\U{200A}') || c == '\U{2028}' || c == '\U{2029}'
    || c == '\U{202F}' || c == '\U{205F}' || c == '\U{3000}' || c == '\U{FEFF}'
  }

  /** No whitespace at either end. */
  predicate IsTrimmed(s: string)
  {
    s == [] || (!IsJsSpace(s[0]) && !IsJsSpace(s[|s| - 1]))
  }

  /** A greedy `\s*` from position `i`: the first position at or after `i` that is not whitespace. */
  function SkipSpace(s: string, i: nat): (j: nat)
    requires i <= |s|
    ensures i <= j <= |s|
    ensures forall k | i <= k < j :: IsJsSpace(s[k])
    ensures j == |s| || !IsJsSpace(s[j])
    decreases |s| - i
  {
    if i < |s| && IsJsSpace(s[i]) then SkipSpace(s, i + 1) else i
  }

  /** The start of the whitespace run that ends at position `j`. */
  function SkipSpaceBack(s: string, j: nat): (i: nat)
    requires j <= |s|
    ensures i <= j
    ensures forall k | i <= k < j :: IsJsSpace(s[k])
    ensures i == 0 || !IsJsSpace(s[i - 1])
  {
    if j > 0 && IsJsSpace(s[j - 1]) then SkipSpaceBack(s, j - 1) else j
  }

  /** A greedy `\s*` stops exactly at the end of a whitespace run. */
  lemma {:induction false} SkipSpaceRun(s: string, i: nat, j: nat)
    requires i <= j <= |s|
    requires forall k | i <= k < j :: IsJsSpace(s[k])
    requires j == |s| || !IsJsSpace(s[j])
    ensures SkipSpace(s, i) == j
    decreases j - i
  {
    if i < j {
      SkipSpaceRun(s, i + 1, j);
    }
  }

  /** `s` with its leading whitespace removed: a suffix of `s`, and all it drops is whitespace. */
  function TrimStart(s: string): (r: string)
    ensures |r| <= |s| && r == s[|s| - |r|..]
    ensures forall i | 0 <= i < |s| - |r| :: IsJsSpace(s[i])
    ensures r == [] || !IsJsSpace(r[0])
  {
    s[SkipSpace(s, 0)..]
  }

  /** `s` with its trailing whitespace removed: a prefix of `s`, and all it drops is whitespace. */
  function TrimEnd(s: string): (r: string)
    ensures |r| <= |s| && r == s[..|r|]
    ensures forall i | |r| <= i < |s| :: IsJsSpace(s[i])
    ensures r == [] || !IsJsSpace(r[|r| - 1])
  {
    s[..SkipSpaceBack(s, |s|)]
  }

  /** `r` is the slice `s[a..b]`, and everything of `s` outside that slice is whitespace. */
  predicate SpaceAround(s: string, r: string, a: nat, b: nat)
  {
    a <= b <= |s| && r == s[a..b]
    && (forall k | 0 <= k < a :: IsJsSpace(s[k]))
    && (forall k | b <= k < |s| :: IsJsSpace(s[k]))
  }

  /** `String.prototype.trim`. */
  function Trim(s: string): (r: string)
    ensures IsTrimmed(r)
    ensures |r| <= |s|
  {
    var t := TrimStart(s);
    var r := TrimEnd(t);
    assert r != [] ==> r[0] == t[0];
    r
  }

  /** Trimming keeps a slice of `s` and drops only whitespace around it. */
  lemma TrimDropsOnlySpace(s: string)
    ensures exists a: nat, b: nat :: SpaceAround(s, Trim(s), a, b)
  {
    var t := TrimStart(s);
    var r := TrimEnd(t);
    var a := |s| - |t|;
    assert Trim(s) == r;
    assert t == s[a..];
    assert r == t[..|r|];
    assert r == s[a..a + |r|];
    forall k | a + |r| <= k < |s|
      ensures IsJsSpace(s[k])
    {
      assert s[k] == t[k - a];
    }
    assert SpaceAround(s, r, a, a + |r|);
  }

  /** Trimming changes nothing on a string without edge whitespace. */
  lemma TrimOfTrimmed(s: string)
    requires IsTrimmed(s)
    ensures Trim(s) == s
  {
    if s != [] {
      assert TrimStart(s) == s;
      assert SkipSpaceBack(s, |s|) == |s|;
    }
  }

  /** A string made only of whitespace trims to the empty string. */
  lemma TrimAllSpace(s: string)
    requires forall i | 0 <= i < |s| :: IsJsSpace(s[i])
    ensures Trim(s) == ""
  {
    SkipSpaceRun(s, 0, |s|);
  }

  /** `toLowerCase` for one character: ASCII and Latin-1 capitals move down by 32. */
  function LowerChar(c: char): char
  {
    if 'A' <= c <= 'Z' || ('\U{C0}' <= c <= '\U{DE}' && c != '\U{D7}') then (c as int + 32) as char else c
  }

  /** `String.prototype.toLowerCase`, restricted to ASCII and Latin-1. */
  function ToLowerCase(s: string): string
  {
    seq(|s|, i requires 0 <= i < |s| => LowerChar(s[i]))
  }

  /** Characters that `toLowerCase` leaves alone and that no other character is lowered to. */
  lemma LowerKeepsCaseless(s: string, c: char)
    requires !('A' <= c <= 'Z') && !('a' <= c <= 'z') && !('\U{C0}' <= c <= '\U{FE}')
    ensures c in ToLowerCase(s) <==> c in s
  {
    var t := ToLowerCase(s);
    if c in t {
      var k :| 0 <= k < |t| && t[k] == c;
      assert s[k] == c;
    }
    if c in s {
      var k :| 0 <= k < |s| && s[k] == c;
      assert t[k] == c;
    }
  }

  /** `s.slice(0, n)`: the first `n` characters, or all of `s` when it is shorter. */
  function Slice(s: string, n: nat): (r: string)
    ensures |r| == if |s| < n then |s| else n
    ensures r == s[..|r|]
  {
    if |s| < n then s else s[..n]
  }

  /** `s.endsWith(c)` for a one-character suffix. */
  predicate EndsWith(s: string, c: char)
  {
    |s| > 0 && s[|s| - 1] == c
  }

  /** `s.includes(t)`. */
  predicate Includes(s: string, t: string)
    decreases |s|
  {
    t <= s || (s != [] && Includes(s[1..], t))
  }

  /** Position of the first `c` in `s`. */
  function IndexOf(s: string, c: char): (i: nat)
    requires c in s
    ensures i < |s| && s[i] == c && c !in s[..i]
  {
    if s[0] == c then 0 else 1 + IndexOf(s[1..], c)
  }

  /** `s.split(sep)` for a one-character separator: always at least one part, none holding `sep`. */
  function Split(s: string, sep: char): (parts: seq<string>)
    ensures |parts| >= 1
    ensures forall k | 0 <= k < |parts| :: sep !in parts[k]
    decreases |s|
  {
    if sep in s then
      var i := IndexOf(s, sep);
      [s[..i]] + Split(s[i + 1..], sep)
    else
      [s]
  }

  /** `parts.join(sep)`; the empty list joins to "". */
  function Join(parts: seq<string>, sep: char): string
  {
    if |parts| == 0 then ""
    else if |parts| == 1 then parts[0]
    else parts[0] + [sep] + Join(parts[1..], sep)
  }

  /** `s.split(sep).pop()`: the text after the last `sep`, all of `s` when there is none. */
  function LastSegment(s: string, sep: char): string
  {
    var parts := Split(s, sep);
    parts[|parts| - 1]
  }

  /** The first `c` in `a + t` is the first in `a` when `a` holds one, otherwise it lies in `t`. */
  lemma {:induction false} IndexOfAppend(a: string, t: string, c: char)
    requires c in a + t
    ensures c in a ==> IndexOf(a + t, c) == IndexOf(a, c)
    ensures c !in a ==> c in t && IndexOf(a + t, c) == |a| + IndexOf(t, c)
  {
    if a == [] {
      assert a + t == t;
    } else if a[0] != c {
      assert (a + t)[1..] == a[1..] + t;
      IndexOfAppend(a[1..], t, c);
    }
  }

  /** Splitting at a separator placed between `a` and `b` splits each side on its own. */
  lemma {:induction false} SplitAround(a: string, b: string, sep: char)
    ensures Split(a + [sep] + b, sep) == Split(a, sep) + Split(b, sep)
    decreases |a|
  {
    var s := a + [sep] + b;
    if sep in a {
      var i := IndexOf(a, sep);
      var head, tail := a[..i], a[i + 1..];
      assert a == head + [sep] + tail;
      var rest := tail + [sep] + b;
      assert s == head + [sep] + rest;
      SplitAround(tail, b, sep);
      SplitAtFirst(s, head, rest, sep);
      SplitAtFirst(a, head, tail, sep);
      var st, sb := Split(tail, sep), Split(b, sep);
      assert [head] + (st + sb) == [head] + st + sb;
    } else {
      SplitAtFirst(s, a, b, sep);
    }
  }

  /** A string whose first separator follows `head` splits into `head` and the parts of the rest. */
  lemma SplitAtFirst(s: string, head: string, rest: string, sep: char)
    requires s == head + [sep] + rest && sep !in head
    ensures Split(s, sep) == [head] + Split(rest, sep)
  {
    assert s == head + ([sep] + rest);
    IndexOfAppend(head, [sep] + rest, sep);
    assert IndexOf(s, sep) == |head|;
    assert s[..|head|] == head;
    assert s[|head| + 1..] == rest;
  }

  /** Split undoes Join when no part holds the separator. */
  lemma {:induction false} SplitJoin(parts: seq<string>, sep: char)
    requires |parts| >= 1
    requires forall k | 0 <= k < |parts| :: sep !in parts[k]
    ensures Split(Join(parts, sep), sep) == parts
  {
    if |parts| > 1 {
      SplitJoin(parts[1..], sep);
      SplitAround(parts[0], Join(parts[1..], sep), sep);
      assert Split(parts[0], sep) == [parts[0]];
      assert parts == [parts[0]] + parts[1..];
    }
  }

  /** Join undoes Split: splitting loses nothing. */
  lemma {:induction false} JoinSplit(s: string, sep: char)
    ensures Join(Split(s, sep), sep) == s
    decreases |s|
  {
    if sep in s {
      var i := IndexOf(s, sep);
      var rest := Split(s[i + 1..], sep);
      JoinSplit(s[i + 1..], sep);
      assert Split(s, sep) == [s[..i]] + rest;
      assert ([s[..i]] + rest)[1..] == rest;
      assert Join(Split(s, sep), sep) == s[..i] + [sep] + Join(rest, sep);
      assert s == s[..i] + [sep] + s[i + 1..];
    }
  }

  /** The last segment of `a + sep + b` is the last segment of `b`. */
  lemma LastSegmentAround(a: string, b: string, sep: char)
    ensures LastSegment(a + [sep] + b, sep) == LastSegment(b, sep)
  {
    SplitAround(a, b, sep);
  }

  /** Past the first separator, the last segment is that of the rest. */
  lemma LastSegmentAfterFirst(s: string, head: string, rest: string, sep: char)
    requires s == head + [sep] + rest && sep !in head
    ensures LastSegment(s, sep) == LastSegment(rest, sep)
  {
    SplitAtFirst(s, head, rest, sep);
  }

  /** A string without the separator is one part. */
  lemma SplitWhole(s: string, sep: char)
    requires sep !in s
    ensures Split(s, sep) == [s]
  {
  }

  /** `s.split(sep).pop()` is the text after the last separator: a suffix of `s` free of `sep`,
      preceded by `sep` whenever `s` holds one. */
  lemma {:induction false} LastSegmentSuffix(s: string, sep: char)
    ensures |LastSegment(s, sep)| <= |s| && LastSegment(s, sep) == s[|s| - |LastSegment(s, sep)|..]
    ensures sep !in LastSegment(s, sep)
    ensures sep in s ==> |LastSegment(s, sep)| < |s| && s[|s| - |LastSegment(s, sep)| - 1] == sep
    decreases |s|
  {
    if sep in s {
      var i := IndexOf(s, sep);
      var rest := s[i + 1..];
      assert s == s[..i] + [sep] + rest;
      LastSegmentAfterFirst(s, s[..i], rest, sep);
      LastSegmentSuffix(rest, sep);
      var last := LastSegment(rest, sep);
      assert LastSegment(s, sep) == last;
      assert last == rest[|rest| - |last|..];
      assert s[|s| - |last|..] == rest[|rest| - |last|..];
      if sep in rest {
        assert s[|s| - |last| - 1] == rest[|rest| - |last| - 1];
      } else {
        assert Split(rest, sep) == [rest];
        assert |s| - |last| - 1 == i;
      }
    } else {
      assert Split(s, sep) == [s];
    }
  }

  /** A path ending in the separator has an empty last segment. */
  lemma LastSegmentAfterTrailing(s: string, sep: char)
    requires EndsWith(s, sep)
    ensures LastSegment(s, sep) == ""
  {
    LastSegmentSuffix(s, sep);
  }

  /** A join ends with its last part. */
  lemma {:induction false} JoinEndsWithLast(parts: seq<string>, sep: char)
    requires |parts| >= 1
    ensures |parts[|parts| - 1]| <= |Join(parts, sep)|
    ensures Join(parts, sep)[|Join(parts, sep)| - |parts[|parts| - 1]|..] == parts[|parts| - 1]
    decreases |parts|
  {
    if |parts| > 1 {
      JoinEndsWithLast(parts[1..], sep);
      var tail := Join(parts[1..], sep);
      var last := parts[|parts| - 1];
      assert parts[1..][|parts[1..]| - 1] == last;
      assert Join(parts, sep) == (parts[0] + [sep]) + tail;
    }
  }

  /** A string holding the separator splits into at least two parts. */
  lemma SplitAtSeparator(s: string, sep: char)
    requires sep in s
    ensures |Split(s, sep)| >= 2
  {
    var i := IndexOf(s, sep);
    assert Split(s, sep) == [s[..i]] + Split(s[i + 1..], sep);
  }

  /** A string without the separator is its own last segment. */
  lemma LastSegmentWhole(s: string, sep: char)
    requires sep !in s
    ensures LastSegment(s, sep) == s
  {
  }
}
