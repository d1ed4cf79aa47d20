/**
 * `slugify`: the text lower-cased and trimmed, the German umlauts and ß
 * spelled out through a seven-entry replacement table, every character
 * outside [a-z0-9], whitespace and '-' dropped, each run of whitespace,
 * '_' and '-' collapsed to one '-', and the hyphens at either end removed.
 *
 * Each `replace` of the source is a function here; the method `Slugify`
 * keeps the source's loop over the table and is proved equal to `Slug`.
 */
module Slug {
  import opened JsText
  import opened Sequences

  // ---------------------------------------------------------------------
  // The umlaut table
  // ---------------------------------------------------------------------

  /** The replacement table, in the order its keys are visited: ä ö ü ß Ä Ö Ü. */
  const Replacements: seq<(char, string)> := [
    ('\U{E4}', "ae"), ('\U{F6}', "oe"), ('\U{FC}', "ue"), ('\U{DF}', "ss"),
    ('\U{C4}', "ae"), ('\U{D6}', "oe"), ('\U{DC}', "ue")]

  /** A character the table replaces. */
  predicate IsTableKey(c: char)
  {
    c == '\U{E4}' || c == '\U{F6}' || c == '\U{FC}' || c == '\U{DF}'
    || c == '\U{C4}' || c == '\U{D6}' || c == '\U{DC}'
  }

  /** No replacement value contains a key, so no replacement is replaced again. */
  predicate ValuesFree(table: seq<(char, string)>)
  {
    forall i, j | 0 <= i < |table| && 0 <= j < |table| :: table[j].0 !in table[i].1
  }

  /** `s.replace(new RegExp(key, 'g'), value)` for a one-character key: every occurrence replaced. */
  function ReplaceChar(s: string, key: char, value: string): (r: string)
    ensures key !in s ==> r == s
  {
    if s == [] then []
    else
      var c := s[|s| - 1];
      ReplaceChar(s[..|s| - 1], key, value) + (if c == key then value else [c])
  }

  /** The `forEach` over the table from entry `i` on: each entry applied, in order, to what
      the previous ones left. */
  function ApplyFrom(s: string, table: seq<(char, string)>, i: nat): string
    requires i <= |table|
    decreases |table| - i
  {
    if i == |table| then s else ApplyFrom(ReplaceChar(s, table[i].0, table[i].1), table, i + 1)
  }

  /** What the table from entry `i` on does to one character: the value of the first entry
      with that key, or the character itself. */
  function LookupFrom(table: seq<(char, string)>, c: char, i: nat): string
    requires i <= |table|
    decreases |table| - i
  {
    if i == |table| then [c] else if table[i].0 == c then table[i].1 else LookupFrom(table, c, i + 1)
  }

  /** How one character is spelled out: ä and Ä become "ae", ö and Ö "oe", ü and Ü "ue",
      ß "ss", and every other character stays. */
  function Expand(c: char): string
  {
    if c == '\U{E4}' || c == '\U{C4}' then "ae"
    else if c == '\U{F6}' || c == '\U{D6}' then "oe"
    else if c == '\U{FC}' || c == '\U{DC}' then "ue"
    else if c == '\U{DF}' then "ss"
    else [c]
  }

  /** Every character spelled out, in order. */
  function ExpandAll(s: string): string
  {
    if s == [] then [] else ExpandAll(s[..|s| - 1]) + Expand(s[|s| - 1])
  }

  /** The table, read entry by entry, is the expansion above. */
  lemma ExpandIsLookup(c: char)
    ensures LookupFrom(Replacements, c, 0) == Expand(c)
  {
    var t := Replacements;
    assert LookupFrom(t, c, 7) == [c];
    assert LookupFrom(t, c, 6) == if c == '\U{DC}' then "ue" else [c];
    assert LookupFrom(t, c, 5) == if c == '\U{D6}' then "oe" else LookupFrom(t, c, 6);
    assert LookupFrom(t, c, 4) == if c == '\U{C4}' then "ae" else LookupFrom(t, c, 5);
    assert LookupFrom(t, c, 3) == if c == '\U{DF}' then "ss" else LookupFrom(t, c, 4);
    assert LookupFrom(t, c, 2) == if c == '\U{FC}' then "ue" else LookupFrom(t, c, 3);
    assert LookupFrom(t, c, 1) == if c == '\U{F6}' then "oe" else LookupFrom(t, c, 2);
  }

  /** The keys of the table are the seven characters above. */
  lemma TableKeys()
    ensures forall m | 0 <= m < |Replacements| :: IsTableKey(Replacements[m].0)
  {
  }

  /** Every replacement value is two ASCII letters, so it holds no key. */
  lemma ReplacementsValuesFree()
    ensures ValuesFree(Replacements)
  {
    forall i, j | 0 <= i < |Replacements| && 0 <= j < |Replacements|
      ensures Replacements[j].0 !in Replacements[i].1
    {
      var v := Replacements[i].1;
      assert |v| == 2 && 'a' <= v[0] <= 'z' && 'a' <= v[1] <= 'z';
      assert IsTableKey(Replacements[j].0);
    }
  }

  lemma ReplaceCharSnoc(s: string, c: char, key: char, value: string)
    ensures ReplaceChar(s + [c], key, value) == ReplaceChar(s, key, value) + (if c == key then value else [c])
  {
    assert (s + [c])[..|s|] == s;
  }

  /** Replacing distributes over concatenation. */
  lemma {:induction false} ReplaceCharAppend(a: string, b: string, key: char, value: string)
    ensures ReplaceChar(a + b, key, value) == ReplaceChar(a, key, value) + ReplaceChar(b, key, value)
    decreases |b|
  {
    if b == [] {
      assert a + b == a;
    } else {
      var p, c := b[..|b| - 1], b[|b| - 1];
      assert b == p + [c];
      assert a + b == (a + p) + [c];
      ReplaceCharAppend(a, p, key, value);
      ReplaceCharSnoc(a + p, c, key, value);
      ReplaceCharSnoc(p, c, key, value);
      var tail := if c == key then value else [c];
      var ra, rp := ReplaceChar(a, key, value), ReplaceChar(p, key, value);
      AppendAssoc(ra, rp, tail);
    }
  }

  /** So does the whole table. */
  lemma {:induction false} ApplyFromAppend(a: string, b: string, table: seq<(char, string)>, i: nat)
    requires i <= |table|
    ensures ApplyFrom(a + b, table, i) == ApplyFrom(a, table, i) + ApplyFrom(b, table, i)
    decreases |table| - i
  {
    if i < |table| {
      var key, value := table[i].0, table[i].1;
      ReplaceCharAppend(a, b, key, value);
      ApplyFromAppend(ReplaceChar(a, key, value), ReplaceChar(b, key, value), table, i + 1);
    }
  }

  /** Entries whose keys do not occur change nothing. */
  lemma {:induction false} ApplyFromNoKey(s: string, table: seq<(char, string)>, i: nat)
    requires i <= |table|
    requires forall m | i <= m < |table| :: table[m].0 !in s
    ensures ApplyFrom(s, table, i) == s
    decreases |table| - i
  {
    if i < |table| {
      ApplyFromNoKey(s, table, i + 1);
    }
  }

  /** The entry whose key is the character replaces it by its value, which no later entry touches. */
  lemma ApplyFromCharHit(c: char, table: seq<(char, string)>, i: nat)
    requires i < |table| && table[i].0 == c
    requires forall m | i + 1 <= m < |table| :: table[m].0 !in table[i].1
    ensures ApplyFrom([c], table, i) == table[i].1
  {
    var value := table[i].1;
    ReplaceCharSnoc([], c, c, value);
    assert [] + [c] == [c];
    assert [] + value == value;
    ApplyFromNoKey(value, table, i + 1);
  }

  /** On one character, applying the table is looking the character up. */
  lemma {:induction false} ApplyFromChar(c: char, table: seq<(char, string)>, i: nat)
    requires i <= |table| && ValuesFree(table)
    ensures ApplyFrom([c], table, i) == LookupFrom(table, c, i)
    decreases |table| - i
  {
    if i < |table| {
      if table[i].0 == c {
        ApplyFromCharHit(c, table, i);
      } else {
        ApplyFromChar(c, table, i + 1);
      }
    }
  }

  /** The `forEach` over the table spells out every character on its own. */
  lemma {:induction false} TableExpands(s: string)
    ensures ApplyFrom(s, Replacements, 0) == ExpandAll(s)
    decreases |s|
  {
    if s != [] {
      var p, c := s[..|s| - 1], s[|s| - 1];
      assert s == p + [c];
      ApplyFromAppend(p, [c], Replacements, 0);
      ReplacementsValuesFree();
      ApplyFromChar(c, Replacements, 0);
      ExpandIsLookup(c);
      TableExpands(p);
    }
  }

  lemma ExpandAllSnoc(s: string, c: char)
    ensures ExpandAll(s + [c]) == ExpandAll(s) + Expand(c)
  {
    assert (s + [c])[..|s|] == s;
  }

  lemma {:induction false} ExpandAllAppend(a: string, b: string)
    ensures ExpandAll(a + b) == ExpandAll(a) + ExpandAll(b)
    decreases |b|
  {
    if b == [] {
      assert a + b == a;
    } else {
      var p, c := b[..|b| - 1], b[|b| - 1];
      assert b == p + [c];
      assert a + b == (a + p) + [c];
      ExpandAllAppend(a, p);
      ExpandAllSnoc(a + p, c);
      ExpandAllSnoc(p, c);
      AppendAssoc(ExpandAll(a), ExpandAll(p), Expand(c));
    }
  }

  /** A text without table keys is spelled out unchanged. */
  lemma {:induction false} ExpandAllNoKey(s: string)
    requires forall k | 0 <= k < |s| :: !IsTableKey(s[k])
    ensures ExpandAll(s) == s
    decreases |s|
  {
    if s != [] {
      ExpandAllNoKey(s[..|s| - 1]);
      assert s == s[..|s| - 1] + [s[|s| - 1]];
    }
  }

  // ---------------------------------------------------------------------
  // The three regular-expression passes
  // ---------------------------------------------------------------------

  /** The characters `[^a-z0-9\s-]` does not match. */
  predicate IsKept(c: char)
  {
    'a' <= c <= 'z' || '0' <= c <= '9' || IsJsSpace(c) || c == '-'
  }

  /** What `[\s_-]+` matches. */
  predicate IsSeparator(c: char)
  {
    IsJsSpace(c) || c == '_' || c == '-'
  }

  /** A lower-case ASCII letter or a digit. */
  predicate IsAlnum(c: char)
  {
    'a' <= c <= 'z' || '0' <= c <= '9'
  }

  /** The letters and digits of `s`, in order. */
  function Alnums(s: string): (r: string)
    ensures |r| <= |s|
  {
    if s == [] then []
    else Alnums(s[..|s| - 1]) + (if IsAlnum(s[|s| - 1]) then [s[|s| - 1]] else [])
  }

  /** `.replace(/[^a-z0-9\s-]/g, '')`: the kept characters, in order. */
  function DropDisallowed(s: string): (r: string)
    ensures forall k | 0 <= k < |r| :: IsKept(r[k])
    ensures (forall k | 0 <= k < |s| :: IsKept(s[k])) ==> r == s
  {
    if s == [] then []
    else
      var p, c := s[..|s| - 1], s[|s| - 1];
      assert forall k | 0 <= k < |p| :: p[k] == s[k];
      var q := DropDisallowed(p);
      if IsKept(c) then q + [c] else q
  }

  /** Dropping keeps every letter and digit, in order. */
  lemma {:induction false} DropAlnums(s: string)
    ensures Alnums(DropDisallowed(s)) == Alnums(s)
    decreases |s|
  {
    if s != [] {
      var p, c := s[..|s| - 1], s[|s| - 1];
      DropAlnums(p);
      var q := DropDisallowed(p);
      if IsKept(c) {
        var r := q + [c];
        assert r[..|r| - 1] == q;
      }
    }
  }

  /** `.replace(/[\s_-]+/g, '-')`: each maximal run of separators becomes one '-'. */
  function Collapse(s: string): (r: string)
    ensures |r| == 0 <==> |s| == 0
    ensures s != [] ==> (r[|r| - 1] == '-' <==> IsSeparator(s[|s| - 1]))
  {
    if s == [] then []
    else
      var p, c := s[..|s| - 1], s[|s| - 1];
      var q := Collapse(p);
      if !IsSeparator(c) then q + [c]
      else if p != [] && IsSeparator(p[|p| - 1]) then q
      else q + "-"
  }

  /** What collapsing leaves of kept characters: slug characters, never two '-' in a row. */
  lemma {:induction false} CollapseShape(s: string)
    requires forall k | 0 <= k < |s| :: IsKept(s[k])
    ensures forall k | 0 <= k < |Collapse(s)| :: IsSlugChar(Collapse(s)[k])
    ensures NoDoubleHyphen(Collapse(s))
    decreases |s|
  {
    if s != [] {
      var p, c := s[..|s| - 1], s[|s| - 1];
      CollapseShape(p);
      var q := Collapse(p);
      if !IsSeparator(c) {
        assert IsAlnum(c);
        assert Collapse(s) == q + [c];
      } else if !(p != [] && IsSeparator(p[|p| - 1])) {
        assert q == [] || q[|q| - 1] != '-';
        assert Collapse(s) == q + "-";
      }
    }
  }

  /** Collapsing keeps every letter and digit, in order. */
  lemma {:induction false} CollapseAlnums(s: string)
    ensures Alnums(Collapse(s)) == Alnums(s)
    decreases |s|
  {
    if s != [] {
      var p, c := s[..|s| - 1], s[|s| - 1];
      CollapseAlnums(p);
      var q := Collapse(p);
      if !IsSeparator(c) {
        var r := q + [c];
        assert r[..|r| - 1] == q;
      } else if !(p != [] && IsSeparator(p[|p| - 1])) {
        var r := q + "-";
        assert r[..|r| - 1] == q;
      }
    }
  }

  /** The first position at or after `i` that is not a hyphen. */
  function SkipHyphens(s: string, i: nat): (j: nat)
    requires i <= |s|
    ensures i <= j <= |s|
    ensures forall k | i <= k < j :: s[k] == '-'
    ensures j == |s| || s[j] != '-'
    decreases |s| - i
  {
    if i < |s| && s[i] == '-' then SkipHyphens(s, i + 1) else i
  }

  /** The start of the run of hyphens that ends at position `j`. */
  function SkipHyphensBack(s: string, j: nat): (i: nat)
    requires j <= |s|
    ensures i <= j
    ensures forall k | i <= k < j :: s[k] == '-'
    ensures i == 0 || s[i - 1] != '-'
  {
    if j > 0 && s[j - 1] == '-' then SkipHyphensBack(s, j - 1) else j
  }

  /** `r` is the slice `s[a..b]`, and everything of `s` outside that slice is a hyphen. */
  predicate HyphensAround(s: string, r: string, a: nat, b: nat)
  {
    a <= b <= |s| && r == s[a..b]
    && (forall k | 0 <= k < a :: s[k] == '-')
    && (forall k | b <= k < |s| :: s[k] == '-')
  }

  /** `.replace(/^-+|-+$/g, '')`: the leading and the trailing hyphens removed, and nothing else. */
  function StripHyphens(s: string): (r: string)
    ensures r == [] || (r[0] != '-' && r[|r| - 1] != '-')
    ensures exists a: nat, b: nat :: HyphensAround(s, r, a, b)
  {
    var i := SkipHyphens(s, 0);
    if i == |s| then
      assert HyphensAround(s, [], |s|, |s|);
      []
    else
      var j := SkipHyphensBack(s, |s|);
      assert HyphensAround(s, s[i..j], i, j);
      s[i..j]
  }

  /** A run of hyphens holds no letter or digit. */
  lemma HyphenRunNoAlnums(s: string, i: nat, j: nat)
    requires i <= j <= |s|
    requires forall k | i <= k < j :: s[k] == '-'
    ensures Alnums(s[i..j]) == []
  {
    var run := s[i..j];
    forall k | 0 <= k < |run|
      ensures !IsAlnum(run[k])
    {
      assert run[k] == s[i + k];
    }
    AlnumsNone(run);
  }

  /** Stripping removes hyphens only: every letter and digit stays, in order. */
  lemma StripAlnums(s: string)
    ensures Alnums(StripHyphens(s)) == Alnums(s)
  {
    var i := SkipHyphens(s, 0);
    if i == |s| {
      HyphenRunNoAlnums(s, 0, |s|);
      assert s[0..|s|] == s;
    } else {
      var j := SkipHyphensBack(s, |s|);
      assert i < j;
      HyphenRunNoAlnums(s, 0, i);
      HyphenRunNoAlnums(s, j, |s|);
      AlnumsBetween(s, i, j);
    }
  }

  /** With no letter or digit outside `s[i..j]`, the letters and digits are those of the middle. */
  lemma AlnumsBetween(s: string, i: nat, j: nat)
    requires i <= j <= |s|
    requires Alnums(s[0..i]) == [] && Alnums(s[j..|s|]) == []
    ensures Alnums(s[i..j]) == Alnums(s)
  {
    var a, m, b := s[..i], s[i..j], s[j..];
    SliceThree(s, i, j);
    assert s[0..i] == a && s[j..|s|] == b;
    AlnumsAppend(a + m, b);
    AlnumsAppend(a, m);
  }

  /** The letters and digits of a concatenation. */
  lemma AlnumsSnoc(s: string, c: char)
    ensures Alnums(s + [c]) == Alnums(s) + (if IsAlnum(c) then [c] else [])
  {
    assert (s + [c])[..|s|] == s;
  }

  lemma {:induction false} AlnumsAppend(a: string, b: string)
    ensures Alnums(a + b) == Alnums(a) + Alnums(b)
    decreases |b|
  {
    if b == [] {
      assert a + b == a;
    } else {
      var p, c := b[..|b| - 1], b[|b| - 1];
      assert b == p + [c];
      assert a + b == (a + p) + [c];
      AlnumsAppend(a, p);
      AlnumsSnoc(a + p, c);
      AlnumsSnoc(p, c);
      AppendAssoc(Alnums(a), Alnums(p), if IsAlnum(c) then [c] else []);
    }
  }

  /** A string without letters and digits has none to keep. */
  lemma {:induction false} AlnumsNone(s: string)
    requires forall k | 0 <= k < |s| :: !IsAlnum(s[k])
    ensures Alnums(s) == []
    decreases |s|
  {
    if s != [] {
      AlnumsNone(s[..|s| - 1]);
    }
  }

  /** Conversely, no letter or digit is lost. */
  lemma {:induction false} AlnumsEmpty(s: string)
    requires Alnums(s) == []
    ensures forall k | 0 <= k < |s| :: !IsAlnum(s[k])
    decreases |s|
  {
    if s != [] {
      AlnumsEmpty(s[..|s| - 1]);
    }
  }

  // ---------------------------------------------------------------------
  // slugify
  // ---------------------------------------------------------------------

  /** A character a slug may hold. */
  predicate IsSlugChar(c: char)
  {
    IsAlnum(c) || c == '-'
  }

  /** Never two '-' in a row. */
  predicate NoDoubleHyphen(s: string)
  {
    forall k | 0 <= k < |s| - 1 :: !(s[k] == '-' && s[k + 1] == '-')
  }

  /** The shape of every result: [a-z0-9-] only, no '-' at either end, never two '-' in a row. */
  predicate IsSlug(s: string)
  {
    && (forall k | 0 <= k < |s| :: IsSlugChar(s[k]))
    && (s == [] || (s[0] != '-' && s[|s| - 1] != '-'))
    && NoDoubleHyphen(s)
  }

  /** `slugify(text)`, the definition the method is proved equal to. */
  function Slug(text: string): (slug: string)
    ensures IsSlug(slug)
  {
    var lowered := Trim(ToLowerCase(text));
    var dropped := DropDisallowed(ApplyFrom(lowered, Replacements, 0));
    var collapsed := Collapse(dropped);
    CollapseShape(dropped);
    StripShape(collapsed);
    StripHyphens(collapsed)
  }

  /** Stripping the ends of a string of slug characters without double hyphens gives a slug. */
  lemma StripShape(s: string)
    requires forall k | 0 <= k < |s| :: IsSlugChar(s[k])
    requires NoDoubleHyphen(s)
    ensures IsSlug(StripHyphens(s))
  {
    var i := SkipHyphens(s, 0);
    if i < |s| {
      var j := SkipHyphensBack(s, |s|);
      assert i < j;
      var r := s[i..j];
      assert forall k | 0 <= k < |r| :: r[k] == s[i + k];
    }
  }

  /** `slugify` as the source writes it: the loop over the table, then the three passes. */
  method Slugify(text: string) returns (result: string)
    ensures result == Slug(text)
  {
    result := Trim(ToLowerCase(text));
    ghost var lowered := result;
    for n := 0 to |Replacements|
      invariant ApplyFrom(result, Replacements, n) == ApplyFrom(lowered, Replacements, 0)
    {
      var (key, value) := Replacements[n];
      result := ReplaceChar(result, key, value);
    }
    result := DropDisallowed(result);
    result := Collapse(result);
    result := StripHyphens(result);
  }

  // ---------------------------------------------------------------------
  // What slugify promises
  // ---------------------------------------------------------------------

  /** A slug passes through every stage unchanged. */
  lemma SlugOfSlug(s: string)
    requires IsSlug(s)
    ensures Slug(s) == s
  {
    LowerOfSlug(s);
    TrimOfTrimmed(s);
    TableOfSlug(s);
    assert forall k | 0 <= k < |s| :: IsKept(s[k]);
    assert DropDisallowed(s) == s;
    CollapseOfSlug(s);
    StripOfSlug(s);
  }

  lemma LowerOfSlug(s: string)
    requires forall k | 0 <= k < |s| :: IsSlugChar(s[k])
    ensures ToLowerCase(s) == s
  {
  }

  lemma TableOfSlug(s: string)
    requires forall k | 0 <= k < |s| :: IsSlugChar(s[k])
    ensures ApplyFrom(s, Replacements, 0) == s
  {
    TableKeys();
    forall k | 0 <= k < |s|
      ensures !IsTableKey(s[k])
    {
      SlugCharNotKey(s[k]);
    }
    NoKeyOccurs(s, Replacements);
    ApplyFromNoKey(s, Replacements, 0);
  }

  lemma SlugCharNotKey(c: char)
    requires IsSlugChar(c)
    ensures !IsTableKey(c)
  {
  }

  /** A text without table keys holds no key of a table of such keys. */
  lemma NoKeyOccurs(s: string, table: seq<(char, string)>)
    requires forall k | 0 <= k < |s| :: !IsTableKey(s[k])
    requires forall m | 0 <= m < |table| :: IsTableKey(table[m].0)
    ensures forall m | 0 <= m < |table| :: table[m].0 !in s
  {
  }

  lemma StripOfSlug(s: string)
    requires s == [] || (s[0] != '-' && s[|s| - 1] != '-')
    ensures StripHyphens(s) == s
  {
    if s != [] {
      assert SkipHyphens(s, 0) == 0;
      assert SkipHyphensBack(s, |s|) == |s|;
    }
  }

  /** A slug has nothing to collapse. */
  lemma {:induction false} CollapseOfSlug(s: string)
    requires forall k | 0 <= k < |s| :: IsSlugChar(s[k])
    requires NoDoubleHyphen(s)
    ensures Collapse(s) == s
    decreases |s|
  {
    if s != [] {
      var p, c := s[..|s| - 1], s[|s| - 1];
      SlugInit(s, p);
      CollapseOfSlug(p);
      if |s| >= 2 {
        assert !(s[|s| - 2] == '-' && s[|s| - 1] == '-');
      }
      CollapseKeepsLast(s);
      assert s == p + [c];
    }
  }

  /** Dropping the last character of a slug-shaped string keeps its shape. */
  lemma SlugInit(s: string, p: string)
    requires s != [] && p == s[..|s| - 1]
    requires forall k | 0 <= k < |s| :: IsSlugChar(s[k])
    requires NoDoubleHyphen(s)
    ensures forall k | 0 <= k < |p| :: IsSlugChar(p[k])
    ensures NoDoubleHyphen(p)
  {
  }

  /** Among slug characters only '-' is a separator. */
  lemma SlugCharSeparator(c: char)
    requires IsSlugChar(c)
    ensures IsSeparator(c) <==> c == '-'
  {
  }

  /** A last character that is no separator is kept as it is. */
  lemma CollapseKeepsLastPlain(s: string)
    requires s != [] && !IsSeparator(s[|s| - 1])
    ensures Collapse(s) == Collapse(s[..|s| - 1]) + [s[|s| - 1]]
  {
  }

  /** A last '-' that follows no separator becomes one '-'. */
  lemma CollapseKeepsLastHyphen(s: string)
    requires s != [] && s[|s| - 1] == '-'
    requires |s| >= 2 ==> !IsSeparator(s[|s| - 2])
    ensures Collapse(s) == Collapse(s[..|s| - 1]) + [s[|s| - 1]]
  {
    var p := s[..|s| - 1];
    if p != [] {
      assert p[|p| - 1] == s[|s| - 2];
    }
  }

  /** The last character of a slug-shaped string survives collapsing: it is a letter, a digit,
      or a '-' that does not follow another one. */
  lemma CollapseKeepsLast(s: string)
    requires s != [] && IsSlugChar(s[|s| - 1])
    requires |s| >= 2 ==> IsSlugChar(s[|s| - 2]) && !(s[|s| - 2] == '-' && s[|s| - 1] == '-')
    ensures Collapse(s) == Collapse(s[..|s| - 1]) + [s[|s| - 1]]
  {
    SlugCharSeparator(s[|s| - 1]);
    if s[|s| - 1] == '-' {
      if |s| >= 2 {
        SlugCharSeparator(s[|s| - 2]);
      }
      CollapseKeepsLastHyphen(s);
    } else {
      CollapseKeepsLastPlain(s);
    }
  }

  /** `slugify` is idempotent. */
  lemma SlugIdempotent(text: string)
    ensures Slug(Slug(text)) == Slug(text)
  {
    SlugOfSlug(Slug(text));
  }

  /** The letters and digits of the result are those of the lower-cased, spelled-out text,
      in the same order: nothing but separators and other characters is lost. */
  lemma SlugKeepsAlnums(text: string)
    ensures Alnums(Slug(text)) == Alnums(ExpandAll(ToLowerCase(text)))
  {
    var x := ToLowerCase(text);
    var lowered := Trim(x);
    TrimKeepsExpandedAlnums(x);
    TableExpands(lowered);
    var dropped := DropDisallowed(ExpandAll(lowered));
    DropAlnums(ExpandAll(lowered));
    CollapseAlnums(dropped);
    StripAlnums(Collapse(dropped));
  }

  /** Trimming drops whitespace only, which has no letters or digits, spelled out or not. */
  lemma TrimKeepsExpandedAlnums(x: string)
    ensures Alnums(ExpandAll(Trim(x))) == Alnums(ExpandAll(x))
  {
    TrimStartKeepsExpandedAlnums(x);
    TrimEndKeepsExpandedAlnums(TrimStart(x));
  }

  lemma TrimStartKeepsExpandedAlnums(x: string)
    ensures Alnums(ExpandAll(TrimStart(x))) == Alnums(ExpandAll(x))
  {
    var t := TrimStart(x);
    var head := x[..|x| - |t|];
    assert x == head + t;
    forall k | 0 <= k < |head|
      ensures IsJsSpace(head[k])
    {
      assert head[k] == x[k];
    }
    ExpandedAlnumsAppend(head, t);
    SpaceHasNoAlnums(head);
  }

  lemma TrimEndKeepsExpandedAlnums(t: string)
    ensures Alnums(ExpandAll(TrimEnd(t))) == Alnums(ExpandAll(t))
  {
    var r := TrimEnd(t);
    var tail := t[|r|..];
    assert t == r + tail;
    forall k | 0 <= k < |tail|
      ensures IsJsSpace(tail[k])
    {
      assert tail[k] == t[|r| + k];
    }
    ExpandedAlnumsAppend(r, tail);
    SpaceHasNoAlnums(tail);
  }

  lemma ExpandedAlnumsAppend(a: string, b: string)
    ensures Alnums(ExpandAll(a + b)) == Alnums(ExpandAll(a)) + Alnums(ExpandAll(b))
  {
    ExpandAllAppend(a, b);
    AlnumsAppend(ExpandAll(a), ExpandAll(b));
  }

  lemma SpaceHasNoAlnums(u: string)
    requires forall k | 0 <= k < |u| :: IsJsSpace(u[k])
    ensures Alnums(ExpandAll(u)) == []
  {
    forall k | 0 <= k < |u|
      ensures !IsTableKey(u[k]) && !IsAlnum(u[k])
    {
      PlainChar(u[k]);
    }
    ExpandAllNoKey(u);
    AlnumsNone(u);
  }

  /** Whitespace and ASCII punctuation are neither letters, digits nor table keys, and lower-casing keeps them. */
  lemma PlainChar(c: char)
    requires IsJsSpace(c) || IsAsciiPunctuation(c)
    ensures LowerChar(c) == c && !IsTableKey(c) && !IsAlnum(c)
  {
  }

  /** A text with no letter or digit, once lower-cased and spelled out, gives the empty slug. */
  lemma SlugWithoutAlnums(text: string)
    requires Alnums(ExpandAll(ToLowerCase(text))) == []
    ensures Slug(text) == []
  {
    var slug := Slug(text);
    SlugKeepsAlnums(text);
    AlnumsEmpty(slug);
  }

  /** ASCII punctuation. */
  predicate IsAsciiPunctuation(c: char)
  {
    ('!' <= c <= '/') || (':' <= c <= '@') || ('[' <= c <= '`') || ('{' <= c <= '~')
  }

  /** Text made only of ASCII punctuation and whitespace gives the empty slug. */
  lemma PunctuationOnly(text: string)
    requires forall k | 0 <= k < |text| :: IsJsSpace(text[k]) || IsAsciiPunctuation(text[k])
    ensures Slug(text) == []
  {
    var x := ToLowerCase(text);
    forall k | 0 <= k < |text|
      ensures x[k] == text[k] && !IsTableKey(text[k]) && !IsAlnum(text[k])
    {
      PlainChar(text[k]);
    }
    assert x == text;
    ExpandAllNoKey(x);
    AlnumsNone(x);
    SlugWithoutAlnums(text);
  }
}
