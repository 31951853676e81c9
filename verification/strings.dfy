/** The JavaScript string primitives the application relies on: `trim`,
    `startsWith`, `includes`, `indexOf`, `replace` with a string pattern,
    global replacement, `split` on one character, `join`, and `toLowerCase`
    restricted to ASCII letters. Strings are sequences of Unicode scalar values. */
module Strings {
  import opened Wrappers

  /** No string occurs twice. */
  predicate Distinct(s: seq<string>) {
    forall i, j :: 0 <= i < j < |s| ==> s[i] != s[j]
  }

  /** The characters `String.prototype.trim` removes: ECMAScript WhiteSpace
      (tab, vertical tab, form feed, space, no-break space, byte order mark
      and the Unicode space separators) and LineTerminator code points. */
  predicate IsWhitespace(c: char) {
    || c == '\t' || c == '\n' || c == '\U{000B}' || c == '\U{000C}' || c == '\r'
    || c == ' ' || c == '\U{00A0}' || c == '\U{1680}'
    || ('\U{2000}' <= c <= '\U{200A}')
    || c == '\U{2028}' || c == '\U{2029}' || c == '\U{202F}' || c == '\U{205F}'
    || c == '\U{3000}' || c == '\U{FEFF}'
  }

  predicate AllWhitespace(s: string) {
    forall i :: 0 <= i < |s| ==> IsWhitespace(s[i])
  }

  /** Number of whitespace characters at the start of `s`. */
  function LeadingWhitespace(s: string): (n: nat)
    ensures n <= |s|
    ensures AllWhitespace(s[..n])
    ensures n == |s| || !IsWhitespace(s[n])
  {
    if |s| > 0 && IsWhitespace(s[0]) then
      var m := LeadingWhitespace(s[1..]);
      assert forall i :: 1 <= i < 1 + m ==> s[i] == s[1..][..m][i - 1];
      1 + m
    else
      0
  }

  /** Start of the whitespace run that ends `s`, scanning down from `k` but not below `lo`. */
  function TrailingWhitespaceStart(s: string, lo: nat, k: nat): (j: nat)
    requires lo <= k <= |s|
    requires AllWhitespace(s[k..])
    ensures lo <= j <= k
    ensures AllWhitespace(s[j..])
    ensures j == lo || !IsWhitespace(s[j - 1])
    decreases k
  {
    if k > lo && IsWhitespace(s[k - 1]) then
      assert forall i :: k - 1 <= i < |s| ==> s[i] == s[k - 1..][i - (k - 1)];
      TrailingWhitespaceStart(s, lo, k - 1)
    else
      k
  }

  /** `r` sits at index `i` of `s` with only whitespace around it. */
  ghost predicate TrimmedAt(s: string, r: string, i: nat) {
    && i + |r| <= |s|
    && s[i..i + |r|] == r
    && AllWhitespace(s[..i])
    && AllWhitespace(s[i + |r|..])
  }

  /** `String.prototype.trim`. */
  function Trim(s: string): (r: string)
    ensures |r| <= |s|
    ensures |r| == 0 || (!IsWhitespace(r[0]) && !IsWhitespace(r[|r| - 1]))
    ensures exists i :: TrimmedAt(s, r, i)
  {
    var i := LeadingWhitespace(s);
    var j := TrailingWhitespaceStart(s, i, |s|);
    assert TrimmedAt(s, s[i..j], i);
    s[i..j]
  }

  /** Trimming yields the empty string exactly when the input is all whitespace. */
  lemma TrimEmptyIff(s: string)
    ensures Trim(s) == "" <==> AllWhitespace(s)
  {
    var r := Trim(s);
    var i: nat :| TrimmedAt(s, r, i);
    if r == "" {
      assert s == s[..i] + s[i..];
      forall k | 0 <= k < |s| ensures IsWhitespace(s[k]) {
        if k < i {
          assert s[k] == s[..i][k];
        } else {
          assert s[k] == s[i..][k - i];
        }
      }
    } else {
      assert r[0] == s[i];
    }
  }

  lemma WhitespaceInPrefix(s: string, i: nat, k: nat)
    requires i <= |s| && AllWhitespace(s[..i]) && k < i
    ensures IsWhitespace(s[k])
  {
    assert s[..i][k] == s[k];
  }

  lemma WhitespaceInSuffix(s: string, j: nat, k: nat)
    requires j <= k < |s| && AllWhitespace(s[j..])
    ensures IsWhitespace(s[k])
  {
    assert s[j..][k - j] == s[k];
  }

  /** The trimmed string is the unique core of `s`: whatever whitespace surrounds a
      string that neither starts nor ends with whitespace, trimming recovers it. */
  lemma {:induction false} TrimUnique(a: string, r: string, b: string)
    requires AllWhitespace(a) && AllWhitespace(b)
    requires |r| == 0 || (!IsWhitespace(r[0]) && !IsWhitespace(r[|r| - 1]))
    ensures Trim(a + r + b) == r
  {
    var s := a + r + b;
    var t := Trim(s);
    var i: nat :| TrimmedAt(s, t, i);
    if r == "" {
      assert s == a + b;
      assert AllWhitespace(s) by {
        forall k | 0 <= k < |s| ensures IsWhitespace(s[k]) {
          if k < |a| { assert s[k] == a[k]; } else { assert s[k] == b[k - |a|]; }
        }
      }
      TrimEmptyIff(s);
    } else {
      var e := i + |t|;
      var last := |a| + |r| - 1;
      assert s[|a|] == r[0];
      assert s[last] == r[|r| - 1];
      if |a| < i {
        WhitespaceInPrefix(s, i, |a|);
        assert false;
      }
      if e <= |a| {
        assert false;
      }
      if e <= last {
        assert false;
      }
      assert t[0] == s[i];
      assert t[|t| - 1] == s[e - 1];
      if i < |a| {
        assert false;
      }
      if e - 1 > last {
        assert false;
      }
      assert s[i..e] == r;
    }
  }

  /** A string that neither starts nor ends with whitespace is its own trim. */
  lemma TrimOfCore(r: string)
    requires |r| == 0 || (!IsWhitespace(r[0]) && !IsWhitespace(r[|r| - 1]))
    ensures Trim(r) == r
  {
    TrimUnique("", r, "");
    assert "" + r + "" == r;
  }

  /** Trimming twice is the same as trimming once. */
  lemma TrimIdempotent(s: string)
    ensures Trim(Trim(s)) == Trim(s)
  {
    TrimUnique("", Trim(s), "");
    assert "" + Trim(s) + "" == Trim(s);
  }

  predicate StartsWith(s: string, prefix: string) {
    |prefix| <= |s| && s[..|prefix|] == prefix
  }

  /** `pat` occurs in `s` starting at index `k`. */
  predicate OccursAt(s: string, pat: string, k: nat) {
    k + |pat| <= |s| && s[k..k + |pat|] == pat
  }

  /** `String.prototype.indexOf`: the first index at which `pat` occurs. */
  function IndexOf(s: string, pat: string): (r: Option<nat>)
    ensures r.Some? ==> OccursAt(s, pat, r.value)
    ensures r.Some? ==> forall k :: 0 <= k < r.value ==> !OccursAt(s, pat, k)
    ensures r.None? ==> forall k :: 0 <= k ==> !OccursAt(s, pat, k)
    decreases |s|
  {
    if |s| < |pat| then None
    else if s[..|pat|] == pat then Some(0)
    else
      OccursInTail(s, pat);
      match IndexOf(s[1..], pat)
      case None => None
      case Some(i) => Some(i + 1)
  }

  /** Occurrences past the first character are the occurrences in the tail,
      shifted by one. */
  lemma OccursInTail(s: string, pat: string)
    requires |s| > 0
    ensures forall k: nat :: 1 <= k ==> (OccursAt(s, pat, k) <==> OccursAt(s[1..], pat, k - 1))
  {
    forall k: nat | 1 <= k ensures OccursAt(s, pat, k) <==> OccursAt(s[1..], pat, k - 1) {
      if k + |pat| <= |s| {
        assert s[1..][k - 1..k - 1 + |pat|] == s[k..k + |pat|];
      }
    }
  }

  /** `String.prototype.includes`. */
  predicate Contains(s: string, pat: string) {
    IndexOf(s, pat).Some?
  }

  lemma ContainsAt(s: string, pat: string, k: nat)
    requires OccursAt(s, pat, k)
    ensures Contains(s, pat)
  {
  }

  /** An occurrence with none before it is the one `IndexOf` finds. */
  lemma FirstOccurrence(s: string, pat: string, k: nat)
    requires OccursAt(s, pat, k)
    requires forall j :: 0 <= j < k ==> !OccursAt(s, pat, j)
    ensures IndexOf(s, pat) == Some(k)
  {
  }

  /** Appending a pattern whose first character does not recur in it to a text
      without the pattern: the first occurrence is the appended one, as no
      occurrence can straddle the join. */
  lemma AppendedIsFirst(base: string, pat: string)
    requires |pat| > 0 && forall i :: 1 <= i < |pat| ==> pat[i] != pat[0]
    requires !Contains(base, pat)
    ensures IndexOf(base + pat, pat) == Some(|base|)
  {
    var s := base + pat;
    assert s[|base|..|base| + |pat|] == pat;
    forall k | 0 <= k < |base| ensures !OccursAt(s, pat, k) {
      if k + |pat| <= |base| {
        assert s[k..k + |pat|] == base[k..k + |pat|];
        assert !OccursAt(base, pat, k);
      } else if k + |pat| <= |s| {
        var d := |base| - k;
        assert s[k..k + |pat|][d] == pat[0] != pat[d];
      }
    }
    FirstOccurrence(s, pat, |base|);
  }

  /** An occurrence of a longer pattern contains an occurrence of each of its infixes. */
  lemma {:induction false} ContainsInfix(s: string, pat: string, part: string, d: nat)
    requires Contains(s, pat)
    requires OccursAt(pat, part, d)
    ensures Contains(s, part)
  {
    var k := IndexOf(s, pat).value;
    forall i | 0 <= i < |part| ensures s[k + d + i] == part[i] {
      assert s[k..k + |pat|][d + i] == pat[d + i] == pat[d..d + |part|][i];
    }
    assert s[k + d..k + d + |part|] == part;
    ContainsAt(s, part, k + d);
  }

  /** `s.replace(pat, rep)` with a string pattern: only the first occurrence is replaced. */
  function ReplaceFirst(s: string, pat: string, rep: string): (r: string)
  {
    match IndexOf(s, pat)
    case None => s
    case Some(i) => s[..i] + rep + s[i + |pat|..]
  }

  /** A string without the pattern is left unchanged by `ReplaceFirst`. */
  lemma ReplaceFirstAbsent(s: string, pat: string, rep: string)
    requires !Contains(s, pat)
    ensures ReplaceFirst(s, pat, rep) == s
  {
  }

  /** A string that starts with the pattern loses exactly that leading occurrence. */
  lemma ReplaceFirstPrefix(pat: string, rest: string, rep: string)
    ensures ReplaceFirst(pat + rest, pat, rep) == rep + rest
  {
    var s := pat + rest;
    assert s[..|pat|] == pat;
    assert OccursAt(s, pat, 0);
    assert s[|pat|..] == rest;
  }

  /** Replacing the first occurrence of a pattern that occurs once at the end. */
  lemma ReplaceFirstSuffix(base: string, pat: string, rep: string)
    requires IndexOf(base + pat, pat) == Some(|base|)
    ensures ReplaceFirst(base + pat, pat, rep) == base + rep
  {
    var s := base + pat;
    assert s[..|base|] == base;
    assert s[|base| + |pat|..] == "";
  }

  /** Global replacement of a non-empty literal pattern, scanning left to right
      without overlaps, as `s.replace(/pat/g, rep)` does for a pattern with no
      regular-expression metacharacters and a replacement without `$`. */
  function ReplaceAll(s: string, pat: string, rep: string): (r: string)
    requires |pat| > 0
    decreases |s|
  {
    if |s| < |pat| then s
    else if s[..|pat|] == pat then rep + ReplaceAll(s[|pat|..], pat, rep)
    else [s[0]] + ReplaceAll(s[1..], pat, rep)
  }

  /** Replacing a pattern by itself changes nothing. */
  lemma {:induction false} ReplaceAllSelf(s: string, pat: string)
    requires |pat| > 0
    ensures ReplaceAll(s, pat, pat) == s
    decreases |s|
  {
    if |s| < |pat| {
    } else if s[..|pat|] == pat {
      ReplaceAllSelf(s[|pat|..], pat);
      assert s == s[..|pat|] + s[|pat|..];
    } else {
      ReplaceAllSelf(s[1..], pat);
      assert s == [s[0]] + s[1..];
    }
  }

  /** Without any occurrence of the pattern, global replacement changes nothing. */
  lemma {:induction false} ReplaceAllAbsent(s: string, pat: string, rep: string)
    requires |pat| > 0
    requires !Contains(s, pat)
    ensures ReplaceAll(s, pat, rep) == s
    decreases |s|
  {
    if |s| < |pat| {
    } else {
      assert !OccursAt(s, pat, 0);
      ReplaceAllAbsent(s[1..], pat, rep);
      assert s == [s[0]] + s[1..];
    }
  }

  /** `s.split(sep)` for a one-character separator. */
  function Split(s: string, sep: char): (parts: seq<string>)
    ensures |parts| >= 1
    decreases |s|
  {
    if |s| == 0 then [""]
    else
      var rest := Split(s[1..], sep);
      if s[0] == sep then [""] + rest
      else [[s[0]] + rest[0]] + rest[1..]
  }

  /** `parts.join(sep)`. */
  function Join(parts: seq<string>, sep: string): string
  {
    if |parts| == 0 then ""
    else if |parts| == 1 then parts[0]
    else parts[0] + sep + Join(parts[1..], sep)
  }

  /** Splitting and joining with the same separator gives back the string, and no
      piece contains the separator. */
  lemma {:induction false} SplitJoin(s: string, sep: char)
    ensures Join(Split(s, sep), [sep]) == s
    ensures forall i :: 0 <= i < |Split(s, sep)| ==> sep !in Split(s, sep)[i]
    decreases |s|
  {
    if |s| > 0 {
      SplitJoin(s[1..], sep);
      var rest := Split(s[1..], sep);
      if s[0] == sep {
        assert Split(s, sep)[1..] == rest;
      } else {
        var parts := Split(s, sep);
        assert parts[1..] == rest[1..];
        if |rest| == 1 {
          assert Join(parts, [sep]) == [s[0]] + rest[0];
        } else {
          assert Join(parts, [sep]) == [s[0]] + rest[0] + [sep] + Join(rest[1..], [sep]);
        }
        assert s == [s[0]] + s[1..];
      }
    }
  }

  /** The first piece of a split is everything before the first separator. */
  lemma {:induction false} SplitFirst(s: string, sep: char)
    ensures Split(s, sep)[0] == (match IndexOf(s, [sep]) case Some(i) => s[..i] case None => s)
    decreases |s|
  {
    if |s| > 0 {
      SplitFirst(s[1..], sep);
      if s[0] != sep {
        assert s[..1] != [sep];
        match IndexOf(s[1..], [sep])
        case Some(i) =>
          assert s[..i + 1] == [s[0]] + s[1..][..i];
        case None =>
          assert s == [s[0]] + s[1..];
      } else {
        assert s[..1] == [sep];
      }
    }
  }

  /** Splitting a string whose first field has no separator. */
  lemma {:induction false} SplitAfterField(a: string, sep: char, b: string)
    requires sep !in a
    ensures Split(a + [sep] + b, sep) == [a] + Split(b, sep)
    decreases |a|
  {
    if |a| == 0 {
      assert a + [sep] + b == [sep] + b;
      assert ([sep] + b)[1..] == b;
    } else {
      SplitAfterField(a[1..], sep, b);
      var s := a + [sep] + b;
      assert s[1..] == a[1..] + [sep] + b;
      assert a == [a[0]] + a[1..];
    }
  }

  /** A string without the separator splits into itself alone. */
  lemma {:induction false} SplitNoSeparator(a: string, sep: char)
    requires sep !in a
    ensures Split(a, sep) == [a]
    decreases |a|
  {
    if |a| > 0 {
      SplitNoSeparator(a[1..], sep);
      assert a == [a[0]] + a[1..];
    }
  }

  function LowerChar(c: char): char {
    if 'A' <= c <= 'Z' then (c as int + 32) as char else c
  }

  /** `toLowerCase` on ASCII letters; other characters are kept. */
  function ToLower(s: string): (r: string)
    ensures |r| == |s|
    ensures forall i :: 0 <= i < |s| ==> r[i] == LowerChar(s[i])
  {
    seq(|s|, i requires 0 <= i < |s| => LowerChar(s[i]))
  }

  /** An occurrence survives lower-casing both sides. */
  lemma ToLowerOccurs(s: string, pat: string, k: nat)
    requires OccursAt(s, pat, k)
    ensures OccursAt(ToLower(s), ToLower(pat), k)
  {
    assert forall i :: 0 <= i < |pat| ==> ToLower(s)[k..k + |pat|][i] == LowerChar(s[k + i]) == LowerChar(pat[i]);
  }

  lemma ContainsAfterPrefix(a: string, b: string, pat: string)
    requires Contains(b, pat)
    ensures Contains(a + b, pat)
  {
    var k := IndexOf(b, pat).value;
    assert (a + b)[|a| + k..|a| + k + |pat|] == b[k..k + |pat|];
    ContainsAt(a + b, pat, |a| + k);
  }

  /** `parts.join(sep)` contains every part. */
  lemma {:induction false} JoinContainsPart(parts: seq<string>, sep: string, k: nat)
    requires k < |parts|
    ensures Contains(Join(parts, sep), parts[k])
    decreases |parts|
  {
    if k == 0 {
      assert Join(parts, sep)[..|parts[0]|] == parts[0];
      ContainsAt(Join(parts, sep), parts[0], 0);
    } else {
      JoinContainsPart(parts[1..], sep, k - 1);
      assert Join(parts, sep) == (parts[0] + sep) + Join(parts[1..], sep);
      ContainsAfterPrefix(parts[0] + sep, Join(parts[1..], sep), parts[k]);
    }
  }

  /** Joining non-empty parts gives the empty string only for no parts. */
  lemma {:induction false} JoinEmptyIff(parts: seq<string>, sep: string)
    requires forall i :: 0 <= i < |parts| ==> parts[i] != ""
    ensures Join(parts, sep) == "" <==> |parts| == 0
  {
    if |parts| > 0 {
      assert |Join(parts, sep)| >= |parts[0]| > 0 by {
        if |parts| > 1 {
          assert Join(parts, sep) == parts[0] + sep + Join(parts[1..], sep);
        }
      }
    }
  }
}
