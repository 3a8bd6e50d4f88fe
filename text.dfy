/** The Python `str` operations that the serial-line parsers, the CSV logger
    and the port-label logic are built from: `strip`, `split`, `in`,
    `replace`, `startswith`/`endswith`. */
module Text {
  import opened Wrappers

  /** The characters Python's `str.isspace()` accepts, which are exactly the
      ones `str.strip()` with no argument removes. */
  predicate IsSpace(c: char) {
    var n := c as int;
    (9 <= n <= 13) || (28 <= n <= 32) || n == 0x85 || n == 0xA0 || n == 0x1680
    || (0x2000 <= n <= 0x200A) || n == 0x2028 || n == 0x2029 || n == 0x202F
    || n == 0x205F || n == 0x3000
  }

  /** How many whitespace characters `s` starts with. */
  function LeadingSpace(s: string): (n: nat)
    ensures n <= |s|
    ensures forall k :: 0 <= k < n ==> IsSpace(s[k])
    ensures n < |s| ==> !IsSpace(s[n])
  {
    if |s| > 0 && IsSpace(s[0]) then 1 + LeadingSpace(s[1..]) else 0
  }

  /** How many whitespace characters `s` ends with. */
  function TrailingSpace(s: string): (n: nat)
    ensures n <= |s|
    ensures forall k :: |s| - n <= k < |s| ==> IsSpace(s[k])
    ensures n < |s| ==> !IsSpace(s[|s| - n - 1])
  {
    if |s| > 0 && IsSpace(s[|s| - 1]) then 1 + TrailingSpace(s[..|s| - 1]) else 0
  }

  /** `s.lstrip()` */
  function TrimStart(s: string): string {
    s[LeadingSpace(s)..]
  }

  /** `s.rstrip()` */
  function TrimEnd(s: string): string {
    s[..|s| - TrailingSpace(s)]
  }

  /** `s.strip()` */
  function Strip(s: string): string {
    TrimEnd(TrimStart(s))
  }

  /** What `strip` returns: the slice of `s` after its leading whitespace,
      neither starting nor ending with whitespace. */
  lemma StripIsSlice(s: string)
    ensures var r := Strip(s); var i := LeadingSpace(s);
      && i + |r| <= |s| && r == s[i..i + |r|]
      && (r != [] ==> !IsSpace(r[0]) && !IsSpace(r[|r| - 1]))
  {
    var i := LeadingSpace(s);
    var t := s[i..];
    var j := TrailingSpace(t);
    var r := Strip(s);
    assert r == s[i..|s| - j];
    assert i + |r| == |s| - j;
    assert r == s[i..i + |r|];
    assert r != [] ==> r[0] == t[0] && r[|r| - 1] == t[|t| - j - 1];
  }

  /** A string without whitespace at either end is left as it is. */
  lemma StripUnchanged(s: string)
    requires s != [] ==> !IsSpace(s[0]) && !IsSpace(s[|s| - 1])
    ensures Strip(s) == s
  {
  }

  /** `"".join` with a one-character separator, the inverse of `Split`. */
  function Join(parts: seq<string>, sep: char): string
    requires |parts| >= 1
  {
    if |parts| == 1 then parts[0] else parts[0] + [sep] + Join(parts[1..], sep)
  }

  /** `s.split(sep)` for a one-character separator: never empty (the empty
      string splits into one empty field), no field holds the separator, and
      joining the fields back gives `s`. */
  function Split(s: string, sep: char): (parts: seq<string>)
    ensures |parts| >= 1
    ensures forall p :: p in parts ==> sep !in p
    ensures Join(parts, sep) == s
  {
    if |s| == 0 then [""]
    else
      var rest := Split(s[1..], sep);
      if s[0] == sep then
        assert ([""] + rest)[1..] == rest;
        [""] + rest
      else
        var parts := [[s[0]] + rest[0]] + rest[1..];
        assert parts[1..] == rest[1..];
        parts
  }

  /** Splitting a field followed by the separator peels that field off. */
  lemma {:induction false} SplitCons(a: string, sep: char, rest: string)
    requires sep !in a
    ensures Split(a + [sep] + rest, sep) == [a] + Split(rest, sep)
  {
    if a == [] {
      assert ([sep] + rest)[1..] == rest;
    } else {
      assert (a + [sep] + rest)[1..] == a[1..] + [sep] + rest;
      SplitCons(a[1..], sep, rest);
      assert [a[0]] + a[1..] == a;
    }
  }

  /** A string without the separator is a single field. */
  lemma {:induction false} SplitSingle(a: string, sep: char)
    requires sep !in a
    ensures Split(a, sep) == [a]
  {
    if a != [] {
      SplitSingle(a[1..], sep);
      assert [a[0]] + a[1..] == a;
    }
  }

  /** `Split` inverts `Join` on separator-free fields: together with the
      `Join(Split(s)) == s` of `Split`'s contract, the two are a bijection. */
  lemma {:induction false} SplitJoin(parts: seq<string>, sep: char)
    requires |parts| >= 1
    requires forall p :: p in parts ==> sep !in p
    ensures Split(Join(parts, sep), sep) == parts
  {
    if |parts| == 1 {
      SplitSingle(parts[0], sep);
    } else {
      SplitJoin(parts[1..], sep);
      SplitCons(parts[0], sep, Join(parts[1..], sep));
      assert [parts[0]] + parts[1..] == parts;
    }
  }

  /** Number of occurrences of `c` in `s`. */
  function Count(s: string, c: char): nat {
    if |s| == 0 then 0 else (if s[0] == c then 1 else 0) + Count(s[1..], c)
  }

  /** A line splits into one field more than it has separators. */
  lemma {:induction false} SplitLength(s: string, sep: char)
    ensures |Split(s, sep)| == Count(s, sep) + 1
  {
    if |s| > 0 {
      SplitLength(s[1..], sep);
    }
  }

  predicate StartsWith(s: string, prefix: string) {
    |prefix| <= |s| && s[..|prefix|] == prefix
  }

  predicate EndsWith(s: string, suffix: string) {
    |suffix| <= |s| && s[|s| - |suffix|..] == suffix
  }

  /** `sub in s` */
  predicate Contains(s: string, sub: string)
    decreases |s|
  {
    StartsWith(s, sub) || (|s| > 0 && Contains(s[1..], sub))
  }

  /** An occurrence at any position makes `sub in s` true. */
  lemma {:induction false} ContainsAt(s: string, sub: string, i: nat)
    requires i + |sub| <= |s| && s[i..i + |sub|] == sub
    ensures Contains(s, sub)
  {
    if i > 0 {
      assert s[1..][i - 1..i - 1 + |sub|] == s[i..i + |sub|];
      ContainsAt(s[1..], sub, i - 1);
    }
  }

  /** If one character of `sub` never occurs in `s`, then `sub` does not
      occur in `s`. */
  lemma {:induction false} NotContainsMissingChar(s: string, sub: string, k: nat)
    requires k < |sub| && sub[k] !in s
    ensures !Contains(s, sub)
  {
    assert k < |s| ==> s[k] in s;
    if |s| > 0 {
      NotContainsMissingChar(s[1..], sub, k);
    }
  }

  /** `sub` does not occur at any position of a string that lacks it. */
  lemma {:induction false} NoOccurrence(s: string, sub: string, i: nat)
    requires !Contains(s, sub) && i + |sub| <= |s|
    ensures s[i..i + |sub|] != sub
  {
    if i > 0 {
      assert s[1..][i - 1..i - 1 + |sub|] == s[i..i + |sub|];
      NoOccurrence(s[1..], sub, i - 1);
    }
  }

  /** A leading character that cannot start `sub` does not help it occur. */
  lemma ContainsDropFirst(c: char, x: string, sub: string)
    requires |sub| > 0 && sub[0] != c
    ensures Contains([c] + x, sub) ==> Contains(x, sub)
  {
    assert ([c] + x)[1..] == x;
  }

  /** A trailing character that cannot end `sub` does not help it occur. */
  lemma {:induction false} ContainsDropLast(x: string, c: char, sub: string)
    requires |sub| > 0 && sub[|sub| - 1] != c
    ensures Contains(x + [c], sub) ==> Contains(x, sub)
  {
    if Contains(x + [c], sub) {
      if StartsWith(x + [c], sub) {
        assert (x + [c])[..|x| + 1] == x + [c];
        assert |sub| <= |x| && x[..|sub|] == sub;
      } else {
        assert Contains((x + [c])[1..], sub);
        assert |x| > 0;
        assert (x + [c])[1..] == x[1..] + [c];
        ContainsDropLast(x[1..], c, sub);
      }
    }
  }

  /** An occurrence cannot straddle a character that `sub` does not hold. */
  lemma {:induction false} ContainsAround(a: string, c: char, b: string, sub: string)
    requires c !in sub
    ensures Contains(a + [c] + b, sub) ==> Contains(a, sub) || Contains(b, sub)
  {
    var s := a + [c] + b;
    if Contains(s, sub) {
      if StartsWith(s, sub) {
        assert s[|a|] == c;
        assert a[..|sub|] == s[..|sub|];
      } else if a == [] {
        assert s[1..] == b;
      } else {
        assert s[1..] == a[1..] + [c] + b;
        ContainsAround(a[1..], c, b, sub);
      }
    }
  }

  /** `sub` occurs in `s` starting at position `j`. */
  predicate OccursAt(s: string, sub: string, j: nat) {
    j + |sub| <= |s| && s[j..j + |sub|] == sub
  }

  /** Dropping the first character moves every occurrence one place left. */
  lemma OccursShift(s: string, sub: string)
    requires |s| > 0
    ensures forall j :: 1 <= j ==> (OccursAt(s[1..], sub, j - 1) <==> OccursAt(s, sub, j))
  {
    forall j | 1 <= j ensures OccursAt(s[1..], sub, j - 1) <==> OccursAt(s, sub, j) {
      if j + |sub| <= |s| {
        assert s[1..][j - 1..j - 1 + |sub|] == s[j..j + |sub|];
      }
    }
  }

  /** Position of the first occurrence of `sub` in `s` (`s.find(sub)`, with
      `None` for -1). */
  function IndexOf(s: string, sub: string): (r: Option<nat>)
    ensures r.Some? <==> Contains(s, sub)
    ensures r.Some? ==> OccursAt(s, sub, r.value)
    ensures r.Some? ==> forall j :: 0 <= j < r.value ==> !OccursAt(s, sub, j)
    decreases |s|
  {
    assert |sub| <= |s| ==> s[0..|sub|] == s[..|sub|];
    if StartsWith(s, sub) then Some(0)
    else if |s| == 0 then None
    else match IndexOf(s[1..], sub)
      case None => None
      case Some(k) =>
        OccursShift(s, sub);
        Some(k + 1)
  }

  /** `s.split(sub)[0]`: everything before the first occurrence of `sub`, or
      all of `s` when `sub` does not occur. */
  function BeforeFirst(s: string, sub: string): string {
    match IndexOf(s, sub)
    case Some(k) => s[..k]
    case None => s
  }

  /** `s.replace(pattern, replacement)`: every occurrence, scanning left to right
      without overlap, is replaced; a string without the pattern is returned
      as it is. */
  function Replace(s: string, pattern: string, replacement: string): (r: string)
    requires |pattern| > 0
    ensures !Contains(s, pattern) ==> r == s
    decreases |s|
  {
    if StartsWith(s, pattern) then replacement + Replace(s[|pattern|..], pattern, replacement)
    else if |s| == 0 then s
    else [s[0]] + Replace(s[1..], pattern, replacement)
  }

  /** A prefix that holds no first character of the pattern is copied
      through unchanged. */
  lemma {:induction false} ReplaceKeepsPrefix(a: string, b: string, pattern: string, replacement: string)
    requires |pattern| > 0 && pattern[0] !in a
    ensures Replace(a + b, pattern, replacement) == a + Replace(b, pattern, replacement)
  {
    if a != [] {
      assert (a + b)[0] == a[0] && a[0] != pattern[0];
      assert !StartsWith(a + b, pattern);
      assert (a + b)[1..] == a[1..] + b;
      ReplaceKeepsPrefix(a[1..], b, pattern, replacement);
      calc {
        Replace(a + b, pattern, replacement);
        [a[0]] + Replace(a[1..] + b, pattern, replacement);
        [a[0]] + (a[1..] + Replace(b, pattern, replacement));
        { assert [a[0]] + a[1..] == a; }
        a + Replace(b, pattern, replacement);
      }
    } else {
      assert a + b == b;
    }
  }

  /** A leading occurrence is replaced and scanning resumes after it. */
  lemma ReplaceLeading(pattern: string, b: string, replacement: string)
    requires |pattern| > 0
    ensures Replace(pattern + b, pattern, replacement) == replacement + Replace(b, pattern, replacement)
  {
    assert (pattern + b)[..|pattern|] == pattern;
    assert (pattern + b)[|pattern|..] == b;
  }

  /** Python's `<=` on `str`: lexicographic by code point, a prefix first. */
  predicate StrLe(a: string, b: string) {
    |a| == 0 || (|b| > 0 && (a[0] < b[0] || (a[0] == b[0] && StrLe(a[1..], b[1..]))))
  }

  lemma {:induction false} StrLeTotal(a: string, b: string)
    ensures StrLe(a, b) || StrLe(b, a)
  {
    if |a| > 0 && |b| > 0 && a[0] == b[0] {
      StrLeTotal(a[1..], b[1..]);
    }
  }

  lemma {:induction false} StrLeTransitive(a: string, b: string, c: string)
    requires StrLe(a, b) && StrLe(b, c)
    ensures StrLe(a, c)
  {
    if |a| > 0 && |b| > 0 && |c| > 0 && a[0] == b[0] == c[0] {
      StrLeTransitive(a[1..], b[1..], c[1..]);
    }
  }
}
