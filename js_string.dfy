/**
 * The JavaScript string built-ins the core relies on, on `string` (a sequence of
 * characters): `trim`, `toLowerCase` (ASCII letters only), a global replace of a
 * literal pattern, `includes`, `split`/`join` on one separator character, and the
 * regular-expression classes `\s`, `[a-zA-Z]` and `[぀-ゟ]`.
 */
module JsString {

  /** The characters matched by `\s` and removed by `String.prototype.trim`. */
  predicate IsWhitespace(c: char) {
    || c == ' ' || c == '\t' || c == '\n' || c == '\r'
    || c == '\U{000B}' || c == '\U{000C}' || c == '\U{00A0}' || c == '\U{1680}'
    || ('\U{2000}' <= c <= '\U{200A}')
    || c == '\U{2028}' || c == '\U{2029}' || c == '\U{202F}' || c == '\U{205F}'
    || c == '\U{3000}' || c == '\U{FEFF}'
  }

  predicate IsAsciiUpper(c: char) { 'A' <= c <= 'Z' }

  predicate IsAsciiLower(c: char) { 'a' <= c <= 'z' }

  /** The class `[a-zA-Z]`. */
  predicate IsAsciiLetter(c: char) { IsAsciiUpper(c) || IsAsciiLower(c) }

  /** The class `[぀-ゟ]` (the hiragana block). */
  predicate IsHiragana(c: char) { '\U{3040}' <= c <= '\U{309F}' }

  /** `/[a-zA-Z]/.test(s)` */
  predicate HasAsciiLetter(s: string) {
    exists i :: 0 <= i < |s| && IsAsciiLetter(s[i])
  }

  /** `/[぀-ゟ]/.test(s)` */
  predicate HasHiragana(s: string) {
    exists i :: 0 <= i < |s| && IsHiragana(s[i])
  }

  function LowerChar(c: char): (r: char)
    ensures IsAsciiUpper(c) ==> r as int == c as int + 32
    ensures !IsAsciiUpper(c) ==> r == c
    ensures !IsAsciiUpper(r)
  {
    if IsAsciiUpper(c) then (c as int + 32) as char else c
  }

  /** `s.toLowerCase()` restricted to ASCII: `A`-`Z` become `a`-`z`, every other character is kept. */
  function Lower(s: string): (r: string)
    ensures |r| == |s|
    ensures forall i :: 0 <= i < |s| ==> r[i] == LowerChar(s[i])
  {
    if s == [] then [] else [LowerChar(s[0])] + Lower(s[1..])
  }

  /** Lowering twice is lowering once. */
  lemma LowerIdempotent(s: string)
    ensures Lower(Lower(s)) == Lower(s)
  {
    assert forall i :: 0 <= i < |s| ==> LowerChar(LowerChar(s[i])) == LowerChar(s[i]);
  }

  /** A string without upper-case ASCII letters is its own lower-case form. */
  lemma LowerIdentity(s: string)
    requires forall i :: 0 <= i < |s| ==> !IsAsciiUpper(s[i])
    ensures Lower(s) == s
  {
  }

  /** Lowering works piece by piece. */
  lemma LowerAppend(a: string, b: string)
    ensures Lower(a + b) == Lower(a) + Lower(b)
  {
  }

  /** The number of white-space characters `s` starts with. */
  function LeadingWhitespace(s: string): (n: nat)
    ensures n <= |s| && (n == |s| || !IsWhitespace(s[n]))
    ensures forall i :: 0 <= i < n ==> IsWhitespace(s[i])
  {
    if s == [] || !IsWhitespace(s[0]) then 0 else 1 + LeadingWhitespace(s[1..])
  }

  /** The length of `s` without the white space it ends with. */
  function UntilTrailingWhitespace(s: string): (n: nat)
    ensures n <= |s| && (n == 0 || !IsWhitespace(s[n - 1]))
    ensures forall i :: n <= i < |s| ==> IsWhitespace(s[i])
  {
    if s == [] || !IsWhitespace(s[|s| - 1]) then |s| else UntilTrailingWhitespace(s[..|s| - 1])
  }

  /** `s.trimStart()` */
  function TrimStart(s: string): string {
    s[LeadingWhitespace(s)..]
  }

  /** `s.trimEnd()` */
  function TrimEnd(s: string): string {
    s[..UntilTrailingWhitespace(s)]
  }

  /** `s.trim()`: `s` without its leading and trailing white space. */
  function Trim(s: string): (r: string)
    ensures |r| <= |s|
    ensures r == [] || (!IsWhitespace(r[0]) && !IsWhitespace(r[|r| - 1]))
  {
    TrimEnd(TrimStart(s))
  }

  /** The trim is the slice of `s` after its leading white space. */
  lemma TrimSlice(s: string)
    ensures var a, r := LeadingWhitespace(s), Trim(s);
      a + |r| <= |s| && r == s[a..a + |r|]
  {
    var a := LeadingWhitespace(s);
    PrefixOfSuffix(s, a, UntilTrailingWhitespace(s[a..]));
  }

  /** Only white space lies outside the trim. */
  lemma TrimDropsWhitespace(s: string)
    ensures var a, r := LeadingWhitespace(s), Trim(s);
      forall i :: 0 <= i < |s| && (i < a || a + |r| <= i) ==> IsWhitespace(s[i])
  {
    var a := LeadingWhitespace(s);
    var t := s[a..];
    var n := UntilTrailingWhitespace(t);
    forall i | a + n <= i < |s|
      ensures IsWhitespace(s[i])
    {
      assert s[i] == t[i - a];
    }
  }

  /** A prefix of a suffix of `s` is a slice of `s`. */
  lemma PrefixOfSuffix(s: string, a: nat, n: nat)
    requires a + n <= |s|
    ensures s[a..][..n] == s[a..a + n]
  {
  }

  /** A string that neither starts nor ends with white space is its own trim. */
  lemma TrimIdentity(s: string)
    requires s == [] || (!IsWhitespace(s[0]) && !IsWhitespace(s[|s| - 1]))
    ensures Trim(s) == s
  {
    assert s[0..] == s && s[..|s|] == s;
  }

  /** A string is blank (`!s.trim()`) exactly when every character is white space. */
  lemma TrimEmptyIffBlank(s: string)
    ensures Trim(s) == [] <==> forall i :: 0 <= i < |s| ==> IsWhitespace(s[i])
  {
    TrimSlice(s);
    TrimDropsWhitespace(s);
    if Trim(s) != [] {
      assert Trim(s)[0] == s[LeadingWhitespace(s)];
    }
  }

  /** Lowering keeps white space and non-white space apart, so a trimmed string stays trimmed. */
  lemma LowerKeepsTrimmed(s: string)
    ensures Trim(Lower(Trim(s))) == Lower(Trim(s))
  {
    var t := Trim(s);
    if t != [] {
      assert !IsWhitespace(LowerChar(t[0])) && !IsWhitespace(LowerChar(t[|t| - 1]));
    }
    TrimIdentity(Lower(t));
  }

  /** The replacement of every run of white space by one space, as `s.replace(/\s+/g, " ")`. */
  function CollapseWhitespace(s: string): (r: string)
    decreases |s|
  {
    if s == [] then []
    else if IsWhitespace(s[0]) then
      " " + CollapseWhitespace(TrimStart(s))
    else [s[0]] + CollapseWhitespace(s[1..])
  }

  /** Every white-space character of `s` is a single space between two other characters. */
  predicate SingleSpaced(s: string) {
    forall i :: 0 <= i < |s| && IsWhitespace(s[i]) ==>
      s[i] == ' ' && 0 < i < |s| - 1 && !IsWhitespace(s[i - 1]) && !IsWhitespace(s[i + 1])
  }

  /** Collapsing keeps the string empty or not, and keeps white space at either end or not. */
  lemma {:induction false} CollapseEnds(s: string)
    ensures var r := CollapseWhitespace(s);
      && (r == [] <==> s == [])
      && (r != [] ==> (IsWhitespace(r[0]) <==> IsWhitespace(s[0])))
      && (r != [] ==> (IsWhitespace(r[|r| - 1]) <==> IsWhitespace(s[|s| - 1])))
    decreases |s|
  {
    if s != [] {
      if IsWhitespace(s[0]) {
        var t := TrimStart(s);
        CollapseEnds(t);
        assert CollapseWhitespace(s) == " " + CollapseWhitespace(t);
        if t != [] {
          assert t[|t| - 1] == s[|s| - 1];
        }
      } else {
        CollapseEnds(s[1..]);
        assert CollapseWhitespace(s) == [s[0]] + CollapseWhitespace(s[1..]);
      }
    }
  }

  /** Every white-space character left by collapsing is a space followed by no more white space. */
  lemma {:induction false} CollapseSpaces(s: string)
    ensures var r := CollapseWhitespace(s);
      forall i :: 0 <= i < |r| && IsWhitespace(r[i]) ==> r[i] == ' ' && (i + 1 == |r| || !IsWhitespace(r[i + 1]))
    decreases |s|
  {
    if s != [] {
      var r := CollapseWhitespace(s);
      var head := IsWhitespace(s[0]);
      var t := if head then TrimStart(s) else s[1..];
      var rt := CollapseWhitespace(t);
      CollapseSpaces(t);
      CollapseEnds(t);
      assert r == (if head then " " else [s[0]]) + rt;
      assert head ==> t == [] || !IsWhitespace(t[0]);
      forall i | 0 <= i < |r| && IsWhitespace(r[i])
        ensures r[i] == ' ' && (i + 1 == |r| || !IsWhitespace(r[i + 1]))
      {
        if i > 0 {
          assert r[i] == rt[i - 1];
          if i + 1 < |r| {
            assert r[i + 1] == rt[i];
          }
        } else if i + 1 < |r| {
          assert r[1] == rt[0];
        }
      }
    }
  }

  /** Collapsing adds no upper-case letter. */
  lemma {:induction false} CollapseKeepsLower(s: string)
    requires forall i :: 0 <= i < |s| ==> !IsAsciiUpper(s[i])
    ensures forall i :: 0 <= i < |CollapseWhitespace(s)| ==> !IsAsciiUpper(CollapseWhitespace(s)[i])
    decreases |s|
  {
    if s != [] {
      var r := CollapseWhitespace(s);
      var t := if IsWhitespace(s[0]) then TrimStart(s) else s[1..];
      CollapseKeepsLower(t);
      var rt := CollapseWhitespace(t);
      assert r == (if IsWhitespace(s[0]) then " " else [s[0]]) + rt;
      forall i | 0 < i < |r|
        ensures !IsAsciiUpper(r[i])
      {
        assert r[i] == rt[i - 1];
      }
    }
  }

  /** A string that neither starts nor ends with white space collapses to a single-spaced one. */
  lemma CollapseSingleSpaces(s: string)
    requires s == [] || (!IsWhitespace(s[0]) && !IsWhitespace(s[|s| - 1]))
    ensures SingleSpaced(CollapseWhitespace(s))
  {
    var r := CollapseWhitespace(s);
    CollapseEnds(s);
    CollapseSpaces(s);
    forall i | 0 <= i < |r| && IsWhitespace(r[i])
      ensures r[i] == ' ' && 0 < i < |r| - 1 && !IsWhitespace(r[i - 1]) && !IsWhitespace(r[i + 1])
    {
      assert !IsWhitespace(r[0]) && !IsWhitespace(r[|r| - 1]);
      assert 0 < i < |r| - 1;
      assert !IsWhitespace(r[i - 1]);
    }
  }

  /** A string whose white space is single spaces each followed by another character collapses to itself. */
  lemma {:induction false} CollapseIdentity(s: string)
    requires forall i :: 0 <= i < |s| && IsWhitespace(s[i]) ==> s[i] == ' ' && i + 1 < |s| && !IsWhitespace(s[i + 1])
    ensures CollapseWhitespace(s) == s
    decreases |s|
  {
    if s != [] {
      var t := s[1..];
      forall i | 0 <= i < |t| && IsWhitespace(t[i])
        ensures t[i] == ' ' && i + 1 < |t| && !IsWhitespace(t[i + 1])
      {
        assert t[i] == s[i + 1] && IsWhitespace(s[i + 1]);
      }
      CollapseIdentity(t);
      if IsWhitespace(s[0]) {
        assert !IsWhitespace(t[0]);
        assert LeadingWhitespace(s) == 1 + LeadingWhitespace(t) == 1;
        assert CollapseWhitespace(s) == " " + CollapseWhitespace(t);
      }
    }
  }

  /** `pat` occurs in `s` at index `i`. */
  predicate OccursAt(s: string, pat: string, i: int) {
    0 <= i && i + |pat| <= |s| && s[i..i + |pat|] == pat
  }

  /** `s.includes(pat)` */
  predicate Includes(s: string, pat: string) {
    exists i | 0 <= i <= |s| - |pat| :: OccursAt(s, pat, i)
  }

  /**
   * `s.replace(new RegExp(pat, "g"), rep)` for a pattern without special characters:
   * matches are found from left to right, do not overlap, and each is replaced by `rep`.
   */
  function ReplaceAll(s: string, pat: string, rep: string): string
    requires pat != []
    decreases |s|
  {
    if |s| < |pat| then s
    else if s[..|pat|] == pat then rep + ReplaceAll(s[|pat|..], pat, rep)
    else [s[0]] + ReplaceAll(s[1..], pat, rep)
  }

  /** A replace whose pattern does not occur changes nothing. */
  lemma {:induction false} ReplaceAllAbsent(s: string, pat: string, rep: string)
    requires pat != []
    requires !Includes(s, pat)
    ensures ReplaceAll(s, pat, rep) == s
    decreases |s|
  {
    if |s| >= |pat| {
      assert !OccursAt(s, pat, 0);
      assert s[..|pat|] != pat;
      if Includes(s[1..], pat) {
        var i :| 0 <= i <= |s[1..]| - |pat| && OccursAt(s[1..], pat, i);
        assert s[1..][i..i + |pat|] == s[i + 1..i + 1 + |pat|];
        assert OccursAt(s, pat, i + 1);
      }
      ReplaceAllAbsent(s[1..], pat, rep);
    }
  }

  /** A pattern holding a character that `s` lacks does not occur in `s`. */
  lemma AbsentByCharacter(s: string, pat: string, j: int)
    requires 0 <= j < |pat|
    requires forall i :: 0 <= i < |s| ==> s[i] != pat[j]
    ensures !Includes(s, pat)
  {
    forall i | 0 <= i <= |s| - |pat|
      ensures !OccursAt(s, pat, i)
    {
      assert s[i + j] != pat[j];
    }
  }

  /** A pattern longer than `s` does not occur in `s`. */
  lemma AbsentByLength(s: string, pat: string)
    requires |pat| > |s|
    ensures !Includes(s, pat)
  {
  }

  /** A pattern as long as `s` occurs in `s` only when it equals `s`. */
  lemma IncludesSameLength(s: string, pat: string)
    requires |pat| == |s|
    ensures Includes(s, pat) <==> pat == s
  {
    if pat == s {
      assert OccursAt(s, pat, 0);
    }
  }

  /** The characters of `s` that satisfy `keep`, in order (`s.replace(/[^...]/g, "")`). */
  function KeepChars(s: string, keep: char -> bool): (r: string)
    ensures |r| <= |s|
    ensures forall i :: 0 <= i < |r| ==> keep(r[i])
  {
    if s == [] then [] else (if keep(s[0]) then [s[0]] else []) + KeepChars(s[1..], keep)
  }

  /** `s.split(sep)` for a one-character separator. */
  function Split(s: string, sep: char): (parts: seq<string>)
    ensures |parts| >= 1
    ensures forall k :: 0 <= k < |parts| ==> sep !in parts[k]
  {
    if sep !in s then [s]
    else
      var i := IndexOf(s, sep);
      [s[..i]] + Split(s[i + 1..], sep)
  }

  /** The index of the first `c` in `s`. */
  function IndexOf(s: string, c: char): (i: nat)
    requires c in s
    ensures i < |s| && s[i] == c && c !in s[..i]
  {
    if s[0] == c then 0 else 1 + IndexOf(s[1..], c)
  }

  /** `parts.join(sep)` */
  function Join(parts: seq<string>, sep: string): string {
    if parts == [] then []
    else if |parts| == 1 then parts[0]
    else parts[0] + sep + Join(parts[1..], sep)
  }

  /** Joining the pieces of a split with the same separator gives back the string. */
  lemma {:induction false} JoinSplit(s: string, sep: char)
    ensures Join(Split(s, sep), [sep]) == s
    decreases |s|
  {
    if sep in s {
      var i := IndexOf(s, sep);
      var rest := s[i + 1..];
      JoinSplit(rest, sep);
      JoinCons(s[..i], Split(rest, sep), [sep]);
      SplitAround(s, i);
    }
  }

  lemma SplitAround(s: string, i: nat)
    requires i < |s|
    ensures s == s[..i] + [s[i]] + s[i + 1..]
  {
  }

  lemma JoinCons(p: string, parts: seq<string>, sep: string)
    requires parts != []
    ensures Join([p] + parts, sep) == p + sep + Join(parts, sep)
  {
    assert ([p] + parts)[1..] == parts;
  }

  /** Splitting `a + [sep] + b` where `a` has no separator gives `a` first and then the pieces of `b`. */
  lemma SplitAfterFirst(a: string, sep: char, b: string)
    requires sep !in a
    ensures Split(a + [sep] + b, sep) == [a] + Split(b, sep)
  {
    var s := a + [sep] + b;
    assert s[|a|] == sep;
    var i := IndexOf(s, sep);
    assert s[..|a|] == a;
    assert i == |a|;
    assert s[..i] == a;
    assert s[i + 1..] == b;
  }

  /** A pattern that is the whole string is replaced once, by `rep`. */
  lemma ReplaceAllWhole(s: string, rep: string)
    requires s != []
    ensures ReplaceAll(s, s, rep) == rep
  {
    assert s[|s|..] == [];
  }

  /** A prefix that lacks the first character of `pat` holds no match and is copied unchanged. */
  lemma {:induction false} ReplaceAllAfterPrefix(p: string, s: string, pat: string, rep: string)
    requires pat != [] && pat[0] !in p
    ensures ReplaceAll(p + s, pat, rep) == p + ReplaceAll(s, pat, rep)
    decreases |p|
  {
    if p == [] {
      assert p + s == s;
    } else {
      var t := p + s;
      assert t[0] == p[0] && t[1..] == p[1..] + s;
      if |t| < |pat| {
        assert ReplaceAll(s, pat, rep) == s;
      } else {
        assert t[..|pat|][0] != pat[0];
        assert ReplaceAll(t, pat, rep) == [p[0]] + ReplaceAll(p[1..] + s, pat, rep);
        ReplaceAllAfterPrefix(p[1..], s, pat, rep);
        assert p == [p[0]] + p[1..];
      }
    }
  }

  /**
   * A text that starts with a character `pat` lacks cannot hold a match that begins before it,
   * so a replace of the concatenation is the replaces of the two parts.
   */
  lemma {:induction false} ReplaceAllSplit(x: string, u: string, pat: string, rep: string)
    requires pat != [] && (u != [] ==> u[0] !in pat)
    ensures ReplaceAll(x + u, pat, rep) == ReplaceAll(x, pat, rep) + ReplaceAll(u, pat, rep)
    decreases |x|
  {
    var t := x + u;
    if |x| < |pat| <= |t| {
      NoMatchAcross(x, u, pat);
    }
    if x == [] {
      assert t == u;
    } else if |t| < |pat| {
      assert ReplaceAll(u, pat, rep) == u;
    } else if t[..|pat|] == pat {
      assert x[..|pat|] == pat && t[|pat|..] == x[|pat|..] + u;
      ReplaceAllSplit(x[|pat|..], u, pat, rep);
    } else {
      assert t[1..] == x[1..] + u;
      ReplaceAllSplit(x[1..], u, pat, rep);
      if |x| >= |pat| {
        assert x[..|pat|] == t[..|pat|];
      } else {
        assert ReplaceAll(x[1..], pat, rep) == x[1..];
        assert x == [x[0]] + x[1..];
      }
    }
  }

  /** A match cannot start in `x` and end in `u` when `u` starts with a character `pat` lacks. */
  lemma NoMatchAcross(x: string, u: string, pat: string)
    requires u != [] && u[0] !in pat
    requires |x| < |pat| <= |x + u|
    ensures (x + u)[..|pat|] != pat
  {
    assert (x + u)[..|pat|][|x|] == u[0];
  }

  /** An occurrence in `[c] + t` is at its first index or inside `t`. */
  lemma IncludesCons(c: char, t: string, pat: string)
    requires pat != []
    ensures Includes([c] + t, pat) <==> OccursAt([c] + t, pat, 0) || Includes(t, pat)
  {
    if Includes([c] + t, pat) {
      IncludesConsSplits(c, t, pat);
    }
    if Includes(t, pat) {
      IncludesConsKeeps(c, t, pat);
    }
  }

  lemma IncludesConsSplits(c: char, t: string, pat: string)
    requires pat != [] && Includes([c] + t, pat)
    ensures OccursAt([c] + t, pat, 0) || Includes(t, pat)
  {
    var s := [c] + t;
    var i :| 0 <= i <= |s| - |pat| && OccursAt(s, pat, i);
    if i > 0 {
      SliceOfCons(c, t, i - 1, |pat|);
      assert OccursAt(t, pat, i - 1);
    }
  }

  lemma IncludesConsKeeps(c: char, t: string, pat: string)
    requires Includes(t, pat)
    ensures Includes([c] + t, pat)
  {
    var i :| 0 <= i <= |t| - |pat| && OccursAt(t, pat, i);
    SliceOfCons(c, t, i, |pat|);
    assert OccursAt([c] + t, pat, i + 1);
  }

  /** A slice of `[c] + t` past its first character is a slice of `t`. */
  lemma SliceOfCons(c: char, t: string, i: nat, n: nat)
    requires i + n <= |t|
    ensures ([c] + t)[i + 1..i + 1 + n] == t[i..i + n]
  {
    var u, v := ([c] + t)[i + 1..i + 1 + n], t[i..i + n];
    assert forall k :: 0 <= k < n ==> u[k] == v[k];
  }

  // ---------------------------------------------------------------------------------------
  // Numbers in template strings

  /** The decimal digit of `d`. */
  function DigitChar(d: int): char
    requires 0 <= d < 10
  {
    ('0' as int + d) as char
  }

  /** `${n}` for a natural number: its decimal digits, without leading zeros. */
  function NatToString(n: nat): (r: string)
    ensures |r| >= 1
    ensures forall i :: 0 <= i < |r| ==> '0' <= r[i] <= '9'
    ensures n > 0 ==> r[0] != '0'
    decreases n
  {
    if n < 10 then [DigitChar(n)] else NatToString(n / 10) + [DigitChar(n % 10)]
  }

  /** A reference reading of decimal digits, most significant first. */
  function ParseDigits(s: string): int
    decreases |s|
  {
    if s == [] then 0 else ParseDigits(s[..|s| - 1]) * 10 + (s[|s| - 1] as int - '0' as int)
  }

  /** The digits written for `n` read back as `n`. */
  lemma {:induction false} ParseNatToString(n: nat)
    ensures ParseDigits(NatToString(n)) == n
    decreases n
  {
    var r := NatToString(n);
    if n >= 10 {
      ParseNatToString(n / 10);
      assert r[..|r| - 1] == NatToString(n / 10);
    }
  }
}
