/**
 * Conversion tables as the transliterator uses them. A table is an ordered list of rules (a
 * JavaScript object's keys in insertion order, each with its value). On top of it: the lookup
 * `table[key]`, the key order `Object.keys(table).sort((a, b) => b.length - a.length)` (a stable
 * sort, longest key first), and the pass that applies every rule in turn as a global replace.
 */
module RewriteRules {
  import opened JsString
  import opened Nullable

  /** One table entry: every occurrence of `key` is to be rewritten to `value`. */
  datatype Rule = Rule(key: string, value: string)

  /** The two alphabets the tables translate between: lower-case ASCII letters and hiragana. */
  datatype Script = Latin | Kana

  predicate InScript(c: char, sc: Script) {
    match sc
    case Latin => IsAsciiLower(c)
    case Kana => IsHiragana(c)
  }

  /** No character of `s` belongs to `sc`. */
  predicate Avoids(s: string, sc: Script) {
    forall i :: 0 <= i < |s| ==> !InScript(s[i], sc)
  }

  /** A non-empty word written in `sc` only. */
  predicate IsWord(s: string, sc: Script) {
    |s| > 0 && forall i :: 0 <= i < |s| ==> InScript(s[i], sc)
  }

  /** `r` rewrites a word of script `from` to a word of the other script `to`. */
  predicate Transliterates(r: Rule, from: Script, to: Script) {
    from != to && IsWord(r.key, from) && IsWord(r.value, to)
  }

  predicate AllTransliterate(rs: seq<Rule>, from: Script, to: Script) {
    forall i :: 0 <= i < |rs| ==> Transliterates(rs[i], from, to)
  }

  predicate NonEmptyKeys(rs: seq<Rule>) {
    forall i :: 0 <= i < |rs| ==> rs[i].key != []
  }

  /** The groups of a table written one after the other. */
  function Flatten<T>(gs: seq<seq<T>>): seq<T> {
    if gs == [] then [] else gs[0] + Flatten(gs[1..])
  }

  /** `table[k]`: the value of the first rule whose key is `k`, if there is one. */
  function Lookup(rs: seq<Rule>, k: string): (r: Option<string>)
    ensures r.None? <==> forall i :: 0 <= i < |rs| ==> rs[i].key != k
    ensures r.Some? ==> Rule(k, r.value) in rs
  {
    if rs == [] then None
    else if rs[0].key == k then Some(rs[0].value)
    else Lookup(rs[1..], k)
  }

  /** Looking up in two tables written one after the other looks in the first one first. */
  lemma {:induction false} LookupAppend(a: seq<Rule>, b: seq<Rule>, k: string)
    ensures Lookup(a + b, k) == if Lookup(a, k).Some? then Lookup(a, k) else Lookup(b, k)
  {
    if a != [] {
      assert (a + b)[1..] == a[1..] + b;
      LookupAppend(a[1..], b, k);
    } else {
      assert a + b == b;
    }
  }

  lemma LookupFlatten(gs: seq<seq<Rule>>, k: string)
    requires gs != []
    ensures Lookup(Flatten(gs), k) ==
      if Lookup(gs[0], k).Some? then Lookup(gs[0], k) else Lookup(Flatten(gs[1..]), k)
  {
    LookupAppend(gs[0], Flatten(gs[1..]), k);
  }

  /** Groups that lack a key can be skipped when looking it up in their concatenation. */
  lemma {:induction false} LookupPastGroups(gs: seq<seq<Rule>>, m: nat, k: string)
    requires m <= |gs|
    requires forall j :: 0 <= j < m ==> Lookup(gs[j], k) == None
    ensures Lookup(Flatten(gs), k) == Lookup(Flatten(gs[m..]), k)
  {
    if m == 0 {
      assert gs[0..] == gs;
    } else {
      LookupFlatten(gs, k);
      LookupPastGroups(gs[1..], m - 1, k);
      assert gs[1..][m - 1..] == gs[m..];
    }
  }

  /** The first group that holds a key gives its value in the concatenation of the groups. */
  lemma LookupInGroup(gs: seq<seq<Rule>>, m: nat, k: string, v: string)
    requires m < |gs|
    requires forall j :: 0 <= j < m ==> Lookup(gs[j], k) == None
    requires Lookup(gs[m], k) == Some(v)
    ensures Lookup(Flatten(gs), k) == Some(v)
  {
    LookupPastGroups(gs, m, k);
    LookupFlatten(gs[m..], k);
  }

  /** No key of `rs` starts with `c` (and none is empty). */
  predicate NoKeyStartsWith(rs: seq<Rule>, c: char) {
    forall i :: 0 <= i < |rs| ==> rs[i].key != [] && rs[i].key[0] != c
  }

  /** A key whose first character starts no key of the table is not found. */
  lemma LookupMissByFirst(rs: seq<Rule>, k: string)
    requires k != [] && NoKeyStartsWith(rs, k[0])
    ensures Lookup(rs, k) == None
  {
  }

  /**
   * Looking up a key in groups of rules: groups none of whose keys starts as the key does can
   * be skipped, and the first group that holds the key gives its value.
   */
  lemma LookupPastInitials(gs: seq<seq<Rule>>, m: nat, k: string, v: string)
    requires m < |gs| && k != []
    requires forall j :: 0 <= j < m ==> NoKeyStartsWith(gs[j], k[0])
    requires Lookup(gs[m], k) == Some(v)
    ensures Lookup(Flatten(gs), k) == Some(v)
  {
    forall j | 0 <= j < m
      ensures Lookup(gs[j], k) == None
    {
      LookupMissByFirst(gs[j], k);
    }
    LookupInGroup(gs, m, k, v);
  }

  /** What a transliterating table gives for a key is a word of its target script. */
  lemma LookupTransliterates(rs: seq<Rule>, k: string, v: string, from: Script, to: Script)
    requires AllTransliterate(rs, from, to)
    requires Lookup(rs, k) == Some(v)
    ensures from != to && IsWord(k, from) && IsWord(v, to)
  {
    var i :| 0 <= i < |rs| && rs[i] == Rule(k, v);
    assert Transliterates(rs[i], from, to);
  }

  /** No character belongs to both scripts, so a word of one avoids the other. */
  lemma WordAvoidsOther(s: string, sc: Script, other: Script)
    requires IsWord(s, sc) && sc != other
    ensures Avoids(s, other)
  {
    forall i | 0 <= i < |s|
      ensures !InScript(s[i], other)
    {
      assert InScript(s[i], sc);
    }
  }

  /** The rules whose key has length `n`, in table order. */
  function OfLength(rs: seq<Rule>, n: nat): (r: seq<Rule>)
    ensures forall i :: 0 <= i < |r| ==> |r[i].key| == n
  {
    if rs == [] then []
    else (if |rs[0].key| == n then [rs[0]] else []) + OfLength(rs[1..], n)
  }

  /** The rules whose key has length at most `n`, in table order. */
  function AtMost(rs: seq<Rule>, n: nat): seq<Rule> {
    if rs == [] then []
    else (if |rs[0].key| <= n then [rs[0]] else []) + AtMost(rs[1..], n)
  }

  /** The rules whose key has length `n`, then those of length `n - 1`, and so on down to 0. */
  function ByLengthFrom(rs: seq<Rule>, n: nat): (r: seq<Rule>)
    ensures forall i :: 0 <= i < |r| ==> |r[i].key| <= n
    decreases n
  {
    OfLength(rs, n) + if n == 0 then [] else ByLengthFrom(rs, n - 1)
  }

  lemma ByLengthFromMembers(rs: seq<Rule>, n: nat)
    ensures forall i :: 0 <= i < |ByLengthFrom(rs, n)| ==> ByLengthFrom(rs, n)[i] in rs
  {
    ByLengthFromPermutes(rs, n);
    AtMostMembers(rs, n);
    forall i | 0 <= i < |ByLengthFrom(rs, n)|
      ensures ByLengthFrom(rs, n)[i] in rs
    {
      assert ByLengthFrom(rs, n)[i] in multiset(AtMost(rs, n));
    }
  }

  lemma {:induction false} AtMostMembers(rs: seq<Rule>, n: nat)
    ensures forall x :: x in AtMost(rs, n) ==> x in rs
  {
    if rs != [] {
      AtMostMembers(rs[1..], n);
    }
  }

  /** The length of the longest key. */
  function LongestKey(rs: seq<Rule>): (m: nat)
    ensures forall i :: 0 <= i < |rs| ==> |rs[i].key| <= m
  {
    if rs == [] then 0
    else
      var m := LongestKey(rs[1..]);
      if |rs[0].key| > m then |rs[0].key| else m
  }

  /**
   * `Object.keys(t).sort((a, b) => b.length - a.length)`: the rules reordered by decreasing key
   * length; `Array.prototype.sort` is stable, so rules with keys of equal length keep their
   * table order.
   */
  function SortByKeyLength(rs: seq<Rule>): (sorted: seq<Rule>)
    ensures multiset(sorted) == multiset(rs)
    ensures KeysDescending(sorted)
    ensures forall n: nat :: OfLength(sorted, n) == OfLength(rs, n)
  {
    var m := LongestKey(rs);
    ByLengthFromPermutes(rs, m);
    AtMostLongest(rs, m);
    ByLengthFromDescending(rs, m);
    ByLengthFromStable(rs, m);
    ByLengthFrom(rs, m)
  }

  /** No key is longer than a key before it. */
  predicate KeysDescending(rs: seq<Rule>) {
    forall i, j :: 0 <= i < j < |rs| ==> |rs[i].key| >= |rs[j].key|
  }

  lemma {:induction false} OfLengthAppend(a: seq<Rule>, b: seq<Rule>, n: nat)
    ensures OfLength(a + b, n) == OfLength(a, n) + OfLength(b, n)
  {
    if a == [] {
      assert a + b == b;
    } else {
      var head := if |a[0].key| == n then [a[0]] else [];
      assert (a + b)[0] == a[0] && (a + b)[1..] == a[1..] + b;
      assert OfLength(a + b, n) == head + OfLength(a[1..] + b, n);
      OfLengthAppend(a[1..], b, n);
      AppendAssociates(head, OfLength(a[1..], n), OfLength(b, n));
    }
  }

  lemma AppendAssociates<T>(a: seq<T>, b: seq<T>, c: seq<T>)
    ensures a + (b + c) == (a + b) + c
  {
  }

  lemma {:induction false} OfLengthOfLength(rs: seq<Rule>, n: nat, m: nat)
    ensures OfLength(OfLength(rs, n), m) == if n == m then OfLength(rs, n) else []
  {
    if rs != [] {
      var head := if |rs[0].key| == n then [rs[0]] else [];
      OfLengthAppend(head, OfLength(rs[1..], n), m);
      OfLengthOfLength(rs[1..], n, m);
    }
  }

  lemma {:induction false} OfLengthBeyond(rs: seq<Rule>, n: nat)
    requires forall i :: 0 <= i < |rs| ==> |rs[i].key| < n
    ensures OfLength(rs, n) == []
  {
    if rs != [] {
      OfLengthBeyond(rs[1..], n);
    }
  }

  /** Splitting off the keys of length exactly `n` from those of length at most `n`. */
  lemma {:induction false} AtMostSplits(rs: seq<Rule>, n: nat)
    requires n > 0
    ensures multiset(AtMost(rs, n)) == multiset(OfLength(rs, n)) + multiset(AtMost(rs, n - 1))
  {
    if rs != [] {
      AtMostSplits(rs[1..], n);
    }
  }

  lemma {:induction false} AtMostZero(rs: seq<Rule>)
    ensures AtMost(rs, 0) == OfLength(rs, 0)
  {
    if rs != [] {
      AtMostZero(rs[1..]);
    }
  }

  lemma {:induction false} AtMostLongest(rs: seq<Rule>, m: nat)
    requires forall i :: 0 <= i < |rs| ==> |rs[i].key| <= m
    ensures AtMost(rs, m) == rs
  {
    if rs != [] {
      AtMostLongest(rs[1..], m);
      assert rs == [rs[0]] + rs[1..];
    }
  }

  lemma {:induction false} ByLengthFromPermutes(rs: seq<Rule>, n: nat)
    ensures multiset(ByLengthFrom(rs, n)) == multiset(AtMost(rs, n))
    decreases n
  {
    if n == 0 {
      AtMostZero(rs);
      assert ByLengthFrom(rs, 0) == OfLength(rs, 0);
    } else {
      ByLengthFromPermutes(rs, n - 1);
      PermutesStep(rs, n);
    }
  }

  lemma PermutesStep(rs: seq<Rule>, n: nat)
    requires n > 0
    requires multiset(ByLengthFrom(rs, n - 1)) == multiset(AtMost(rs, n - 1))
    ensures multiset(ByLengthFrom(rs, n)) == multiset(AtMost(rs, n))
  {
    ByLengthFromStep(rs, n);
    AtMostSplits(rs, n);
  }

  lemma ByLengthFromStep(rs: seq<Rule>, n: nat)
    requires n > 0
    ensures multiset(ByLengthFrom(rs, n)) == multiset(OfLength(rs, n)) + multiset(ByLengthFrom(rs, n - 1))
  {
    assert ByLengthFrom(rs, n) == OfLength(rs, n) + ByLengthFrom(rs, n - 1);
  }

  lemma {:induction false} ByLengthFromDescending(rs: seq<Rule>, n: nat)
    ensures KeysDescending(ByLengthFrom(rs, n))
    decreases n
  {
    var top := OfLength(rs, n);
    if n > 0 {
      ByLengthFromDescending(rs, n - 1);
      var rest := ByLengthFrom(rs, n - 1);
      assert ByLengthFrom(rs, n) == top + rest;
      LevelsDescending(top, rest, n);
    } else {
      assert ByLengthFrom(rs, n) == top + [];
    }
  }

  /** Keys of length `n` followed by descending shorter keys are descending. */
  lemma LevelsDescending(top: seq<Rule>, rest: seq<Rule>, n: nat)
    requires forall i :: 0 <= i < |top| ==> |top[i].key| == n
    requires forall i :: 0 <= i < |rest| ==> |rest[i].key| < n
    requires KeysDescending(rest)
    ensures KeysDescending(top + rest)
  {
    var r := top + rest;
    forall i, j | 0 <= i < j < |r|
      ensures |r[i].key| >= |r[j].key|
    {
      if j < |top| {
        assert r[i] == top[i] && r[j] == top[j];
      } else if i < |top| {
        assert r[i] == top[i] && r[j] == rest[j - |top|];
      } else {
        assert r[i] == rest[i - |top|] && r[j] == rest[j - |top|];
      }
    }
  }

  lemma {:induction false} ByLengthFromOfLength(rs: seq<Rule>, n: nat, m: nat)
    ensures OfLength(ByLengthFrom(rs, n), m) == if m <= n then OfLength(rs, m) else []
    decreases n
  {
    var top := OfLength(rs, n);
    var rest := if n == 0 then [] else ByLengthFrom(rs, n - 1);
    OfLengthAppend(top, rest, m);
    OfLengthOfLength(rs, n, m);
    if n > 0 {
      ByLengthFromOfLength(rs, n - 1, m);
    }
  }

  lemma ByLengthFromStable(rs: seq<Rule>, m: nat)
    requires forall i :: 0 <= i < |rs| ==> |rs[i].key| <= m
    ensures forall n: nat :: OfLength(ByLengthFrom(rs, m), n) == OfLength(rs, n)
  {
    forall n: nat
      ensures OfLength(ByLengthFrom(rs, m), n) == OfLength(rs, n)
    {
      ByLengthFromOfLength(rs, m, n);
      if n > m {
        OfLengthBeyond(rs, n);
      }
    }
  }

  /** The table without the rules for `k` (`delete table[k]` on a copy). */
  function WithoutKey(rs: seq<Rule>, k: string): (r: seq<Rule>)
    ensures forall i :: 0 <= i < |r| ==> r[i] in rs && r[i].key != k
    ensures forall i :: 0 <= i < |rs| && rs[i].key != k ==> rs[i] in r
  {
    if rs == [] then []
    else (if rs[0].key == k then [] else [rs[0]]) + WithoutKey(rs[1..], k)
  }

  /** Deleting `k` does not change the lookup of any other key. */
  lemma {:induction false} LookupWithoutKey(rs: seq<Rule>, k: string, other: string)
    requires other != k
    ensures Lookup(WithoutKey(rs, k), other) == Lookup(rs, other)
  {
    if rs != [] {
      var head := if rs[0].key == k then [] else [rs[0]];
      LookupAppend(head, WithoutKey(rs[1..], k), other);
      LookupWithoutKey(rs[1..], k, other);
    }
  }

  /** Restricting a table to the keys as long as `k` does not change the lookup of `k`. */
  lemma {:induction false} LookupOfLength(rs: seq<Rule>, k: string)
    ensures Lookup(OfLength(rs, |k|), k) == Lookup(rs, k)
  {
    if rs != [] {
      var head := if |rs[0].key| == |k| then [rs[0]] else [];
      LookupAppend(head, OfLength(rs[1..], |k|), k);
      LookupOfLength(rs[1..], k);
    }
  }

  /** The loop `for (key of keys) result = result.replace(new RegExp(key, "g"), table[key])`. */
  function ApplyRules(rs: seq<Rule>, s: string): string
    requires NonEmptyKeys(rs)
  {
    if rs == [] then s else ApplyRules(rs[1..], ReplaceAll(s, rs[0].key, rs[0].value))
  }

  /** One step of the loop over the rules: rule `i` is applied, then the rules after it. */
  lemma ApplyRulesStep(rs: seq<Rule>, i: nat, s: string)
    requires NonEmptyKeys(rs) && i < |rs|
    ensures NonEmptyKeys(rs[i..]) && NonEmptyKeys(rs[i + 1..])
    ensures ApplyRules(rs[i..], s) == ApplyRules(rs[i + 1..], ReplaceAll(s, rs[i].key, rs[i].value))
  {
    assert rs[i..][1..] == rs[i + 1..];
  }

  lemma {:induction false} ApplyRulesAppend(a: seq<Rule>, b: seq<Rule>, s: string)
    requires NonEmptyKeys(a) && NonEmptyKeys(b)
    ensures NonEmptyKeys(a + b)
    ensures ApplyRules(a + b, s) == ApplyRules(b, ApplyRules(a, s))
  {
    if a == [] {
      assert a + b == b;
    } else {
      assert (a + b)[1..] == a[1..] + b;
      ApplyRulesAppend(a[1..], b, ReplaceAll(s, a[0].key, a[0].value));
    }
  }

  lemma ApplyRulesFlatten(gs: seq<seq<Rule>>, s: string)
    requires gs != [] && NonEmptyKeys(gs[0]) && NonEmptyKeys(Flatten(gs[1..]))
    ensures NonEmptyKeys(Flatten(gs))
    ensures ApplyRules(Flatten(gs), s) == ApplyRules(Flatten(gs[1..]), ApplyRules(gs[0], s))
  {
    ApplyRulesAppend(gs[0], Flatten(gs[1..]), s);
  }

  /** Rules none of whose keys occurs in `s` leave `s` unchanged. */
  lemma {:induction false} ApplyRulesAbsent(rs: seq<Rule>, s: string)
    requires NonEmptyKeys(rs)
    requires forall i :: 0 <= i < |rs| ==> !Includes(s, rs[i].key)
    ensures ApplyRules(rs, s) == s
  {
    if rs != [] {
      ReplaceAllAbsent(s, rs[0].key, rs[0].value);
      ApplyRulesAbsent(rs[1..], s);
    }
  }

  /** Rules whose keys are written in a script that `s` avoids leave `s` unchanged. */
  lemma ApplyRulesSkipsForeign(rs: seq<Rule>, s: string, from: Script, to: Script)
    requires AllTransliterate(rs, from, to) && Avoids(s, from)
    ensures NonEmptyKeys(rs)
    ensures ApplyRules(rs, s) == s
  {
    forall i | 0 <= i < |rs|
      ensures !Includes(s, rs[i].key)
    {
      AbsentByCharacter(s, rs[i].key, 0);
    }
    ApplyRulesAbsent(rs, s);
  }

  /** A pass over transliterating rules turns the first rule's key into its value. */
  lemma ApplyRulesFirstKey(rs: seq<Rule>, from: Script, to: Script)
    requires AllTransliterate(rs, from, to) && rs != []
    ensures NonEmptyKeys(rs)
    ensures ApplyRules(rs, rs[0].key) == rs[0].value
  {
    var r := rs[0];
    assert Transliterates(r, from, to);
    ReplaceAllWhole(r.key, r.value);
    assert Avoids(r.value, from) by {
      forall i | 0 <= i < |r.value|
        ensures !InScript(r.value[i], from)
      {
        assert InScript(r.value[i], to);
      }
    }
    ApplyRulesSkipsForeign(rs[1..], r.value, from, to);
  }

  /** A prefix written outside the keys' script is carried through the pass unchanged. */
  lemma {:induction false} ApplyRulesAfterPrefix(rs: seq<Rule>, p: string, s: string, from: Script, to: Script)
    requires AllTransliterate(rs, from, to) && Avoids(p, from)
    ensures NonEmptyKeys(rs)
    ensures ApplyRules(rs, p + s) == p + ApplyRules(rs, s)
  {
    if rs != [] {
      var r := rs[0];
      assert InScript(r.key[0], from);
      ReplaceAllAfterPrefix(p, s, r.key, r.value);
      ApplyRulesAfterPrefix(rs[1..], p, ReplaceAll(s, r.key, r.value), from, to);
    }
  }

  /** No key of `rs` contains `c`. */
  predicate Unkeyed(rs: seq<Rule>, c: char) {
    forall i :: 0 <= i < |rs| ==> c !in rs[i].key
  }

  /** A character that no group's keys contain is in no key of their concatenation. */
  lemma {:induction false} UnkeyedFlatten(gs: seq<seq<Rule>>, c: char)
    requires forall j :: 0 <= j < |gs| ==> Unkeyed(gs[j], c)
    ensures Unkeyed(Flatten(gs), c)
  {
    if gs != [] {
      UnkeyedFlatten(gs[1..], c);
      assert Flatten(gs) == gs[0] + Flatten(gs[1..]);
    }
  }

  /** A character no key contains is copied, and the pass goes on behind it. */
  lemma {:induction false} ApplyRulesAfterUnkeyed(rs: seq<Rule>, c: char, s: string)
    requires NonEmptyKeys(rs) && Unkeyed(rs, c)
    ensures ApplyRules(rs, [c] + s) == [c] + ApplyRules(rs, s)
  {
    if rs != [] {
      var r := rs[0];
      ReplaceAllAfterPrefix([c], s, r.key, r.value);
      ApplyRulesAfterUnkeyed(rs[1..], c, ReplaceAll(s, r.key, r.value));
    }
  }

  /**
   * No match can reach across a character that no key contains: in front of such a character
   * a text is rewritten as two separate texts.
   */
  lemma {:induction false} ApplyRulesSplit(rs: seq<Rule>, x: string, u: string)
    requires NonEmptyKeys(rs) && (u != [] ==> Unkeyed(rs, u[0]))
    ensures ApplyRules(rs, x + u) == ApplyRules(rs, x) + ApplyRules(rs, u)
  {
    if rs != [] {
      var r := rs[0];
      var x', u' := ReplaceAll(x, r.key, r.value), ReplaceAll(u, r.key, r.value);
      ReplaceAllSplit(x, u, r.key, r.value);
      if u != [] {
        ReplaceAllAfterPrefix([u[0]], u[1..], r.key, r.value);
        assert [u[0]] + u[1..] == u;
        assert u' == [u[0]] + ReplaceAll(u[1..], r.key, r.value);
      }
      ApplyRulesSplit(rs[1..], x', u');
    }
  }

  /** Keys of the same length as `w` rewrite `w` to the value of its own rule, if it has one. */
  lemma {:induction false} SameLengthPass(rs: seq<Rule>, w: string, from: Script, to: Script)
    requires AllTransliterate(rs, from, to)
    requires forall i :: 0 <= i < |rs| ==> |rs[i].key| == |w|
    ensures NonEmptyKeys(rs)
    ensures ApplyRules(rs, w) == Lookup(rs, w).GetOr(w)
  {
    if rs != [] {
      var r := rs[0];
      if r.key == w {
        ReplaceAllWhole(w, r.value);
        ApplyRulesSkipsForeign(rs[1..], r.value, from, to);
      } else {
        IncludesSameLength(w, r.key);
        ReplaceAllAbsent(w, r.key, r.value);
        SameLengthPass(rs[1..], w, from, to);
      }
    }
  }

  /** Keys longer than `w` do not occur in it. */
  lemma LongerKeysPass(rs: seq<Rule>, n: nat, w: string)
    requires NonEmptyKeys(rs) && n > |w|
    ensures NonEmptyKeys(OfLength(rs, n))
    ensures ApplyRules(OfLength(rs, n), w) == w
  {
    var top := OfLength(rs, n);
    forall i | 0 <= i < |top|
      ensures !Includes(w, top[i].key)
    {
      AbsentByLength(w, top[i].key);
    }
    ApplyRulesAbsent(top, w);
  }

  /** The pass over the keys as long as `w` turns the key `w` into its value. */
  lemma OwnLengthPass(rs: seq<Rule>, w: string, v: string, from: Script, to: Script)
    requires AllTransliterate(rs, from, to)
    requires Lookup(rs, w) == Some(v)
    ensures NonEmptyKeys(OfLength(rs, |w|))
    ensures ApplyRules(OfLength(rs, |w|), w) == v
  {
    var top := OfLength(rs, |w|);
    OfLengthTransliterate(rs, |w|, from, to);
    LookupOfLength(rs, w);
    SameLengthPass(top, w, from, to);
  }

  /** Selecting rules keeps their shape. */
  lemma {:induction false} OfLengthTransliterate(rs: seq<Rule>, n: nat, from: Script, to: Script)
    requires AllTransliterate(rs, from, to)
    ensures AllTransliterate(OfLength(rs, n), from, to)
  {
    if rs != [] {
      OfLengthTransliterate(rs[1..], n, from, to);
      assert Transliterates(rs[0], from, to);
    }
  }

  /** Every level of the longest-first order keeps the shape of the rules. */
  lemma ByLengthFromTransliterate(rs: seq<Rule>, n: nat, from: Script, to: Script)
    requires AllTransliterate(rs, from, to)
    ensures AllTransliterate(ByLengthFrom(rs, n), from, to)
  {
    ByLengthFromMembers(rs, n);
  }

  /** The levels from the length of `w` down turn the key `w` into its value. */
  lemma OwnLevelPass(rs: seq<Rule>, w: string, v: string, from: Script, to: Script)
    requires AllTransliterate(rs, from, to)
    requires Lookup(rs, w) == Some(v)
    ensures NonEmptyKeys(ByLengthFrom(rs, |w|))
    ensures ApplyRules(ByLengthFrom(rs, |w|), w) == v
  {
    var n := |w|;
    var top := OfLength(rs, n);
    var rest := if n == 0 then [] else ByLengthFrom(rs, n - 1);
    if n > 0 {
      ByLengthFromTransliterate(rs, n - 1, from, to);
    }
    assert ByLengthFrom(rs, n) == top + rest;
    OwnLengthPass(rs, w, v, from, to);
    ApplyRulesAppend(top, rest, w);
    assert Rule(w, v) in rs;
    ApplyRulesSkipsForeign(rest, v, from, to);
  }

  /** The part of the longest-first pass from length `n` down turns a key `w` into its value. */
  lemma {:induction false} ByLengthFromToken(rs: seq<Rule>, n: nat, w: string, v: string, from: Script, to: Script)
    requires AllTransliterate(rs, from, to)
    requires Lookup(rs, w) == Some(v) && |w| <= n
    ensures NonEmptyKeys(ByLengthFrom(rs, n))
    ensures ApplyRules(ByLengthFrom(rs, n), w) == v
    decreases n
  {
    if n == |w| {
      OwnLevelPass(rs, w, v, from, to);
    } else {
      ByLengthFromToken(rs, n - 1, w, v, from, to);
      TransliteratingKeys(rs, from, to);
      LongerLevelPass(rs, n, w, v);
    }
  }

  /** A transliterating rule never has an empty key. */
  lemma TransliteratingKeys(rs: seq<Rule>, from: Script, to: Script)
    requires AllTransliterate(rs, from, to)
    ensures NonEmptyKeys(rs)
  {
    forall i | 0 <= i < |rs|
      ensures rs[i].key != []
    {
      assert Transliterates(rs[i], from, to);
    }
  }

  /** The level of keys longer than `w` leaves it to the levels below. */
  lemma LongerLevelPass(rs: seq<Rule>, n: nat, w: string, v: string)
    requires NonEmptyKeys(rs) && n > |w|
    requires NonEmptyKeys(ByLengthFrom(rs, n - 1)) && ApplyRules(ByLengthFrom(rs, n - 1), w) == v
    ensures NonEmptyKeys(ByLengthFrom(rs, n))
    ensures ApplyRules(ByLengthFrom(rs, n), w) == v
  {
    var top, rest := OfLength(rs, n), ByLengthFrom(rs, n - 1);
    assert ByLengthFrom(rs, n) == top + rest;
    LongerKeysPass(rs, n, w);
    ApplyRulesAppend(top, rest, w);
  }

  /** The longest-first pass turns a single key `w` into its value. */
  lemma TokenPass(rs: seq<Rule>, w: string, v: string, from: Script, to: Script)
    requires AllTransliterate(rs, from, to)
    requires Lookup(rs, w) == Some(v)
    ensures NonEmptyKeys(SortByKeyLength(rs))
    ensures ApplyRules(SortByKeyLength(rs), w) == v
  {
    var i :| 0 <= i < |rs| && rs[i] == Rule(w, v);
    assert |w| <= LongestKey(rs);
    ByLengthFromToken(rs, LongestKey(rs), w, v, from, to);
  }

  /** The longest-first pass leaves unchanged a string in which no key occurs. */
  lemma SortedPassAbsent(rs: seq<Rule>, s: string)
    requires NonEmptyKeys(rs)
    requires forall i :: 0 <= i < |rs| ==> !Includes(s, rs[i].key)
    ensures NonEmptyKeys(SortByKeyLength(rs))
    ensures ApplyRules(SortByKeyLength(rs), s) == s
  {
    var sorted := SortByKeyLength(rs);
    forall i | 0 <= i < |sorted|
      ensures sorted[i].key != [] && !Includes(s, sorted[i].key)
    {
      assert sorted[i] in multiset(rs);
    }
    ApplyRulesAbsent(sorted, s);
  }

  /** Reordering keeps every rule, so it keeps the shape of every rule. */
  lemma SortedTransliterate(rs: seq<Rule>, from: Script, to: Script)
    requires AllTransliterate(rs, from, to)
    ensures AllTransliterate(SortByKeyLength(rs), from, to)
  {
    var sorted := SortByKeyLength(rs);
    forall i | 0 <= i < |sorted|
      ensures Transliterates(sorted[i], from, to)
    {
      assert sorted[i] in multiset(rs);
    }
  }
}
