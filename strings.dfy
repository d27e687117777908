/** String primitives of PHP that the content pipeline relies on, over `seq<char>`.
    PHP strings are byte strings; a `char` stands for one byte here. */
module Strings {

  /** `$s` ends with `$suffix` (the `substr($s, -n) == $suffix` tests). */
  predicate EndsWith(s: string, suffix: string)
  {
    |suffix| <= |s| && s[|s| - |suffix|..] == suffix
  }

  /** `str_replace($pat, $rep, $s)`: every non-overlapping occurrence of `pat`,
      scanned left to right, is replaced by `rep`; an empty `pat` changes nothing. */
  function ReplaceAll(s: string, pat: string, rep: string): string
    decreases |s|
  {
    if pat == [] || |s| < |pat| then s
    else if s[..|pat|] == pat then rep + ReplaceAll(s[|pat|..], pat, rep)
    else [s[0]] + ReplaceAll(s[1..], pat, rep)
  }

  /** With a one-character pattern, `str_replace` maps characters one by one. */
  lemma {:induction false} ReplaceCharSplit(a: string, b: string, c: char, d: string)
    ensures ReplaceAll(a + b, [c], d) == ReplaceAll(a, [c], d) + ReplaceAll(b, [c], d)
    decreases |a|
  {
    if a == [] {
      assert a + b == b;
    } else {
      assert (a + b)[1..] == a[1..] + b;
      assert (a + b)[..1] == [a[0]];
      assert a[..1] == [a[0]];
      ReplaceCharSplit(a[1..], b, c, d);
    }
  }

  /** `rtrim($s, $chars)`: the longest prefix of `s` that does not end in one of `chars`. */
  function RTrim(s: string, chars: set<char>): (r: string)
    ensures r <= s
    ensures r == [] || r[|r| - 1] !in chars
    ensures forall i :: |r| <= i < |s| ==> s[i] in chars
  {
    if s != [] && s[|s| - 1] in chars then RTrim(s[..|s| - 1], chars) else s
  }

  /** `ltrim($s, $chars)`: what is left after dropping leading characters in `chars`. */
  function LTrim(s: string, chars: set<char>): (r: string)
    ensures |r| <= |s| && r == s[|s| - |r|..]
    ensures r == [] || r[0] !in chars
    ensures forall i :: 0 <= i < |s| - |r| ==> s[i] in chars
  {
    if s != [] && s[0] in chars then LTrim(s[1..], chars) else s
  }

  /** The characters PHP's `trim` removes by default: space, tab, newline,
      carriage return, NUL and vertical tab. */
  const TrimChars: set<char> := {' ', '\t', '\n', '\r', '\0', 11 as char}

  /** `trim($s)`. */
  function Trim(s: string): string
  {
    LTrim(RTrim(s, TrimChars), TrimChars)
  }

  /** Appending a trimmed character does not change what `trim` returns. */
  lemma TrimIgnoresTrailing(s: string, c: char)
    requires c in TrimChars
    ensures Trim(s + [c]) == Trim(s)
  {
    assert (s + [c])[..|s + [c]| - 1] == s;
  }

  /** Byte-wise comparison of two strings (`strcmp(a, b) < 0`). */
  predicate LexLess(a: string, b: string)
  {
    if a == [] then b != []
    else if b == [] then false
    else if a[0] != b[0] then a[0] < b[0]
    else LexLess(a[1..], b[1..])
  }

  lemma {:induction false} LexLessIrreflexive(a: string)
    ensures !LexLess(a, a)
  {
    if a != [] { LexLessIrreflexive(a[1..]); }
  }

  lemma {:induction false} LexLessAsymmetric(a: string, b: string)
    requires LexLess(a, b)
    ensures !LexLess(b, a)
  {
    if a != [] && b != [] && a[0] == b[0] { LexLessAsymmetric(a[1..], b[1..]); }
  }

  lemma {:induction false} LexLessTransitive(a: string, b: string, c: string)
    requires LexLess(a, b) && LexLess(b, c)
    ensures LexLess(a, c)
  {
    if a != [] && b != [] && c != [] && a[0] == b[0] && b[0] == c[0] {
      LexLessTransitive(a[1..], b[1..], c[1..]);
    }
  }

  lemma {:induction false} LexLessTotal(a: string, b: string)
    requires a != b
    ensures LexLess(a, b) || LexLess(b, a)
  {
    if a != [] && b != [] && a[0] == b[0] {
      assert a == [a[0]] + a[1..] && b == [b[0]] + b[1..];
      LexLessTotal(a[1..], b[1..]);
    }
  }

  /** `k` is the greatest of `keys` under byte-wise order. */
  predicate IsMaxKey(k: string, keys: set<string>)
  {
    k in keys && forall k' :: k' in keys && k' != k ==> LexLess(k', k)
  }

  lemma {:induction false} MaxKeyExists(keys: set<string>)
    requires keys != {}
    ensures exists k :: IsMaxKey(k, keys)
    decreases |keys|
  {
    var x :| x in keys;
    if keys == {x} {
      assert IsMaxKey(x, keys);
    } else {
      var rest := keys - {x};
      MaxKeyExists(rest);
      var m :| IsMaxKey(m, rest);
      if LexLess(m, x) {
        forall k' | k' in keys && k' != x ensures LexLess(k', x) {
          if k' != m { LexLessTransitive(k', m, x); }
        }
        assert IsMaxKey(x, keys);
      } else {
        LexLessTotal(m, x);
        assert IsMaxKey(m, keys);
      }
    }
  }

  lemma MaxKeyUnique(k1: string, k2: string, keys: set<string>)
    requires IsMaxKey(k1, keys) && IsMaxKey(k2, keys)
    ensures k1 == k2
  {
    if k1 != k2 { LexLessAsymmetric(k1, k2); }
  }

  lemma MaxKeyUniqueAll(keys: set<string>)
    ensures forall k1, k2 :: IsMaxKey(k1, keys) && IsMaxKey(k2, keys) ==> k1 == k2
  {
    forall k1, k2 | IsMaxKey(k1, keys) && IsMaxKey(k2, keys) ensures k1 == k2 {
      MaxKeyUnique(k1, k2, keys);
    }
  }

  /** The last key `ksort` puts in place. */
  function MaxKey(keys: set<string>): (k: string)
    requires keys != {}
    ensures IsMaxKey(k, keys)
  {
    MaxKeyExists(keys);
    MaxKeyUniqueAll(keys);
    var k :| IsMaxKey(k, keys); k
  }

  /** `array_unique` followed by `array_values`: the first occurrence of each
      element, in the original order. */
  function Dedup(s: seq<string>): (r: seq<string>)
    ensures forall x :: x in r <==> x in s
    ensures forall i, j :: 0 <= i < j < |r| ==> r[i] != r[j]
    ensures forall i, j, k :: 0 <= i < j < |r| && 0 <= k < |s| && s[k] == r[j] ==> r[i] in s[..k]
  {
    if s == [] then []
    else
      var d := Dedup(s[..|s| - 1]);
      if s[|s| - 1] in d then d else d + [s[|s| - 1]]
  }
}
