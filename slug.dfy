/** `slugify` (inc/content.php): spaces become dashes, every character outside
    the regular-expression class `[-\w+]` is dropped, and ASCII letters are
    lower-cased. */
module Slug {
  import opened Strings

  /** PCRE's `\w` without the `u` flag, in the C locale: ASCII letters, digits
      and the underscore. */
  predicate IsWordChar(c: char)
  {
    'a' <= c <= 'z' || 'A' <= c <= 'Z' || '0' <= c <= '9' || c == '_'
  }

  /** The characters the class `[-\w+]` keeps; note that it keeps `+` too. */
  predicate IsSlugChar(c: char)
  {
    c == '-' || c == '+' || IsWordChar(c)
  }

  predicate IsUpper(c: char)
  {
    'A' <= c <= 'Z'
  }

  /** A string `slugify` can return: only slug characters, none upper-case. */
  predicate IsSlug(s: string)
  {
    forall i :: 0 <= i < |s| ==> IsSlugChar(s[i]) && !IsUpper(s[i])
  }

  /** `preg_replace("/[^-\w+]/", "", $s)`. */
  function KeepSlugChars(s: string): (r: string)
    ensures forall i :: 0 <= i < |r| ==> IsSlugChar(r[i])
    ensures (forall i :: 0 <= i < |s| ==> IsSlugChar(s[i])) ==> r == s
    ensures forall i :: 0 <= i < |r| ==> r[i] in s
  {
    if s == [] then []
    else (if IsSlugChar(s[0]) then [s[0]] else []) + KeepSlugChars(s[1..])
  }

  function LowerChar(c: char): char
  {
    if IsUpper(c) then (c as int + 32) as char else c
  }

  /** `strtolower($s)`: ASCII letters only, as PHP 8 does. */
  function ToLower(s: string): (r: string)
    ensures |r| == |s|
    ensures forall i :: 0 <= i < |s| ==> r[i] == LowerChar(s[i])
  {
    if s == [] then [] else [LowerChar(s[0])] + ToLower(s[1..])
  }

  /** `slugify`: every result is made of `-`, `+`, `_`, digits and
      lower-case ASCII letters; in particular it holds no space and no
      upper-case letter. */
  function Slugify(s: string): (r: string)
    ensures IsSlug(r)
    ensures ' ' !in r
  {
    ToLower(KeepSlugChars(ReplaceAll(s, " ", "-")))
  }

  /** `str_replace(' ', '-', $s)` leaves a string without spaces alone. */
  lemma {:induction false} ReplaceSpaceAbsent(s: string)
    requires ' ' !in s
    ensures ReplaceAll(s, " ", "-") == s
  {
    if s != [] {
      assert s[..1] == [s[0]];
      ReplaceSpaceAbsent(s[1..]);
    }
  }

  /** `slugify` leaves a slug unchanged. */
  lemma SlugifyFixesSlugs(s: string)
    requires IsSlug(s)
    ensures Slugify(s) == s
  {
    ReplaceSpaceAbsent(s);
  }

  /** `slugify` is idempotent. */
  lemma SlugifyIdempotent(s: string)
    ensures Slugify(Slugify(s)) == Slugify(s)
  {
    SlugifyFixesSlugs(Slugify(s));
  }

  /** What `slugify` makes of a single character. */
  function SlugOfChar(c: char): string
  {
    if c == ' ' then "-" else if IsSlugChar(c) then [LowerChar(c)] else []
  }

  /** The filter keeps one character exactly when it is a slug character. */
  lemma KeepSlugCharsChar(c: char)
    ensures KeepSlugChars([c]) == if IsSlugChar(c) then [c] else []
  {
    assert [c][1..] == [];
  }

  /** The filter works piece by piece, so the kept characters stay in their
      order; with `KeepSlugCharsChar` this fixes the result on every input. */
  lemma {:induction false} KeepSlugCharsAppend(a: string, b: string)
    ensures KeepSlugChars(a + b) == KeepSlugChars(a) + KeepSlugChars(b)
  {
    if a != [] {
      assert (a + b)[1..] == a[1..] + b;
      KeepSlugCharsAppend(a[1..], b);
    } else {
      assert a + b == b;
    }
  }

  lemma {:induction false} ToLowerAppend(a: string, b: string)
    ensures ToLower(a + b) == ToLower(a) + ToLower(b)
  {
    if a != [] {
      assert (a + b)[1..] == a[1..] + b;
      ToLowerAppend(a[1..], b);
    } else {
      assert a + b == b;
    }
  }

  /** `slugify` works character by character. */
  lemma SlugifyCons(c: char, s: string)
    ensures Slugify([c] + s) == SlugOfChar(c) + Slugify(s)
  {
    ReplaceCharSplit([c], s, ' ', "-");
    var t := ReplaceAll([c], " ", "-");
    assert t == if c == ' ' then "-" else [c];
    var u := ReplaceAll(s, " ", "-");
    KeepSlugCharsAppend(t, u);
    ToLowerAppend(KeepSlugChars(t), KeepSlugChars(u));
  }

  /** Unfolds `slugify` of `s[i..]` by one character. */
  lemma SlugifyStep(s: string, i: nat)
    requires i < |s|
    ensures Slugify(s[i..]) == SlugOfChar(s[i]) + Slugify(s[i + 1..])
  {
    assert [s[i]] + s[i + 1..] == s[i..];
    SlugifyCons(s[i], s[i + 1..]);
  }

  /** `slugify`, one character at a time. */
  function SlugOfChars(s: string): string
  {
    if s == [] then [] else SlugOfChar(s[0]) + SlugOfChars(s[1..])
  }

  lemma {:induction false} SlugifyByChars(s: string)
    ensures Slugify(s) == SlugOfChars(s)
  {
    if s != [] {
      var t := s[1..];
      assert [s[0]] + t == s;
      SlugifyCons(s[0], t);
      SlugifyByChars(t);
    }
  }

  lemma {:induction false} SlugOfCharsAppend(a: string, b: string)
    ensures SlugOfChars(a + b) == SlugOfChars(a) + SlugOfChars(b)
  {
    if a != [] {
      assert (a + b)[1..] == a[1..] + b;
      SlugOfCharsAppend(a[1..], b);
    } else {
      assert a + b == b;
    }
  }

  /** `slugify` of a concatenation, through the character-wise form. */
  lemma SlugifyAppend(a: string, b: string)
    ensures Slugify(a + b) == SlugOfChars(a) + SlugOfChars(b)
  {
    SlugifyByChars(a + b);
    SlugOfCharsAppend(a, b);
  }

  lemma SlugOfHello()
    ensures SlugOfChars("Hello,") == "hello"
  {
    assert "Hello," == "Hel" + "lo,";
    SlugOfCharsAppend("Hel", "lo,");
  }

  lemma SlugOfWorld()
    ensures SlugOfChars(" World!") == "-world"
  {
    assert " World!" == " Wo" + "rld!";
    SlugOfCharsAppend(" Wo", "rld!");
  }

  /** Proof helper: the title split at its space, kept apart so that the
      example below does not reason about the literal's characters. */
  lemma HelloWorldSplit(title: string)
    requires title == "Hello, World!"
    ensures title == "Hello," + " World!"
  {
  }

  /** The title "Hello, World!" gives the slug "hello-world". */
  lemma SlugifyHelloWorld(title: string)
    requires title == "Hello, World!"
    ensures Slugify(title) == "hello-world"
  {
    HelloWorldSplit(title);
    SlugifyAppend("Hello,", " World!");
    SlugOfHello();
    SlugOfWorld();
  }

  lemma SlugOfPlus()
    ensures SlugOfChars("C++") == "c++"
  {
  }

  lemma SlugOfTips()
    ensures SlugOfChars(" Tips") == "-tips"
  {
  }

  /** Proof helper: the title split at its space, kept apart so that the
      example below does not reason about the literal's characters. */
  lemma PlusTipsSplit(title: string)
    requires title == "C++ Tips"
    ensures title == "C++" + " Tips"
  {
  }

  /** The class keeps `+`: "C++ Tips" gives "c++-tips". */
  lemma SlugifyKeepsPlus(title: string)
    requires title == "C++ Tips"
    ensures Slugify(title) == "c++-tips"
  {
    PlusTipsSplit(title);
    SlugifyAppend("C++", " Tips");
    SlugOfPlus();
    SlugOfTips();
  }

  /** A time-of-day slug such as "140509" passes through unchanged. */
  lemma SlugifyTimeSlug(slug: string)
    requires slug == "140509"
    ensures Slugify(slug) == slug
  {
    SlugifyFixesSlugs(slug);
  }
}
