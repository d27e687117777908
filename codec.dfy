/** The front-matter document format: `build_post` writes a document and
    `parse_file` reads one (inc/content.php). The YAML encoder and decoder are
    kept abstract; the key sort, the delimiter split and the wrapping of
    scalars into lists are modelled. */
module Codec {
  import opened Values
  import opened Strings

  /** Key/value entries in order, as a PHP array is passed to the YAML encoder. */
  type Entries = seq<(string, Value)>

  /** The YAML encoder (`Yaml::dump`) and decoder (`Yaml::parse`), as two
      function values: `parse` yields the top-level entries of a document, and
      none when the document is not a mapping. */
  datatype Yaml = Yaml(dump: Entries -> string, parse: string -> Entries)

  predicate StrictlySorted(es: Entries)
  {
    forall i, j :: 0 <= i < j < |es| ==> LexLess(es[i].0, es[j].0)
  }

  /** The array built by assigning the entries one after the other. */
  function ToMap(es: Entries): PropertyMap
  {
    if es == [] then map[]
    else ToMap(es[..|es| - 1])[es[|es| - 1].0 := es[|es| - 1].1]
  }

  lemma ToMapSnoc(es: Entries, e: (string, Value))
    ensures ToMap(es + [e]) == ToMap(es)[e.0 := e.1]
  {
    assert (es + [e])[..|es|] == es;
  }

  /** Appending a key greater than every key present keeps entries sorted. */
  lemma AppendGreatestSorted(rest: Entries, k: string, v: Value)
    requires StrictlySorted(rest)
    requires forall i :: 0 <= i < |rest| ==> LexLess(rest[i].0, k)
    ensures StrictlySorted(rest + [(k, v)])
  {
    var es := rest + [(k, v)];
    forall i, j | 0 <= i < j < |es| ensures LexLess(es[i].0, es[j].0) {
      assert es[i] == rest[i];
      if j < |rest| {
        assert es[j] == rest[j];
      }
    }
  }

  /** Appending the greatest key of `m` to the sorted entries of the rest of
      `m` gives the sorted entries of `m`. */
  lemma AppendGreatest(m: PropertyMap, k: string, rest: Entries)
    requires IsMaxKey(k, m.Keys)
    requires StrictlySorted(rest) && ToMap(rest) == m - {k}
    requires forall i :: 0 <= i < |rest| ==> rest[i].0 in m - {k} && rest[i].1 == m[rest[i].0]
    ensures var es := rest + [(k, m[k])];
            StrictlySorted(es) && ToMap(es) == m &&
            forall i :: 0 <= i < |es| ==> es[i].0 in m && es[i].1 == m[es[i].0]
  {
    forall i | 0 <= i < |rest| ensures LexLess(rest[i].0, k) {
      var x := rest[i].0;
      assert x in m.Keys && x != k;
    }
    AppendGreatestSorted(rest, k, m[k]);
    ToMapSnoc(rest, (k, m[k]));
    assert (m - {k})[k := m[k]] == m;
  }

  /** `ksort`: the entries of `m` in increasing key order. */
  function KSorted(m: PropertyMap): (es: Entries)
    ensures StrictlySorted(es)
    ensures ToMap(es) == m
    ensures forall i :: 0 <= i < |es| ==> es[i].0 in m && es[i].1 == m[es[i].0]
    decreases |m|
  {
    if m == map[] then []
    else
      var k := MaxKey(m.Keys);
      var rest := KSorted(m - {k});
      AppendGreatest(m, k, rest);
      rest + [(k, m[k])]
  }

  /** `build_post`: the front matter, key-sorted and YAML-encoded, between two
      `---` lines, then the body and a final newline. */
  function BuildPost(yaml: Yaml, frontMatter: PropertyMap, body: string): (r: string)
    ensures |r| >= 9 + |body| && r[..4] == "---\n"
    ensures r[|r| - |body| - 5..] == "---\n" + body + "\n"
  {
    "---\n" + yaml.dump(KSorted(frontMatter)) + "---\n" + body + "\n"
  }

  /** Where the run of newlines that starts at `i` ends. */
  function RunEnd(s: string, i: nat): (j: nat)
    requires i <= |s|
    ensures i <= j <= |s|
    ensures forall k :: i <= k < j ==> s[k] == '\n'
    ensures j == |s| || s[j] != '\n'
    decreases |s| - i
  {
    if i < |s| && s[i] == '\n' then RunEnd(s, i + 1) else i
  }

  /** The pattern `[\n]*[-]{3}[\n]` matches at `i`: the greedy run of newlines
      is followed by `---` and a newline (giving back newlines never helps, as
      the next character would then be a newline, not a dash). */
  predicate MatchesAt(s: string, i: nat)
    requires i <= |s|
  {
    var j := RunEnd(s, i);
    j + 4 <= |s| && s[j..j + 4] == "---\n"
  }

  function MatchEnd(s: string, i: nat): (e: nat)
    requires i <= |s| && MatchesAt(s, i)
    ensures i + 4 <= e <= |s|
  {
    RunEnd(s, i) + 4
  }

  /** The leftmost match at or after `from`. */
  function FindDelimiter(s: string, from: nat): (r: Option<nat>)
    requires from <= |s|
    ensures r.Some? ==> from <= r.value <= |s| && MatchesAt(s, r.value)
    ensures r.Some? ==> forall i :: from <= i < r.value ==> !MatchesAt(s, i)
    ensures r.None? ==> forall i :: from <= i <= |s| ==> !MatchesAt(s, i)
    decreases |s| - from
  {
    if MatchesAt(s, from) then Some(from)
    else if from == |s| then None
    else FindDelimiter(s, from + 1)
  }

  /** `preg_split('/[\n]*[-]{3}[\n]/', $s, 3)`: at most three pieces, split at
      the first two matches. */
  function Split3(s: string): (parts: seq<string>)
    ensures 1 <= |parts| <= 3
    ensures |parts| == 1 <==> forall i :: 0 <= i <= |s| ==> !MatchesAt(s, i)
    ensures |parts| == 1 ==> parts[0] == s
    ensures |parts| > 1 ==> |parts[0]| <= |s| && parts[0] <= s && MatchesAt(s, |parts[0]|)
    ensures |parts| > 1 ==> forall i :: 0 <= i < |parts[0]| ==> !MatchesAt(s, i)
    ensures |parts| > 1 ==> |parts[|parts| - 1]| <= |s| && s[|s| - |parts[|parts| - 1]|..] == parts[|parts| - 1]
    ensures |parts| == 2 ==> parts[1] == s[MatchEnd(s, |parts[0]|)..]
  {
    match FindDelimiter(s, 0)
    case None => [s]
    case Some(a1) => [s[..a1]] + SplitRest(s, MatchEnd(s, a1))
  }

  /** The pieces after the first match, which ends at `from`: the rest of the
      input, or the text up to the next match and the text after it. */
  function SplitRest(s: string, from: nat): (rest: seq<string>)
    requires from <= |s|
    ensures |rest| == 1 || |rest| == 2
    ensures |rest| == 1 ==> rest[0] == s[from..]
    ensures |rest[|rest| - 1]| <= |s| && s[|s| - |rest[|rest| - 1]|..] == rest[|rest| - 1]
  {
    match FindDelimiter(s, from)
    case None => [s[from..]]
    case Some(a2) => [s[from..a2], s[MatchEnd(s, a2)..]]
  }

  /** Scalars read from the front matter are wrapped in a one-element list;
      arrays are kept as they are ("all values in mf2 json are arrays"). */
  function Wrap(v: Value): (w: Value)
    ensures IsArray(w)
    ensures IsArray(v) ==> w == v
    ensures !IsArray(v) ==> w == List([v]) && Count(w) == 1 && Index0(w) == v
  {
    if IsArray(v) then v else List([v])
  }

  /** The loop of `parse_file` over the decoded front matter. */
  function FrontMatter(es: Entries): PropertyMap
  {
    if es == [] then map[]
    else FrontMatter(es[..|es| - 1])[es[|es| - 1].0 := Wrap(es[|es| - 1].1)]
  }

  function Wrapped(m: PropertyMap): PropertyMap
  {
    map k | k in m :: Wrap(m[k])
  }

  /** What `parse_file` returns for a file's contents: the wrapped front
      matter, with `content` set to the trimmed body. With no delimiter at all,
      `$parts[1]` is missing and the YAML parser's string parameter receives
      null, which PHP rejects with a type error. */
  function Parsed(yaml: Yaml, contents: string): Result<PropertyMap>
  {
    var parts := Split3(contents);
    if |parts| < 2 then Err(TypeError)
    else
      var body := if |parts| == 3 then parts[2] else "";
      Ok(FrontMatter(yaml.parse(parts[1]))["content" := List([Str(Trim(body))])])
  }

  /** `parse_file`. */
  method ParseFile(yaml: Yaml, contents: string) returns (r: Result<PropertyMap>)
    ensures r == Parsed(yaml, contents)
  {
    var parts := Split3(contents);
    if |parts| < 2 {
      return Err(TypeError);
    }
    var properties := WrapEntries(yaml.parse(parts[1]));
    var body := if |parts| == 3 then parts[2] else "";
    properties := properties["content" := List([Str(Trim(body))])];
    r := Ok(properties);
  }

  /** The loop of `parse_file` over the decoded entries: scalars are wrapped
      in a one-element list, later keys overwrite earlier ones. */
  method WrapEntries(entries: Entries) returns (properties: PropertyMap)
    ensures properties == FrontMatter(entries)
  {
    properties := map[];
    var i := 0;
    while i < |entries|
      invariant 0 <= i <= |entries|
      invariant properties == FrontMatter(entries[..i])
    {
      var (k, v) := entries[i];
      if !IsArray(v) {
        v := List([v]);
      }
      properties := properties[k := v];
      assert entries[..i + 1][..i] == entries[..i];
      i := i + 1;
    }
    assert entries[..i] == entries;
  }

  /** The four characters `---` and a newline start at `i` in `y`: a line of
      three dashes, or any text that ends in three dashes, such as the plain
      scalar of `title: Foo---`. */
  predicate DashLineAt(y: string, i: nat)
  {
    i + 4 <= |y| && y[i..i + 4] == "---\n"
  }

  /** Every value of the entries is in its canonical spelling. */
  predicate CanonicalEntries(es: Entries)
  {
    forall i :: 0 <= i < |es| ==> Canonical(es[i].1)
  }

  /** What the round trip asks of the abstract YAML pair, for PHP values in
      their canonical spelling: on key-sorted entries, the encoder never
      writes `---` followed by a newline anywhere (not even at the end of a
      value), and the decoder reads the encoding back (trailing newlines
      aside). `DashesInValueSplit` shows what the split does when a value ends in
      dashes. */
  ghost predicate Faithful(yaml: Yaml)
  {
    (forall es: Entries {:trigger yaml.dump(es)} :: StrictlySorted(es) && CanonicalEntries(es) ==>
      (forall i: nat :: !DashLineAt(yaml.dump(es), i)) &&
      yaml.parse(RTrim(yaml.dump(es), {'\n'})) == es)
  }

  /** The decoder spells what it returns canonically, as a PHP decoder does:
      PHP has one spelling of each array. */
  ghost predicate CanonicalDecoder(yaml: Yaml)
  {
    forall y: string {:trigger yaml.parse(y)} :: CanonicalEntries(yaml.parse(y))
  }

  /** An encoder that writes the empty list and the empty associative array
      alike, as any encoder of PHP values does, is faithful only because the
      latter is not canonical: the round trip is not asked of it. */
  lemma EmptyArraysAlike(yaml: Yaml)
    requires Faithful(yaml)
    requires yaml.dump([("k", Obj(map[]))]) == yaml.dump([("k", List([]))])
    ensures yaml.parse(RTrim(yaml.dump([("k", List([]))]), {'\n'})) == [("k", List([]))]
    ensures !CanonicalEntries([("k", Obj(map[]))])
  {
    OneSpellingPerArray(Null);
    assert CanonicalEntries([("k", List([]))]);
    assert !Canonical([("k", Obj(map[]))][0].1);
  }

  /** Wrapping keeps a value canonical. */
  lemma WrapCanonical(v: Value)
    requires Canonical(v)
    ensures Canonical(Wrap(v))
  {
    if !IsArray(v) {
      assert Wrap(v).items[0] == v;
    }
  }

  /** The wrap loop of `parse_file` keeps canonical entries canonical. */
  lemma {:induction false} FrontMatterCanonical(es: Entries)
    requires CanonicalEntries(es)
    ensures CanonicalMap(FrontMatter(es))
    decreases |es|
  {
    if es != [] {
      var n := |es| - 1;
      assert CanonicalEntries(es[..n]) by {
        forall i | 0 <= i < n ensures Canonical(es[..n][i].1) {
          assert es[..n][i] == es[i];
        }
      }
      FrontMatterCanonical(es[..n]);
      WrapCanonical(es[n].1);
    }
  }

  /** Under a canonical decoder, whatever `parse_file` reads is canonical. */
  lemma ParsedCanonical(yaml: Yaml, contents: string)
    requires CanonicalDecoder(yaml)
    ensures Parsed(yaml, contents).Ok? ==> CanonicalMap(Parsed(yaml, contents).value)
  {
    var parts := Split3(contents);
    if |parts| >= 2 {
      var body := if |parts| == 3 then parts[2] else "";
      ReadCanonical(yaml.parse(parts[1]), Trim(body));
    }
  }

  /** Proof helper: the wrapped canonical entries with `content` set to a
      one-string list are canonical. */
  lemma ReadCanonical(es: Entries, text: string)
    requires CanonicalEntries(es)
    ensures CanonicalMap(FrontMatter(es)["content" := List([Str(text)])])
  {
    FrontMatterCanonical(es);
    var content := List([Str(text)]);
    assert Canonical(content) by {
      assert content.items[0] == Str(text);
    }
    CanonicalMapUpdate(FrontMatter(es), "content", content);
  }

  lemma {:induction false} FrontMatterIsWrapped(es: Entries)
    ensures FrontMatter(es) == Wrapped(ToMap(es))
  {
    if es != [] {
      FrontMatterIsWrapped(es[..|es| - 1]);
    }
  }

  /** No delimiter match starts inside the encoded front matter, before its
      trailing newlines. */
  lemma NoMatchInside(s: string, y: string, t: nat, i: nat)
    requires forall n: nat :: !DashLineAt(y, n)
    requires |s| >= |y| + 8 && s[..4 + |y| + 4] == "---\n" + y + "---\n"
    requires t <= |y| && (t == 0 || y[t - 1] != '\n')
    requires 4 <= i < 4 + t
    ensures !MatchesAt(s, i)
  {
    var pre := s[..4 + |y| + 4];
    forall n | 4 <= n < 4 + |y| ensures s[n] == y[n - 4] {
      assert s[n] == pre[n];
    }
    var j := RunEnd(s, i);
    assert s[4 + t - 1] == y[t - 1];
    assert j < 4 + t;
    if j + 4 <= 4 + |y| {
      assert s[j..j + 4] == y[j - 4..j];
      assert !DashLineAt(y, j - 4);
    } else {
      assert s[j..j + 4][3] == pre[j + 3] == '-';
    }
  }

  /** The second delimiter's run of newlines is the encoder's trailing
      newlines. */
  lemma MatchAtTrailing(s: string, y: string, t: nat)
    requires |s| >= |y| + 8 && s[..4 + |y| + 4] == "---\n" + y + "---\n"
    requires t <= |y| && forall n :: t <= n < |y| ==> y[n] == '\n'
    ensures 4 + t <= |s| && RunEnd(s, 4 + t) == 4 + |y|
    ensures MatchesAt(s, 4 + t)
  {
    var j := RunEnd(s, 4 + t);
    assert s[4 + |y|] == '-';
    forall n | 4 + t <= n < 4 + |y| ensures s[n] == '\n' {
      assert s[n] == y[n - 4];
    }
    assert s[4 + |y|..4 + |y| + 4] == "---\n";
  }

  /** The leftmost match is the first position that matches. */
  lemma FindDelimiterAt(s: string, from: nat, a: nat)
    requires from <= a <= |s| && MatchesAt(s, a)
    requires forall i: nat :: from <= i < a ==> !MatchesAt(s, i)
    ensures FindDelimiter(s, from) == Some(a)
  {
  }

  /** In a built document the second delimiter starts where the encoder's
      trailing newlines start. */
  lemma SecondDelimiter(s: string, y: string)
    requires forall n: nat :: !DashLineAt(y, n)
    requires |s| >= |y| + 8 && s[..4 + |y| + 4] == "---\n" + y + "---\n"
    ensures var t := |RTrim(y, {'\n'})|;
            4 + t <= |s| && MatchesAt(s, 4 + t) &&
            FindDelimiter(s, 4) == Some(4 + t) && MatchEnd(s, 4 + t) == |y| + 8
  {
    var t := |RTrim(y, {'\n'})|;
    NoMatchBefore(s, y);
    MatchAtTrailing(s, y, t);
    FindDelimiterAt(s, 4, 4 + t);
  }

  /** No match starts between the first delimiter and the encoder's trailing
      newlines. */
  lemma NoMatchBefore(s: string, y: string)
    requires forall n: nat :: !DashLineAt(y, n)
    requires |s| >= |y| + 8 && s[..4 + |y| + 4] == "---\n" + y + "---\n"
    ensures forall i: nat :: 4 <= i < 4 + |RTrim(y, {'\n'})| ==> !MatchesAt(s, i)
  {
    var r := RTrim(y, {'\n'});
    var t := |r|;
    assert t > 0 ==> y[t - 1] == r[t - 1];
    forall i: nat | 4 <= i < 4 + t ensures !MatchesAt(s, i) {
      NoMatchInside(s, y, t, i);
    }
  }

  /** Two pieces mean that no second match follows the first one. */
  lemma Split3TwoPieces(s: string)
    ensures |Split3(s)| == 2 ==> forall i :: MatchEnd(s, |Split3(s)[0]|) <= i <= |s| ==> !MatchesAt(s, i)
  {
    match FindDelimiter(s, 0)
    case None =>
    case Some(a1) =>
      assert Split3(s) == [s[..a1]] + SplitRest(s, MatchEnd(s, a1));
  }

  /** `preg_split` at two known matches. */
  lemma Split3At(s: string, a1: nat, a2: nat)
    requires a1 <= |s| && MatchesAt(s, a1) && FindDelimiter(s, 0) == Some(a1)
    requires MatchEnd(s, a1) <= a2 <= |s| && MatchesAt(s, a2)
    requires FindDelimiter(s, MatchEnd(s, a1)) == Some(a2)
    ensures Split3(s) == [s[..a1], s[MatchEnd(s, a1)..a2], s[MatchEnd(s, a2)..]]
  {
  }

  /** A document that starts with a `---` line has its first match at 0. */
  lemma FirstDelimiter(s: string)
    requires |s| >= 4 && s[..4] == "---\n"
    ensures MatchesAt(s, 0) && FindDelimiter(s, 0) == Some(0) && MatchEnd(s, 0) == 4
  {
    assert s[0] == '-';
    assert RunEnd(s, 0) == 0;
    assert s[0..4] == s[..4];
  }

  /** The split of a document whose head is a `---` line, an encoding `y`
      with no `---` line in it, and another `---` line. */
  lemma HeadSplit(s: string, y: string)
    requires forall n: nat :: !DashLineAt(y, n)
    requires |s| >= |y| + 8 && s[..4 + |y| + 4] == "---\n" + y + "---\n"
    ensures Split3(s) == [s[..0], s[4..4 + |RTrim(y, {'\n'})|], s[|y| + 8..]]
  {
    assert s[..4] == s[..4 + |y| + 4][..4];
    FirstDelimiter(s);
    SecondDelimiter(s, y);
    Split3At(s, 0, 4 + |RTrim(y, {'\n'})|);
  }

  /** A document made of a `---` line, an encoding `y` with no `---` line
      in it, another `---` line and a body splits into an empty head, `y`
      without its trailing newlines, and the body. */
  lemma DocumentParts(y: string, body: string)
    requires forall n: nat :: !DashLineAt(y, n)
    ensures Split3("---\n" + y + "---\n" + body + "\n") == ["", RTrim(y, {'\n'}), body + "\n"]
  {
    var d, r, tail := "---\n", RTrim(y, {'\n'}), body + "\n";
    var s := d + y + d + body + "\n";
    Layout(d, y, d, body, "\n", |r|);
    assert |d| == 4 && |d + y + d| == |y| + 8;
    assert y[..|r|] == r;
    HeadSplit(s, y);
    assert Split3(s) == [s[..0], s[4..4 + |r|], s[|y| + 8..]];
    assert s[..0] == "" && s[4..4 + |r|] == r && s[|y| + 8..] == tail;
  }

  /** Where the pieces of `a + y + b + c + d` sit. */
  lemma Layout(a: string, y: string, b: string, c: string, d: string, t: nat)
    requires t <= |y|
    ensures var s := a + y + b + c + d;
            s[..|a| + |y| + |b|] == a + y + b && s[|a| + |y| + |b|..] == c + d &&
            s[..0] == [] && s[|a|..|a| + t] == y[..t]
  {
    var s := a + y + b + c + d;
    assert s == (a + y + b) + (c + d);
  }

  /** A built document splits into an empty head, the encoded front matter
      without its trailing newlines, and the body with its final newline. */
  lemma BuiltParts(yaml: Yaml, frontMatter: PropertyMap, body: string)
    requires Faithful(yaml)
    requires CanonicalMap(frontMatter)
    ensures Split3(BuildPost(yaml, frontMatter, body))
            == ["", RTrim(yaml.dump(KSorted(frontMatter)), {'\n'}), body + "\n"]
  {
    DocumentParts(yaml.dump(KSorted(frontMatter)), body);
  }

  /** Reading back a document that `build_post` wrote gives its front matter,
      every scalar wrapped in a list, and the trimmed body under `content`. */
  lemma ParseBuildRoundTrip(yaml: Yaml, frontMatter: PropertyMap, body: string)
    requires Faithful(yaml)
    requires CanonicalMap(frontMatter)
    ensures Parsed(yaml, BuildPost(yaml, frontMatter, body))
            == Ok(Wrapped(frontMatter)["content" := List([Str(Trim(body))])])
  {
    var es := KSorted(frontMatter);
    BuiltParts(yaml, frontMatter, body);
    TrimIgnoresTrailing(body, '\n');
    FrontMatterIsWrapped(es);
  }

  /** Reading a built post back gives each front-matter entry other than
      `content`, wrapped as `parse_file` wraps it. */
  lemma ParsedEntry(yaml: Yaml, frontMatter: PropertyMap, body: string, k: string)
    requires Faithful(yaml)
    requires CanonicalMap(frontMatter)
    requires k in frontMatter && k != "content"
    ensures Parsed(yaml, BuildPost(yaml, frontMatter, body)).Ok?
    ensures k in Parsed(yaml, BuildPost(yaml, frontMatter, body)).value
    ensures Parsed(yaml, BuildPost(yaml, frontMatter, body)).value[k] == Wrap(frontMatter[k])
  {
    ParseBuildRoundTrip(yaml, frontMatter, body);
    ReadEntry(Parsed(yaml, BuildPost(yaml, frontMatter, body)), frontMatter, List([Str(Trim(body))]), k);
  }

  /** Proof helper: a key other than `content` of a wrapped map with
      `content` set reads back wrapped. */
  lemma ReadEntry(r: Result<PropertyMap>, m: PropertyMap, content: Value, k: string)
    requires r == Ok(Wrapped(m)["content" := content])
    requires k in m && k != "content"
    ensures r.Ok? && k in r.value && r.value[k] == Wrap(m[k])
  {
  }

  /** The delimiter is not anchored to a line: a front-matter value ending
      in `---` ends the front matter there, the value loses its dashes and
      the body gains them. */
  lemma DashesInValueSplit(s: string)
    requires s == "---\nk: a---\n---\nb\n"
    ensures Split3(s) == ["", "k: a", "---\nb\n"]
  {
    FirstDelimiter(s);
    DashesInValueMatches(s);
    FindDelimiterAt(s, 4, 8);
    Split3At(s, 0, 8);
    assert s[..0] == "";
    assert s[4..8] == "k: a";
    assert s[12..] == "---\nb\n";
  }

  /** In that document the delimiter matches at 8, inside the value, and
      nowhere between the opening line and it. */
  lemma DashesInValueMatches(s: string)
    requires s == "---\nk: a---\n---\nb\n"
    ensures MatchesAt(s, 8) && MatchEnd(s, 8) == 12
    ensures forall i: nat :: 4 <= i < 8 ==> !MatchesAt(s, i)
  {
    assert RunEnd(s, 8) == 8 && s[8..12] == "---\n";
    forall i: nat | 4 <= i < 8 ensures !MatchesAt(s, i) {
      assert RunEnd(s, i) == i && s[i] != '-';
    }
  }
}
