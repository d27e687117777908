/** From a post's URL to its source file, and from a new post to its file name
    and URL (`get_source_from_url` and the path step of `create`,
    inc/content.php). The file system is a map from path to contents; a path
    exists when it is a key. */
module Paths {
  import opened Values
  import opened Strings

  type FileSystem = map<string, string>

  /** The file system after a request, and how the request ended: the file
      or URL it reports, or the error exit. */
  datatype Outcome = Outcome(fs: FileSystem, result: Result<string>)

  /** One `content_paths` entry: the directory under `content/` and the
      `date()` format of the date segment that follows it. */
  datatype PathRule = PathRule(prefix: string, dateFormat: string)

  predicate UniqueTypes(rules: seq<(string, PathRule)>)
  {
    forall i, j :: 0 <= i < j < |rules| ==> rules[i].0 != rules[j].0
  }

  /** `$config['content_paths']`: post type to path rule, in configuration
      order; like any PHP array it holds each key once. */
  type PathRules = rules: seq<(string, PathRule)> | UniqueTypes(rules)

  /** The part of `$config` the content code reads: the Hugo root
      (`source_path`), the root of the built site (`base_path`), the site URL
      (`base_url`), the path rules and the default front matter per post type
      (`content_defaults`). */
  datatype Config = Config(
    sourcePath: string,
    basePath: string,
    baseUrl: string,
    contentPaths: PathRules,
    contentDefaults: map<string, PropertyMap>)

  function ContentRoot(c: Config): string
  {
    c.sourcePath + "content/"
  }

  /** `$config['content_paths'][$type]`, when the type has an entry. */
  function RuleFor(rules: seq<(string, PathRule)>, postType: string): (r: Option<PathRule>)
    ensures r.None? <==> forall i :: 0 <= i < |rules| ==> rules[i].0 != postType
    ensures r.Some? ==> exists i :: 0 <= i < |rules| && rules[i] == (postType, r.value)
  {
    if rules == [] then None
    else if rules[0].0 == postType then Some(rules[0].1)
    else
      var r := RuleFor(rules[1..], postType);
      assert forall i :: 1 <= i < |rules| ==> rules[i] == rules[1..][i - 1];
      r
  }

  /** The prefix of every rule, in the rules' order (`array_map` of
      `array_shift`). */
  function RulePrefixes(rules: seq<(string, PathRule)>): (all: seq<string>)
    ensures |all| == |rules| && forall i :: 0 <= i < |rules| ==> all[i] == rules[i].1.prefix
  {
    if rules == [] then []
    else RulePrefixes(rules[..|rules| - 1]) + [rules[|rules| - 1].1.prefix]
  }

  /** The directory prefixes of all rules, first occurrence of each kept:
      exactly the rules' prefixes, each once, ordered by the first rule that
      names them. */
  function Prefixes(rules: seq<(string, PathRule)>): (ps: seq<string>)
    ensures forall i :: 0 <= i < |rules| ==> rules[i].1.prefix in ps
    ensures forall j :: 0 <= j < |ps| ==> exists i :: 0 <= i < |rules| && rules[i].1.prefix == ps[j]
    ensures forall i, j :: 0 <= i < j < |ps| ==> ps[i] != ps[j]
    ensures forall i, j, k :: 0 <= i < j < |ps| && 0 <= k < |rules| && rules[k].1.prefix == ps[j] ==>
              exists m :: 0 <= m < k && rules[m].1.prefix == ps[i]
  {
    var all := RulePrefixes(rules);
    var ps := Dedup(all);
    DedupOfPrefixes(rules, all, ps);
    DedupOfPrefixesOrder(rules, all, ps);
    ps
  }

  /** `Dedup`'s membership facts read back through the rules' prefixes. */
  lemma DedupOfPrefixes(rules: seq<(string, PathRule)>, all: seq<string>, ps: seq<string>)
    requires |all| == |rules| && forall i :: 0 <= i < |rules| ==> all[i] == rules[i].1.prefix
    requires ps == Dedup(all)
    ensures forall i :: 0 <= i < |rules| ==> rules[i].1.prefix in ps
    ensures forall j :: 0 <= j < |ps| ==> exists i :: 0 <= i < |rules| && rules[i].1.prefix == ps[j]
  {
    forall i | 0 <= i < |rules| ensures rules[i].1.prefix in ps {
      assert all[i] in all;
    }
    forall j | 0 <= j < |ps|
      ensures exists i :: 0 <= i < |rules| && rules[i].1.prefix == ps[j]
    {
      assert ps[j] in all;
      var i :| 0 <= i < |all| && all[i] == ps[j];
      assert rules[i].1.prefix == ps[j];
    }
  }

  /** `Dedup`'s order fact read back through the rules' prefixes. */
  lemma DedupOfPrefixesOrder(rules: seq<(string, PathRule)>, all: seq<string>, ps: seq<string>)
    requires |all| == |rules| && forall i :: 0 <= i < |rules| ==> all[i] == rules[i].1.prefix
    requires ps == Dedup(all)
    ensures forall i, j, k :: 0 <= i < j < |ps| && 0 <= k < |rules| && rules[k].1.prefix == ps[j] ==>
              exists m :: 0 <= m < k && rules[m].1.prefix == ps[i]
  {
    forall i, j, k | 0 <= i < j < |ps| && 0 <= k < |rules| && rules[k].1.prefix == ps[j]
      ensures exists m :: 0 <= m < k && rules[m].1.prefix == ps[i]
    {
      assert all[k] == ps[j];
      assert ps[i] in all[..k];
      var m :| 0 <= m < k && all[..k][m] == ps[i];
      assert rules[m].1.prefix == ps[i];
    }
  }

  /** The two spellings of the URL tried in turn: the URL without the site
      URL (`nested`), then that with every `/` turned into `-` and trailing
      dashes dropped (`flat`, the layout of older posts). */
  function UrlForms(c: Config, url: string): seq<string>
  {
    var nested := ReplaceAll(url, c.baseUrl, "");
    [nested, RTrim(ReplaceAll(nested, "/", "-"), {'-'})]
  }

  const IndexHtml := "index.html"
  const SlashIndexHtml := "/index.html"
  const DotHtml := ".html"
  const DotMd := ".md"

  /** The suffix rules that turn a URL path into a Markdown path. The
      `index.html` test looks at the last ten characters but the replacement
      needs the slash before them, so `…/myindex.html` is left unchanged. */
  function MdPath(path: string): string
  {
    if EndsWith(path, IndexHtml) then ReplaceAll(path, SlashIndexHtml, DotMd)
    else if EndsWith(path, DotHtml) then ReplaceAll(path, DotHtml, DotMd)
    else if EndsWith(path, "/") then RTrim(path, {'/'}) + DotMd
    else path + DotMd
  }

  /** The `.html` sibling of a candidate: every trailing `m` and `d` is
      trimmed (a character set, not a suffix) and `html` appended. */
  function Sibling(path: string): string
  {
    RTrim(path, {'m', 'd'}) + "html"
  }

  /** Per prefix, the path `md` makes of the root, the prefix and the
      spelling, and then its sibling. */
  function Spelled(md: string -> string, root: string, prefixes: seq<string>, form: string): (r: seq<string>)
    ensures |r| == 2 * |prefixes|
  {
    if prefixes == [] then []
    else
      var n := |prefixes| - 1;
      var path := md(root + prefixes[n] + form);
      Spelled(md, root, prefixes[..n], form) + [path, Sibling(path)]
  }

  /** Entries `2j` and `2j+1` belong to prefix `j`. */
  lemma {:induction false} SpelledAt(md: string -> string, root: string, prefixes: seq<string>, form: string, j: int)
    requires 0 <= j < |prefixes|
    ensures Spelled(md, root, prefixes, form)[2 * j] == md(root + prefixes[j] + form)
    ensures Spelled(md, root, prefixes, form)[2 * j + 1] == Sibling(md(root + prefixes[j] + form))
  {
    var n := |prefixes| - 1;
    var init := prefixes[..n];
    if j < n {
      SpelledAt(md, root, init, form, j);
      assert init[j] == prefixes[j];
    }
  }

  /** One more prefix adds its two entries at the end. */
  lemma SpelledSnoc(md: string -> string, root: string, prefixes: seq<string>, form: string, prefix: string)
    ensures var path := md(root + prefix + form);
            Spelled(md, root, prefixes + [prefix], form) == Spelled(md, root, prefixes, form) + [path, Sibling(path)]
  {
    assert (prefixes + [prefix])[..|prefixes|] == prefixes;
  }

  /** The candidates for one spelling: per prefix, the Markdown path and then
      its sibling. */
  function FormCandidates(root: string, prefixes: seq<string>, form: string): (r: seq<string>)
    ensures |r| == 2 * |prefixes|
  {
    Spelled(MdPath, root, prefixes, form)
  }

  /** Candidates `2j` and `2j+1` of a spelling belong to prefix `j`. */
  lemma FormCandidatesAt(root: string, prefixes: seq<string>, form: string, j: int)
    requires 0 <= j < |prefixes|
    ensures FormCandidates(root, prefixes, form)[2 * j] == MdPath(root + prefixes[j] + form)
    ensures FormCandidates(root, prefixes, form)[2 * j + 1] == Sibling(MdPath(root + prefixes[j] + form))
  {
    SpelledAt(MdPath, root, prefixes, form, j);
  }

  /** The outer loop over the spellings. */
  function AllCandidates(root: string, prefixes: seq<string>, forms: seq<string>): seq<string>
  {
    if forms == [] then []
    else
      var n := |forms| - 1;
      AllCandidates(root, prefixes, forms[..n]) + FormCandidates(root, prefixes, forms[n])
  }

  /** `$possible_paths`. */
  function Candidates(c: Config, url: string): seq<string>
  {
    AllCandidates(ContentRoot(c), Prefixes(c.contentPaths), UrlForms(c, url))
  }

  /** `paths[i]` exists and no earlier candidate does. */
  predicate FirstIn(paths: seq<string>, fs: FileSystem, i: int)
  {
    0 <= i < |paths| && paths[i] in fs && forall j :: 0 <= j < i ==> paths[j] !in fs
  }

  lemma FirstInUnique(paths: seq<string>, fs: FileSystem, i: int, k: int)
    requires FirstIn(paths, fs, i) && FirstIn(paths, fs, k)
    ensures i == k
  {
  }

  /** The search with early return: the first existing candidate, or 404. */
  function FirstExisting(paths: seq<string>, fs: FileSystem): (r: Result<string>)
    ensures r.Ok? ==> r.value in fs && exists i :: FirstIn(paths, fs, i) && paths[i] == r.value
    ensures r.Err? ==> r.error == NotFound && forall i :: 0 <= i < |paths| ==> paths[i] !in fs
  {
    if paths == [] then Err(NotFound)
    else if paths[0] in fs then
      assert FirstIn(paths, fs, 0);
      Ok(paths[0])
    else
      var r := FirstExisting(paths[1..], fs);
      assert forall i :: 1 <= i < |paths| ==> paths[i] == paths[1..][i - 1];
      assert forall i :: FirstIn(paths[1..], fs, i) ==> FirstIn(paths, fs, i + 1);
      r
  }

  /** What `get_source_from_url` resolves `url` to. */
  function SourceFromUrl(c: Config, url: string, fs: FileSystem): Result<string>
  {
    FirstExisting(Candidates(c, url), fs)
  }

  /** The suffix rules of the inner loop. */
  method MarkdownPath(path: string) returns (p: string)
    ensures p == MdPath(path)
  {
    p := path;
    if EndsWith(p, IndexHtml) {
      p := ReplaceAll(p, SlashIndexHtml, DotMd);
    } else if EndsWith(p, DotHtml) {
      p := ReplaceAll(p, DotHtml, DotMd);
    } else if EndsWith(p, "/") {
      p := RTrim(p, {'/'}) + DotMd;
    } else {
      p := p + DotMd;
    }
  }

  /** The inner loop of `get_source_from_url`: every prefix with one
      spelling, each Markdown path followed by its sibling. */
  method SpellingCandidates(root: string, prefixes: seq<string>, form: string) returns (spelled: seq<string>)
    ensures spelled == FormCandidates(root, prefixes, form)
  {
    spelled := [];
    var j := 0;
    while j < |prefixes|
      invariant 0 <= j <= |prefixes|
      invariant spelled == FormCandidates(root, prefixes[..j], form)
    {
      var path := MarkdownPath(root + prefixes[j] + form);
      assert prefixes[..j + 1] == prefixes[..j] + [prefixes[j]];
      SpelledSnoc(MdPath, root, prefixes[..j], form, prefixes[j]);
      spelled := spelled + [path, RTrim(path, {'m', 'd'}) + "html"];
      j := j + 1;
    }
    assert prefixes[..j] == prefixes;
  }

  /** The outer loop of `get_source_from_url`: for each URL form in turn,
      the candidates of every prefix. */
  method FormLoop(root: string, prefixes: seq<string>, forms: seq<string>) returns (paths: seq<string>)
    ensures paths == AllCandidates(root, prefixes, forms)
  {
    paths := [];
    var f := 0;
    while f < |forms|
      invariant 0 <= f <= |forms|
      invariant paths == AllCandidates(root, prefixes, forms[..f])
    {
      var spelled := SpellingCandidates(root, prefixes, forms[f]);
      paths := paths + spelled;
      assert forms[..f + 1][..f] == forms[..f];
      f := f + 1;
    }
    assert forms[..f] == forms;
  }

  /** The two nested loops of `get_source_from_url` that fill
      `$possible_paths`. */
  method CandidatePaths(c: Config, url: string) returns (paths: seq<string>)
    ensures paths == Candidates(c, url)
  {
    var root := c.sourcePath + "content/";
    var prefixes := Prefixes(c.contentPaths);
    var nested := ReplaceAll(url, c.baseUrl, "");
    var flat := RTrim(ReplaceAll(nested, "/", "-"), {'-'});
    paths := FormLoop(root, prefixes, [nested, flat]);
  }

  /** The final loop of `get_source_from_url`: the first path that exists. */
  method FindExisting(paths: seq<string>, fs: FileSystem) returns (r: Result<string>)
    ensures r == FirstExisting(paths, fs)
  {
    var i := 0;
    while i < |paths|
      invariant 0 <= i <= |paths|
      invariant forall k :: 0 <= k < i ==> paths[k] !in fs
    {
      if paths[i] in fs {
        var first := FirstExisting(paths, fs);
        assert FirstIn(paths, fs, i);
        if first.Ok? {
          var k :| FirstIn(paths, fs, k) && paths[k] == first.value;
          FirstInUnique(paths, fs, i, k);
        }
        return Ok(paths[i]);
      }
      i := i + 1;
    }
    return Err(NotFound);
  }

  /** `get_source_from_url`: 404 when no candidate exists. */
  method GetSourceFromUrl(c: Config, url: string, fs: FileSystem) returns (r: Result<string>)
    ensures r == SourceFromUrl(c, url, fs)
  {
    var paths := CandidatePaths(c, url);
    r := FindExisting(paths, fs);
  }

  /** The candidate order: every prefix with the nested spelling first, then
      every prefix with the flat one; per prefix the Markdown path comes
      before its sibling; four candidates per distinct prefix in all. */
  lemma CandidateOrder(c: Config, url: string)
    ensures var root := ContentRoot(c);
            var ps := Prefixes(c.contentPaths);
            var forms := UrlForms(c, url);
            var cs := Candidates(c, url);
            |cs| == 4 * |ps| &&
            cs == FormCandidates(root, ps, forms[0]) + FormCandidates(root, ps, forms[1])
  {
    var root := ContentRoot(c);
    var ps := Prefixes(c.contentPaths);
    var forms := UrlForms(c, url);
    assert forms[..1][..0] == [];
    assert forms[..1] == [forms[0]];
    assert AllCandidates(root, ps, forms[..1]) == FormCandidates(root, ps, forms[0]);
    assert AllCandidates(root, ps, forms) == AllCandidates(root, ps, forms[..1]) + FormCandidates(root, ps, forms[1]);
  }

  /** A candidate is found exactly when it is the first that exists; with no
      candidate on disk the request ends with 404. */
  lemma SourceFromUrlFirstMatch(c: Config, url: string, fs: FileSystem, i: int)
    ensures FirstIn(Candidates(c, url), fs, i) ==> SourceFromUrl(c, url, fs) == Ok(Candidates(c, url)[i])
    ensures (forall p :: p in Candidates(c, url) ==> p !in fs) <==> SourceFromUrl(c, url, fs) == Err(NotFound)
  {
    var cs := Candidates(c, url);
    var r := SourceFromUrl(c, url, fs);
    if r.Ok? {
      var k :| FirstIn(cs, fs, k) && cs[k] == r.value;
      assert cs[k] in cs;
      if FirstIn(cs, fs, i) {
        FirstInUnique(cs, fs, i, k);
      }
    } else {
      forall p | p in cs ensures p !in fs {
        var k :| 0 <= k < |cs| && cs[k] == p;
      }
    }
  }

  /** For a Markdown path the character-set trim does what a suffix trim
      would: `x.md` has the sibling `x.html`. */
  lemma {:induction false} SiblingOfMd(p: string)
    requires EndsWith(p, ".md")
    ensures Sibling(p) == p[..|p| - 2] + "html"
  {
    var n := |p|;
    assert p[n - 3..] == ".md";
    assert p[n - 1] == 'd' && p[n - 2] == 'm' && p[n - 3] == '.';
    assert p[..n][..n - 1] == p[..n - 1];
    assert p[..n - 1][..n - 2] == p[..n - 2];
    assert RTrim(p[..n - 2], {'m', 'd'}) == p[..n - 2];
  }

  /** The site URL, a date segment and a slug, the way `create` forms them. */
  function PostUrl(c: Config, postType: string, slug: string, format: (string, int) -> string, ts: int): string
  {
    match RuleFor(c.contentPaths, postType)
    case None => c.baseUrl + slug + "/"
    case Some(rule) => c.baseUrl + format(rule.dateFormat, ts) + slug + "/"
  }

  /** The source file `create` writes for a post. */
  function PostPath(c: Config, postType: string, slug: string, format: (string, int) -> string, ts: int): string
  {
    match RuleFor(c.contentPaths, postType)
    case None => ContentRoot(c) + slug + ".md"
    case Some(rule) => ContentRoot(c) + rule.prefix + format(rule.dateFormat, ts) + slug + ".md"
  }

  /** `pat` starts at position `i` of `s`. */
  predicate OccursAt(s: string, pat: string, i: nat)
  {
    i + |pat| <= |s| && s[i..i + |pat|] == pat
  }

  /** `str_replace` of a pattern that does not occur changes nothing. */
  lemma {:induction false} ReplaceAbsent(s: string, pat: string, rep: string)
    requires forall i: nat :: !OccursAt(s, pat, i)
    ensures ReplaceAll(s, pat, rep) == s
    decreases |s|
  {
    if pat != [] && |s| >= |pat| {
      assert !OccursAt(s, pat, 0);
      forall i: nat ensures !OccursAt(s[1..], pat, i) {
        assert !OccursAt(s, pat, i + 1);
        if i + |pat| <= |s[1..]| {
          assert s[1..][i..i + |pat|] == s[i + 1..i + 1 + |pat|];
        }
      }
      ReplaceAbsent(s[1..], pat, rep);
      assert [s[0]] + s[1..] == s;
    }
  }

  /** Removing a leading site URL that occurs nowhere else. */
  lemma StripBaseUrl(base: string, rest: string)
    requires base != []
    requires forall i: nat :: !OccursAt(rest, base, i)
    ensures ReplaceAll(base + rest, base, "") == rest
  {
    assert (base + rest)[..|base|] == base;
    assert (base + rest)[|base|..] == rest;
    ReplaceAbsent(rest, base, "");
  }

  /** A path ending in `index.html` with no slash before it (such as
      `…/myindex.html`) passes the `index.html` test, but the replacement needs
      the slash: the path keeps its `.html`, and its sibling gets a second one. */
  lemma IndexWithoutSlash(p: string)
    requires EndsWith(p, IndexHtml)
    requires forall i: nat :: !OccursAt(p, SlashIndexHtml, i)
    ensures MdPath(p) == p
    ensures Sibling(p) == p + "html"
  {
    ReplaceAbsent(p, SlashIndexHtml, DotMd);
    assert p[|p| - 1] == IndexHtml[9] == 'l';
  }

  /** `str_replace` of a pattern that occurs only as the suffix: it is
      replaced there and nowhere else. The pattern's first character must not
      recur in it, so no occurrence can straddle the end of `x`. */
  lemma {:induction false} ReplaceAtEnd(x: string, pat: string, rep: string)
    requires pat != [] && forall k :: 0 < k < |pat| ==> pat[k] != pat[0]
    requires forall i: nat :: !OccursAt(x, pat, i)
    ensures ReplaceAll(x + pat, pat, rep) == x + rep
    decreases |x|
  {
    var s := x + pat;
    if x == [] {
      assert s == pat && s[..|pat|] == pat && s[|pat|..] == [];
    } else {
      assert s[..|pat|] != pat by {
        if |pat| <= |x| {
          assert !OccursAt(x, pat, 0);
          assert s[..|pat|] == x[..|pat|];
        } else {
          assert s[|x|] == pat[0];
          assert pat[|x|] != pat[0];
        }
      }
      forall i: nat ensures !OccursAt(x[1..], pat, i) {
        assert !OccursAt(x, pat, i + 1);
        if i + |pat| <= |x[1..]| {
          assert x[1..][i..i + |pat|] == x[i + 1..i + 1 + |pat|];
        }
      }
      ReplaceAtEnd(x[1..], pat, rep);
      assert s[1..] == x[1..] + pat;
      assert [x[0]] + (x[1..] + rep) == x + rep;
    }
  }

  /** A URL of a directory's `index.html` maps to the directory's Markdown
      file. */
  lemma IndexHtmlMdPath(x: string)
    requires forall i: nat :: !OccursAt(x, SlashIndexHtml, i)
    ensures MdPath(x + SlashIndexHtml) == x + DotMd
  {
    var p := x + SlashIndexHtml;
    assert p[|p| - 10..] == IndexHtml;
    ReplaceAtEnd(x, SlashIndexHtml, DotMd);
  }

  /** Any other `.html` URL maps to the Markdown file of the same name. */
  lemma HtmlMdPath(x: string)
    requires !EndsWith(x, "index")
    requires forall i: nat :: !OccursAt(x, DotHtml, i)
    ensures MdPath(x + DotHtml) == x + DotMd
  {
    var p := x + DotHtml;
    assert !EndsWith(p, IndexHtml);
    assert p[|p| - 5..] == DotHtml;
    ReplaceAtEnd(x, DotHtml, DotMd);
  }

  /** A URL with none of the three endings gets `.md` appended. */
  lemma PlainMdPath(p: string)
    requires !EndsWith(p, IndexHtml) && !EndsWith(p, DotHtml) && !EndsWith(p, "/")
    ensures MdPath(p) == p + DotMd
  {
  }

  /** A directory URL ending in `/` maps to the Markdown file of the
      directory. */
  lemma SlashUrlMdPath(x: string)
    requires x != [] && x[|x| - 1] != '/'
    ensures MdPath(x + "/") == x + ".md"
  {
    var p := x + "/";
    assert p[|p| - 1] == '/';
    assert !EndsWith(p, "index.html") by { assert p[|p| - 1] != "index.html"[9]; }
    assert !EndsWith(p, ".html") by { assert p[|p| - 1] != ".html"[4]; }
    assert p[..|p| - 1] == x;
  }

  /** Candidate `2j` is prefix `j` with the nested spelling. */
  lemma NestedCandidate(c: Config, url: string, j: int)
    requires 0 <= j < |Prefixes(c.contentPaths)|
    ensures Candidates(c, url)[2 * j]
            == MdPath(ContentRoot(c) + Prefixes(c.contentPaths)[j] + UrlForms(c, url)[0])
  {
    var root := ContentRoot(c);
    var ps := Prefixes(c.contentPaths);
    var forms := UrlForms(c, url);
    CandidateOrder(c, url);
    FormCandidatesAt(root, ps, forms[0], j);
    var block := FormCandidates(root, ps, forms[0]);
    assert Candidates(c, url)[2 * j] == block[2 * j];
  }

  /** The nested spelling of a post URL is the part after the site URL. */
  lemma NestedFormOfPostUrl(c: Config, rest: string)
    requires c.baseUrl != []
    requires forall i: nat :: !OccursAt(rest, c.baseUrl, i)
    ensures UrlForms(c, c.baseUrl + rest)[0] == rest
  {
    StripBaseUrl(c.baseUrl, rest);
  }

  /** The nested candidate of a post URL under the post's own prefix is the
      Markdown file `create` writes. */
  lemma NestedPostPath(root: string, prefix: string, seg: string, slug: string)
    requires slug != [] && slug[|slug| - 1] != '/'
    ensures MdPath(root + prefix + (seg + slug + "/")) == root + prefix + seg + slug + ".md"
  {
    var x := root + prefix + seg + slug;
    assert x[|x| - 1] == slug[|slug| - 1];
    SlashUrlMdPath(x);
    assert root + prefix + (seg + slug + "/") == root + prefix + seg + slug + "/";
  }

  /** The prefix of a configured rule is among the candidate prefixes. */
  lemma RulePrefixListed(rules: PathRules, postType: string)
    requires RuleFor(rules, postType).Some?
    ensures RuleFor(rules, postType).value.prefix in Prefixes(rules)
  {
    var rule := RuleFor(rules, postType).value;
    var k :| 0 <= k < |rules| && rules[k] == (postType, rule);
  }

  /** The URL `create` reports for a post leads back to the file it wrote: the
      file is among the candidates for that URL, so once it exists
      `get_source_from_url` finds a file. */
  lemma CreatedPostIsFound(c: Config, postType: string, slug: string, format: (string, int) -> string, ts: int)
    requires RuleFor(c.contentPaths, postType).Some?
    requires slug != [] && slug[|slug| - 1] != '/'
    requires c.baseUrl != []
    requires forall i: nat ::
      !OccursAt(format(RuleFor(c.contentPaths, postType).value.dateFormat, ts) + slug + "/", c.baseUrl, i)
    ensures PostPath(c, postType, slug, format, ts) in Candidates(c, PostUrl(c, postType, slug, format, ts))
  {
    var rule := RuleFor(c.contentPaths, postType).value;
    var seg := format(rule.dateFormat, ts);
    var rest := seg + slug + "/";
    var url := PostUrl(c, postType, slug, format, ts);
    assert url == c.baseUrl + rest;
    NestedFormOfPostUrl(c, rest);
    var ps := Prefixes(c.contentPaths);
    RulePrefixListed(c.contentPaths, postType);
    var j :| 0 <= j < |ps| && ps[j] == rule.prefix;
    NestedCandidate(c, url, j);
    NestedPostPath(ContentRoot(c), rule.prefix, seg, slug);
    assert Candidates(c, url)[2 * j] == PostPath(c, postType, slug, format, ts);
  }

  /** With no prefix to try, no URL form yields a candidate. */
  lemma {:induction false} NoPrefixNoCandidates(root: string, forms: seq<string>)
    ensures AllCandidates(root, [], forms) == []
    decreases |forms|
  {
    if forms != [] {
      NoPrefixNoCandidates(root, forms[..|forms| - 1]);
    }
  }

  /** A site without path rules: `create` writes `content/<slug>.md`, but the
      search only looks under the rules' prefixes, so the URL it returns
      resolves to nothing, even once the file exists. */
  lemma UnruledPostIsLost(c: Config, postType: string, slug: string, format: (string, int) -> string, ts: int, fs: FileSystem)
    requires c.contentPaths == []
    ensures PostPath(c, postType, slug, format, ts) == ContentRoot(c) + slug + ".md"
    ensures PostPath(c, postType, slug, format, ts) !in Candidates(c, PostUrl(c, postType, slug, format, ts))
    ensures SourceFromUrl(c, PostUrl(c, postType, slug, format, ts), fs) == Err(NotFound)
  {
    var url := PostUrl(c, postType, slug, format, ts);
    NoPrefixNoCandidates(ContentRoot(c), UrlForms(c, url));
    SourceFromUrlFirstMatch(c, url, fs, 0);
  }

  /** `write_file`: without `overwrite` an existing path is a conflict and
      nothing changes; otherwise exactly that path gets the new contents.
      Creating missing directories is not modelled: a directory is implied by
      the paths below it. */
  method WriteFile(fs: FileSystem, file: string, content: string, overwrite: bool) returns (r: Result<FileSystem>)
    ensures r.Err? <==> !overwrite && file in fs
    ensures r.Err? ==> r.error == FileConflict
    ensures r.Ok? ==> r.value == fs[file := content]
  {
    if file in fs && !overwrite {
      return Err(FileConflict);
    }
    r := Ok(fs[file := content]);
  }
}
