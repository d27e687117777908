/** `update`, `delete` and `undelete` (inc/content.php): the Micropub update
    action (section 3.4 of the W3C Micropub recommendation) applied to a
    post's source file, and the two actions that are rewritten into it. */
module Update {
  import opened Values
  import opened Strings
  import opened Properties
  import opened Codec
  import opened Paths

  /** One entry of the request's `delete` list: a bare property name removes
      that property; a name with values removes those values from it. */
  datatype Deletion = RemoveProperty(name: string) | RemoveValues(key: string, values: seq<Value>)

  /** An update request: the post URL and the `replace`, `add` and `delete`
      parts of the update. */
  datatype UpdateRequest = UpdateRequest(
    url: string,
    replace: map<string, seq<Value>>,
    add: map<string, seq<Value>>,
    deletions: seq<Deletion>)

  // ---------------------------------------------------------------- replace

  /** The replace phase: each named property takes the request's values. */
  function WithReplacements(p: PropertyMap, replace: map<string, seq<Value>>): PropertyMap
  {
    map k | k in p.Keys + replace.Keys :: if k in replace then List(replace[k]) else p[k]
  }

  method ReplacePhase(original: PropertyMap, replace: map<string, seq<Value>>) returns (p: PropertyMap)
    ensures p == WithReplacements(original, replace)
  {
    p := original;
    var todo := replace.Keys;
    while todo != {}
      invariant todo <= replace.Keys
      invariant p == map k | k in original.Keys + (replace.Keys - todo) ::
                       if k in replace && k !in todo then List(replace[k]) else original[k]
      decreases todo
    {
      var key :| key in todo;
      p := p[key := List(replace[key])];
      todo := todo - {key};
    }
  }

  // -------------------------------------------------------------------- add

  /** `array_merge` on a stored value that is not a list: PHP rejects a
      non-array, and associative arrays are not modelled (see README). */
  predicate AddFails(p: PropertyMap, add: map<string, seq<Value>>)
  {
    exists k :: k in add && k in p && !p[k].List?
  }

  /** The add phase: a missing property is created with the request's values;
      an existing one gets them appended after its own. */
  function WithAdditions(p: PropertyMap, add: map<string, seq<Value>>): Result<PropertyMap>
  {
    if AddFails(p, add) then Err(TypeError)
    else Ok(map k | k in p.Keys + add.Keys ::
              if k !in add then p[k]
              else if k in p then List(p[k].items + add[k])
              else List(add[k]))
  }

  /** The add loop part-way through: the keys still in `todo` keep their
      stored value, the others are merged. */
  function PartlyAdded(p: PropertyMap, add: map<string, seq<Value>>, todo: set<string>): PropertyMap
  {
    map k | k in p.Keys + (add.Keys - todo) ::
      if k !in add || k in todo then p[k]
      else if k in p && p[k].List? then List(p[k].items + add[k])
      else if k in p then p[k]
      else List(add[k])
  }

  lemma AddStep(p: PropertyMap, add: map<string, seq<Value>>, todo: set<string>, key: string, v: Value)
    requires key in todo && todo <= add.Keys
    requires v == if key in p && p[key].List? then List(p[key].items + add[key])
                  else if key in p then p[key] else List(add[key])
    ensures PartlyAdded(p, add, todo)[key := v] == PartlyAdded(p, add, todo - {key})
  {
  }

  lemma AllAdded(p: PropertyMap, add: map<string, seq<Value>>)
    requires !AddFails(p, add)
    ensures WithAdditions(p, add) == Ok(PartlyAdded(p, add, {}))
  {
    var m, n := WithAdditions(p, add).value, PartlyAdded(p, add, {});
    assert m.Keys == n.Keys;
    forall k | k in m ensures m[k] == n[k] {
      if k in add && k in p {
        assert p[k].List?;
      }
    }
    assert m == n;
  }

  method AddPhase(original: PropertyMap, add: map<string, seq<Value>>) returns (r: Result<PropertyMap>)
    ensures r == WithAdditions(original, add)
  {
    var p := original;
    var todo := add.Keys;
    assert p == PartlyAdded(original, add, todo);
    while todo != {}
      invariant todo <= add.Keys
      invariant forall k :: k in add && k !in todo && k in original ==> original[k].List?
      invariant p == PartlyAdded(original, add, todo)
      decreases todo
    {
      var key :| key in todo;
      var v;
      if key !in p {
        v := List(add[key]);
      } else if p[key].List? {
        v := List(p[key].items + add[key]);
      } else {
        assert AddFails(original, add);
        return Err(TypeError);
      }
      AddStep(original, add, todo, key, v);
      p := p[key := v];
      todo := todo - {key};
    }
    AllAdded(original, add);
    return Ok(p);
  }

  /** What the add phase gives when it succeeds, key by key. */
  lemma AdditionsOk(p: PropertyMap, add: map<string, seq<Value>>)
    requires !AddFails(p, add)
    ensures WithAdditions(p, add).Ok?
    ensures WithAdditions(p, add).value.Keys == p.Keys + add.Keys
    ensures forall k :: k in p && k !in add ==> WithAdditions(p, add).value[k] == p[k]
    ensures forall k :: k in add && k in p ==> WithAdditions(p, add).value[k] == List(p[k].items + add[k])
    ensures forall k :: k in add && k !in p ==> WithAdditions(p, add).value[k] == List(add[k])
  {
  }

  // ----------------------------------------------------------------- delete

  /** The string forms of the values to delete. */
  function StringsOf(values: seq<Value>): set<string>
  {
    set v | v in values :: PhpString(v)
  }

  /** `array_values(array_diff($xs, $values))`: the elements whose string form
      is not that of a deleted value, in their original order. */
  function Without(xs: seq<Value>, values: seq<Value>): (r: seq<Value>)
    ensures forall x :: x in r <==> x in xs && PhpString(x) !in StringsOf(values)
    ensures |r| <= |xs|
  {
    if xs == [] then []
    else
      var n := |xs| - 1;
      var r := Without(xs[..n], values) + (if PhpString(xs[n]) in StringsOf(values) then [] else [xs[n]]);
      assert xs == xs[..n] + [xs[n]];
      r
  }

  /** One entry of the delete phase. A bare name is removed only when it is
      set; removing values needs a list to remove them from. */
  function DeleteStep(p: PropertyMap, d: Deletion): Result<PropertyMap>
  {
    match d
    case RemoveProperty(name) => Ok(if IsSet(p, name) then p - {name} else p)
    case RemoveValues(key, values) =>
      if key in p && p[key].List? then Ok(p[key := List(Without(p[key].items, values))])
      else Err(TypeError)
  }

  /** The delete phase: the entries in request order. */
  function WithDeletions(p: PropertyMap, ds: seq<Deletion>): Result<PropertyMap>
  {
    if ds == [] then Ok(p)
    else
      match WithDeletions(p, ds[..|ds| - 1])
      case Err(e) => Err(e)
      case Ok(q) => DeleteStep(q, ds[|ds| - 1])
  }

  /** A failing entry ends the delete phase. */
  lemma {:induction false} DeletionsFailFast(p: PropertyMap, ds: seq<Deletion>, i: nat)
    requires i <= |ds| && WithDeletions(p, ds[..i]).Err?
    ensures WithDeletions(p, ds) == WithDeletions(p, ds[..i])
    decreases |ds|
  {
    if i < |ds| {
      var n := |ds| - 1;
      assert ds[..n][..i] == ds[..i];
      DeletionsFailFast(p, ds[..n], i);
    } else {
      assert ds[..i] == ds;
    }
  }

  method DeletePhase(original: PropertyMap, ds: seq<Deletion>) returns (r: Result<PropertyMap>)
    ensures r == WithDeletions(original, ds)
  {
    var p := original;
    var i := 0;
    while i < |ds|
      invariant 0 <= i <= |ds|
      invariant WithDeletions(original, ds[..i]) == Ok(p)
    {
      assert ds[..i + 1][..i] == ds[..i];
      var d := ds[i];
      if d.RemoveProperty? {
        if d.name in p && p[d.name] != Null {
          p := p - {d.name};
        }
      } else if d.key in p && p[d.key].List? {
        p := p[d.key := List(Without(p[d.key].items, d.values))];
      } else {
        DeletionsFailFast(original, ds, i + 1);
        return Err(TypeError);
      }
      i := i + 1;
    }
    assert ds[..i] == ds;
    return Ok(p);
  }

  // ----------------------------------------------------------------- update

  /** The three phases, strictly in the order replace, add, delete. */
  function Edited(original: PropertyMap, req: UpdateRequest): Result<PropertyMap>
  {
    match WithAdditions(WithReplacements(original, req.replace), req.add)
    case Err(e) => Err(e)
    case Ok(p) => WithDeletions(p, req.deletions)
  }

  /** The rewritten document: `content[0]` becomes the body, and the rest,
      normalised, the front matter. */
  function UpdatedDocument(yaml: Yaml, edited: PropertyMap): string
  {
    var content := Index0(if "content" in edited then edited["content"] else Null);
    BuildPost(yaml, Normalized(edited - {"content"}), PhpString(content))
  }

  /** The new contents of a file whose parsed properties are `props`. */
  function Rewritten(yaml: Yaml, props: PropertyMap, req: UpdateRequest): Result<string>
  {
    match Edited(Unmapped(props), req)
    case Err(e) => Err(e)
    case Ok(edited) => Ok(UpdatedDocument(yaml, edited))
  }

  /** The new contents `update` makes of a file's contents. */
  function RewrittenFile(yaml: Yaml, req: UpdateRequest, contents: string): Result<string>
  {
    match Parsed(yaml, contents)
    case Err(e) => Err(e)
    case Ok(props) => Rewritten(yaml, props, req)
  }

  /** `write_file` with `overwrite` set, when there is something to write. */
  function Overwritten(fs: FileSystem, file: string, r: Result<string>): Outcome
  {
    match r
    case Err(e) => Outcome(fs, Err(e))
    case Ok(document) => Outcome(fs[file := document], Ok(file))
  }

  /** What `update` does to the file it resolved: read and unmap it, apply the
      phases, and overwrite it. */
  function UpdatedFile(yaml: Yaml, req: UpdateRequest, fs: FileSystem, file: string): Outcome
    requires file in fs
  {
    Overwritten(fs, file, RewrittenFile(yaml, req, fs[file]))
  }

  /** What `update` does: resolve the URL (404 when no candidate exists),
      then rewrite the file. */
  function Updated(c: Config, yaml: Yaml, req: UpdateRequest, fs: FileSystem): Outcome
  {
    match SourceFromUrl(c, req.url, fs)
    case Err(e) => Outcome(fs, Err(e))
    case Ok(file) => UpdatedFile(yaml, req, fs, file)
  }

  /** The body of `update` between reading the file and writing it. */
  method RewriteProperties(yaml: Yaml, props: PropertyMap, req: UpdateRequest) returns (r: Result<string>)
    ensures r == Rewritten(yaml, props, req)
  {
    var original := UnmapProperties(props);
    original := ReplacePhase(original, req.replace);
    var added := AddPhase(original, req.add);
    if added.Err? {
      return Err(added.error);
    }
    var deleted := DeletePhase(added.value, req.deletions);
    if deleted.Err? {
      return Err(deleted.error);
    }
    original := deleted.value;
    var content := Index0(if "content" in original then original["content"] else Null);
    original := original - {"content"};
    original := NormalizeProperties(original);
    return Ok(BuildPost(yaml, original, PhpString(content)));
  }

  method UpdateFile(yaml: Yaml, req: UpdateRequest, fs: FileSystem, filename: string) returns (out: Outcome)
    requires filename in fs
    ensures out == UpdatedFile(yaml, req, fs, filename)
  {
    var parsed := ParseFile(yaml, fs[filename]);
    if parsed.Err? {
      return Outcome(fs, Err(parsed.error));
    }
    var document := RewriteProperties(yaml, parsed.value, req);
    if document.Err? {
      return Outcome(fs, Err(document.error));
    }
    var written := WriteFile(fs, filename, document.value, true);
    return Outcome(written.value, Ok(filename));
  }

  /** `update`. Rebuilding the site afterwards is not modelled. */
  method DoUpdate(c: Config, yaml: Yaml, req: UpdateRequest, fs: FileSystem) returns (out: Outcome)
    ensures out == Updated(c, yaml, req, fs)
  {
    var found := GetSourceFromUrl(c, req.url, fs);
    if found.Err? {
      return Outcome(fs, Err(found.error));
    }
    out := UpdateFile(yaml, req, fs, found.value);
  }

  /** `update` writes only the file it resolved: on an error nothing
      changes, and on success every other file is as it was and no file
      appears or disappears. */
  lemma UpdateTouchesOnlyItsFile(c: Config, yaml: Yaml, req: UpdateRequest, fs: FileSystem)
    ensures var out := Updated(c, yaml, req, fs);
            out.result.Err? ==> out.fs == fs
    ensures var out := Updated(c, yaml, req, fs);
            out.result.Ok? ==>
              out.result.value in fs && out.fs.Keys == fs.Keys &&
              forall g :: g in fs && g != out.result.value ==> out.fs[g] == fs[g]
  {
    match SourceFromUrl(c, req.url, fs)
    case Err(_) =>
    case Ok(file) =>
      UpdatedFileFootprint(yaml, req, fs, file);
  }

  lemma UpdatedFileFootprint(yaml: Yaml, req: UpdateRequest, fs: FileSystem, file: string)
    requires file in fs
    ensures var out := UpdatedFile(yaml, req, fs, file);
            (out.result.Err? ==> out.fs == fs) &&
            (out.result.Ok? ==> out.result.value == file && out.fs.Keys == fs.Keys &&
                                forall g :: g in fs && g != file ==> out.fs[g] == fs[g])
  {
    OverwrittenFootprint(fs, file, RewrittenFile(yaml, req, fs[file]));
  }

  lemma OverwrittenFootprint(fs: FileSystem, file: string, r: Result<string>)
    requires file in fs
    ensures var out := Overwritten(fs, file, r);
            (out.result.Err? ==> out.fs == fs) &&
            (out.result.Ok? ==> out.result.value == file && out.fs.Keys == fs.Keys &&
                                forall g :: g in fs && g != file ==> out.fs[g] == fs[g])
  {
  }

  // ------------------------------------------------------- delete, undelete

  /** The update `delete` and `undelete` send: replace `published` with
      `false` or `true`. */
  function PublishedRequest(url: string, published: bool): UpdateRequest
  {
    UpdateRequest(url, map["published" := [Bool(published)]], map[], [])
  }

  /** `undelete`. */
  method Undelete(c: Config, yaml: Yaml, url: string, fs: FileSystem) returns (out: Outcome)
    ensures out == Updated(c, yaml, PublishedRequest(url, true), fs)
  {
    out := DoUpdate(c, yaml, PublishedRequest(url, true), fs);
  }

  /** The file `delete` unlinks: the URL with the site URL replaced by the
      built site's root. */
  function BuiltFile(c: Config, url: string): string
  {
    ReplaceAll(url, c.baseUrl, c.basePath)
  }

  /** What `delete` does: unlink first, then mark the post unpublished. */
  function Deleted(c: Config, yaml: Yaml, url: string, fs: FileSystem): Outcome
  {
    var file := BuiltFile(c, url);
    if file !in fs then Outcome(fs, Err(UnlinkFailed))
    else Updated(c, yaml, PublishedRequest(url, false), fs - {file})
  }

  /** `delete`. */
  method Delete(c: Config, yaml: Yaml, url: string, fs: FileSystem) returns (out: Outcome)
    ensures out == Deleted(c, yaml, url, fs)
  {
    var filename := ReplaceAll(url, c.baseUrl, c.basePath);
    if filename !in fs {
      return Outcome(fs, Err(UnlinkFailed));
    }
    var unlinked := fs - {filename};
    out := DoUpdate(c, yaml, PublishedRequest(url, false), unlinked);
  }

  // ------------------------------------------------------------- properties

  /** `array_diff` keeps the order of what remains: deleting values from a
      concatenation deletes them from each part. */
  lemma WithoutSnoc(xs: seq<Value>, x: Value, values: seq<Value>)
    ensures Without(xs + [x], values)
            == Without(xs, values) + (if PhpString(x) in StringsOf(values) then [] else [x])
  {
    assert (xs + [x])[..|xs|] == xs;
  }

  lemma {:induction false} WithoutConcat(xs: seq<Value>, ys: seq<Value>, values: seq<Value>)
    ensures Without(xs + ys, values) == Without(xs, values) + Without(ys, values)
    decreases |ys|
  {
    if ys == [] {
      assert xs + ys == xs;
    } else {
      var init, last := ys[..|ys| - 1], ys[|ys| - 1];
      assert ys == init + [last];
      assert xs + ys == (xs + init) + [last];
      WithoutSnoc(xs + init, last, values);
      WithoutSnoc(init, last, values);
      WithoutConcat(xs, init, values);
      var tail := if PhpString(last) in StringsOf(values) then [] else [last];
      Assoc(Without(xs, values), Without(init, values), tail);
    }
  }

  /** Proof helper: concatenation regrouped, kept apart so that
      `WithoutConcat` does not regroup `Without` terms itself. */
  lemma Assoc(a: seq<Value>, b: seq<Value>, c: seq<Value>)
    ensures a + b + c == a + (b + c)
  {
  }

  /** Deleting the same values twice deletes nothing more. */
  lemma {:induction false} WithoutIdempotent(xs: seq<Value>, values: seq<Value>)
    ensures Without(Without(xs, values), values) == Without(xs, values)
  {
    if xs != [] {
      var n := |xs| - 1;
      WithoutIdempotent(xs[..n], values);
      var tail := if PhpString(xs[n]) in StringsOf(values) then [] else [xs[n]];
      WithoutConcat(Without(xs[..n], values), tail, values);
      if tail != [] {
        assert tail[..0] == [];
      }
    }
  }

  /** Deleting `a` from `[a, b, a]` leaves `[b]`. */
  lemma WithoutExample(a: string, b: string)
    requires a != b
    ensures Without([Str(a), Str(b), Str(a)], [Str(a)]) == [Str(b)]
  {
    var x, y := Str(a), Str(b);
    assert StringsOf([x]) == {a};
    WithoutThree(x, y, [x]);
  }

  lemma WithoutThree(x: Value, y: Value, values: seq<Value>)
    requires PhpString(x) in StringsOf(values) && PhpString(y) !in StringsOf(values)
    ensures Without([x, y, x], values) == [y]
  {
    var one, two := [x], [x, y];
    assert [x, y, x] == two + [x] && two == one + [y] && one == [] + [x];
    WithoutSnoc([], x, values);
    assert Without(one, values) == [];
    WithoutSnoc(one, y, values);
    assert Without(two, values) == [y];
    WithoutSnoc(two, x, values);
  }

  /** An update with nothing to replace, add or delete changes nothing. */
  lemma NoEdits(p: PropertyMap, url: string)
    ensures Edited(p, UpdateRequest(url, map[], map[], [])) == Ok(p)
  {
    assert WithReplacements(p, map[]) == p;
    assert !AddFails(p, map[]);
    AdditionsOk(p, map[]);
    assert WithAdditions(p, map[]).value == p;
  }

  /** Replacing then adding on one key concatenates the two value lists. */
  lemma ReplaceThenAdd(original: PropertyMap, key: string, replaced: seq<Value>, added: seq<Value>)
    ensures WithAdditions(WithReplacements(original, map[key := replaced]), map[key := added])
            == Ok(original[key := List(replaced + added)])
  {
    var p := WithReplacements(original, map[key := replaced]);
    assert p == original[key := List(replaced)];
    assert !AddFails(p, map[key := added]);
    AdditionsOk(p, map[key := added]);
    assert WithAdditions(p, map[key := added]).value == original[key := List(replaced + added)];
  }

  /** A delete list of one entry is that entry's step. */
  lemma SingleDeletion(p: PropertyMap, d: Deletion)
    ensures WithDeletions(p, [d]) == DeleteStep(p, d)
  {
    assert [d][..0] == [];
  }

  /** The phases run in order on one property: the added values land after the
      replacing ones, and the deletion sees both. */
  lemma PhaseOrder(original: PropertyMap, url: string, key: string,
                   replaced: seq<Value>, added: seq<Value>, removed: seq<Value>)
    ensures Edited(original, UpdateRequest(url, map[key := replaced], map[key := added], [RemoveValues(key, removed)]))
            == Ok(original[key := List(Without(replaced + added, removed))])
  {
    ReplaceThenAdd(original, key, replaced, added);
    var q := original[key := List(replaced + added)];
    SingleDeletion(q, RemoveValues(key, removed));
    assert q[key := List(Without(replaced + added, removed))]
           == original[key := List(Without(replaced + added, removed))];
  }

  /** A whole property that the request adds to and then deletes is gone. */
  lemma AddThenRemoveProperty(original: PropertyMap, url: string, key: string, added: seq<Value>)
    requires key in original ==> original[key].List?
    ensures Edited(original, UpdateRequest(url, map[], map[key := added], [RemoveProperty(key)]))
            == Ok(original - {key})
  {
    var p := WithReplacements(original, map[]);
    assert p == original;
    assert !AddFails(p, map[key := added]);
    AdditionsOk(p, map[key := added]);
    var q := if key in original then original[key := List(original[key].items + added)]
             else original[key := List(added)];
    assert WithAdditions(p, map[key := added]).value == q;
    var ds := [RemoveProperty(key)];
    assert ds[..0] == [];
    assert WithDeletions(q, ds) == DeleteStep(q, RemoveProperty(key));
    assert q - {key} == original - {key};
  }

  /** The edit `delete` and `undelete` make: `published` becomes the
      one-element list of the flag. */
  lemma PublishedEdit(p: PropertyMap, url: string, published: bool)
    ensures Edited(p, PublishedRequest(url, published)).Ok?
    ensures Edited(p, PublishedRequest(url, published)).value == p["published" := List([Bool(published)])]
  {
    var r := WithReplacements(p, map["published" := [Bool(published)]]);
    assert r == p["published" := List([Bool(published)])];
    NoEdits(r, url);
  }

  /** Normalising flattens the flag back to a boolean. */
  lemma PublishedNormalized(edited: PropertyMap, published: bool)
    requires "published" in edited && edited["published"] == List([Bool(published)])
    ensures var fm := Normalized(edited - {"content"});
            "published" in fm && fm["published"] == Bool(published)
  {
    var rest := edited - {"content"};
    FlattenRules(rest, "published");
    MappedRenames(Flattened(rest));
  }

  /** Reading `doc` back gives `published` as the one-element list of the flag. */
  predicate ReadsPublished(yaml: Yaml, doc: string, published: bool)
  {
    var r := Parsed(yaml, doc);
    r.Ok? && "published" in r.value && r.value["published"] == List([Bool(published)])
  }

  /** A post built from front matter holding the flag reads it back. */
  lemma BuiltReadsPublished(yaml: Yaml, fm: PropertyMap, body: string, published: bool)
    requires Faithful(yaml) && CanonicalMap(fm)
    requires "published" in fm && fm["published"] == Bool(published)
    ensures ReadsPublished(yaml, BuildPost(yaml, fm, body), published)
  {
    ParsedEntry(yaml, fm, body, "published");
  }

  /** A document rewritten from properties holding the flag reads it back. */
  lemma DocumentReadsPublished(yaml: Yaml, edited: PropertyMap, published: bool)
    requires Faithful(yaml) && CanonicalMap(edited)
    requires "published" in edited && edited["published"] == List([Bool(published)])
    ensures ReadsPublished(yaml, UpdatedDocument(yaml, edited), published)
  {
    PublishedNormalized(edited, published);
    NormalizedCanonical(edited - {"content"});
    var content := Index0(if "content" in edited then edited["content"] else Null);
    BuiltReadsPublished(yaml, Normalized(edited - {"content"}), PhpString(content), published);
  }

  lemma PublishedDocument(yaml: Yaml, props: PropertyMap, url: string, published: bool)
    requires Faithful(yaml) && CanonicalMap(props)
    ensures Rewritten(yaml, props, PublishedRequest(url, published)).Ok?
    ensures ReadsPublished(yaml, Rewritten(yaml, props, PublishedRequest(url, published)).value, published)
  {
    PublishedEdit(Unmapped(props), url, published);
    var edited := Edited(Unmapped(props), PublishedRequest(url, published)).value;
    UnmappedCanonical(props);
    var flag := List([Bool(published)]);
    assert Canonical(flag) by {
      assert flag.items[0] == Bool(published);
    }
    CanonicalMapUpdate(Unmapped(props), "published", flag);
    DocumentReadsPublished(yaml, edited, published);
  }

  lemma PublishedFileReadsBack(yaml: Yaml, url: string, fs: FileSystem, file: string, published: bool)
    requires Faithful(yaml) && CanonicalDecoder(yaml) && file in fs
    ensures var out := UpdatedFile(yaml, PublishedRequest(url, published), fs, file);
            out.result.Ok? ==>
              out.result.value == file && file in out.fs && ReadsPublished(yaml, out.fs[file], published)
  {
    match Parsed(yaml, fs[file])
    case Err(_) =>
    case Ok(props) =>
      ParsedCanonical(yaml, fs[file]);
      PublishedDocument(yaml, props, url, published);
  }

  /** After `undelete` (`true`) or the update step of `delete` (`false`),
      reading the file back gives `published` as that one-element list. */
  lemma PublishedReadsBack(c: Config, yaml: Yaml, url: string, fs: FileSystem, published: bool)
    requires Faithful(yaml) && CanonicalDecoder(yaml)
    ensures var out := Updated(c, yaml, PublishedRequest(url, published), fs);
            out.result.Ok? ==>
              out.result.value in out.fs && ReadsPublished(yaml, out.fs[out.result.value], published)
  {
    match SourceFromUrl(c, url, fs)
    case Err(_) =>
    case Ok(file) =>
      PublishedFileReadsBack(yaml, url, fs, file, published);
  }

  /** `delete` unlinks before it updates. When the unlinked file is a
      candidate for the URL and the only one on disk, the update alone would
      have found it (first ensures); after the unlink the file is gone,
      nothing is marked unpublished, and the request ends with 404. */
  lemma DeleteUnlinksFirst(c: Config, yaml: Yaml, url: string, fs: FileSystem)
    requires BuiltFile(c, url) in fs
    requires BuiltFile(c, url) in Candidates(c, url)
    requires forall p :: p in Candidates(c, url) && p in fs ==> p == BuiltFile(c, url)
    ensures SourceFromUrl(c, url, fs) == Ok(BuiltFile(c, url))
    ensures Deleted(c, yaml, url, fs) == Outcome(fs - {BuiltFile(c, url)}, Err(NotFound))
  {
    var file := BuiltFile(c, url);
    var cs := Candidates(c, url);
    var k :| 0 <= k < |cs| && cs[k] == file;
    assert cs[k] in fs;
    var r := SourceFromUrl(c, url, fs);
    if r.Ok? {
      var i :| FirstIn(cs, fs, i) && cs[i] == r.value;
      assert cs[i] in cs;
    }
    var fs' := fs - {file};
    forall p | p in cs ensures p !in fs' {
    }
    SourceFromUrlFirstMatch(c, url, fs', 0);
  }

  /** After a `delete` that got past the unlink, the unlinked file exists only
      if the update step wrote that very path. */
  lemma DeleteRemovesBuiltFile(c: Config, yaml: Yaml, url: string, fs: FileSystem)
    ensures var out := Deleted(c, yaml, url, fs);
            out.result != Err(UnlinkFailed) ==>
              BuiltFile(c, url) !in out.fs || out.result == Ok(BuiltFile(c, url))
  {
    var file := BuiltFile(c, url);
    if file in fs {
      var fs' := fs - {file};
      var req := PublishedRequest(url, false);
      match SourceFromUrl(c, url, fs')
      case Err(_) =>
      case Ok(f) =>
        assert Updated(c, yaml, req, fs') == UpdatedFile(yaml, req, fs', f);
    }
  }
}
