/** `create` (inc/content.php): the Micropub create action (section 3.3 of the
    W3C Micropub recommendation). The request's properties are normalised,
    the body is taken out, uploaded photos are merged, the post type is
    chosen, defaults, dates, the published flag and the slug are derived,
    and the post is written once, without overwriting, and rewritten when
    syndication returned URLs. */
module Create {
  import opened Values
  import opened Strings
  import opened Properties
  import opened Discovery
  import opened Slug
  import opened Codec
  import opened Paths

  /** A create request: the MF2 type (`$mf2['type'][0]`, such as `h-entry`),
      the MF2 properties, the uploaded photos and the `mp-syndicate-to`
      targets (none when the command is absent). */
  datatype CreateRequest = CreateRequest(
    h: string,
    properties: PropertyMap,
    photos: seq<Value>,
    syndicateTo: seq<string>)

  /** What `create` takes from outside: the clock (`date('Y-m-d H:i:s O')`),
      `strtotime`, `date($format, $ts)`, the event-time reformatting through
      `DateTime`, and the syndication plug-ins: for each target that has a
      `syndicate_<target>` function, the URL it returns or `None` for `false`. */
  datatype Env = Env(
    now: string,
    timestamp: Value -> int,
    format: (string, int) -> string,
    eventTime: Value -> string,
    syndicators: map<string, Option<string>>)

  /** The `date()` format of the generated slug: hours, minutes, seconds. */
  const His := "His"

  // ------------------------------------------------------------------- body

  /** The body: the `html` entry of `content`, else the `html` entry of its
      first element, else `content` itself; the empty string without one. */
  function BodyOf(p: PropertyMap): (body: Value)
    ensures body != Null
    ensures !IsSet(p, "content") ==> body == Str("")
    ensures IsSet(p, "content") && !IsArray(p["content"]) ==> body == p["content"]
    ensures IsSet(p, "content") && IsArray(p["content"]) && Field(p["content"], "html") != Null ==>
              body == Field(p["content"], "html")
    ensures IsSet(p, "content") && IsArray(p["content"]) && Field(p["content"], "html") == Null &&
            Field(Index0(p["content"]), "html") != Null ==>
              body == Field(Index0(p["content"]), "html")
    ensures IsSet(p, "content") && Field(p["content"], "html") == Null &&
            Field(Index0(p["content"]), "html") == Null ==>
              body == p["content"]
  {
    if !IsSet(p, "content") then Str("")
    else
      var c := p["content"];
      if IsArray(c) && Field(c, "html") != Null then Field(c, "html")
      else if IsArray(c) && Index0(c) != Null && Field(Index0(c), "html") != Null then Field(Index0(c), "html")
      else c
  }

  // ----------------------------------------------------------------- photos

  /** Uploaded photos become `photo`, or are appended after the photos the
      request names; merging into a value that is not a list is not modelled
      and fails. */
  function WithPhotos(p: PropertyMap, photos: seq<Value>): (r: Result<PropertyMap>)
    ensures photos == [] ==> r == Ok(p)
    ensures r.Err? ==> IsSet(p, "photo") && !p["photo"].List?
    ensures r.Ok? ==> r.value.Keys == p.Keys + (if photos == [] then {} else {"photo"})
    ensures r.Ok? ==> forall k :: k in p && k != "photo" ==> r.value[k] == p[k]
    ensures r.Ok? && photos != [] ==>
              r.value["photo"] == List((if IsSet(p, "photo") && p["photo"].List? then p["photo"].items else []) + photos)
    ensures photos != [] && IsSet(p, "photo") && !p["photo"].List? ==> r.Err?
  {
    if photos == [] then Ok(p)
    else if !IsSet(p, "photo") then assert [] + photos == photos; Ok(p["photo" := List(photos)])
    else if p["photo"].List? then Ok(p["photo" := List(p["photo"].items + photos)])
    else Err(TypeError)
  }

  // ------------------------------------------------------------------- type

  /** `preg_replace("/^h-/", '', $type)`. */
  function TypeName(h: string): string
  {
    if |h| >= 2 && h[..2] == "h-" then h[2..] else h
  }

  /** The post type: the MF2 type without `h-`, except that an `h-entry` is
      classified by post-type discovery. */
  function PostTypeOf(p: PropertyMap, h: string): string
  {
    if h != "h-entry" then TypeName(h) else PostTypeDiscovery(p)
  }

  /** The first stage of `create`: the properties without `content` and with
      the photos and `h`, the body, and the post type. */
  datatype Classified = Classified(props: PropertyMap, body: Value, postType: string)

  function ClassifiedOf(req: CreateRequest): Result<Classified>
  {
    var p := Normalized(req.properties);
    match WithPhotos(p - {"content"}, req.photos)
    case Err(e) => Err(e)
    case Ok(q) =>
      var typed := q["h" := Str(TypeName(req.h))];
      Ok(Classified(typed, BodyOf(p), PostTypeOf(typed, req.h)))
  }

  // ---------------------------------------------------------------- derived

  /** `array_merge($defaults, $properties)`: the request's values win. */
  function WithDefaults(c: Config, postType: string, p: PropertyMap): (r: PropertyMap)
    ensures r.Keys == p.Keys + (if postType in c.contentDefaults then c.contentDefaults[postType].Keys else {})
    ensures forall k :: k in p ==> r[k] == p[k]
    ensures forall k :: k in r && k !in p ==> r[k] == c.contentDefaults[postType][k]
  {
    if postType in c.contentDefaults then c.contentDefaults[postType] + p else p
  }

  /** An event with a start time: start and end are reformatted and the start
      becomes the post date. */
  function WithEventTimes(env: Env, postType: string, p: PropertyMap): PropertyMap
  {
    if postType == "event" && IsSet(p, "start") then
      var start := Str(env.eventTime(p["start"]));
      var q := p["start" := start]["date" := start];
      if IsSet(q, "end") then q["end" := Str(env.eventTime(q["end"]))] else q
    else p
  }

  /** The post date: `date` when the request has one, else `published`, else
      `created`, else the time of the request. */
  function DateOf(env: Env, p: PropertyMap): (d: Value)
    ensures d != Null
  {
    if IsSet(p, "date") then p["date"]
    else if IsSet(p, "published") then p["published"]
    else if IsSet(p, "created") then p["created"]
    else Str(env.now)
  }

  /** The date rule of `create`: the default `date` and the scan of the
      create-date properties that stops at the first one set. */
  method DateStep(env: Env, p: PropertyMap) returns (q: PropertyMap)
    ensures q == p["date" := DateOf(env, p)]
  {
    q := p;
    if !("date" in q && q["date"] != Null) {
      q := q["date" := Str(env.now)];
      var keys := ["published", "created"];
      var i := 0;
      while i < |keys|
        invariant 0 <= i <= |keys|
        invariant forall j :: 0 <= j < i ==> !IsSet(p, keys[j])
        invariant q == p["date" := Str(env.now)]
      {
        var key := keys[i];
        if key in q && q[key] != Null {
          assert i == 1 ==> !IsSet(p, keys[0]);
          q := q["date" := q[key]];
          break;
        }
        i := i + 1;
      }
      assert i == |keys| ==> !IsSet(p, keys[0]) && !IsSet(p, keys[1]);
    } else {
      assert p["date" := p["date"]] == p;
    }
  }

  /** `post-status` decides `published` and is then dropped. */
  function WithPublished(p: PropertyMap): (r: PropertyMap)
    ensures "published" in r && r["published"] == Bool(!(IsSet(p, "post-status") && IsDraft(p["post-status"])))
    ensures !IsSet(r, "post-status")
    ensures forall k :: k != "published" && k != "post-status" ==> (k in r <==> k in p) && (k in p ==> r[k] == p[k])
  {
    if IsSet(p, "post-status") then p["published" := Bool(!IsDraft(p["post-status"]))] - {"post-status"}
    else p["published" := Bool(true)]
  }

  /** What the slug is made from: `slug`, else `title`, else the time of day
      of the post date. */
  function SlugSource(env: Env, p: PropertyMap, ts: int): Value
  {
    if IsSet(p, "slug") then p["slug"]
    else if IsSet(p, "title") then p["title"]
    else Str(env.format(His, ts))
  }

  /** The three slug rules of `create`, in source order. `strtolower` rejects
      an array. */
  function WithSlug(env: Env, p: PropertyMap, ts: int): (r: Result<PropertyMap>)
    ensures r.Ok? ==> "slug" in r.value && r.value["slug"].Str? && IsSlug(r.value["slug"].s)
    ensures r.Ok? ==> forall k :: k != "slug" ==> (k in r.value <==> k in p) && (k in p ==> r.value[k] == p[k])
  {
    var p1 := if !IsSet(p, "title") && !IsSet(p, "slug") then p["slug" := Str(env.format(His, ts))] else p;
    var p2 := if IsSet(p1, "title") && !IsSet(p1, "slug") then p1["slug" := p1["title"]] else p1;
    if IsSet(p2, "slug") then
      if IsArray(p2["slug"]) then Err(TypeError)
      else
        Ok(p2["slug" := Str(Slugify(PhpString(p2["slug"])))])
    else Ok(p2)
  }

  /** Defaults, event times, the post date and the published flag. */
  function Dated(c: Config, env: Env, postType: string, p: PropertyMap): (r: PropertyMap)
    ensures "date" in r
  {
    var q := WithEventTimes(env, postType, WithDefaults(c, postType, p));
    WithPublished(q["date" := DateOf(env, q)])
  }

  /** The second stage of `create`: defaults, event times, date, published
      flag and slug, and the timestamp of the post date. */
  function Derived(c: Config, env: Env, postType: string, p: PropertyMap): (r: Result<(PropertyMap, int)>)
    ensures r.Ok? ==> "slug" in r.value.0 && r.value.0["slug"].Str? && IsSlug(r.value.0["slug"].s)
  {
    var dated := Dated(c, env, postType, p);
    var ts := env.timestamp(dated["date"]);
    match WithSlug(env, dated, ts)
    case Err(e) => Err(e)
    case Ok(s) => Ok((s, ts))
  }

  /** Everything `create` knows before it writes. */
  datatype Draft = Draft(props: PropertyMap, body: Value, postType: string, ts: int, slug: string)

  function Prepared(c: Config, env: Env, req: CreateRequest): (r: Result<Draft>)
    ensures r.Ok? ==> "slug" in r.value.props && r.value.props["slug"] == Str(r.value.slug) && IsSlug(r.value.slug)
  {
    match ClassifiedOf(req)
    case Err(e) => Err(e)
    case Ok(k) =>
      match Derived(c, env, k.postType, k.props)
      case Err(e) => Err(e)
      case Ok(d) => Ok(Draft(d.0, k.body, k.postType, d.1, d.0["slug"].s))
  }

  // ------------------------------------------------------------ syndication

  /** The front-matter key a syndication URL is stored under. */
  function UrlKey(target: string): string
  {
    target + "-url"
  }

  /** The plug-in for `target` exists and returned a URL. */
  predicate Syndicates(env: Env, target: string)
  {
    target in env.syndicators && env.syndicators[target].Some?
  }

  /** `$syndicated_urls`, target by target. */
  function SyndicatedUrls(env: Env, targets: seq<string>): map<string, string>
  {
    if targets == [] then map[]
    else
      var urls := SyndicatedUrls(env, targets[..|targets| - 1]);
      var t := targets[|targets| - 1];
      if Syndicates(env, t) then urls[UrlKey(t) := env.syndicators[t].value] else urls
  }

  /** The syndication URLs stored in the front matter as strings. */
  function WithSyndication(p: PropertyMap, urls: map<string, string>): PropertyMap
  {
    map k | k in p.Keys + urls.Keys :: if k in urls then Str(urls[k]) else p[k]
  }

  /** The loop that asks each target's plug-in. */
  method CollectSyndications(env: Env, targets: seq<string>) returns (urls: map<string, string>)
    ensures urls == SyndicatedUrls(env, targets)
  {
    urls := map[];
    for i := 0 to |targets|
      invariant urls == SyndicatedUrls(env, targets[..i])
    {
      var target := targets[i];
      if target in env.syndicators && env.syndicators[target].Some? {
        urls := urls[target + "-url" := env.syndicators[target].value];
      }
      assert targets[..i + 1][..i] == targets[..i];
    }
    assert targets[..|targets|] == targets;
  }

  /** The loop that copies the URLs into the front matter. */
  method AddSyndications(p: PropertyMap, urls: map<string, string>) returns (q: PropertyMap)
    ensures q == WithSyndication(p, urls)
  {
    q := p;
    var todo := urls.Keys;
    while todo != {}
      invariant todo <= urls.Keys
      invariant q == map k | k in p.Keys + (urls.Keys - todo) ::
                       if k in urls && k !in todo then Str(urls[k]) else p[k]
      decreases todo
    {
      var k :| k in todo;
      q := q[k := Str(urls[k])];
      todo := todo - {k};
    }
  }

  // ----------------------------------------------------------------- create

  /** The writes of `create` for a prepared post: the first write never
      overwrites; syndication URLs, when there are any, are merged and the
      file rewritten. The request answers with the post URL. */
  function Written(yaml: Yaml, env: Env, targets: seq<string>, d: Draft, file: string, url: string, fs: FileSystem): Outcome
  {
    if file in fs then Outcome(fs, Err(FileConflict))
    else
      var body := PhpString(d.body);
      var first := fs[file := BuildPost(yaml, d.props, body)];
      var urls := SyndicatedUrls(env, targets);
      if urls == map[] then Outcome(first, Ok(url))
      else Outcome(first[file := BuildPost(yaml, WithSyndication(d.props, urls), body)], Ok(url))
  }

  /** What `create` does. */
  function Created(c: Config, yaml: Yaml, env: Env, req: CreateRequest, fs: FileSystem): Outcome
  {
    match Prepared(c, env, req)
    case Err(e) => Outcome(fs, Err(e))
    case Ok(d) =>
      Written(yaml, env, req.syndicateTo, d,
              PostPath(c, d.postType, d.slug, env.format, d.ts),
              PostUrl(c, d.postType, d.slug, env.format, d.ts), fs)
  }

  /** The first stage, changing `$properties` step by step. */
  method ClassifyRequest(req: CreateRequest) returns (r: Result<Classified>)
    ensures r == ClassifiedOf(req)
  {
    var properties := NormalizeProperties(req.properties);
    var content: Value;
    if "content" in properties && properties["content"] != Null {
      var c := properties["content"];
      if IsArray(c) && Field(c, "html") != Null {
        content := Field(c, "html");
      } else if IsArray(c) && Index0(c) != Null && Field(Index0(c), "html") != Null {
        content := Field(Index0(c), "html");
      } else {
        content := c;
      }
    } else {
      content := Str("");
    }
    properties := properties - {"content"};
    if req.photos != [] {
      if !("photo" in properties && properties["photo"] != Null) {
        properties := properties["photo" := List(req.photos)];
      } else if properties["photo"].List? {
        properties := properties["photo" := List(properties["photo"].items + req.photos)];
      } else {
        return Err(TypeError);
      }
    }
    properties := properties["h" := Str(TypeName(req.h))];
    var postType: string;
    if req.h != "h-entry" {
      postType := properties["h"].s;
    } else {
      postType := PostTypeDiscovery(properties);
    }
    return Ok(Classified(properties, content, postType));
  }

  /** Defaults, event times, date and published flag, changing `$properties`
      step by step. */
  method DateFields(c: Config, env: Env, postType: string, p: PropertyMap) returns (properties: PropertyMap)
    ensures properties == Dated(c, env, postType, p)
  {
    properties := p;
    if postType in c.contentDefaults {
      properties := c.contentDefaults[postType] + properties;
    }
    properties := EventStep(env, postType, properties);
    properties := DateStep(env, properties);
    properties := PublishedStep(properties);
  }

  /** The event rule: reformat `start` (and `end`) and date the post at the
      start. */
  method EventStep(env: Env, postType: string, p: PropertyMap) returns (properties: PropertyMap)
    ensures properties == WithEventTimes(env, postType, p)
  {
    properties := p;
    if postType == "event" && "start" in properties && properties["start"] != Null {
      properties := properties["start" := Str(env.eventTime(properties["start"]))];
      properties := properties["date" := properties["start"]];
      if "end" in properties && properties["end"] != Null {
        properties := properties["end" := Str(env.eventTime(properties["end"]))];
      }
    }
  }

  /** The published rule: `post-status` becomes the `published` flag. */
  method PublishedStep(p: PropertyMap) returns (properties: PropertyMap)
    ensures properties == WithPublished(p)
  {
    properties := p;
    if "post-status" in properties && properties["post-status"] != Null {
      properties := properties["published" := Bool(!IsDraft(properties["post-status"]))];
      properties := properties - {"post-status"};
    } else {
      properties := properties["published" := Bool(true)];
    }
  }

  /** The slug rules, changing `$properties` step by step. */
  method SlugStep(env: Env, p: PropertyMap, ts: int) returns (r: Result<PropertyMap>)
    ensures r == WithSlug(env, p, ts)
  {
    var properties := p;
    if !IsSet(properties, "title") && !IsSet(properties, "slug") {
      properties := properties["slug" := Str(env.format(His, ts))];
    }
    if IsSet(properties, "title") && !IsSet(properties, "slug") {
      properties := properties["slug" := properties["title"]];
    }
    if IsSet(properties, "slug") {
      if IsArray(properties["slug"]) {
        return Err(TypeError);
      }
      properties := properties["slug" := Str(Slugify(PhpString(properties["slug"])))];
    }
    return Ok(properties);
  }

  /** The second stage. */
  method FillFields(c: Config, env: Env, postType: string, p: PropertyMap) returns (r: Result<(PropertyMap, int)>)
    ensures r == Derived(c, env, postType, p)
  {
    var properties := DateFields(c, env, postType, p);
    var ts := env.timestamp(properties["date"]);
    var slugged := SlugStep(env, properties, ts);
    if slugged.Err? {
      return Err(slugged.error);
    }
    return Ok((slugged.value, ts));
  }

  /** The file name and URL of a new post. */
  method PostLocation(c: Config, postType: string, slug: string, format: (string, int) -> string, ts: int)
    returns (filename: string, url: string)
    ensures filename == PostPath(c, postType, slug, format, ts)
    ensures url == PostUrl(c, postType, slug, format, ts)
  {
    var path := ContentRoot(c);
    url := c.baseUrl;
    var rule := RuleFor(c.contentPaths, postType);
    if rule.Some? {
      var datePart := format(rule.value.dateFormat, ts);
      path := path + rule.value.prefix + datePart;
      url := url + datePart;
    }
    filename := path + slug + ".md";
    url := url + slug + "/";
  }

  /** Writing the post, then syndicating it. */
  method WritePost(yaml: Yaml, env: Env, targets: seq<string>, d: Draft, filename: string, url: string, fs: FileSystem)
    returns (out: Outcome)
    ensures out == Written(yaml, env, targets, d, filename, url, fs)
  {
    var properties := d.props;
    var content := PhpString(d.body);
    var written := WriteFile(fs, filename, BuildPost(yaml, properties, content), false);
    if written.Err? {
      return Outcome(fs, Err(written.error));
    }
    var files := written.value;
    var urls := CollectSyndications(env, targets);
    if urls != map[] {
      properties := AddSyndications(properties, urls);
      var rewritten := WriteFile(files, filename, BuildPost(yaml, properties, content), true);
      files := rewritten.value;
    }
    return Outcome(files, Ok(url));
  }

  /** `create`. Rebuilding the site and the HTTP answer are not modelled. */
  method DoCreate(c: Config, yaml: Yaml, env: Env, req: CreateRequest, fs: FileSystem) returns (out: Outcome)
    ensures out == Created(c, yaml, env, req, fs)
  {
    var classified := ClassifyRequest(req);
    if classified.Err? {
      return Outcome(fs, Err(classified.error));
    }
    var k := classified.value;
    var derived := FillFields(c, env, k.postType, k.props);
    if derived.Err? {
      return Outcome(fs, Err(derived.error));
    }
    var properties := derived.value.0;
    var d := Draft(properties, k.body, k.postType, derived.value.1, properties["slug"].s);
    assert Prepared(c, env, req) == Ok(d);
    var filename, url := PostLocation(c, d.postType, d.slug, env.format, d.ts);
    out := WritePost(yaml, env, req.syndicateTo, d, filename, url, fs);
  }

  // ----------------------------------------------------------------- lemmas

  lemma UrlKeyInjective(a: string, b: string)
    requires UrlKey(a) == UrlKey(b)
    ensures a == b
  {
    assert a == UrlKey(a)[..|a|] && b == UrlKey(b)[..|b|];
  }

  /** Each target whose plug-in returned a URL is stored under
      `<target>-url` with that URL, whatever its position among the targets;
      nothing else is stored. */
  lemma {:induction false} SyndicatedUrlsSpec(env: Env, targets: seq<string>)
    ensures forall t :: UrlKey(t) in SyndicatedUrls(env, targets) <==> t in targets && Syndicates(env, t)
    ensures forall t :: UrlKey(t) in SyndicatedUrls(env, targets) ==>
              Syndicates(env, t) && SyndicatedUrls(env, targets)[UrlKey(t)] == env.syndicators[t].value
    ensures forall k :: k in SyndicatedUrls(env, targets) ==> exists t :: k == UrlKey(t)
  {
    if targets != [] {
      var n := |targets| - 1;
      var last := targets[n];
      SyndicatedUrlsSpec(env, targets[..n]);
      assert targets == targets[..n] + [last];
      forall t | UrlKey(t) == UrlKey(last) ensures t == last {
        UrlKeyInjective(t, last);
      }
    }
  }

  /** The slug rules amount to: slugify `slug`, else `title`, else the time
      of day; an array there is rejected; nothing else changes. */
  lemma SlugRule(env: Env, p: PropertyMap, ts: int)
    ensures var src := SlugSource(env, p, ts);
            WithSlug(env, p, ts)
            == if IsArray(src) then Err(TypeError) else Ok(p["slug" := Str(Slugify(PhpString(src)))])
  {
    var src := SlugSource(env, p, ts);
    if !IsSet(p, "slug") && !IsArray(src) {
      var x := Str(Slugify(PhpString(src)));
      if IsSet(p, "title") {
        assert p["slug" := p["title"]]["slug" := x] == p["slug" := x];
      } else {
        assert p["slug" := Str(env.format(His, ts))]["slug" := x] == p["slug" := x];
      }
    }
  }

  /** Since `name` is renamed to `title` before discovery, a created
      `h-entry` is never classified as an article. */
  lemma CreateNeverArticle(req: CreateRequest)
    requires req.h == "h-entry"
    ensures ClassifiedOf(req).Ok? ==> ClassifiedOf(req).value.postType != "article"
  {
    var flat := Flattened(req.properties);
    MappedRenames(flat);
    var p := Normalized(req.properties);
    assert !IsSet(p, "name");
    match WithPhotos(p - {"content"}, req.photos)
    case Err(_) =>
    case Ok(q) =>
      var typed := q["h" := Str(TypeName(req.h))];
      assert !IsSet(typed, "name");
  }

  /** The date rules, over the properties merged with the type's defaults:
      an event with a start is dated at its reformatted start; any other post
      takes `date`, else `published` (read before it is overwritten by the
      flag), else `created`, else the clock; a `date` of the request wins
      over a default one. */
  lemma DateRules(c: Config, env: Env, postType: string, p: PropertyMap)
    ensures var q := WithDefaults(c, postType, p);
            postType == "event" && IsSet(q, "start") ==>
              Dated(c, env, postType, p)["date"] == Str(env.eventTime(q["start"]))
    ensures var q := WithDefaults(c, postType, p);
            !(postType == "event" && IsSet(q, "start")) ==>
              Dated(c, env, postType, p)["date"]
              == if IsSet(q, "date") then q["date"]
                 else if IsSet(q, "published") then q["published"]
                 else if IsSet(q, "created") then q["created"]
                 else Str(env.now)
    ensures var q := WithDefaults(c, postType, p);
            !(postType == "event" && IsSet(q, "start")) && IsSet(p, "date") ==>
              Dated(c, env, postType, p)["date"] == p["date"]
  {
    var q := WithDefaults(c, postType, p);
    var e := WithEventTimes(env, postType, q);
    var r := e["date" := DateOf(env, e)];
    assert Dated(c, env, postType, p) == WithPublished(r);
    assert WithPublished(r)["date"] == r["date"];
    if !(postType == "event" && IsSet(q, "start")) {
      assert e == q;
    }
  }

  /** What a prepared post always has: a date, a boolean `published`, no
      `post-status` left set, and a slug made of slug characters. */
  lemma PreparedFields(c: Config, env: Env, req: CreateRequest)
    ensures var r := Prepared(c, env, req);
            r.Ok? ==>
              "date" in r.value.props && "published" in r.value.props &&
              r.value.props["published"].Bool? && !IsSet(r.value.props, "post-status") &&
              IsSlug(r.value.slug)
  {
    match ClassifiedOf(req)
    case Err(_) =>
    case Ok(k) =>
      var dated := Dated(c, env, k.postType, k.props);
      var ts := env.timestamp(dated["date"]);
      assert WithSlug(env, dated, ts).Ok? ==> "published" in dated && dated["published"].Bool?;
  }

  /** The writes never overwrite: on a conflict nothing changes, and
      otherwise exactly the new path appears and every existing file is
      unchanged. */
  lemma WrittenNeverOverwrites(yaml: Yaml, env: Env, targets: seq<string>, d: Draft, file: string, url: string,
                               fs: FileSystem)
    ensures var out := Written(yaml, env, targets, d, file, url, fs);
            (out.result.Err? <==> file in fs) &&
            (out.result.Err? ==> out.fs == fs && out.result.error == FileConflict) &&
            (out.result.Ok? ==> out.fs.Keys == fs.Keys + {file} && forall g :: g in fs ==> out.fs[g] == fs[g])
  {
  }

  /** `create` never overwrites: on any error nothing changes, and on success
      exactly one new path appears and every existing file is unchanged. */
  lemma CreateNeverOverwrites(c: Config, yaml: Yaml, env: Env, req: CreateRequest, fs: FileSystem)
    ensures var out := Created(c, yaml, env, req, fs);
            out.result.Err? ==> out.fs == fs
    ensures var out := Created(c, yaml, env, req, fs);
            out.result.Ok? ==>
              Prepared(c, env, req).Ok? &&
              var d := Prepared(c, env, req).value;
              var file := PostPath(c, d.postType, d.slug, env.format, d.ts);
              file !in fs && out.fs.Keys == fs.Keys + {file} &&
              (forall g :: g in fs ==> out.fs[g] == fs[g])
  {
    match Prepared(c, env, req)
    case Err(_) =>
    case Ok(d) =>
      WrittenNeverOverwrites(yaml, env, req.syndicateTo, d,
                             PostPath(c, d.postType, d.slug, env.format, d.ts),
                             PostUrl(c, d.postType, d.slug, env.format, d.ts), fs);
  }

  /** The same request a second time, with the same clock, ends in a file
      conflict and changes nothing. */
  lemma CreateTwiceConflicts(c: Config, yaml: Yaml, env: Env, req: CreateRequest, fs: FileSystem)
    ensures var first := Created(c, yaml, env, req, fs);
            first.result.Ok? ==>
              Created(c, yaml, env, req, first.fs) == Outcome(first.fs, Err(FileConflict))
  {
  }

  /** The URL `create` answers with leads back to a file: for a type with a
      path rule, a non-empty slug and a site URL that does not reappear after
      itself, `get_source_from_url` succeeds on the new file system. */
  lemma CreatedPostResolves(c: Config, yaml: Yaml, env: Env, req: CreateRequest, fs: FileSystem, d: Draft)
    requires Prepared(c, env, req) == Ok(d)
    requires RuleFor(c.contentPaths, d.postType).Some?
    requires d.slug != [] && c.baseUrl != []
    requires forall i: nat ::
      !OccursAt(env.format(RuleFor(c.contentPaths, d.postType).value.dateFormat, d.ts) + d.slug + "/", c.baseUrl, i)
    ensures var out := Created(c, yaml, env, req, fs);
            out.result.Ok? ==> SourceFromUrl(c, out.result.value, out.fs).Ok?
  {
    var file := PostPath(c, d.postType, d.slug, env.format, d.ts);
    var url := PostUrl(c, d.postType, d.slug, env.format, d.ts);
    assert d.slug[|d.slug| - 1] != '/';
    CreatedPostIsFound(c, d.postType, d.slug, env.format, d.ts);
    assert Created(c, yaml, env, req, fs) == Written(yaml, env, req.syndicateTo, d, file, url, fs);
    WrittenIsFound(c, yaml, env, req.syndicateTo, d, file, url, fs);
  }

  /** Once written, a file that is a candidate for the URL is found. */
  lemma WrittenIsFound(c: Config, yaml: Yaml, env: Env, targets: seq<string>, d: Draft, file: string, url: string,
                       fs: FileSystem)
    requires file in Candidates(c, url)
    ensures var out := Written(yaml, env, targets, d, file, url, fs);
            out.result.Ok? ==> SourceFromUrl(c, out.result.value, out.fs).Ok?
  {
    var out := Written(yaml, env, targets, d, file, url, fs);
    if out.result.Ok? {
      assert file in out.fs && out.result.value == url;
      var cs := Candidates(c, url);
      var i :| 0 <= i < |cs| && cs[i] == file;
    }
  }

  // ------------------------------------------------------ canonical spelling

  /** The request's properties and photos and the configured defaults are in
      their canonical spelling. */
  predicate CanonicalRequest(c: Config, req: CreateRequest)
  {
    CanonicalMap(req.properties) &&
    (forall i :: 0 <= i < |req.photos| ==> Canonical(req.photos[i])) &&
    forall t :: t in c.contentDefaults ==> CanonicalMap(c.contentDefaults[t])
  }

  /** Proof helper: a list of canonical items followed by more canonical
      items is canonical. */
  lemma AppendCanonical(a: seq<Value>, b: seq<Value>)
    requires forall i :: 0 <= i < |a| ==> Canonical(a[i])
    requires forall i :: 0 <= i < |b| ==> Canonical(b[i])
    ensures Canonical(List(a + b))
  {
    forall i | 0 <= i < |a + b| ensures Canonical((a + b)[i]) {
      if i >= |a| {
        assert (a + b)[i] == b[i - |a|];
      }
    }
  }

  /** Merging canonical photos into canonical properties stays canonical. */
  lemma WithPhotosCanonical(p: PropertyMap, photos: seq<Value>)
    requires CanonicalMap(p) && forall i :: 0 <= i < |photos| ==> Canonical(photos[i])
    ensures WithPhotos(p, photos).Ok? ==> CanonicalMap(WithPhotos(p, photos).value)
  {
    var r := WithPhotos(p, photos);
    if r.Ok? && photos != [] {
      if IsSet(p, "photo") && p["photo"].List? {
        assert Canonical(p["photo"]);
        AppendCanonical(p["photo"].items, photos);
      } else {
        AppendCanonical([], photos);
      }
      forall k | k in r.value ensures Canonical(r.value[k]) {
        if k != "photo" {
          assert r.value[k] == p[k];
        }
      }
    }
  }

  /** The first stage of `create` keeps canonical values canonical. */
  lemma ClassifiedCanonical(c: Config, req: CreateRequest)
    requires CanonicalRequest(c, req)
    ensures ClassifiedOf(req).Ok? ==> CanonicalMap(ClassifiedOf(req).value.props)
  {
    var p := Normalized(req.properties);
    NormalizedCanonical(req.properties);
    WithPhotosCanonical(p - {"content"}, req.photos);
    match WithPhotos(p - {"content"}, req.photos)
    case Err(_) =>
    case Ok(q) =>
      CanonicalMapUpdate(q, "h", Str(TypeName(req.h)));
  }

  /** Canonical defaults merged into canonical properties stay canonical. */
  lemma WithDefaultsCanonical(c: Config, postType: string, p: PropertyMap)
    requires CanonicalMap(p) && forall t :: t in c.contentDefaults ==> CanonicalMap(c.contentDefaults[t])
    ensures CanonicalMap(WithDefaults(c, postType, p))
  {
    var r := WithDefaults(c, postType, p);
    forall k | k in r ensures Canonical(r[k]) {
      if k !in p {
        assert CanonicalMap(c.contentDefaults[postType]);
      }
    }
  }

  /** Event times are stored as strings. */
  lemma WithEventTimesCanonical(env: Env, postType: string, p: PropertyMap)
    requires CanonicalMap(p)
    ensures CanonicalMap(WithEventTimes(env, postType, p))
  {
    if postType == "event" && IsSet(p, "start") {
      var start := Str(env.eventTime(p["start"]));
      CanonicalMapUpdate(p, "start", start);
      CanonicalMapUpdate(p["start" := start], "date", start);
      var q := p["start" := start]["date" := start];
      if IsSet(q, "end") {
        CanonicalMapUpdate(q, "end", Str(env.eventTime(q["end"])));
      }
    }
  }

  /** Defaults, event times, the date and the flag keep canonical values
      canonical: every value they store is a string, a boolean, or a value
      already there. */
  lemma DatedCanonical(c: Config, env: Env, postType: string, p: PropertyMap)
    requires CanonicalMap(p) && forall t :: t in c.contentDefaults ==> CanonicalMap(c.contentDefaults[t])
    ensures CanonicalMap(Dated(c, env, postType, p))
  {
    var merged := WithDefaults(c, postType, p);
    WithDefaultsCanonical(c, postType, p);
    var q := WithEventTimes(env, postType, merged);
    WithEventTimesCanonical(env, postType, merged);
    var dated := q["date" := DateOf(env, q)];
    CanonicalMapUpdate(q, "date", DateOf(env, q));
    var r := WithPublished(dated);
    forall k | k in r ensures Canonical(r[k]) {
      if k != "published" {
        assert r[k] == dated[k];
      }
    }
  }

  /** The slug step keeps canonical values canonical: it stores a string
      under `slug` and leaves every other entry as it was. */
  lemma WithSlugCanonical(env: Env, p: PropertyMap, ts: int)
    requires CanonicalMap(p)
    ensures WithSlug(env, p, ts).Ok? ==> CanonicalMap(WithSlug(env, p, ts).value)
  {
    match WithSlug(env, p, ts)
    case Err(_) =>
    case Ok(r) =>
      forall k | k in r ensures Canonical(r[k]) {
        if k != "slug" {
          assert r[k] == p[k];
        }
      }
  }

  /** The second stage of `create` keeps canonical values canonical. */
  lemma DerivedCanonical(c: Config, env: Env, postType: string, p: PropertyMap)
    requires CanonicalMap(p) && forall t :: t in c.contentDefaults ==> CanonicalMap(c.contentDefaults[t])
    ensures Derived(c, env, postType, p).Ok? ==> CanonicalMap(Derived(c, env, postType, p).value.0)
  {
    var dated := Dated(c, env, postType, p);
    DatedCanonical(c, env, postType, p);
    WithSlugCanonical(env, dated, env.timestamp(dated["date"]));
  }

  /** The prepared front matter of a canonical request is canonical. */
  lemma PreparedCanonical(c: Config, env: Env, req: CreateRequest)
    requires CanonicalRequest(c, req)
    ensures Prepared(c, env, req).Ok? ==> CanonicalMap(Prepared(c, env, req).value.props)
  {
    ClassifiedCanonical(c, req);
    match ClassifiedOf(req)
    case Err(_) =>
    case Ok(k) =>
      DerivedCanonical(c, env, k.postType, k.props);
  }

  /** Syndication URLs are stored as strings. */
  lemma WithSyndicationCanonical(p: PropertyMap, urls: map<string, string>)
    requires CanonicalMap(p)
    ensures CanonicalMap(WithSyndication(p, urls))
  {
  }

  /** The body reads back: whether or not syndication rewrote the file,
      parsing it gives the body, trimmed, as `content`. */
  lemma WrittenBodyReadsBack(yaml: Yaml, env: Env, targets: seq<string>, d: Draft, file: string, url: string,
                             fs: FileSystem)
    requires Faithful(yaml) && CanonicalMap(d.props)
    ensures var out := Written(yaml, env, targets, d, file, url, fs);
            out.result.Ok? ==>
              file in out.fs && Parsed(yaml, out.fs[file]).Ok? &&
              "content" in Parsed(yaml, out.fs[file]).value &&
              Parsed(yaml, out.fs[file]).value["content"] == List([Str(Trim(PhpString(d.body)))])
  {
    var body := PhpString(d.body);
    var urls := SyndicatedUrls(env, targets);
    if file !in fs {
      if urls == map[] {
        ParseBuildRoundTrip(yaml, d.props, body);
      } else {
        WithSyndicationCanonical(d.props, urls);
        ParseBuildRoundTrip(yaml, WithSyndication(d.props, urls), body);
      }
    }
  }

  /** End to end: a created post whose request content is the single string
      `x` reads back with `x`, trimmed, as its body. */
  lemma CreatedBodyReadsBack(c: Config, yaml: Yaml, env: Env, req: CreateRequest, fs: FileSystem, x: string)
    requires Faithful(yaml) && CanonicalRequest(c, req)
    requires "content" in req.properties && req.properties["content"] == List([Str(x)])
    ensures var out := Created(c, yaml, env, req, fs);
            out.result.Ok? ==>
              Prepared(c, env, req).Ok? &&
              var d := Prepared(c, env, req).value;
              var file := PostPath(c, d.postType, d.slug, env.format, d.ts);
              file in out.fs && Parsed(yaml, out.fs[file]).Ok? &&
              "content" in Parsed(yaml, out.fs[file]).value &&
              Parsed(yaml, out.fs[file]).value["content"] == List([Str(Trim(x))])
  {
    var flat := Flattened(req.properties);
    assert flat["content"] == Str(x);
    MappedRenames(flat);
    assert Normalized(req.properties)["content"] == Str(x);
    assert BodyOf(Normalized(req.properties)) == Str(x);
    match Prepared(c, env, req)
    case Err(_) =>
    case Ok(d) =>
      assert d.body == Str(x);
      PreparedCanonical(c, env, req);
      WrittenBodyReadsBack(yaml, env, req.syndicateTo, d,
                           PostPath(c, d.postType, d.slug, env.format, d.ts),
                           PostUrl(c, d.postType, d.slug, env.format, d.ts), fs);
  }

  /** The syndication URLs are in the front matter: reading the written post
      back gives `<target>-url` as the one-element list of the URL its
      plug-in returned. */
  lemma SyndicationReadsBack(yaml: Yaml, env: Env, targets: seq<string>, d: Draft, file: string, url: string,
                             fs: FileSystem, t: string)
    requires Faithful(yaml) && CanonicalMap(d.props)
    requires t in targets && Syndicates(env, t)
    ensures var out := Written(yaml, env, targets, d, file, url, fs);
            out.result.Ok? ==>
              file in out.fs && Parsed(yaml, out.fs[file]).Ok? &&
              UrlKey(t) in Parsed(yaml, out.fs[file]).value &&
              Parsed(yaml, out.fs[file]).value[UrlKey(t)] == List([Str(env.syndicators[t].value)])
  {
    if file !in fs {
      var urls := SyndicatedUrls(env, targets);
      SyndicatedEntry(env, targets, d.props, t);
      var props := WithSyndication(d.props, urls);
      var body := PhpString(d.body);
      assert Written(yaml, env, targets, d, file, url, fs).fs[file] == BuildPost(yaml, props, body);
      ParsedEntry(yaml, props, body, UrlKey(t));
    }
  }

  /** The rewritten front matter holds a syndicating target's URL under its
      key, which is not `content`, and stays canonical. */
  lemma SyndicatedEntry(env: Env, targets: seq<string>, p: PropertyMap, t: string)
    requires CanonicalMap(p)
    requires t in targets && Syndicates(env, t)
    ensures UrlKey(t) in SyndicatedUrls(env, targets)
    ensures var props := WithSyndication(p, SyndicatedUrls(env, targets));
            CanonicalMap(props) && UrlKey(t) != "content" &&
            UrlKey(t) in props && props[UrlKey(t)] == Str(env.syndicators[t].value)
  {
    var urls := SyndicatedUrls(env, targets);
    SyndicatedUrlsSpec(env, targets);
    WithSyndicationCanonical(p, urls);
    assert UrlKey(t) != "content" by {
      assert UrlKey(t)[|UrlKey(t)| - 1] == 'l';
    }
  }

}
