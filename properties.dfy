/** `normalize_properties`, `map_properties` and `unmap_properties`
    (inc/content.php): flattening of single-valued MF2 lists and the rename
    table between MF2 names and Hugo front-matter names. */
module Properties {
  import opened Values

  /** `$array_props`: properties kept as lists even with a single value. */
  const ArrayProps: seq<string> := ["audio", "category", "photo", "read-status", "syndication", "video"]

  /** `$properties_to_map`: MF2 name to Hugo name, in table order. */
  const RenameTable: seq<(string, string)> := [("name", "title"), ("category", "tags")]

  /** The value `normalize_properties` stores for key `k`, before renaming. */
  function FlattenValue(k: string, v: Value): Value
  {
    if k in ArrayProps then v
    else if IsArray(v) && Count(v) == 1 && !IsArray(Index0(v)) then Index0(v)
    else v
  }

  /** The flattening loop of `normalize_properties`, as a map. */
  function Flattened(p: PropertyMap): PropertyMap
  {
    map k | k in p :: FlattenValue(k, p[k])
  }

  /** One step of the rename loop: move the value of `from` to `to` when
      `from` is set. */
  function RenameOne(p: PropertyMap, from: string, to: string): PropertyMap
  {
    if IsSet(p, from) then p[to := p[from]] - {from} else p
  }

  /** The rename loop over a whole table, entries applied in order. */
  function Renamed(p: PropertyMap, table: seq<(string, string)>): PropertyMap
  {
    if table == [] then p
    else
      var last := table[|table| - 1];
      RenameOne(Renamed(p, table[..|table| - 1]), last.0, last.1)
  }

  /** The table read the other way round, as `unmap_properties` does. */
  function Swapped(table: seq<(string, string)>): seq<(string, string)>
  {
    seq(|table|, i requires 0 <= i < |table| => (table[i].1, table[i].0))
  }

  function Mapped(p: PropertyMap): PropertyMap
  {
    Renamed(p, RenameTable)
  }

  function Unmapped(p: PropertyMap): PropertyMap
  {
    Renamed(p, Swapped(RenameTable))
  }

  /** What `normalize_properties` returns. */
  function Normalized(p: PropertyMap): PropertyMap
  {
    Mapped(Flattened(p))
  }

  method RenameProperties(props: PropertyMap, table: seq<(string, string)>) returns (r: PropertyMap)
    ensures r == Renamed(props, table)
  {
    r := props;
    var i := 0;
    while i < |table|
      invariant 0 <= i <= |table|
      invariant r == Renamed(props, table[..i])
    {
      var (mfprop, hugoprop) := table[i];
      if mfprop in r && r[mfprop] != Null {
        r := r[hugoprop := r[mfprop]];
        r := r - {mfprop};
      }
      assert table[..i + 1][..i] == table[..i];
      i := i + 1;
    }
    assert table[..i] == table;
  }

  /** `map_properties`. */
  method MapProperties(props: PropertyMap) returns (r: PropertyMap)
    ensures r == Mapped(props)
  {
    r := RenameProperties(props, RenameTable);
  }

  /** `unmap_properties`. */
  method UnmapProperties(props: PropertyMap) returns (r: PropertyMap)
    ensures r == Unmapped(props)
  {
    r := RenameProperties(props, Swapped(RenameTable));
  }

  /** `normalize_properties`. */
  method NormalizeProperties(properties: PropertyMap) returns (props: PropertyMap)
    ensures props == Normalized(properties)
  {
    var flat: PropertyMap := map[];
    var todo := properties.Keys;
    while todo != {}
      invariant todo <= properties.Keys
      invariant flat == map k | k in properties && k !in todo :: FlattenValue(k, properties[k])
      decreases todo
    {
      var k :| k in todo;
      var v := properties[k];
      if k in ArrayProps {
        flat := flat[k := v];
      } else if IsArray(v) && Count(v) == 1 && !IsArray(Index0(v)) {
        flat := flat[k := Index0(v)];
      } else {
        flat := flat[k := v];
      }
      todo := todo - {k};
    }
    assert flat == Flattened(properties);
    props := MapProperties(flat);
  }

  lemma RenamedPair(p: PropertyMap, a: string, b: string, c: string, d: string)
    ensures Renamed(p, [(a, b), (c, d)]) == RenameOne(RenameOne(p, a, b), c, d)
  {
    var t := [(a, b), (c, d)];
    assert t[..1] == [(a, b)];
    assert t[..1][..0] == [];
    assert Renamed(p, t[..1]) == RenameOne(Renamed(p, []), a, b);
    assert Renamed(p, t) == RenameOne(Renamed(p, t[..1]), c, d);
  }

  lemma MappedSteps(p: PropertyMap)
    ensures Mapped(p) == RenameOne(RenameOne(p, "name", "title"), "category", "tags")
  {
    RenamedPair(p, "name", "title", "category", "tags");
  }

  lemma UnmappedSteps(p: PropertyMap)
    ensures Unmapped(p) == RenameOne(RenameOne(p, "title", "name"), "tags", "category")
  {
    assert Swapped(RenameTable) == [("title", "name"), ("tags", "category")];
    RenamedPair(p, "title", "name", "tags", "category");
  }

  /** The three flattening rules: the list-valued properties are kept as they
      are; any other one-element list of a non-array is replaced by that
      element; everything else passes through; no key is added or dropped. */
  lemma FlattenRules(p: PropertyMap, k: string)
    ensures Flattened(p).Keys == p.Keys
    ensures k in p && k in ArrayProps ==> Flattened(p)[k] == p[k]
    ensures k in p && k !in ArrayProps && p[k].List? && |p[k].items| == 1 && !IsArray(p[k].items[0])
            ==> Flattened(p)[k] == p[k].items[0]
    ensures k in p && !IsArray(p[k]) ==> Flattened(p)[k] == p[k]
    ensures k in p && p[k].List? && |p[k].items| != 1 ==> Flattened(p)[k] == p[k]
    ensures k in p && p[k].List? && |p[k].items| == 1 && IsArray(p[k].items[0]) ==> Flattened(p)[k] == p[k]
    ensures k in p && k !in ArrayProps && p[k].Obj? && |p[k].fields| == 1 && !IsArray(Index0(p[k]))
            ==> Flattened(p)[k] == Index0(p[k])
    ensures k in p && p[k].Obj? && (|p[k].fields| != 1 || IsArray(Index0(p[k]))) ==> Flattened(p)[k] == p[k]
  {
  }

  /** A one-entry associative array not keyed `0` counts as a one-element
      array, but `$v[0]` is undefined there: the property becomes `null`,
      and the entry is lost. */
  lemma FlattenDropsObject(key: string, name: string, x: string)
    requires key !in ArrayProps && name != "0"
    ensures Flattened(map[key := Obj(map[name := Str(x)])])[key] == Null
  {
    var v := Obj(map[name := Str(x)]);
    assert v.fields.Keys == {name};
    assert Count(v) == 1;
  }

  /** `map_properties` renames `name` to `title` and `category` to `tags` when
      the source key is set, and leaves every other key alone. */
  lemma MappedRenames(p: PropertyMap)
    ensures IsSet(p, "name") ==> "name" !in Mapped(p) && "title" in Mapped(p) && Mapped(p)["title"] == p["name"]
    ensures IsSet(p, "category") ==> "category" !in Mapped(p) && "tags" in Mapped(p) && Mapped(p)["tags"] == p["category"]
    ensures !IsSet(p, "name") ==> ("name" in Mapped(p) <==> "name" in p) && ("name" in p ==> Mapped(p)["name"] == p["name"])
    ensures !IsSet(p, "name") ==> ("title" in Mapped(p) <==> "title" in p) && ("title" in p ==> Mapped(p)["title"] == p["title"])
    ensures !IsSet(p, "category") ==> ("category" in Mapped(p) <==> "category" in p) && ("category" in p ==> Mapped(p)["category"] == p["category"])
    ensures !IsSet(p, "category") ==> ("tags" in Mapped(p) <==> "tags" in p) && ("tags" in p ==> Mapped(p)["tags"] == p["tags"])
    ensures forall k :: k !in {"name", "title", "category", "tags"} ==>
              (k in Mapped(p) <==> k in p) && (k in p ==> Mapped(p)[k] == p[k])
  {
    MappedSteps(p);
  }

  /** `unmap_properties` undoes `map_properties` on any map that does not
      already use the Hugo names. */
  lemma UnmapMapRoundTrip(p: PropertyMap)
    requires "title" !in p && "tags" !in p
    ensures Unmapped(Mapped(p)) == p
  {
    MappedSteps(p);
    UnmappedSteps(Mapped(p));
  }

  /** And `map_properties` undoes `unmap_properties` on any map that does not
      already use the MF2 names. */
  lemma MapUnmapRoundTrip(p: PropertyMap)
    requires "name" !in p && "category" !in p
    ensures Mapped(Unmapped(p)) == p
  {
    UnmappedSteps(p);
    MappedSteps(Unmapped(p));
  }

  /** `normalize_properties` is not idempotent: a one-element `category` list
      survives the first pass (it is a list property) but is renamed to `tags`,
      which is not, so a second pass flattens it. Hence `update` unmaps the
      stored names before normalising again. */
  lemma NormalizeTwiceFlattensTags(x: string)
    ensures Normalized(map["category" := List([Str(x)])]) == map["tags" := List([Str(x)])]
    ensures Normalized(Normalized(map["category" := List([Str(x)])])) == map["tags" := Str(x)]
  {
    var p := map["category" := List([Str(x)])];
    assert Flattened(p) == p;
    MappedRenames(p);
    var q := map["tags" := List([Str(x)])];
    assert Mapped(p) == q;
    assert Flattened(q) == map["tags" := Str(x)];
    MappedRenames(map["tags" := Str(x)]);
  }

  // ------------------------------------------------------ canonical spelling

  /** Flattening keeps canonical values canonical: it keeps a value or takes
      its `[0]`. */
  lemma FlattenedCanonical(p: PropertyMap)
    requires CanonicalMap(p)
    ensures CanonicalMap(Flattened(p))
  {
    forall k | k in p ensures Canonical(Flattened(p)[k]) {
      Index0Canonical(p[k]);
    }
  }

  /** Renaming moves values without changing them. */
  lemma {:induction false} RenamedCanonical(p: PropertyMap, table: seq<(string, string)>)
    requires CanonicalMap(p)
    ensures CanonicalMap(Renamed(p, table))
    decreases |table|
  {
    if table != [] {
      var last := table[|table| - 1];
      var q := Renamed(p, table[..|table| - 1]);
      RenamedCanonical(p, table[..|table| - 1]);
      if IsSet(q, last.0) {
        CanonicalMapUpdate(q, last.1, q[last.0]);
      }
    }
  }

  /** `normalize_properties` keeps canonical values canonical. */
  lemma NormalizedCanonical(p: PropertyMap)
    requires CanonicalMap(p)
    ensures CanonicalMap(Normalized(p))
  {
    FlattenedCanonical(p);
    RenamedCanonical(Flattened(p), RenameTable);
  }

  /** `unmap_properties` keeps canonical values canonical. */
  lemma UnmappedCanonical(p: PropertyMap)
    requires CanonicalMap(p)
    ensures CanonicalMap(Unmapped(p))
  {
    RenamedCanonical(p, Swapped(RenameTable));
  }
}
