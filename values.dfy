/** PHP values as the content pipeline sees them: MF2 properties, YAML front
    matter and the request's update lists, with the PHP semantics of `isset`,
    `$v[0]`, string conversion and loose comparison that the pipeline uses. */
module Values {

  /** A PHP value: `null`, a boolean, a string, a list (an array with keys
      0..n-1) or an associative array with string keys. */
  datatype Value =
    | Null
    | Bool(b: bool)
    | Str(s: string)
    | List(items: seq<Value>)
    | Obj(fields: map<string, Value>)

  /** A property map: property name to value. */
  type PropertyMap = map<string, Value>

  /** The error exits of the pipeline (the `quit` calls and the 404 `die`),
      plus the runtime type errors PHP raises on shapes the code does not expect. */
  datatype Error =
    | NotFound      // no candidate source file exists: 404
    | FileConflict  // write_file without overwrite on an existing path: 400 file_conflict
    | UnlinkFailed  // delete could not remove the file: 400 unlink_failed
    | TypeError     // PHP aborts the request with a type error

  datatype Result<T> = Ok(value: T) | Err(error: Error)

  datatype Option<T> = None | Some(value: T)

  /** HTTP status that the request ends with for each error. */
  function Status(e: Error): (code: int)
    ensures e == NotFound <==> code == 404
    ensures e in {FileConflict, UnlinkFailed} <==> code == 400
  {
    match e
    case NotFound => 404
    case FileConflict => 400
    case UnlinkFailed => 400
    case TypeError => 500
  }

  /** `is_array($v)`. */
  predicate IsArray(v: Value)
  {
    v.List? || v.Obj?
  }

  /** `count($v)` for an array. */
  function Count(v: Value): nat
    requires IsArray(v)
  {
    if v.List? then |v.items| else |v.fields|
  }

  /** `$v[0]`: the first list element, the entry under key 0 of an associative
      array, the first character of a string (the empty string for an empty
      one), and `null` when there is none (PHP warns and yields null). */
  function Index0(v: Value): Value
  {
    match v
    case List(xs) => if |xs| > 0 then xs[0] else Null
    case Obj(m) => if "0" in m then m["0"] else Null
    case Str(s) => if |s| > 0 then Str([s[0]]) else Str("")
    case _ => Null
  }

  /** `$v[$key]` for a string key: the entry of an associative array, and
      `null` for anything else (lists have integer keys only). */
  function Field(v: Value, key: string): Value
  {
    if v.Obj? && key in v.fields then v.fields[key] else Null
  }

  /** `isset($m[$k])`: the key is present and its value is not null. */
  predicate IsSet(m: PropertyMap, k: string)
  {
    k in m && m[k] != Null
  }

  /** `(string) $v`, as used by concatenation and by `array_diff`. */
  function PhpString(v: Value): string
  {
    match v
    case Null => ""
    case Bool(b) => if b then "1" else ""
    case Str(s) => s
    case List(_) => "Array"
    case Obj(_) => "Array"
  }

  /** `$v == 'draft'` under PHP 8 loose comparison: a string compares as a
      string, a boolean against the truthiness of the non-empty string 'draft',
      null as the empty string, and an array is never equal to a string. */
  predicate IsDraft(v: Value)
  {
    match v
    case Null => false
    case Bool(b) => b
    case Str(s) => s == "draft"
    case List(_) => false
    case Obj(_) => false
  }

  /** The decimal spelling of an integer array key. */
  function IndexKey(n: nat): (k: string)
    ensures k != []
    decreases n
  {
    var digit := [(('0' as int) + n % 10) as char];
    if n < 10 then digit else IndexKey(n / 10) + digit
  }

  /** One spelling per PHP array. PHP cannot tell `List([])` from
      `Obj(map[])`, nor `[x]` from `Obj(map["0" := x])`: an array is a list
      exactly when its keys are `0`..`n-1`. So a list is always spelled
      `List`, and `Obj` is kept for the arrays that are not lists: non-empty
      and missing one of those keys. */
  predicate Canonical(v: Value)
  {
    match v
    case List(items) => forall i :: 0 <= i < |items| ==> Canonical(items[i])
    case Obj(fields) =>
      fields != map[] && (exists n: nat :: n < |fields| && IndexKey(n) !in fields) &&
      forall k :: k in fields ==> Canonical(fields[k])
    case _ => true
  }

  /** Every property value is in its canonical spelling. */
  predicate CanonicalMap(m: PropertyMap)
  {
    forall k :: k in m ==> Canonical(m[k])
  }

  /** The two spellings of the empty array and of a one-element list: only
      the `List` one is canonical. */
  lemma OneSpellingPerArray(x: Value)
    requires Canonical(x)
    ensures Canonical(List([])) && !Canonical(Obj(map[]))
    ensures Canonical(List([x])) && !Canonical(Obj(map["0" := x]))
  {
    assert IndexKey(0) == "0";
  }

  /** `$v[0]` of a canonical value is canonical. */
  lemma Index0Canonical(v: Value)
    requires Canonical(v)
    ensures Canonical(Index0(v))
  {
    if v.List? && |v.items| > 0 {
      assert Canonical(v.items[0]);
    }
  }

  /** Storing a canonical value keeps a property map canonical. */
  lemma CanonicalMapUpdate(m: PropertyMap, k: string, v: Value)
    requires CanonicalMap(m) && Canonical(v)
    ensures CanonicalMap(m[k := v])
  {
  }
}
