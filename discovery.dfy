/** `post_type_discovery` (inc/content.php): the indieweb post-type-discovery
    algorithm over a fixed, ordered vocabulary. */
module Discovery {
  import opened Values

  /** The vocabulary, in the order it is tested. */
  const Vocabulary: seq<string> :=
    ["rsvp", "in-reply-to", "repost-of", "like-of", "listen-of", "watch-of", "bookmark-of", "ate", "drank", "photo"]

  /** `vocab[i]` is the first entry of `vocab` that is set in `props`. */
  predicate FirstSetAt(props: PropertyMap, vocab: seq<string>, i: int)
  {
    0 <= i < |vocab| && IsSet(props, vocab[i]) && forall j :: 0 <= j < i ==> !IsSet(props, vocab[j])
  }

  /** The scan with early return: the first entry of `vocab` set in `props`,
      or the fallback. */
  function FirstSetOr(props: PropertyMap, vocab: seq<string>, fallback: string): (t: string)
    ensures forall i :: FirstSetAt(props, vocab, i) ==> t == vocab[i]
    ensures (forall i :: 0 <= i < |vocab| ==> !IsSet(props, vocab[i])) ==> t == fallback
    ensures t != fallback ==> t in vocab && IsSet(props, t)
  {
    if vocab == [] then fallback
    else if IsSet(props, vocab[0]) then vocab[0]
    else
      var t := FirstSetOr(props, vocab[1..], fallback);
      assert forall i :: 1 <= i && FirstSetAt(props, vocab, i) ==> FirstSetAt(props, vocab[1..], i - 1);
      t
  }

  /** `post_type_discovery`: the first vocabulary entry present; otherwise
      `article` when `name` is set, and `note` when it is not. */
  function PostTypeDiscovery(props: PropertyMap): (t: string)
    ensures t in Vocabulary + ["article", "note"]
    ensures t in Vocabulary ==> IsSet(props, t)
    ensures t == "article" ==> IsSet(props, "name")
  {
    FirstSetOr(props, Vocabulary, if IsSet(props, "name") then "article" else "note")
  }

  /** `post_type_discovery` as the source runs it: a `foreach` over the
      vocabulary that returns the first entry set, then the `name` test. */
  method DiscoverPostType(props: PropertyMap) returns (t: string)
    ensures t == PostTypeDiscovery(props)
  {
    var i := 0;
    while i < |Vocabulary|
      invariant 0 <= i <= |Vocabulary|
      invariant forall j :: 0 <= j < i ==> !IsSet(props, Vocabulary[j])
    {
      if IsSet(props, Vocabulary[i]) {
        DiscoveryPicksFirst(props, i);
        return Vocabulary[i];
      }
      i := i + 1;
    }
    DiscoveryFallback(props);
    if IsSet(props, "name") {
      return "article";
    }
    return "note";
  }

  /** The result is the first vocabulary entry set, whatever follows it. */
  lemma DiscoveryPicksFirst(props: PropertyMap, i: int)
    requires FirstSetAt(props, Vocabulary, i)
    ensures PostTypeDiscovery(props) == Vocabulary[i]
  {
  }

  /** With no vocabulary entry set, a set `name` makes an article and anything
      else a note; `title` plays no part. */
  lemma DiscoveryFallback(props: PropertyMap)
    requires forall i :: 0 <= i < |Vocabulary| ==> !IsSet(props, Vocabulary[i])
    ensures PostTypeDiscovery(props) == (if IsSet(props, "name") then "article" else "note")
  {
  }

  /** If some entry is set, a first one is. */
  lemma {:induction false} FirstSetExists(props: PropertyMap, vocab: seq<string>, k: int)
    requires 0 <= k < |vocab| && IsSet(props, vocab[k])
    ensures exists i :: FirstSetAt(props, vocab, i)
  {
    if !FirstSetAt(props, vocab, k) {
      var j :| 0 <= j < k && IsSet(props, vocab[j]);
      FirstSetExists(props, vocab, j);
    }
  }

  /** A reply with a photo is classified as a reply. */
  lemma ReplyWithPhoto(url: string, photo: string)
    ensures PostTypeDiscovery(map["in-reply-to" := List([Str(url)]), "photo" := List([Str(photo)])]) == "in-reply-to"
  {
    DiscoveryPicksFirst(map["in-reply-to" := List([Str(url)]), "photo" := List([Str(photo)])], 1);
  }

  /** Only `name` makes an article: a map holding just `title` is a note. */
  lemma TitleAloneIsNote(title: string)
    ensures PostTypeDiscovery(map["name" := Str(title)]) == "article"
    ensures PostTypeDiscovery(map["title" := Str(title)]) == "note"
  {
    DiscoveryFallback(map["name" := Str(title)]);
    DiscoveryFallback(map["title" := Str(title)]);
  }
}
