# micropub-to-Hugo content core, modelled in Dafny

This project models `inc/content.php`, the part of the Micropub endpoint that
turns create, update, delete and undelete requests into Markdown files with
YAML front matter. A static site generator (Hugo) then builds the site from
those files. The model covers:

- how a post URL is resolved to its source file (`get_source_from_url`);
- how a post file is read (`parse_file`) and written (`build_post`, `write_file`);
- the property pipeline: `normalize_properties`, `map_properties`, `unmap_properties`;
- `slugify`;
- post-type discovery;
- the three phases of `update`: replace, add, delete;
- `delete` and `undelete`, which rewrite the request into an update of `published`;
- the derivations of `create`: body, photos, type, defaults, event times, date,
  `published` flag, slug, path and URL, the write that never overwrites,
  and the rewrite after syndication.

Representation:

- Property values are PHP values: `Values.Value` (null, boolean, string, list,
  associative array).
- A property set is a `map<string, Value>`.
- The file system is a map from path to contents.
- Every request returns an `Outcome`: the new file system, plus the post path
  (update) or the post URL (create), or an error. The errors are 404 not found,
  400 file conflict, 400 unlink failed, and a PHP type error.
- PHP's `isset`, `$v[0]`, `$v['html']`, the string cast and the loose
  `== 'draft'` are written out in `values.dfy`.

The loops of the source that the model covers are Dafny methods with loop
invariants. Each such method is proved equal to a function, and the
properties are lemmas about those functions. The exceptions are the
`array_unique` and `rtrim`/`str_replace` library loops, which are functions.

The model follows the code wherever the code differs from the project's
description:

- `slugify` keeps `+`, because its character class is `[^-\w+]` (`Slug.SlugifyKeepsPlus`).
- `create` renames `name` to `title` before post-type discovery, and
  discovery tests `name`. So a created `h-entry` is never an `article`
  (`Create.CreateNeverArticle`), although a bare `title` would be expected to
  make one.
- The `.html` sibling of a candidate path is `rtrim($path, 'md') . 'html'`.
  That trims a character set, not a suffix. A `.md` path gets the right
  sibling only because the dot stops the trim (`Paths.SiblingOfMd`).
  The `index.html` test looks at the last ten characters, but the replacement
  needs `/index.html`. So a URL path ending in `myindex.html` stays unchanged,
  and its sibling is `…myindex.htmlhtml` (`Paths.IndexWithoutSlash`).
- `normalize_properties` flattens any one-entry array whose `[0]` is not an
  array. An associative array with one entry under another key has no `[0]`,
  so PHP reads null and the property becomes null
  (`Properties.FlattenDropsObject`). An update that touches a post holding
  such a property therefore writes the property back as null.
- A post type without a `content_paths` entry is written to
  `content/<slug>.md`, but `get_source_from_url` only searches under the
  configured prefixes. With no path rules at all, the URL `create` returns
  never resolves (`Paths.UnruledPostIsLost`).
- `delete` unlinks the path the URL maps to under `base_path` (the site URL
  replaced by `base_path`, nothing else changed) before it runs the update.
  For the `/`-ending URLs that `create` returns, that path is a directory, so
  `unlink` fails and the request ends with 400 `unlink_failed`; in the model
  the file system holds only files, so such a path is absent and gives the
  same error. When the mapped path is a file that is a candidate for the URL,
  and the only one on disk, the update alone would have found and unpublished
  it; after the unlink it fails with 404 and the post is never marked
  unpublished (`Update.DeleteUnlinksFirst`).

## Model

| member | source | states |
|---|---|---|
| Values.Status | inc/content.php:40-46 | the error statuses: not found is 404; a file conflict or failed unlink is 400 |
| Values.OneSpellingPerArray | inc/content.php:57 | `[]` and `[x]` have one canonical spelling, `List`; their associative-array spellings are not canonical |
| Strings.Dedup | inc/content.php:15 | `array_unique` of the prefixes: the same elements as the input, none twice, in the order of their first occurrence |
| Strings.RTrim | inc/content.php:18 | `rtrim`: the result is a prefix of the input, its last character is not trimmed, and everything cut off is a trimmed character |
| Strings.TrimIgnoresTrailing | inc/content.php:62 | trimming the body ignores a trailing newline |
| Strings.MaxKey | inc/content.php:176 | the greatest key of a non-empty key set, used to order the front matter |
| Properties.RenameProperties | inc/content.php:125-144 | the rename loop shared by map and unmap computes `Renamed` for the table |
| Properties.MapProperties | inc/content.php:125-134 | `map_properties` is the `name`→`title`, `category`→`tags` renaming |
| Properties.UnmapProperties | inc/content.php:135-144 | `unmap_properties` is the reverse renaming |
| Properties.NormalizeProperties | inc/content.php:99-117 | the flatten loop followed by `map_properties` computes `Normalized` |
| Properties.FlattenRules | inc/content.php:101-113 | flattening keeps the keys; array properties stay as they are; a one-element list of a scalar becomes the scalar; a one-entry associative array becomes its `[0]` entry (null when it has none) unless that entry is an array; any other value is unchanged |
| Properties.FlattenDropsObject | inc/content.php:107-109 | a one-entry associative array under a key other than `0` is flattened to null |
| Properties.MappedSteps | inc/content.php:121-132 | mapping is the two renamings, in table order |
| Properties.UnmappedSteps | inc/content.php:135-143 | unmapping is the two reverse renamings |
| Properties.MappedRenames | inc/content.php:125-134 | a set `name`/`category` moves to `title`/`tags` and disappears; an unset one leaves both keys as they were; other keys are untouched |
| Properties.UnmapMapRoundTrip | inc/content.php:125-144 | without `title` and `tags`, unmapping undoes mapping |
| Properties.MapUnmapRoundTrip | inc/content.php:125-144 | without `name` and `category`, mapping undoes unmapping |
| Properties.NormalizeTwiceFlattensTags | inc/content.php:99-117 | a one-element `category` becomes a `tags` list, and a second normalisation flattens it |
| Properties.NormalizedCanonical | inc/content.php:99-117 | `normalize_properties` keeps canonical values canonical |
| Properties.UnmappedCanonical | inc/content.php:135-144 | `unmap_properties` keeps canonical values canonical |
| Discovery.FirstSetOr | inc/content.php:161-165 | the first vocabulary entry set in the properties, or the fallback when none is; any other result is a set vocabulary entry |
| Discovery.PostTypeDiscovery | inc/content.php:150-172 | the type is a vocabulary entry that is set, `article` (only when `name` is set) or `note` |
| Discovery.DiscoverPostType | inc/content.php:150-172 | the `foreach` with early return, then the `name` test, computes `PostTypeDiscovery` |
| Discovery.DiscoveryPicksFirst | inc/content.php:161-165 | the post type is the first set entry of the vocabulary |
| Discovery.DiscoveryFallback | inc/content.php:166-171 | with no vocabulary entry set: `article` when `name` is set, `note` otherwise |
| Discovery.FirstSetExists | inc/content.php:161-165 | a set vocabulary entry implies a first set entry |
| Discovery.ReplyWithPhoto | inc/content.php:151-165 | a reply with a photo is `in-reply-to`, not `photo` |
| Discovery.TitleAloneIsNote | inc/content.php:166-171 | `name` alone gives `article`; `title` alone gives `note` |
| Slug.KeepSlugChars | inc/content.php:92 | the `preg_replace`: only slug characters remain, all of them from the input, and a string of slug characters is unchanged |
| Slug.KeepSlugCharsChar | inc/content.php:92 | one character is kept exactly when it is a slug character |
| Slug.KeepSlugCharsAppend | inc/content.php:92 | the replacement works piece by piece, so kept characters stay in their order |
| Slug.ToLower | inc/content.php:92 | `strtolower`, character by character, same length |
| Slug.ReplaceSpaceAbsent | inc/content.php:92 | replacing spaces changes nothing in a string without spaces |
| Slug.Slugify | inc/content.php:91-93 | a slug has only lower-case slug characters and no space |
| Slug.SlugifyFixesSlugs | inc/content.php:91-93 | a slug is its own slug |
| Slug.SlugifyIdempotent | inc/content.php:91-93 | slugifying twice is slugifying once |
| Slug.SlugifyByChars | inc/content.php:91-93 | the slug is the concatenation of the slugs of the characters |
| Slug.SlugifyCons | inc/content.php:92 | the slug of a string is the first character's slug followed by the rest's |
| Slug.SlugifyAppend | inc/content.php:92 | the slug of a concatenation is the concatenation of the slugs |
| Slug.SlugifyHelloWorld | inc/content.php:91-93 | "Hello, World!" gives "hello-world" |
| Slug.SlugifyKeepsPlus | inc/content.php:92 | "C++ Tips" gives "c++-tips" |
| Slug.SlugifyTimeSlug | inc/content.php:346-358 | the time-of-day slug "140509" is unchanged |
| Codec.KSorted | inc/content.php:176 | `ksort`: strictly increasing keys, exactly the map's entries |
| Codec.BuildPost | inc/content.php:175-178 | the document opens with a `---` line and ends with a `---` line, the body and a newline |
| Codec.RunEnd | inc/content.php:53 | the greedy `[\n]*`: the end of the run of newlines at a position |
| Codec.FindDelimiter | inc/content.php:53 | the leftmost delimiter match at or after a position, or none when no position matches |
| Codec.Split3 | inc/content.php:53 | one piece exactly when no delimiter matches, and then it is the whole input; otherwise the first piece is the text before the leftmost match and the last piece is a suffix of the input; with two pieces the second is all the text after the first match |
| Codec.SplitRest | inc/content.php:53 | after the first match: the rest of the input, or the text up to the next match and a suffix of the input |
| Codec.Split3TwoPieces | inc/content.php:53 | two pieces mean that no match follows the first one |
| Codec.Wrap | inc/content.php:56-60 | a scalar read back becomes a one-element list holding it; an array is kept as it is |
| Codec.FrontMatterIsWrapped | inc/content.php:56-61 | the wrap loop over the YAML entries wraps every value of their map |
| Codec.ParseFile | inc/content.php:49-64 | the split-and-wrap loop computes `Parsed` |
| Codec.WrapEntries | inc/content.php:56-61 | the loop over the decoded entries builds the wrapped front matter, later keys overwriting earlier ones |
| Codec.FirstDelimiter | inc/content.php:53 | a document that opens with `---` matches the delimiter at 0 |
| Codec.NoMatchInside | inc/content.php:53 | no delimiter matches inside YAML without a dash line |
| Codec.NoMatchBefore | inc/content.php:53 | no delimiter matches before the newlines that end the YAML |
| Codec.MatchAtTrailing | inc/content.php:53 | the closing delimiter matches where the YAML's trailing newlines start |
| Codec.FindDelimiterAt | inc/content.php:53 | a match with none before it is the one found |
| Codec.SecondDelimiter | inc/content.php:53 | the second delimiter is found right after the trimmed YAML |
| Codec.Split3At | inc/content.php:53 | the split at two found delimiters gives head, middle and rest |
| Codec.HeadSplit | inc/content.php:53 | a document that opens with YAML splits into empty head, trimmed YAML and rest |
| Codec.DocumentParts | inc/content.php:53 | a built document splits into "", its YAML without trailing newlines, and the body |
| Codec.BuiltParts | inc/content.php:175-178 | `preg_split` on `build_post`'s output gives back its YAML and body |
| Codec.ParseBuildRoundTrip | inc/content.php:49-64 | reading a post built from canonically spelled front matter gives it back wrapped, plus `content` = the trimmed body |
| Codec.ParsedEntry | inc/content.php:56-61 | each canonically spelled front-matter key except `content` reads back as its wrapped value |
| Codec.ParsedCanonical | inc/content.php:49-64 | under a decoder that spells values canonically, whatever `parse_file` reads is canonically spelled |
| Codec.FrontMatterCanonical | inc/content.php:56-61 | the wrap loop keeps canonical values canonical |
| Codec.EmptyArraysAlike | inc/content.php:176 | an encoder that writes `[]` and the empty associative array alike still reads `[]` back; only the latter, not canonical, is exempt |
| Codec.DashesInValueSplit | inc/content.php:53 | a `---` followed by a newline inside a YAML value is taken as the closing delimiter |
| Codec.DashesInValueMatches | inc/content.php:53 | in that document the delimiter matches inside the value and nowhere before it |
| Paths.RuleFor | inc/content.php:367-371 | a type's path rule exists exactly when the configuration lists the type |
| Paths.Prefixes | inc/content.php:15 | each rule's prefix once, nothing else, in the order of its first rule |
| Paths.RulePrefixes | inc/content.php:15 | `array_map` of `array_shift`: one prefix per rule, in the rules' order |
| Paths.DedupOfPrefixes | inc/content.php:15 | every rule's prefix is kept and every kept prefix is some rule's |
| Paths.DedupOfPrefixesOrder | inc/content.php:15 | the kept prefixes are ordered by the first rule that names each |
| Paths.FormCandidates | inc/content.php:19-38 | two candidates per prefix for a URL form |
| Paths.FormCandidatesAt | inc/content.php:19-38 | for each prefix: the Markdown path, then its `.html` sibling |
| Paths.MarkdownPath | inc/content.php:22-35 | the branches compute `MdPath`; the rules are the lemmas below |
| Paths.ReplaceAtEnd | inc/content.php:24 | `str_replace` of a pattern that occurs only at the end replaces just that end |
| Paths.IndexHtmlMdPath | inc/content.php:22-24 | a path ending in `/index.html`, with no other occurrence, ends in `.md` instead |
| Paths.HtmlMdPath | inc/content.php:25-27 | any other path ending in `.html`, with no other occurrence, ends in `.md` instead |
| Paths.PlainMdPath | inc/content.php:31-34 | a path with no `.html` and no `/` at the end gets `.md` appended |
| Paths.SpellingCandidates | inc/content.php:19-38 | the inner loop computes `FormCandidates` |
| Paths.FormLoop | inc/content.php:19-38 | the loop over the two URL forms computes `AllCandidates` |
| Paths.CandidatePaths | inc/content.php:14-39 | the candidate loop computes `Candidates` |
| Paths.FindExisting | inc/content.php:40-46 | the search loop returns the first existing candidate |
| Paths.GetSourceFromUrl | inc/content.php:10-47 | `get_source_from_url` computes `SourceFromUrl` |
| Paths.FirstExisting | inc/content.php:40-46 | the result exists, is a candidate with none existing before it; 404 exactly when none exists |
| Paths.FirstInUnique | inc/content.php:40-46 | the first existing candidate is unique |
| Paths.CandidateOrder | inc/content.php:17-39 | four candidates per prefix: all nested-form candidates, then all flat-form candidates |
| Paths.SourceFromUrlFirstMatch | inc/content.php:40-46 | the first existing candidate is returned; 404 exactly when no candidate exists |
| Paths.SiblingOfMd | inc/content.php:37 | a `.md` path's sibling is the `.html` path |
| Paths.IndexWithoutSlash | inc/content.php:22-37 | a path ending in `index.html` with no `/index.html` in it is kept as is, and its sibling is that path followed by `html` |
| Paths.SlashUrlMdPath | inc/content.php:28-30 | a URL ending in `/` maps to the path with `.md` |
| Paths.ReplaceAbsent | inc/content.php:17 | replacing a pattern that does not occur changes nothing |
| Paths.StripBaseUrl | inc/content.php:17 | removing the site URL from a post URL leaves the rest |
| Paths.NestedCandidate | inc/content.php:19-36 | the candidate for each prefix and the nested form |
| Paths.NestedFormOfPostUrl | inc/content.php:17 | the nested form of a post URL is its path part |
| Paths.NestedPostPath | inc/content.php:364-378 | the Markdown path of a post URL's path part is the post's file |
| Paths.RulePrefixListed | inc/content.php:15 | a type's rule prefix is searched |
| Paths.CreatedPostIsFound | inc/content.php:364-378 | the file `create` writes is a candidate for the URL it returns |
| Paths.NoPrefixNoCandidates | inc/content.php:19-38 | without prefixes there are no candidates |
| Paths.UnruledPostIsLost | inc/content.php:364-378 | without path rules, the written `content/<slug>.md` is no candidate and the returned URL gives 404 |
| Paths.WriteFile | inc/content.php:180-196 | a conflict exactly when the file exists and overwriting is off; otherwise the file gets the contents |
| Update.ReplacePhase | inc/content.php:226-228 | the replace loop sets each replaced property to the list of its new values |
| Update.AddStep | inc/content.php:229-237 | one addition moves one key from the pending set to the done set |
| Update.AllAdded | inc/content.php:229-237 | once nothing is pending, the additions are done |
| Update.AddPhase | inc/content.php:229-237 | the add loop computes `WithAdditions`, including the failure on a non-list value |
| Update.AdditionsOk | inc/content.php:229-237 | added values are appended after existing ones, new keys become lists, others are unchanged |
| Update.Without | inc/content.php:244-246 | `array_diff`: the kept values are those whose string form is not deleted |
| Update.DeletionsFailFast | inc/content.php:238-248 | after a failed deletion the rest of the list does not matter |
| Update.DeletePhase | inc/content.php:238-248 | the delete loop computes `WithDeletions` |
| Update.RewriteProperties | inc/content.php:225-252 | the three phases, then normalisation and the new document |
| Update.UpdateFile | inc/content.php:224-252 | the resolved file is parsed, edited and overwritten |
| Update.DoUpdate | inc/content.php:223-254 | `update` computes `Updated` |
| Update.UpdateTouchesOnlyItsFile | inc/content.php:223-254 | on an error nothing changes; on success only the resolved existing file changes |
| Update.UpdatedFileFootprint | inc/content.php:249-252 | updating a file changes no other file |
| Update.OverwrittenFootprint | inc/content.php:252 | an overwrite keeps the set of files and changes at most the one file |
| Update.Undelete | inc/content.php:214-221 | `undelete` is the update that sets `published` to `[true]` |
| Update.Delete | inc/content.php:198-212 | `delete` unlinks the path the URL maps to under `base_path`, failing with 400 when it is absent, and then updates `published` to `[false]` |
| Update.WithoutSnoc | inc/content.php:246 | `array_diff` of a list with one more value |
| Update.WithoutConcat | inc/content.php:246 | `array_diff` distributes over concatenation |
| Update.WithoutIdempotent | inc/content.php:246 | deleting the same values twice is deleting them once |
| Update.WithoutExample | inc/content.php:246 | deleting `a` from `[a, b, a]` leaves `[b]` |
| Update.WithoutThree | inc/content.php:246 | deleting a value that occurs twice around a kept one |
| Update.NoEdits | inc/content.php:226-248 | an empty request changes no property |
| Update.ReplaceThenAdd | inc/content.php:226-237 | values added to a replaced property follow the replacement |
| Update.SingleDeletion | inc/content.php:238-248 | a one-entry delete list is that entry's step |
| Update.PhaseOrder | inc/content.php:226-248 | replace, then add, then delete, on one property |
| Update.AddThenRemoveProperty | inc/content.php:229-243 | a property added to and then deleted is gone |
| Update.PublishedEdit | inc/content.php:207-209 | the delete/undelete request sets `published` to the one-element list and changes nothing else |
| Update.PublishedNormalized | inc/content.php:251 | normalisation flattens that list to the boolean |
| Update.BuiltReadsPublished | inc/content.php:175-178 | a post built from canonical front matter with `published` reads back with that flag |
| Update.DocumentReadsPublished | inc/content.php:249-252 | the document rewritten from canonical properties reads back with the flag |
| Update.PublishedDocument | inc/content.php:225-252 | the published edit never fails, and the document rewritten from canonical properties reads back with the flag |
| Update.PublishedFileReadsBack | inc/content.php:224-252 | the updated file reads back with the flag |
| Update.PublishedReadsBack | inc/content.php:214-221 | after a successful undelete, the resolved file reads back as published |
| Update.DeleteUnlinksFirst | inc/content.php:201-211 | when the unlinked file is the only candidate on disk, the update alone would find it, yet delete removes it and answers 404 |
| Update.DeleteRemovesBuiltFile | inc/content.php:201-211 | after the unlink, the file exists again only if the update wrote that path |
| Create.BodyOf | inc/content.php:267-277 | no content gives the empty body; an `html` entry, else a `[0]['html']` entry, is the body; otherwise the content itself |
| Create.WithPhotos | inc/content.php:282-289 | uploaded photos become `photo` when it is unset and are appended after the listed ones otherwise; other keys unchanged; a non-list `photo` fails |
| Create.WithDefaults | inc/content.php:301-303 | `array_merge`: default keys are added, and the request's values win |
| Create.DateOf | inc/content.php:317-328 | the post date is always set |
| Create.DateStep | inc/content.php:316-328 | the date loop sets `date` to `DateOf` |
| Create.WithPublished | inc/content.php:330-340 | `published` is false exactly for a draft, `post-status` is dropped, nothing else changes |
| Create.WithSlug | inc/content.php:345-358 | on success the slug is a slug string and nothing else changes |
| Create.Dated | inc/content.php:300-340 | the prepared properties have a date |
| Create.Derived | inc/content.php:300-358 | the derived properties have a slug |
| Create.Prepared | inc/content.php:256-358 | the prepared slug is stored under `slug` |
| Create.ClassifyRequest | inc/content.php:261-298 | normalisation, body, photos and type compute `ClassifiedOf` |
| Create.DateFields | inc/content.php:300-340 | defaults, event times, date and flag compute `Dated` |
| Create.EventStep | inc/content.php:305-314 | the event branch computes `WithEventTimes` |
| Create.PublishedStep | inc/content.php:330-340 | the status branch computes `WithPublished` |
| Create.SlugStep | inc/content.php:345-358 | the slug branches compute `WithSlug` |
| Create.FillFields | inc/content.php:300-358 | the derivations and the timestamp compute `Derived` |
| Create.PostLocation | inc/content.php:363-378 | the path and URL of the new post |
| Create.CollectSyndications | inc/content.php:393-401 | the syndication loop computes `SyndicatedUrls` |
| Create.AddSyndications | inc/content.php:402-406 | the copy loop computes `WithSyndication` |
| Create.WritePost | inc/content.php:380-416 | the writes compute `Written` |
| Create.DoCreate | inc/content.php:256-419 | `create` computes `Created` |
| Create.UrlKeyInjective | inc/content.php:398 | different targets get different `-url` keys |
| Create.SyndicatedUrlsSpec | inc/content.php:393-401 | a target's key is present exactly when its plug-in returned a URL, and holds that URL |
| Create.SlugRule | inc/content.php:345-358 | the slug is `slug`, else `title`, else the time of day, slugified; an array fails |
| Create.DateRules | inc/content.php:305-328 | an event with a start is dated at its start; otherwise `date`, else `published`, else `created`, else the clock; a request date wins over a default |
| Create.CreateNeverArticle | inc/content.php:261-298 | a created `h-entry` is never an article |
| Create.PreparedFields | inc/content.php:316-358 | a prepared post has a date, a boolean `published`, no `post-status` and a slug |
| Create.WrittenNeverOverwrites | inc/content.php:380-416 | a conflict exactly when the file exists; nothing changes then; otherwise only the new file is added |
| Create.CreateNeverOverwrites | inc/content.php:256-419 | on an error nothing changes; on success exactly one new file appears |
| Create.CreateTwiceConflicts | inc/content.php:380-383 | the same request again is a conflict that changes nothing |
| Create.CreatedPostResolves | inc/content.php:364-378 | the URL `create` returns resolves to a file |
| Create.WrittenIsFound | inc/content.php:383 | a written candidate file is found |
| Create.SyndicationReadsBack | inc/content.php:393-415 | each syndication URL reads back from the post rewritten from canonical front matter |
| Create.WrittenBodyReadsBack | inc/content.php:383-416 | a post written from canonical front matter reads back with `content` = the trimmed body |
| Create.CreatedBodyReadsBack | inc/content.php:256-419 | a created post whose request, photos and defaults are canonical and whose content is one string reads back with that content, trimmed |
| Create.PreparedCanonical | inc/content.php:256-358 | the prepared front matter of a canonical request is canonical |
| Create.WithSlugCanonical | inc/content.php:345-358 | the slug step keeps canonical properties canonical |
| Create.DerivedCanonical | inc/content.php:300-358 | defaults, dates, flag and slug keep canonical properties canonical |
| Create.SyndicatedEntry | inc/content.php:393-406 | the rewritten front matter holds each syndicating target's URL under its `-url` key and stays canonical |

## Left out

- HTTP: response headers, status output, `quit`/`die`, and the JSON of `show_content_source` (inc/content.php:66-89) are not modelled. Results are `Outcome` values with an `Error`.
- `build_site` and the background syndication handshake are not modelled.
- `inc/common.php` and `inc/twitter.php` are not part of this model. The syndication plug-ins are a fixed map from target to returned URL, and they ignore their arguments.
- Micropub request parsing (`$request->update`, `$request->commands`, `toMf2`) is not modelled. Requests arrive already parsed as `CreateRequest` and `UpdateRequest`.
- The YAML encoder and decoder are abstract. Read-back lemmas assume `Codec.Faithful`, which asks only about values in their canonical spelling (`Values.Canonical`: a PHP list is always `List`; `Obj` only for non-empty arrays whose keys are not `0`..`n-1`). On those values decoding the dump gives the entries back, and the dump holds no `---` followed by a newline anywhere, even inside a value (`Codec.DashesInValueSplit` shows the split such a value causes). The read-back lemmas therefore require canonical front matter, or a canonical request, photos and defaults for `create`; PHP itself has only one spelling of each array. The lemmas that read back a file they did not build also assume `Codec.CanonicalDecoder`: the decoder returns canonical values.
- Clocks and dates are parameters of `Create.Env`: `date()`, `strtotime`, and the `DateTime` reformatting of event times. A `DateTime` exception on an unparsable date is not modelled. An array `start`, `end` or `date` (which may come from `published` or `created`) is passed to these functions as it is; in PHP 8 `new DateTime` and `strtotime` throw a `TypeError` on it (inc/content.php:309, 312, 343).
- File-system failures are not modelled: failed reads or writes, `mkdir`, and directory creation. Directories are implied by paths.
- Strings are sequences of characters standing for bytes. `\w` and `strtolower` are their ASCII forms.
- `array_merge` into an associative array is not modelled. In `update`'s add phase and in `create`'s photo merge, a non-list value gives `TypeError`.
- Create.CreatedPostResolves: proved only for types with a path rule, a non-empty slug, and a site URL that does not reappear in the URL's path part. `str_replace` would otherwise cut the path too.
- Create.WithSlug: an array as `slug` or `title` is a `TypeError`, as `strtolower` on an array is in PHP 8; older PHP versions that only warn are not modelled.
- Update.Delete: `unlink` fails only when the file is missing; permissions and other unlink failures are not modelled.
- Update.DeletePhase: deleting values from a property holding an associative array (`array_values(array_diff(...))`, inc/content.php:246) gives `TypeError` in the model; PHP computes the difference of the array's values.
- KeepSlugChars: its own contract states which characters remain; the order they remain in is stated by `Slug.KeepSlugCharsChar` and `Slug.KeepSlugCharsAppend`.
- Property values have no integers or floats: YAML numbers and JSON numbers are not modelled, only null, booleans, strings and arrays.
- `ksort` orders the front matter by byte order of the keys (`Codec.KSorted`); PHP's numeric ordering of numeric-string keys is not modelled.
