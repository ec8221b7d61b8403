# feedproxy in Dafny

feedproxy is a small HTTP service. It republishes web comic and news feeds after
rewriting them. A request for `/{base}/{feed}` looks the feed id up in a fixed
registry. The bound feed function then runs in one of three ways:

- **Modify feeds.** The upstream feed is parsed. Every item is converted into an
  output item, and a per-item mutator changes that item in place. The mutators are
  the Dilbert scrape, the gamercat thumbnail fix and the webtoons gallery.
- **Filter feeds.** The upstream feed is parsed. Items are kept or dropped by the
  path segment of their link, which is matched against a whitelist of prefixes.
- **Generated feeds.** The feed is built from a site page: commitstrip, ruthe,
  nichtlustig and littlebobby.

The result is served as RSS (200). A handler error gives 412 with the error text.
An unknown id gives 404.

This project models that logic between the fetches and the RSS serializer:

- `common.dfy`: results, errors and Go panics.
- `text.dfy`: the `strings`/`bytes` functions the handlers use, with their
  characterising lemmas.
- `feeds.dfy`: the feed records. `feeds.Item` is a class, because the mutators
  update it through pointers. It also holds `convertItem` and the attribute scans.
- `filter.dfy`: `contains` and the filter loop.
- `modify.dfy`: the mutators, and the slot-and-join structure of the modify
  handler. It uses an `array<Item?>` of item pointers.
- `generators.dfy`: the four generators. Their item loops fill an `array<Item?>`.
- `registry.dfy`: `feedDict`, the dispatch, and `processFeed`'s response.

Things the model does not compute are inputs of type `World`:

- the network, HTML parsing and selector matching;
- `gofeed`, `ToRss`, `json.Unmarshal`;
- the `time` package;
- the Dilbert scrape.

Go panics (nil dereference, index out of range) are modelled as errors
(`Panicked`). They are not excluded by preconditions. `processFeed` answers a
panicked handler with `Aborted`, because net/http drops the connection.

Behaviours of the code that the model keeps as written:

- `convertItem` copies the source author's *name* into both the name and the email
  (`Feeds.ConvertItem`, `Feeds.ConvertItemDropsEmail`).
- The modify and filter feeds set `Updated` only after serializing. The serialized
  feed therefore carries the zero time (`Feeds.Republish`). A modify feed with no
  items panics at `Items[0]` after a successful serialization. A filter feed never
  panics there.
- nichtlustig's `images[:20]` is bounded by the decoded slice's capacity, not its
  length. It fails exactly when fewer than 20 elements fit in the capacity. Any
  positions past the length hold zero elements. Fewer than 20 decoded records
  alone therefore do not make it fail.
- The `,\t]` repair is a single pass. An input holding `,\t,\t]` keeps one `,\t]`
  (`Generators.RepairIsSinglePass`).

## Model

| member | source | states |
|---|---|---|
| Filter.Contains | feedproxy.go:119-126 | the result is true exactly when some list entry is a prefix of the value |
| Filter.HasPrefixInOrderFree | feedproxy.go:119-126 | the prefix test depends only on which entries the list holds, not their order or repetition; an empty list matches nothing |
| Filter.AreaExists | feedproxy.go:150 | piece 3 of `SplitN(link, "/", 4)` exists exactly when the link holds at least three '/' |
| Filter.FilterFeed | feedproxy.go:128-168 | returns the parse error; or a panic when some converted link has no piece 3; or the serialization of the converted items whose prefix test equals `include`, in source order, under the copied header |
| Filter.FilteredMembers | feedproxy.go:148-154 | an item is in the output exactly when it is an input item that passes the test |
| Filter.FilteredConcat | feedproxy.go:148-154 | filtering commutes with concatenation, so kept items keep their source order |
| Filter.FilteredComplement | feedproxy.go:151 | two tests that disagree on every item split the items into two parts whose multisets add up to the input |
| Filter.IncludeExcludeSplit | feedproxy.go:151 | with one whitelist, the include and the exclude run partition the items: multisets and counts add up |
| Feeds.ConvertItem | feedproxy.go:170-190 | copies title, content, link and GUID to id; the author is present exactly when the source's is, with the source name as both name and email; created is the published time or zero; updated is zero |
| Feeds.ConvertItemDropsEmail | feedproxy.go:178-183 | the source author's email never reaches the output item |
| Feeds.Republish | feedproxy.go:82-91 | the output header copies title, link, description, copyright and author, holds the given items, and still has a zero `Updated` when serialized |
| Feeds.Item.constructor | feedproxy.go:171-176 | a new item holds exactly the given record |
| Feeds.Item.SetContent | feedproxy.go:225 | only the content changes |
| Feeds.Item.SetRecord | feedproxy.go:192-222 | the item afterwards holds exactly the given record (the Dilbert scrape's effect on its item) |
| Feeds.Records | feedproxy.go:93-98 | the record list read from filled slots has one record per slot, in slot order |
| Feeds.AttrValue | feedproxy.go:437-442 | a non-empty value is the value of some attribute with the key |
| Feeds.AttrValueFirst | feedproxy.go:437-442 | the looked-up value is that of the first attribute with the key, or "" when none has it |
| Feeds.FirstAttr | feedproxy.go:259-264 | the scan that stops at the first matching attribute returns that attribute's value, or "" |
| Feeds.ParseOrZero | feedproxy.go:318 | a failed parse yields the zero time, a successful one its value |
| Modify.ProcessGamercatItem | feedproxy.go:224-226 | only the content changes, to the content with its first `-200x150` removed |
| Modify.GamercatExample | feedproxy.go:225 | `<img src=foo-200x150.png>` becomes `<img src=foo.png>` |
| Modify.GamercatWithoutToken | feedproxy.go:224-226 | items whose content has no `-200x150` are republished unchanged |
| Text.RemoveFirstLength | feedproxy.go:225 | removing the first occurrence of a token shortens the text by the token's length, and a text without the token keeps its length |
| Text.RemoveFirstOf | feedproxy.go:225 | when no earlier occurrence exists, removing the token from `a + token + b` gives `a + b` |
| Text.RemoveFirstAfter | feedproxy.go:225 | the same when the text before the token lacks the token's first character |
| Modify.BuildGallery | feedproxy.go:256-269 | the loop's result is the concatenation, in child order, of one proxy image tag per child with a non-empty path |
| Modify.GallerySmall | feedproxy.go:256-269 | a page without children gives ""; a page with one child gives that child's tag |
| Modify.GallerySnoc | feedproxy.go:257-268 | one more child appends its own tag after the tags so far |
| Modify.GalleryChild | feedproxy.go:256-269 | each child contributes exactly its own tag at its position; a child with an empty path contributes nothing |
| Modify.GalleryWithoutImages | feedproxy.go:256-270 | a page none of whose children has a usable `data-url` gives "", so the item's content becomes empty |
| Modify.ImagePathOfOrigin | feedproxy.go:265 | a `data-url` on the image origin yields the path after the origin |
| Modify.ExtendWebToonsItem | feedproxy.go:228-271 | a failed fetch leaves the item unchanged; otherwise only the content changes, to the gallery of the page's children |
| Modify.WebToonsAllFail | feedproxy.go:228-254 | when no gallery can be fetched, a webtoons feed carries every item exactly as converted |
| Modify.Mutated | feedproxy.go:224-271 | the gamercat and webtoons mutators change only the content; a webtoons item whose page yields no gallery is unchanged |
| Modify.ModifyItem | feedproxy.go:99-102 | one item task leaves in its item the mutator's result on the item's value |
| Modify.ModifiedItems | feedproxy.go:93-107 | there is one output item per source item, and item i is the mutated conversion of source item i |
| Modify.ConvertAll | feedproxy.go:93-98 | one fresh, distinct item per source item, slot i holding the conversion of source item i |
| Modify.ScheduleCovers | feedproxy.go:105-107 | a completion order of `n` distinct tasks names every task, so the join waits for all of them |
| Modify.RunTasks | feedproxy.go:96-107 | whichever order the tasks complete in, each slot ends up holding its own item's mutation, applied once |
| Modify.ModifyFeed | feedproxy.go:75-117 | returns the parse error, the serializer's error, a panic for an empty feed after serializing, or the serialization of the slots; each slot holds its own item's mutated conversion, for every completion order the scheduler picks |
| Generators.Generated | feedproxy.go:329 | a generated feed carries its fixed header, its items, and the first item's `Updated` |
| Generators.Publish | feedproxy.go:329-335 | a generator with no items panics before serializing; otherwise the result is the serializer's answer for the fixed header, the items and `Updated` taken from the first item |
| Generators.FillItems | feedproxy.go:311-327 | the slot loop gives the items of all entries in order, or the failure of the first entry whose derivation panics |
| Common.CollectAllSucceed | feedproxy.go:313-327 | when every entry yields an item, all items are kept in order |
| Common.CollectFirstFailure | feedproxy.go:313-327 | the first entry that panics decides the failure |
| Generators.Truncate | feedproxy.go:285 | the result ends with `</rss>` and holds no earlier `</rss>` |
| Generators.CommitstripResult | feedproxy.go:273-286 | a fetch or read error passes through; a body always succeeds, with a prefix of the body plus `</rss>` that ends with `</rss>` |
| Generators.TruncateHead | feedproxy.go:285 | the first piece of the split is the body before its first `</rss>`, or the whole body |
| Generators.TruncateShape | feedproxy.go:285 | the result ends with `</rss>` and holds it nowhere else; it is a prefix of the body with `</rss>` appended, namely the body through its first `</rss>`, or the body plus `</rss>` |
| Generators.TruncateIdempotent | feedproxy.go:285 | truncating twice is truncating once |
| Generators.GetRuthe | feedproxy.go:288-336 | returns the fetch or parse error, the first entry's panic, a panic for an empty archive, or the serialized feed of one item per entry |
| Generators.RutheIdOfThumb | feedproxy.go:314-316 | the id of the thumbnail `/cartoons/tn_strip_N.jpg` is N, for any N without `.jpg` |
| Generators.RutheRecord | feedproxy.go:315-326 | the item's id is the thumbnail without its prefix and `.jpg`; link and content are built from the id; the date is the trimmed date text parsed, or zero; no author, zero created time |
| Generators.RutheItem | feedproxy.go:313-326 | an entry fails only with a panic; an item's link and content are built from its id, with no author and a zero created time |
| Generators.RutheItemCases | feedproxy.go:313-326 | an entry yields an item exactly when it has an image with an attribute and a last child with the `eingestellt: ` marker; the item's id, link, content and date come from the thumbnail and the marker text |
| Text.SplitSecond | feedproxy.go:317 | `Split` yields a second piece exactly when the separator occurs, and that piece is the text after the first separator up to the next one |
| Generators.GetNichtlustig | feedproxy.go:349-411 | returns the fetch error, a panic without the marker, the decoder's error, a panic when twenty elements do not fit, or the serialized feed of twenty items |
| Generators.NichtlustigItem | feedproxy.go:385-400 | the item's id is the slug, its link the slug's page, its content the cartoon tags, its date the slug parsed or zero; no author, zero created time |
| Generators.NichtlustigItems | feedproxy.go:381-401 | one item per element, in order |
| Generators.FirstTwenty | feedproxy.go:381 | the slice exists exactly when twenty elements fit in the capacity; it then holds twenty elements, element i being record i or the zero element past the length |
| Generators.ExtractList | feedproxy.go:360 | extraction fails exactly when the page lacks `var cartoonList = `; an extracted list never holds `; </script>` |
| Generators.ExtractListOf | feedproxy.go:360 | the text between the first `var cartoonList = ` and the next `; </script>` is extracted exactly |
| Generators.RepairJson | feedproxy.go:363-364 | no `'` is left after the repair |
| Generators.RepairRemovesQuotes | feedproxy.go:363-364 | no `'` is left after the two passes, for every input |
| Generators.TrailingCommaPass | feedproxy.go:364 | the pass leaves no `,\t]` when its input holds no `,\t,\t]` |
| Generators.BracketJoin | feedproxy.go:364 | a `]` between two texts without `,\t]` creates none unless the first ends in `,\t` |
| Generators.RepairRemovesTrailingCommas | feedproxy.go:363-364 | a list without `,\t,\t]` comes out of the repair without `,\t]` |
| Generators.RepairIsSinglePass | feedproxy.go:364 | `,\t,\t]` repairs to `,\t]` |
| Generators.NichtlustigTwenty | feedproxy.go:378-403 | `images[:20]` panics exactly when fewer than twenty elements fit; otherwise item i has element i's slug as id and link (or the zero slug past the length), and the result is the serialized feed |
| Generators.BonusTagCount | feedproxy.go:387-392 | the content has two image tags when the bonus is public and one otherwise |
| Generators.ImgTagCount | feedproxy.go:389-391 | one generated image tag opens one tag |
| Generators.GetLittlebobby | feedproxy.go:413-472 | returns the fetch or parse error, the first anchor's panic, a panic for an empty archive, or the serialized feed of one item per anchor |
| Generators.BobbyItem | feedproxy.go:435-463 | an anchor fails only with a nil dereference; an item needs the week node and has the week as id, the thumbnail-derived image tag as content, no author and a zero created time |
| Generators.BobbyItemCases | feedproxy.go:435-463 | an anchor yields an item exactly when its week and date nodes exist; the item's id is the week, its link the first `href` or "", and its date the parsed one |
| Generators.BobbyImageOfThumb | feedproxy.go:449-454 | `stem-480x270ext` becomes `stemext` whenever `-480x270` does not occur in the stem |
| Text.ReplaceAll | feedproxy.go:363-364 | a text without the token is returned unchanged |
| Text.ReplaceAllIsJoinSplit | feedproxy.go:363-364 | the result is `Join(Split(s, pat), repl)`: every non-overlapping occurrence from the left becomes the replacement, and with `Text.SplitParts` the text between occurrences is kept unchanged, so nothing after the first occurrence is dropped |
| Text.ReplaceAllRemovesChar | feedproxy.go:363 | replacing a one-character token by text without it leaves none |
| Text.ReplaceCharMap | feedproxy.go:363 | replacing one character by another maps the text character by character |
| Text.ReplaceCharKeepsAbsent | feedproxy.go:363-364 | the quote pass creates no token that holds neither quote character |
| Text.ReplaceAllChars | feedproxy.go:364 | every character of a replacement result comes from the input or the replacement |
| Text.FirstAfterClean | feedproxy.go:285 | a token whose first character does not recur in it is first found right after text free of it |
| Text.SplitN | feedproxy.go:150 | there are between one and `n` pieces |
| Text.SplitNJoin | feedproxy.go:150 | `SplitN`'s pieces joined by the separator give the input |
| Text.SplitNPieces | feedproxy.go:150 | no piece but the last holds the separator |
| Text.SplitNLast | feedproxy.go:150 | when fewer than `n` pieces come out, the last piece does not hold the separator either |
| Text.SplitNTwoHead | feedproxy.go:360 | the first piece of `SplitN(s, sep, 2)` never holds the separator |
| Text.SplitNTwoOf | feedproxy.go:360 | `a + sep + b` splits in two into `a` and `b` when `a` lacks the separator and the separator's first character does not recur in it |
| Text.SplitNCharCount | feedproxy.go:150 | with a one-character separator, `SplitN` gives `n` pieces exactly when the separator occurs at least `n - 1` times |
| Text.SplitNTwo | feedproxy.go:360 | `SplitN(s, sep, 2)` has two pieces exactly when the separator occurs: the text before its first occurrence and everything after |
| Text.Split | feedproxy.go:285 | there is always at least one piece |
| Text.SplitParts | feedproxy.go:285 | `Split`'s pieces joined by the separator give the input, and none holds the separator |
| Text.IndexOf | feedproxy.go:225 | finds an occurrence exactly when there is one, and it is the first |
| Text.ReplaceFirst | feedproxy.go:225 | text without the token is unchanged; otherwise its first occurrence is replaced |
| Text.TrimPrefix | feedproxy.go:265 | a present prefix is removed, and otherwise the text is unchanged |
| Text.TrimLeft | feedproxy.go:317 | the result is the suffix left after the leading run of the character |
| Text.TrimRight | feedproxy.go:317 | the result is the prefix left before the trailing run of the character |
| Text.Trim | feedproxy.go:317 | the result neither starts nor ends with the character, and it is a slice of the input with only that character around it |
| Registry.Run | feedproxy.go:20-33 | each binding runs the handler it stands for |
| Registry.Respond | feedproxy.go:49-56 | a feed is answered 200 with the RSS content type; an error, 412 with its text; a panic, an aborted connection |
| Registry.ProcessFeed | feedproxy.go:42-57 | an unknown id gets 404; a known one gets its binding's answer, run with base URL `https://host/base` |
| Registry.FeedIds | feedproxy.go:20-33 | the registry answers to exactly the twelve ids |
| Registry.LookupIsExact | feedproxy.go:43-47 | an unknown id gets 404 whatever the upstream state, and a known id never does |
| Registry.HeiseSections | feedproxy.go:29-32 | the overview feed blocks the three sections that the three section feeds each allow |

## Left out

- The HTTP server, router and response writing beyond the status choice
  (feedproxy.go:35-40). The image proxy `webToonsProxy` (feedproxy.go:59-73) is
  pure I/O.
- All fetches, body reads, `html.Parse` and the `cascadia` selectors. Their results
  are inputs: the upstream parse by URL, the gallery children per item link, the
  matched archive entries, and the commitstrip and nichtlustig pages.
- `gofeed`, `Feed.ToRss`, `json.Unmarshal` and Go's `time` layouts are foreign
  libraries. They are function-valued inputs.
- `processDilbertItem` (feedproxy.go:192-222) is selector-driven. Its effect on an
  item is an input function. Its possible nil dereferences are not captured.
- The goroutines and the channel (feedproxy.go:94-107): the tasks run to
  completion one at a time, in an order a `Scheduler` input picks. The proof
  covers every such order. Interleaving inside a task is not modelled. Each task
  touches only its own item, so interleaving could not change the result. A panic
  inside an item task would end the process, and that is not modelled either.
- The `fmt.Println` of a littlebobby date error (feedproxy.go:446) is output only.
  The nichtlustig `res` text (feedproxy.go:380-383) is built and never used.
- Text.ReplaceAll: requires a non-empty token. Go's empty-token behaviour is not
  modelled, because every call site passes a non-empty token.
- Text.Split: requires a non-empty separator, because every call site passes one
  (`</rss>` and `eingestellt: `).
- Text.SplitN: requires a non-empty separator and `n > 0`, because every call site
  passes such values.
- Generators.TrailingCommaPass: proved only for inputs without `,\t,\t]`, because
  the single-pass repair leaves `,\t]` in that case
  (`Generators.RepairIsSinglePass`).
- Text: characters stand for bytes. There is no UTF-8 decoding, which the handlers
  do not need.
