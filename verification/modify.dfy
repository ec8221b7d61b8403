/** The modify feeds (`getModifyFeedHandler`): every parsed item is converted into
    its own slot, then a per-item mutator changes it in place; the output keeps
    item i in slot i whichever task finishes first. */
module Modify {
  import opened Common
  import opened Text
  import opened Feeds

  /** The per-item mutators the registry binds. */
  datatype Mutator = DilbertScrape | GamercatThumbnail | WebToonsGallery

  /** A child node of the webtoons `#_imageList` element; only its attributes matter. */
  datatype Node = Node(attrs: seq<Attr>)

  /** What the item tasks obtain from outside. `gallery(link)` is the list of children of
      `#_imageList` on the page at `link`, or `None` when building the request, the
      request itself or the HTML parse failed, or the page has no such element.
      `dilbert(base, item)` is the effect of the Dilbert scrape, which is not part of
      this model. */
  datatype ItemInputs = ItemInputs(
    gallery: string -> Option<seq<Node>>,
    dilbert: (string, ItemRecord) -> ItemRecord)

  const GamercatThumbSuffix: string := "-200x150"

  const WebToonsOrigin: string := "https://webtoon-phinf.pstatic.net/"

  /** `processGamercatItem` (feedproxy.go:224-226): drop the first thumbnail-size
      token from the content. */
  method ProcessGamercatItem(base: string, item: Item)
    modifies item
    ensures item.Record() == old(item.Record()).(content := ReplaceFirst(old(item.content), GamercatThumbSuffix, ""))
  {
    item.SetContent(ReplaceFirst(item.content, GamercatThumbSuffix, ""));
  }

  /** The content rewrite applied to `<img src=foo-200x150.png>` gives `<img src=foo.png>`. */
  lemma GamercatExample()
    ensures ReplaceFirst("<img src=foo-200x150.png>", GamercatThumbSuffix, "") == "<img src=foo.png>"
  {
    GamercatExamplePieces();
    RemoveFirstAfter("<img src=foo", GamercatThumbSuffix, ".png>");
  }

  lemma GamercatExamplePieces()
    ensures "<img src=foo" + GamercatThumbSuffix + ".png>" == "<img src=foo-200x150.png>"
    ensures "<img src=foo" + ".png>" == "<img src=foo.png>"
    ensures GamercatThumbSuffix != [] && GamercatThumbSuffix[0] !in "<img src=foo"
  {
  }

  /** The proxied path of one gallery child: its first `data-url` value with the image
      origin trimmed. */
  function ImagePath(n: Node): string {
    TrimPrefix(AttrValue(n.attrs, "data-url"), WebToonsOrigin)
  }

  /** The image tag a gallery child contributes: one tag pointing at the asset proxy,
      or nothing when its path is empty. */
  function GalleryTag(base: string, n: Node): string {
    var path := ImagePath(n);
    if path == "" then "" else "<img src=\"" + base + "/webtoons/" + path + "\">\n"
  }

  function TagsFor(base: string): Node -> string {
    n => GalleryTag(base, n)
  }

  /** The tags of all children, in document order. */
  function Gallery(base: string, nodes: seq<Node>): string {
    ConcatMap(nodes, TagsFor(base))
  }

  /** A page without children gives no tags; a page with one child gives that
      child's tag. */
  lemma GallerySmall(base: string, n: Node)
    ensures Gallery(base, []) == ""
    ensures Gallery(base, [n]) == GalleryTag(base, n)
  {
    ConcatMapSingle(n, TagsFor(base));
  }

  /** The gallery loop of `extendWebToonsItem` (feedproxy.go:256-269). */
  method BuildGallery(base: string, nodes: seq<Node>) returns (result: string)
    ensures result == Gallery(base, nodes)
  {
    result := "";
    for i := 0 to |nodes|
      invariant result == Gallery(base, nodes[..i])
    {
      ghost var before := result;
      var url := FirstAttr(nodes[i].attrs, "data-url");
      var path := TrimPrefix(url, WebToonsOrigin);
      if path != "" {
        result := result + "<img src=\"" + base + "/webtoons/" + path + "\">\n";
      }
      assert result == before + GalleryTag(base, nodes[i]);
      assert nodes[..i + 1] == nodes[..i] + [nodes[i]];
      GallerySnoc(base, nodes[..i], nodes[i]);
    }
    assert nodes[..|nodes|] == nodes;
  }

  /** Each child adds its own tag in its place; a child without a usable `data-url`
      (none, empty, or just the origin) adds nothing. */
  lemma GalleryChild(base: string, a: seq<Node>, n: Node, b: seq<Node>)
    ensures Gallery(base, a + [n] + b) == Gallery(base, a) + GalleryTag(base, n) + Gallery(base, b)
    ensures ImagePath(n) == "" ==> Gallery(base, a + [n] + b) == Gallery(base, a + b)
  {
    ConcatMapMiddle(a, n, b, TagsFor(base));
  }

  /** One more child appends its tag. */
  lemma GallerySnoc(base: string, nodes: seq<Node>, n: Node)
    ensures Gallery(base, nodes + [n]) == Gallery(base, nodes) + GalleryTag(base, n)
  {
    ConcatMapConcat(nodes, [n], TagsFor(base));
    ConcatMapSingle(n, TagsFor(base));
  }

  /** A page whose children all lack a usable `data-url` gives an empty gallery, so
      the item's content is replaced by "". */
  lemma GalleryWithoutImages(base: string, nodes: seq<Node>)
    requires forall i :: 0 <= i < |nodes| ==> ImagePath(nodes[i]) == ""
    ensures Gallery(base, nodes) == ""
  {
    ConcatMapEmpty(nodes, TagsFor(base));
  }

  /** A child whose first `data-url` is an image on the origin yields the proxy path
      after the origin. */
  lemma ImagePathOfOrigin(n: Node, rest: string)
    requires AttrValue(n.attrs, "data-url") == WebToonsOrigin + rest
    ensures ImagePath(n) == rest
  {
    assert HasPrefix(WebToonsOrigin + rest, WebToonsOrigin);
  }

  /** `extendWebToonsItem` (feedproxy.go:228-271), given what its request yields for the
      item's link: the content becomes the gallery, or the item stays unchanged. */
  method ExtendWebToonsItem(base: string, gallery: Option<seq<Node>>, item: Item)
    modifies item
    ensures gallery.None? ==> item.Record() == old(item.Record())
    ensures gallery.Some? ==> item.Record() == old(item.Record()).(content := Gallery(base, gallery.value))
  {
    if gallery.None? {
      return;
    }
    var result := BuildGallery(base, gallery.value);
    item.SetContent(result);
  }

  /** The value an item task leaves in its slot: the gamercat and webtoons mutators
      change the content and nothing else, and a webtoons item whose page yields no
      gallery is left as it is. */
  function Mutated(m: Mutator, base: string, inputs: ItemInputs, it: ItemRecord): (r: ItemRecord)
    ensures m != DilbertScrape ==> r == it.(content := r.content)
    ensures m == WebToonsGallery && inputs.gallery(it.link).None? ==> r == it
  {
    match m
    case DilbertScrape => inputs.dilbert(base, it)
    case GamercatThumbnail => it.(content := ReplaceFirst(it.content, GamercatThumbSuffix, ""))
    case WebToonsGallery =>
      match inputs.gallery(it.link)
      case None => it
      case Some(nodes) => it.(content := Gallery(base, nodes))
  }

  /** Calling the mutator bound to a feed on one item (the body of one item task). */
  method ModifyItem(m: Mutator, base: string, inputs: ItemInputs, item: Item)
    modifies item
    ensures item.Record() == Mutated(m, base, inputs, old(item.Record()))
  {
    match m
    case DilbertScrape =>
      item.SetRecord(inputs.dilbert(base, item.Record()));
    case GamercatThumbnail =>
      ProcessGamercatItem(base, item);
    case WebToonsGallery =>
      ExtendWebToonsItem(base, inputs.gallery(item.link), item);
  }

  /** The items of a modify feed: slot i holds item i converted and mutated. */
  function ModifiedItems(m: Mutator, base: string, inputs: ItemInputs, src: seq<SourceItem>): (items: seq<ItemRecord>)
    ensures |items| == |src|
    ensures forall i :: 0 <= i < |src| ==> items[i] == Mutated(m, base, inputs, ConvertItem(src[i]))
  {
    seq(|src|, i requires 0 <= i < |src| => Mutated(m, base, inputs, ConvertItem(src[i])))
  }

  /** What a modify feed produces: the parse error, the serializer's error, a panic
      when the feed has no items (the read of item 0 after serializing), or the text. */
  function ModifyResult(m: Mutator, base: string, fetched: Result<SourceFeed, Error>,
                        inputs: ItemInputs, toRss: Serializer): Result<string, Error>
  {
    match fetched
    case Failure(e) => Failure(e)
    case Success(f) =>
      match toRss(Republish(f, ModifiedItems(m, base, inputs, f.items)))
      case Failure(e) => Failure(e)
      case Success(text) => if |f.items| == 0 then Failure(Panicked(IndexOutOfRange)) else Success(text)
  }

  /** The order in which the item tasks of a feed with `n` items finish: a
      permutation of `0..n-1`, chosen by the Go scheduler. */
  type Scheduler = nat -> seq<nat>

  predicate IsSchedule(order: seq<nat>, n: nat) {
    |order| == n &&
    (forall k :: 0 <= k < n ==> order[k] < n) &&
    (forall j, k :: 0 <= j < k < n ==> order[j] != order[k])
  }

  ghost predicate ValidScheduler(schedule: Scheduler) {
    forall n: nat :: IsSchedule(schedule(n), n)
  }

  /** A schedule runs every task. */
  lemma ScheduleCovers(order: seq<nat>, n: nat)
    requires IsSchedule(order, n)
    ensures forall j :: 0 <= j < n ==> j in order
  {
    var used := set k | 0 <= k < n :: order[k];
    var all := Below(n);
    DistinctCard(order);
    assert used <= all;
    assert all * used == used;
    assert |all - used| == 0;
    forall j | 0 <= j < n
      ensures j in order
    {
      assert j in all;
      assert j in used;
    }
  }

  lemma {:induction false} DistinctCard(s: seq<nat>)
    requires forall j, k :: 0 <= j < k < |s| ==> s[j] != s[k]
    ensures |set k | 0 <= k < |s| :: s[k]| == |s|
    decreases |s|
  {
    if s != [] {
      var init := s[..|s| - 1];
      DistinctCard(init);
      var a := set k | 0 <= k < |init| :: init[k];
      assert (set k | 0 <= k < |s| :: s[k]) == a + {s[|s| - 1]};
      assert s[|s| - 1] !in a;
    }
  }

  /** The numbers below `n`. */
  function Below(n: nat): (r: set<nat>)
    ensures |r| == n
    ensures forall j: nat :: j in r <==> j < n
  {
    if n == 0 then {} else Below(n - 1) + {n - 1}
  }

  /** The first loop of the handler: one fresh output item per parsed item, each
      in its own slot. */
  method ConvertAll(src: seq<SourceItem>) returns (slots: array<Item?>)
    ensures fresh(slots) && slots.Length == |src|
    ensures forall j :: 0 <= j < |src| ==> slots[j] != null && fresh(slots[j])
    ensures forall j :: 0 <= j < |src| ==> slots[j].Record() == ConvertItem(src[j])
    ensures forall j, k :: 0 <= j < k < |src| ==> slots[j] != slots[k]
  {
    slots := new Item?[|src|];
    for i := 0 to |src|
      invariant forall j :: 0 <= j < i ==> slots[j] != null && fresh(slots[j])
      invariant forall j :: 0 <= j < i ==> slots[j].Record() == ConvertItem(src[j])
      invariant forall j, k :: 0 <= j < k < i ==> slots[j] != slots[k]
    {
      slots[i] := new Item(ConvertItem(src[i]));
    }
  }

  /** The item tasks, run to completion in the order `order`; each changes only its
      own item, so every slot ends up mutated once, whatever the order. `init` holds
      the slots' records before the tasks start, `want` their mutated records, and
      `tasks` the items handed to the tasks. */
  method RunTasks(m: Mutator, base: string, inputs: ItemInputs, slots: array<Item?>,
                  order: seq<nat>, ghost init: seq<ItemRecord>, ghost want: seq<ItemRecord>,
                  ghost tasks: set<Item>)
    requires slots.Length == |init| == |want| && IsSchedule(order, |init|)
    requires forall j :: 0 <= j < |init| ==> slots[j] != null && slots[j] in tasks
    requires forall j, k :: 0 <= j < k < |init| ==> slots[j] != slots[k]
    requires forall j :: 0 <= j < |init| ==> slots[j].Record() == init[j]
    requires forall j :: 0 <= j < |init| ==> want[j] == Mutated(m, base, inputs, init[j])
    modifies tasks
    ensures forall j :: 0 <= j < |init| ==> slots[j].Record() == want[j]
  {
    var n := slots.Length;
    for k := 0 to n
      invariant forall i :: 0 <= i < k ==> slots[order[i]].Record() == want[order[i]]
      invariant forall i :: k <= i < n ==> slots[order[i]].Record() == init[order[i]]
    {
      ModifyItem(m, base, inputs, slots[order[k]]);
    }
    ScheduleCovers(order, n);
    forall j | 0 <= j < n
      ensures slots[j].Record() == want[j]
    {
      assert j in order;
      var i :| 0 <= i < |order| && order[i] == j;
    }
  }

  /** The handler built by `getModifyFeedHandler` (feedproxy.go:75-117): the slots are
      filled, the item tasks finish in the scheduler's order, the join waits for
      all of them, and the feed is serialized. */
  method ModifyFeed(m: Mutator, base: string, fetched: Result<SourceFeed, Error>,
                    inputs: ItemInputs, toRss: Serializer, schedule: Scheduler) returns (r: Result<string, Error>)
    requires ValidScheduler(schedule)
    ensures r == ModifyResult(m, base, fetched, inputs, toRss)
  {
    if fetched.Failure? {
      return Failure(fetched.error);
    }
    var f := fetched.value;
    var n := |f.items|;
    var slots := ConvertAll(f.items);
    RunTasks(m, base, inputs, slots, schedule(n), Converted(f.items), ModifiedItems(m, base, inputs, f.items),
             set j | 0 <= j < n :: slots[j]);
    var items := Records(slots, n);
    assert items == ModifiedItems(m, base, inputs, f.items);
    var text := toRss(Republish(f, items));
    if text.Failure? {
      return Failure(text.error);
    }
    if n == 0 {
      return Failure(Panicked(IndexOutOfRange));
    }
    return text;
  }

  /** When every item task fails (no gallery can be fetched), a webtoons feed carries
      each item exactly as converted. */
  lemma WebToonsAllFail(base: string, inputs: ItemInputs, src: seq<SourceItem>)
    requires forall i :: 0 <= i < |src| ==> inputs.gallery(src[i].link).None?
    ensures ModifiedItems(WebToonsGallery, base, inputs, src) == Converted(src)
  {
  }

  /** A gamercat feed whose contents hold no thumbnail token is republished unchanged. */
  lemma GamercatWithoutToken(base: string, inputs: ItemInputs, src: seq<SourceItem>)
    requires forall i :: 0 <= i < |src| ==> !Occurs(src[i].content, GamercatThumbSuffix)
    ensures ModifiedItems(GamercatThumbnail, base, inputs, src) == Converted(src)
  {
    forall i | 0 <= i < |src|
      ensures ModifiedItems(GamercatThumbnail, base, inputs, src)[i] == Converted(src)[i]
    {
      var it := ConvertItem(src[i]);
      assert it.(content := it.content) == it;
    }
  }
}
