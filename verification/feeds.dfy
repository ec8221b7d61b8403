/** The feed records the handlers read and write: items parsed from an upstream
    feed, output items (`feeds.Item`, updated in place through pointers), output
    feeds, HTML attributes, and the date library the generators call. */
module Feeds {
  import opened Common

  datatype Author = Author(name: string, email: string)

  /** An item as the upstream feed parser delivers it (`gofeed.Item`). */
  datatype SourceItem = SourceItem(
    title: string,
    content: string,
    link: string,
    guid: string,
    author: Option<Author>,
    published: Option<Time>)

  /** A parsed upstream feed (`gofeed.Feed`). */
  datatype SourceFeed = SourceFeed(
    title: string,
    link: string,
    description: string,
    copyright: string,
    author: Option<Author>,
    items: seq<SourceItem>)

  /** The value of one output item (`feeds.Item`); `link` is its `Link.Href`. */
  datatype ItemRecord = ItemRecord(
    title: string,
    content: string,
    link: string,
    id: string,
    author: Option<Author>,
    created: Time,
    updated: Time)

  /** An output item with no field set. */
  const BlankItem: ItemRecord := ItemRecord("", "", "", "", None, ZeroTime, ZeroTime)

  /** The output feed (`feeds.Feed`) as it stands when it is handed to the serializer. */
  datatype OutFeed = OutFeed(
    title: string,
    link: string,
    description: string,
    copyright: string,
    id: string,
    author: Option<Author>,
    updated: Time,
    items: seq<ItemRecord>)

  /** The serializer `Feed.ToRss`: not part of this model, so an input. */
  type Serializer = OutFeed -> Result<string, Error>

  /** An output item behind a pointer: the mutators change its fields in place. */
  class Item {
    var title: string
    var content: string
    var link: string
    var id: string
    var author: Option<Author>
    var created: Time
    var updated: Time

    function Record(): ItemRecord
      reads this
    {
      ItemRecord(title, content, link, id, author, created, updated)
    }

    /** `&feeds.Item{...}` */
    constructor (r: ItemRecord)
      ensures Record() == r
    {
      title, content, link, id := r.title, r.content, r.link, r.id;
      author, created, updated := r.author, r.created, r.updated;
    }

    method SetContent(c: string)
      modifies this
      ensures Record() == old(Record()).(content := c)
    {
      content := c;
    }

    method SetRecord(r: ItemRecord)
      modifies this
      ensures Record() == r
    {
      title, content, link, id := r.title, r.content, r.link, r.id;
      author, created, updated := r.author, r.created, r.updated;
    }
  }

  /** The values behind the first `k` slots of a slice of item pointers, all filled. */
  function Records(slots: array<Item?>, k: nat): (rs: seq<ItemRecord>)
    requires k <= slots.Length
    requires forall i :: 0 <= i < k ==> slots[i] != null
    reads slots, set i | 0 <= i < k :: slots[i]
    ensures |rs| == k
    ensures forall i :: 0 <= i < k ==> rs[i] == slots[i].Record()
  {
    if k == 0 then [] else Records(slots, k - 1) + [slots[k - 1].Record()]
  }

  /** `convertItem` (feedproxy.go:170-190): copies a parsed item into an output item. */
  function ConvertItem(src: SourceItem): (it: ItemRecord)
    ensures it.title == src.title && it.content == src.content
    ensures it.link == src.link && it.id == src.guid
    ensures it.author.Some? <==> src.author.Some?
    // As written, the source author's name goes into both name and email.
    ensures src.author.Some? ==>
      it.author.value.name == src.author.value.name && it.author.value.email == src.author.value.name
    ensures it.created == if src.published.Some? then src.published.value else ZeroTime
    ensures it.updated == ZeroTime
  {
    var author := match src.author
      case None => None
      case Some(a) => Some(Author(a.name, a.name));
    var created := match src.published
      case None => ZeroTime
      case Some(t) => t;
    ItemRecord(src.title, src.content, src.link, src.guid, author, created, ZeroTime)
  }

  /** The converted items, one per parsed item. */
  function Converted(src: seq<SourceItem>): (items: seq<ItemRecord>)
    ensures |items| == |src| && forall i :: 0 <= i < |src| ==> items[i] == ConvertItem(src[i])
  {
    seq(|src|, i requires 0 <= i < |src| => ConvertItem(src[i]))
  }

  /** The output feed's header, copied from the parsed feed (feedproxy.go:82-91, 135-144);
      `updated` is still zero when the serializer runs. */
  function Republish(f: SourceFeed, items: seq<ItemRecord>): (out: OutFeed)
    ensures out.items == items && out.updated == ZeroTime && out.id == ""
    ensures out.title == f.title && out.link == f.link && out.author == f.author
    ensures out.description == f.description && out.copyright == f.copyright
  {
    OutFeed(f.title, f.link, f.description, f.copyright, "", f.author, ZeroTime, items)
  }

  /** Two parsed items that differ only in their author's email convert alike: the
      email never reaches the output. */
  lemma ConvertItemDropsEmail(src: SourceItem, email: string)
    requires src.author.Some?
    ensures ConvertItem(src.(author := Some(src.author.value.(email := email)))) == ConvertItem(src)
  {
  }

  /** An HTML attribute of a parsed node (`html.Attribute`). */
  datatype Attr = Attr(key: string, val: string)

  /** The value of the first attribute named `key`, or "" when there is none. A
      non-empty result is the value of an attribute with that key. */
  function AttrValue(attrs: seq<Attr>, key: string): (v: string)
    ensures v != "" ==> exists i :: 0 <= i < |attrs| && attrs[i].key == key && attrs[i].val == v
  {
    if attrs == [] then ""
    else if attrs[0].key == key then attrs[0].val
    else AttrValue(attrs[1..], key)
  }

  /** `AttrValue` gives the value of the first attribute with the key, and "" when no
      attribute has it. */
  lemma AttrValueFirst(attrs: seq<Attr>, key: string)
    ensures (forall i :: 0 <= i < |attrs| ==> attrs[i].key != key) ==> AttrValue(attrs, key) == ""
    ensures forall i :: (0 <= i < |attrs| && attrs[i].key == key &&
                         forall j :: 0 <= j < i ==> attrs[j].key != key) ==> AttrValue(attrs, key) == attrs[i].val
  {
    if forall i :: 0 <= i < |attrs| ==> attrs[i].key != key {
      AttrValueNone(attrs, key);
    }
    forall i | 0 <= i < |attrs| && attrs[i].key == key && forall j :: 0 <= j < i ==> attrs[j].key != key
      ensures AttrValue(attrs, key) == attrs[i].val
    {
      AttrValueAt(attrs, key, i);
    }
  }

  lemma {:induction false} AttrValueNone(attrs: seq<Attr>, key: string)
    requires forall i :: 0 <= i < |attrs| ==> attrs[i].key != key
    ensures AttrValue(attrs, key) == ""
    decreases |attrs|
  {
    if attrs != [] {
      assert forall i :: 0 <= i < |attrs| - 1 ==> attrs[1..][i] == attrs[i + 1];
      AttrValueNone(attrs[1..], key);
    }
  }

  lemma {:induction false} AttrValueAt(attrs: seq<Attr>, key: string, i: nat)
    requires i < |attrs| && attrs[i].key == key
    requires forall j :: 0 <= j < i ==> attrs[j].key != key
    ensures AttrValue(attrs, key) == attrs[i].val
    decreases i
  {
    if i > 0 {
      assert attrs[1..][i - 1] == attrs[i];
      assert forall j :: 0 <= j < i - 1 ==> attrs[1..][j] == attrs[j + 1];
      AttrValueAt(attrs[1..], key, i - 1);
    }
  }

  /** The webtoons `data-url` scan: walk the attributes in order and stop at the
      first one with the wanted key. It is proved equal to `AttrValue`, which the
      littlebobby `href` scan uses. */
  method FirstAttr(attrs: seq<Attr>, key: string) returns (v: string)
    ensures v == AttrValue(attrs, key)
  {
    AttrValueFirst(attrs, key);
    v := "";
    var i := 0;
    while i < |attrs|
      invariant 0 <= i <= |attrs|
      invariant forall j :: 0 <= j < i ==> attrs[j].key != key
      invariant v == ""
    {
      if attrs[i].key == key {
        v := attrs[i].val;
        return;
      }
      i := i + 1;
    }
  }

  /** Go's `time` package as the generators use it: `parse(layout, text)` is
      `time.Parse`, `format(layout, t)` is `t.Format`. Not part of this model. */
  datatype TimeLib = TimeLib(
    parse: (string, string) -> Option<Time>,
    format: (string, Time) -> string)

  /** `t, _ := time.Parse(layout, text)`: a failed parse leaves the zero time. */
  function ParseOrZero(lib: TimeLib, layout: string, text: string): (t: Time)
    ensures lib.parse(layout, text).None? ==> t == ZeroTime
    ensures lib.parse(layout, text).Some? ==> t == lib.parse(layout, text).value
  {
    match lib.parse(layout, text)
    case None => ZeroTime
    case Some(t) => t
  }

  /** The output date layout all generators share. */
  const DisplayLayout: string := "02.01.2006"
}
