/** The generated feeds (`getCommitstrip`, `getRuthe`, `getNichtlustig`,
    `getLittlebobby`): each builds its feed from a page the site serves rather than
    from an upstream feed. The fetched pages, the nodes the HTML selectors match,
    the decoded JSON records, the date library and the serializer are inputs. */
module Generators {
  import opened Common
  import opened Text
  import opened Feeds

  // ---------------------------------------------------------------------------
  // Shared by the three item-building generators

  /** The fixed header fields of a generated feed. */
  datatype Header = Header(title: string, id: string, link: string)

  /** The feed a generator hands to the serializer: its header, its items, and
      `Updated` taken from the first item. */
  function Generated(h: Header, items: seq<ItemRecord>): (out: OutFeed)
    requires |items| > 0
    ensures out.items == items && out.updated == items[0].updated
    ensures out.title == h.title && out.id == h.id && out.link == h.link
    ensures out.description == "" && out.copyright == "" && out.author == None
  {
    OutFeed(h.title, h.link, "", "", h.id, None, items[0].updated, items)
  }

  /** The read of `Items[0].Updated` followed by `ToRss`: a feed without items
      panics before it reaches the serializer. */
  function Publish(h: Header, items: seq<ItemRecord>, toRss: Serializer): (r: Result<string, Error>)
    ensures |items| == 0 ==> r == Failure(Panicked(IndexOutOfRange))
    ensures |items| > 0 ==> r == toRss(Generated(h, items))
  {
    if |items| == 0 then Failure(Panicked(IndexOutOfRange)) else toRss(Generated(h, items))
  }

  /** The derivation of each entry's item, as the loop body would run it. */
  function Made<E>(entries: seq<E>, make: E -> Result<ItemRecord, Error>): (rs: seq<Result<ItemRecord, Error>>)
    ensures |rs| == |entries| && forall i :: 0 <= i < |entries| ==> rs[i] == make(entries[i])
  {
    seq(|entries|, i requires 0 <= i < |entries| => make(entries[i]))
  }

  /** The item loops of the generators: `Items` is made with one nil slot per entry,
      and slot i receives a fresh item derived from entry i; the first entry whose
      derivation panics ends the handler. */
  method FillItems<E>(entries: seq<E>, make: E -> Result<ItemRecord, Error>) returns (r: Result<seq<ItemRecord>, Error>)
    ensures r == Collect(Made(entries, make))
  {
    var n := |entries|;
    var slots := new Item?[n];
    for i := 0 to n
      invariant forall j :: 0 <= j < i ==> make(entries[j]).Success?
      invariant forall j :: 0 <= j < i ==> slots[j] != null && slots[j].Record() == make(entries[j]).value
    {
      var it := make(entries[i]);
      if it.Failure? {
        CollectFirstFailure(Made(entries, make), i);
        return Failure(it.error);
      }
      slots[i] := new Item(it.value);
    }
    CollectAllSucceed(Made(entries, make));
    var items := Records(slots, n);
    assert items == Collect(Made(entries, make)).value;
    return Success(items);
  }

  // ---------------------------------------------------------------------------
  // commitstrip (feedproxy.go:273-286)

  const RssClose: string := "</rss>"

  /** The body up to its first `</rss>`, with `</rss>` appended: a text that ends
      with `</rss>` and holds none before that. */
  function Truncate(body: string): (r: string)
    ensures |r| >= |RssClose| && r[|r| - |RssClose|..] == RssClose
    ensures !Occurs(r[..|r| - |RssClose|], RssClose)
  {
    TruncateHead(body);
    var p := Split(body, RssClose)[0];
    assert (p + RssClose)[..|p|] == p;
    p + RssClose
  }

  /** `getCommitstrip`: the fetch error, or a prefix of the body with `</rss>`
      appended that ends with `</rss>`. */
  function CommitstripResult(body: Result<string, Error>): (r: Result<string, Error>)
    ensures body.Failure? ==> r == Failure(body.error)
    ensures body.Success? ==> r.Success? && HasPrefix(body.value + RssClose, r.value)
    ensures r.Success? ==> |r.value| >= |RssClose| && r.value[|r.value| - |RssClose|..] == RssClose
  {
    match body
    case Failure(e) => Failure(e)
    case Success(b) =>
      TruncateShape(b);
      Success(Truncate(b))
  }

  /** The first piece of `Split(body, "</rss>")` is the text before the first `</rss>`,
      or the whole body. */
  lemma TruncateHead(body: string)
    ensures !Occurs(Split(body, RssClose)[0], RssClose)
    ensures !Occurs(body, RssClose) ==> Split(body, RssClose)[0] == body
    ensures forall i :: FirstAt(body, RssClose, i) ==> Split(body, RssClose)[0] == body[..i]
  {
    match IndexOf(body, RssClose)
    case None =>
    case Some(i) =>
      CutAtFirst(body, RssClose, i);
      assert forall k :: FirstAt(body, RssClose, k) ==> k == i;
  }

  /** The truncated text ends with `</rss>`, holds it nowhere else, and is a prefix of
      the body with `</rss>` appended: the body itself up to and including its
      first `</rss>`, or the whole body followed by `</rss>`. */
  lemma TruncateShape(body: string)
    ensures var r := Truncate(body);
      |r| >= |RssClose| && r[|r| - |RssClose|..] == RssClose &&
      FirstAt(r, RssClose, |r| - |RssClose|) &&
      (forall k :: OccursAt(r, RssClose, k) <==> k == |r| - |RssClose|) &&
      HasPrefix(body + RssClose, r)
    ensures forall i :: FirstAt(body, RssClose, i) ==> Truncate(body) == body[..i + |RssClose|]
    ensures !Occurs(body, RssClose) ==> Truncate(body) == body + RssClose
  {
    var p := Split(body, RssClose)[0];
    TruncateHead(body);
    FirstAfterClean(p, RssClose, "");
    assert p + RssClose + "" == Truncate(body);
    forall i | FirstAt(body, RssClose, i)
      ensures Truncate(body) == body[..i + |RssClose|]
    {
      assert body[i..i + |RssClose|] == RssClose;
      assert body[..i + |RssClose|] == body[..i] + body[i..i + |RssClose|];
    }
    if Occurs(body, RssClose) {
      var i := IndexOf(body, RssClose).value;
      assert body + RssClose == body[..i + |RssClose|] + body[i + |RssClose|..] + RssClose;
    }
  }

  /** Truncating a truncated feed changes nothing. */
  lemma TruncateIdempotent(body: string)
    ensures Truncate(Truncate(body)) == Truncate(body)
  {
    var r := Truncate(body);
    TruncateShape(body);
    TruncateShape(r);
  }

  // ---------------------------------------------------------------------------
  // ruthe (feedproxy.go:288-336)

  /** One `#archiv_inner li` node: `img` holds the attributes of its first `img`
      descendant (`None` where the selector finds none), `lastText` the data of its
      last child (`None` where it has no children). */
  datatype RutheEntry = RutheEntry(img: Option<seq<Attr>>, lastText: Option<string>)

  const RutheHeader: Header := Header("Ruthe Comics", "tag:ruthe.de,2005:/feed", "http://ruthe.de")

  const ThumbPrefix: string := "/cartoons/tn_strip_"

  const JpgSuffix: string := ".jpg"

  const DateMarker: string := "eingestellt: "

  const RutheDateLayout: string := "02.01.'06"

  /** The strip id: the thumbnail URL without its first `/cartoons/tn_strip_` and then
      without its first `.jpg`. */
  function RutheId(thumb: string): string {
    ReplaceFirst(ReplaceFirst(thumb, ThumbPrefix, ""), JpgSuffix, "")
  }

  const RutheCartoonUrl: string := "https://ruthe.de/cartoon/"
  const RutheStripTag: string := "<img alt=\"Comic\" class=\"img-responsive img-comic\" height=\"300\" src=\"https://ruthe.de/cartoons/strip_"
  const RutheStripEnd: string := ".jpg\">"
  const ComicTitle: string := "Comic vom "

  function RutheLink(id: string): string {
    RutheCartoonUrl + id + "/"
  }

  function RutheContent(id: string): string {
    RutheStripTag + id + RutheStripEnd
  }

  /** The item of a strip with thumbnail URL `thumb` whose date text (after the
      marker) is `dateText`. */
  function RutheRecord(lib: TimeLib, thumb: string, dateText: string): (it: ItemRecord)
    ensures it.id == RutheId(thumb) && it.link == RutheLink(it.id) && it.content == RutheContent(it.id)
    ensures it.updated == ParseOrZero(lib, RutheDateLayout, Trim(dateText, ' '))
    ensures it.author == None && it.created == ZeroTime
  {
    var id := RutheId(thumb);
    var date := ParseOrZero(lib, RutheDateLayout, Trim(dateText, ' '));
    ItemRecord(ComicTitle + lib.format(DisplayLayout, date), RutheContent(id), RutheLink(id), id, None, ZeroTime, date)
  }

  /** The body of the ruthe loop for one entry: the panics of `MatchFirst(x).Attr[0]`,
      `x.LastChild.Data` and `Split(...)[1]` in that order, or the item. */
  function RutheItem(lib: TimeLib, e: RutheEntry): (r: Result<ItemRecord, Error>)
    ensures r.Failure? ==> r.error.Panicked?
    ensures r.Success? ==>
      r.value.link == RutheLink(r.value.id) && r.value.content == RutheContent(r.value.id) &&
      r.value.author == None && r.value.created == ZeroTime
  {
    if e.img.None? then Failure(Panicked(NilDereference))
    else if |e.img.value| == 0 then Failure(Panicked(IndexOutOfRange))
    else if e.lastText.None? then Failure(Panicked(NilDereference))
    else
      var pieces := Split(e.lastText.value, DateMarker);
      if |pieces| < 2 then Failure(Panicked(IndexOutOfRange))
      else Success(RutheRecord(lib, e.img.value[0].val, pieces[1]))
  }

  function RutheMake(lib: TimeLib): RutheEntry -> Result<ItemRecord, Error> {
    e => RutheItem(lib, e)
  }

  /** What the ruthe feed produces from the parsed archive page. */
  function RutheResult(page: Result<seq<RutheEntry>, Error>, lib: TimeLib, toRss: Serializer): Result<string, Error> {
    match page
    case Failure(e) => Failure(e)
    case Success(entries) =>
      match Collect(Made(entries, RutheMake(lib)))
      case Failure(e) => Failure(e)
      case Success(items) => Publish(RutheHeader, items, toRss)
  }

  /** `getRuthe`, given the archive page's entries. */
  method GetRuthe(page: Result<seq<RutheEntry>, Error>, lib: TimeLib, toRss: Serializer) returns (r: Result<string, Error>)
    ensures r == RutheResult(page, lib, toRss)
  {
    if page.Failure? {
      return Failure(page.error);
    }
    var items := FillItems(page.value, RutheMake(lib));
    if items.Failure? {
      return Failure(items.error);
    }
    r := Publish(RutheHeader, items.value, toRss);
  }

  /** The id of the thumbnail of strip `n` is `n`, for any `n` without `.jpg`. */
  lemma RutheIdOfThumb(n: string)
    requires !Occurs(n, JpgSuffix)
    ensures RutheId(ThumbPrefix + n + JpgSuffix) == n
  {
    RemoveFirstOf("", ThumbPrefix, n + JpgSuffix);
    assert "" + ThumbPrefix + (n + JpgSuffix) == ThumbPrefix + n + JpgSuffix;
    assert "" + (n + JpgSuffix) == n + JpgSuffix + "";
    FirstAfterClean(n, JpgSuffix, "");
    RemoveFirstOf(n, JpgSuffix, "");
    assert n + "" == n;
  }

  /** An entry yields an item exactly when it has an image with an attribute and a
      last child whose text holds the `eingestellt: ` marker; the item's link and
      content are built from its id, and its date is the parsed one. */
  lemma RutheItemCases(lib: TimeLib, e: RutheEntry)
    ensures RutheItem(lib, e).Success? <==>
      e.img.Some? && |e.img.value| > 0 && e.lastText.Some? && Occurs(e.lastText.value, DateMarker)
    ensures RutheItem(lib, e).Success? ==>
      var it := RutheItem(lib, e).value;
      it.id == RutheId(e.img.value[0].val) && it.link == RutheLink(it.id) &&
      it.content == RutheContent(it.id) && it.created == ZeroTime && it.author == None &&
      it.updated == ParseOrZero(lib, RutheDateLayout, Trim(Split(e.lastText.value, DateMarker)[1], ' '))
  {
    if e.img.Some? && |e.img.value| > 0 && e.lastText.Some? {
      var pieces := Split(e.lastText.value, DateMarker);
      SplitSecond(e.lastText.value, DateMarker);
      if |pieces| >= 2 {
        assert RutheItem(lib, e) == Success(RutheRecord(lib, e.img.value[0].val, pieces[1]));
      }
    }
  }

  // ---------------------------------------------------------------------------
  // nichtlustig (feedproxy.go:338-411)

  /** One element of the page's cartoon list (`nichtlustigElement`). */
  datatype Cartoon = Cartoon(
    slug: string,
    image: string,
    bonusPrivate: bool,
    bonusImage: string,
    bonusPublic: bool,
    tags: string,
    title: string,
    color: string)

  /** The zero value of an element. */
  const ZeroCartoon: Cartoon := Cartoon("", "", false, "", false, "", "", "")

  /** What `json.Unmarshal` leaves in the slice: its elements, and how many zero
      elements lie beyond its length within its capacity. */
  datatype Decoded = Decoded(records: seq<Cartoon>, spare: nat)

  /** `json.Unmarshal` into `[]nichtlustigElement`: not part of this model. */
  type Decoder = string -> Result<Decoded, Error>

  const NichtlustigHeader: Header :=
    Header("Nicht Lustig Cartoons", "tag:joscha.com/nichtlustig,2005:/feed", "https://joscha.com/nichtlustig")

  const ListMarker: string := "var cartoonList = "

  const ScriptEnd: string := "; </script>"

  const TrailingComma: string := ",\t]"

  const DoubleTrailingComma: string := ",\t,\t]"

  const SlugLayout: string := "060102"

  const MediaBase: string := "https://joscha.com/data/media/cartoons/"

  /** The script text between the first `var cartoonList = ` and the next
      `; </script>` (or the end of the page); `None` where the marker is missing
      and the index `[1]` panics. */
  function ExtractList(page: string): (r: Option<string>)
    ensures r.None? <==> !Occurs(page, ListMarker)
    ensures r.Some? ==> !Occurs(r.value, ScriptEnd)
  {
    SplitNTwo(page, ListMarker);
    var outer := SplitN(page, ListMarker, 2);
    if |outer| < 2 then None
    else
      SplitNTwoHead(outer[1], ScriptEnd);
      Some(SplitN(outer[1], ScriptEnd, 2)[0])
  }

  /** The two passes that turn the script literal into JSON: every `'` becomes `"`,
      then every `,\t]` becomes `]`. */
  function RepairJson(list: string): (r: string)
    ensures '\'' !in r
  {
    RepairRemovesQuotes(list);
    ReplaceAll(ReplaceAll(list, "'", "\""), TrailingComma, "]")
  }

  /** `images[:20]`: a slice expression bounded by the capacity, so it panics only
      when fewer than 20 elements fit, and reads zero elements past the length. */
  function FirstTwenty(d: Decoded): (r: Option<seq<Cartoon>>)
    ensures r.Some? <==> |d.records| + d.spare >= 20
    ensures r.Some? ==> |r.value| == 20
    ensures r.Some? ==> forall i :: 0 <= i < 20 ==>
      r.value[i] == if i < |d.records| then d.records[i] else ZeroCartoon
  {
    if |d.records| + d.spare < 20 then None
    else Some(seq(20, i requires 0 <= i < 20 => if i < |d.records| then d.records[i] else ZeroCartoon))
  }

  function ImgTag(alt: string, src: string): string {
    "<img alt=\"" + alt + "\" src=\"" + src + "\">"
  }

  function CartoonTag(c: Cartoon): string {
    ImgTag(c.title, MediaBase + c.image)
  }

  function BonusTag(c: Cartoon): string {
    ImgTag("BonusCartoon for " + c.title, MediaBase + "bonus/" + c.bonusImage)
  }

  /** The cartoon, followed by the bonus cartoon when that is public. */
  function CartoonContent(c: Cartoon): string {
    if c.bonusPublic then CartoonTag(c) + BonusTag(c) else CartoonTag(c)
  }

  function NichtlustigLink(slug: string): string {
    "https://joscha.com/nichtlustig/" + slug + "/"
  }

  /** The body of the nichtlustig loop for one element: the item is identified by
      the slug, links to the strip's page, shows the cartoon, and is dated by the
      slug read as a `yymmdd` date. */
  function NichtlustigItem(lib: TimeLib, c: Cartoon): (it: ItemRecord)
    ensures it.id == c.slug && it.link == NichtlustigLink(c.slug) && it.content == CartoonContent(c)
    ensures it.updated == ParseOrZero(lib, SlugLayout, c.slug) && it.created == ZeroTime && it.author == None
  {
    var date := ParseOrZero(lib, SlugLayout, c.slug);
    ItemRecord("NichtLustig Cartoon vom " + lib.format(DisplayLayout, date) + " - " + c.title,
               CartoonContent(c), NichtlustigLink(c.slug), c.slug, None, ZeroTime, date)
  }

  function NichtlustigMake(lib: TimeLib): Cartoon -> Result<ItemRecord, Error> {
    c => Success(NichtlustigItem(lib, c))
  }

  /** The items, one per element, in order. */
  function NichtlustigItems(lib: TimeLib, cs: seq<Cartoon>): (items: seq<ItemRecord>)
    ensures |items| == |cs|
    ensures forall i :: 0 <= i < |cs| ==> items[i] == NichtlustigItem(lib, cs[i])
  {
    seq(|cs|, i requires 0 <= i < |cs| => NichtlustigItem(lib, cs[i]))
  }

  /** What the nichtlustig feed produces from the fetched page. */
  function NichtlustigResult(page: Result<string, Error>, decode: Decoder, lib: TimeLib,
                             toRss: Serializer): Result<string, Error>
  {
    match page
    case Failure(e) => Failure(e)
    case Success(p) =>
      match ExtractList(p)
      case None => Failure(Panicked(IndexOutOfRange))
      case Some(list) =>
        match decode(RepairJson(list))
        case Failure(e) => Failure(e)
        case Success(d) =>
          match FirstTwenty(d)
          case None => Failure(Panicked(IndexOutOfRange))
          case Some(cs) => Publish(NichtlustigHeader, NichtlustigItems(lib, cs), toRss)
  }

  /** `getNichtlustig`, given the page, the decoder, the date library and the
      serializer. */
  method GetNichtlustig(page: Result<string, Error>, decode: Decoder, lib: TimeLib,
                        toRss: Serializer) returns (r: Result<string, Error>)
    ensures r == NichtlustigResult(page, decode, lib, toRss)
  {
    if page.Failure? {
      return Failure(page.error);
    }
    var outer := SplitN(page.value, ListMarker, 2);
    if |outer| < 2 {
      return Failure(Panicked(IndexOutOfRange));
    }
    var list := SplitN(outer[1], ScriptEnd, 2)[0];
    var quoted := ReplaceAll(list, "'", "\"");
    var repaired := ReplaceAll(quoted, TrailingComma, "]");
    var decoded := decode(repaired);
    if decoded.Failure? {
      return Failure(decoded.error);
    }
    var images := FirstTwenty(decoded.value);
    if images.None? {
      return Failure(Panicked(IndexOutOfRange));
    }
    var make := NichtlustigMake(lib);
    var items := FillItems(images.value, make);
    CollectAllSucceed(Made(images.value, make));
    assert items.value == NichtlustigItems(lib, images.value);
    r := Publish(NichtlustigHeader, items.value, toRss);
  }

  /** On a page of the form `a`, marker, `x`, `; </script>`, `b` with no marker in
      `a` and no `; </script>` in `x`, the list is `x`. */
  lemma ExtractListOf(a: string, x: string, b: string)
    requires !Occurs(a, ListMarker) && !Occurs(x, ScriptEnd)
    ensures ExtractList(a + ListMarker + x + ScriptEnd + b) == Some(x)
  {
    MarkerShapes();
    SplitNTwoOf(a, ListMarker, x + ScriptEnd + b);
    assert a + ListMarker + x + ScriptEnd + b == a + ListMarker + (x + ScriptEnd + b);
    SplitNTwoOf(x, ScriptEnd, b);
  }

  lemma MarkerShapes()
    ensures ListMarker[0] !in ListMarker[1..] && ScriptEnd[0] !in ScriptEnd[1..]
  {
  }

  /** No single quote survives the repair. */
  lemma RepairRemovesQuotes(list: string)
    ensures '\'' !in ReplaceAll(ReplaceAll(list, "'", "\""), TrailingComma, "]")
  {
    var quoted := ReplaceAll(list, "'", "\"");
    ReplaceAllRemovesChar(list, '\'', "\"");
    forall c | c in ReplaceAll(quoted, TrailingComma, "]")
      ensures c in quoted || c in "]"
    {
      ReplaceAllChars(quoted, TrailingComma, "]", c);
    }
  }

  /** The trailing-comma pass leaves no `,\t]` behind, unless the input held
      `,\t,\t]`: each match is replaced once and the text is not rescanned. */
  lemma {:induction false} TrailingCommaPass(y: string)
    requires !Occurs(y, DoubleTrailingComma)
    ensures !Occurs(ReplaceAll(y, TrailingComma, "]"), TrailingComma)
    decreases |y|
  {
    match IndexOf(y, TrailingComma)
    case None =>
    case Some(i) =>
      var rest := ReplaceAll(y[i + 3..], TrailingComma, "]");
      ReplaceAllStep(y, TrailingComma, "]", i);
      TrailingCommaCut(y, i);
      TrailingCommaPass(y[i + 3..]);
      BracketJoin(y[..i], rest);
  }

  /** Around the first `,\t]` of a text without `,\t,\t]`: the text before it has no
      `,\t]` and does not end in `,\t`, and the text after it has no `,\t,\t]`. */
  lemma TrailingCommaCut(y: string, i: nat)
    requires FirstAt(y, TrailingComma, i) && !Occurs(y, DoubleTrailingComma)
    ensures !Occurs(y[..i], TrailingComma)
    ensures i >= 2 ==> !(y[..i][i - 2] == ',' && y[..i][i - 1] == '\t')
    ensures !Occurs(y[i + 3..], DoubleTrailingComma)
  {
    CutAtFirst(y, TrailingComma, i);
    SuffixKeepsAbsent(y, DoubleTrailingComma, i + 3);
    TrailingCommaAt(y, i);
    if i >= 2 {
      DoubleTrailingCommaAt(y, i - 2);
      assert y[..i][i - 2] == y[i - 2] && y[..i][i - 1] == y[i - 1];
    }
  }

  /** A `]` put between two texts without `,\t]` creates none, unless the text before
      it ends in `,\t`. */
  lemma BracketJoin(a: string, rest: string)
    requires !Occurs(a, TrailingComma) && !Occurs(rest, TrailingComma)
    requires |a| >= 2 ==> !(a[|a| - 2] == ',' && a[|a| - 1] == '\t')
    ensures !Occurs(a + ("]" + rest), TrailingComma)
  {
    var r := a + ("]" + rest);
    forall k | 0 <= k <= |r|
      ensures !OccursAt(r, TrailingComma, k)
    {
      TrailingCommaAt(r, k);
      if k + 3 <= |a| {
        TrailingCommaAt(a, k);
        assert r[k] == a[k] && r[k + 1] == a[k + 1] && r[k + 2] == a[k + 2];
      } else if k > |a| {
        TrailingCommaAt(rest, k - |a| - 1);
        if k + 3 <= |r| {
          assert r[k] == rest[k - |a| - 1] && r[k + 1] == rest[k - |a|] && r[k + 2] == rest[k - |a| + 1];
        }
      } else {
        assert r[|a|] == ']';
        if k < |a| {
          assert r[k] == a[k];
        }
        if k + 1 < |a| {
          assert r[k + 1] == a[k + 1];
        }
      }
    }
  }

  lemma TrailingCommaAt(s: string, k: int)
    ensures OccursAt(s, TrailingComma, k) <==>
      0 <= k && k + 3 <= |s| && s[k] == ',' && s[k + 1] == '\t' && s[k + 2] == ']'
  {
    if 0 <= k && k + 3 <= |s| {
      assert s[k..k + 3] == [s[k], s[k + 1], s[k + 2]];
    }
  }

  lemma DoubleTrailingCommaAt(s: string, k: int)
    ensures OccursAt(s, DoubleTrailingComma, k) <==>
      0 <= k && k + 5 <= |s| && s[k] == ',' && s[k + 1] == '\t' && s[k + 2] == ',' &&
      s[k + 3] == '\t' && s[k + 4] == ']'
  {
    if 0 <= k && k + 5 <= |s| {
      assert s[k..k + 5] == [s[k], s[k + 1], s[k + 2], s[k + 3], s[k + 4]];
    }
  }

  /** A list without `,\t,\t]` comes out of the repair without `,\t]`. */
  lemma RepairRemovesTrailingCommas(list: string)
    requires !Occurs(list, DoubleTrailingComma)
    ensures !Occurs(RepairJson(list), TrailingComma)
  {
    ReplaceCharKeepsAbsent(list, '\'', '"', DoubleTrailingComma);
    TrailingCommaPass(ReplaceAll(list, "'", "\""));
  }

  /** A doubled trailing comma keeps one `,\t]` after the repair. */
  lemma RepairIsSinglePass()
    ensures RepairJson(DoubleTrailingComma) == TrailingComma
  {
    var s := DoubleTrailingComma;
    NotInNotOccurs(s, '\'');
    assert ReplaceAll(s, "'", "\"") == s;
    assert s[0..3][2] != TrailingComma[2];
    assert s[1..4][0] != TrailingComma[0];
    assert OccursAt(s, TrailingComma, 2);
    assert FirstAt(s, TrailingComma, 2);
    assert ReplaceAll(s[5..], TrailingComma, "]") == "";
  }

  /** The slice of twenty panics exactly when fewer than twenty elements fit in the
      decoded slice's capacity; otherwise item i carries element i's slug as its id
      and link, or the zero element's past the decoded length. */
  lemma NichtlustigTwenty(page: string, decode: Decoder, lib: TimeLib, toRss: Serializer, d: Decoded)
    requires ExtractList(page).Some? && decode(RepairJson(ExtractList(page).value)) == Success(d)
    ensures |d.records| + d.spare < 20 ==>
      NichtlustigResult(Success(page), decode, lib, toRss) == Failure(Panicked(IndexOutOfRange))
    ensures |d.records| + d.spare >= 20 ==>
      FirstTwenty(d).Some? &&
      var items := NichtlustigItems(lib, FirstTwenty(d).value);
      |items| == 20 &&
      (forall i :: 0 <= i < 20 ==>
        items[i].id == (if i < |d.records| then d.records[i].slug else "") &&
        items[i].link == NichtlustigLink(items[i].id)) &&
      NichtlustigResult(Success(page), decode, lib, toRss) == toRss(Generated(NichtlustigHeader, items))
  {
  }

  /** The content holds a second image tag exactly when the bonus is public: counted
      by tag openings, for fields that hold none themselves. */
  lemma BonusTagCount(c: Cartoon)
    requires '<' !in c.title && '<' !in c.image && '<' !in c.bonusImage
    ensures multiset(CartoonContent(c))['<'] == if c.bonusPublic then 2 else 1
  {
    var bonusAlt, bonusSrc := "BonusCartoon for " + c.title, MediaBase + "bonus/" + c.bonusImage;
    NoTagInLiterals();
    assert '<' !in bonusAlt && '<' !in bonusSrc;
    ImgTagCount(c.title, MediaBase + c.image);
    ImgTagCount(bonusAlt, bonusSrc);
    assert multiset(CartoonTag(c) + BonusTag(c)) == multiset(CartoonTag(c)) + multiset(BonusTag(c));
  }

  lemma NoTagInLiterals()
    ensures '<' !in MediaBase && '<' !in "BonusCartoon for " && '<' !in "bonus/"
  {
  }

  lemma ImgTagCount(alt: string, src: string)
    requires '<' !in alt && '<' !in src
    ensures multiset(ImgTag(alt, src))['<'] == 1
  {
    var rest := "img alt=\"" + alt + "\" src=\"" + src + "\">";
    ImgTagPieces(alt, src);
    assert '<' !in rest;
    assert multiset(rest)['<'] == 0;
    assert multiset(ImgTag(alt, src)) == multiset("<") + multiset(rest);
  }

  lemma ImgTagPieces(alt: string, src: string)
    ensures ImgTag(alt, src) == "<" + ("img alt=\"" + alt + "\" src=\"" + src + "\">")
    ensures '<' !in "img alt=\"" && '<' !in "\" src=\"" && '<' !in "\">"
  {
  }

  // ---------------------------------------------------------------------------
  // littlebobby (feedproxy.go:413-472)

  /** One `div.project-img-wrap a` node: its attributes, the text of
      `FirstChild.NextSibling.FirstChild` (`None` where a link of that chain is
      nil), the attributes of its first child, and the text of
      `LastChild.FirstChild` (`None` where a link is nil). */
  datatype BobbyAnchor = BobbyAnchor(
    attrs: seq<Attr>,
    week: Option<string>,
    imgAttrs: seq<Attr>,
    dateText: Option<string>)

  const BobbyHeader: Header :=
    Header("Little Bobby", "tag:littlebobbycomic.de,2005:/feed", "https://www.littlebobbycomic.com")

  const BobbyThumbSuffix: string := "-480x270"

  const BobbyDateLayout: string := "January 2, 2006"

  /** The full-size image: the first `src` value without its first `-480x270`. */
  function BobbyImage(imgAttrs: seq<Attr>): string {
    ReplaceFirst(AttrValue(imgAttrs, "src"), BobbyThumbSuffix, "")
  }

  function BobbyContent(image: string): string {
    "<img alt=\"Comic\" height=\"300\" src=\"" + image + "\">"
  }

  /** The body of the littlebobby loop for one anchor: the nil dereferences of the
      week and date lookups in that order, or the item. A date that does not parse
      is the zero time. */
  function BobbyItem(lib: TimeLib, a: BobbyAnchor): (r: Result<ItemRecord, Error>)
    ensures r.Failure? ==> r.error == Panicked(NilDereference)
    ensures r.Success? ==> a.week.Some? && r.value.id == a.week.value
    ensures r.Success? ==>
      r.value.content == BobbyContent(BobbyImage(a.imgAttrs)) && r.value.author == None && r.value.created == ZeroTime
  {
    if a.week.None? then Failure(Panicked(NilDereference))
    else if a.dateText.None? then Failure(Panicked(NilDereference))
    else
      var date := ParseOrZero(lib, BobbyDateLayout, a.dateText.value);
      Success(ItemRecord("LittleBobbyComic for " + a.week.value + " (" + lib.format(DisplayLayout, date) + ")",
                         BobbyContent(BobbyImage(a.imgAttrs)), AttrValue(a.attrs, "href"), a.week.value,
                         None, ZeroTime, date))
  }

  function BobbyMake(lib: TimeLib): BobbyAnchor -> Result<ItemRecord, Error> {
    a => BobbyItem(lib, a)
  }

  /** What the littlebobby feed produces from the parsed archive page. */
  function LittlebobbyResult(page: Result<seq<BobbyAnchor>, Error>, lib: TimeLib, toRss: Serializer): Result<string, Error> {
    match page
    case Failure(e) => Failure(e)
    case Success(anchors) =>
      match Collect(Made(anchors, BobbyMake(lib)))
      case Failure(e) => Failure(e)
      case Success(items) => Publish(BobbyHeader, items, toRss)
  }

  /** `getLittlebobby`, given the archive page's anchors. */
  method GetLittlebobby(page: Result<seq<BobbyAnchor>, Error>, lib: TimeLib, toRss: Serializer)
    returns (r: Result<string, Error>)
    ensures r == LittlebobbyResult(page, lib, toRss)
  {
    if page.Failure? {
      return Failure(page.error);
    }
    var items := FillItems(page.value, BobbyMake(lib));
    if items.Failure? {
      return Failure(items.error);
    }
    r := Publish(BobbyHeader, items.value, toRss);
  }

  /** An anchor yields an item exactly when its week and date nodes exist; the item
      is identified by the week, links to the first `href`, or to "" when there is
      none, and carries the parsed date. */
  lemma BobbyItemCases(lib: TimeLib, a: BobbyAnchor)
    ensures BobbyItem(lib, a).Success? <==> a.week.Some? && a.dateText.Some?
    ensures BobbyItem(lib, a).Success? ==>
      var it := BobbyItem(lib, a).value;
      it.id == a.week.value && it.created == ZeroTime && it.author == None &&
      it.updated == ParseOrZero(lib, BobbyDateLayout, a.dateText.value) &&
      ((forall i :: 0 <= i < |a.attrs| ==> a.attrs[i].key != "href") ==> it.link == "") &&
      (forall i :: (0 <= i < |a.attrs| && a.attrs[i].key == "href" &&
                    forall j :: 0 <= j < i ==> a.attrs[j].key != "href") ==> it.link == a.attrs[i].val)
  {
    AttrValueFirst(a.attrs, "href");
  }

  /** The thumbnail `stem-480x270ext` becomes `stemext` when the token does not occur
      in the stem. */
  lemma BobbyImageOfThumb(imgAttrs: seq<Attr>, stem: string, ext: string)
    requires AttrValue(imgAttrs, "src") == stem + BobbyThumbSuffix + ext
    requires !Occurs(stem, BobbyThumbSuffix)
    ensures BobbyImage(imgAttrs) == stem + ext
  {
    BobbyThumbSuffixShape();
    FirstAfterClean(stem, BobbyThumbSuffix, ext);
    RemoveFirstOf(stem, BobbyThumbSuffix, ext);
  }

  lemma BobbyThumbSuffixShape()
    ensures BobbyThumbSuffix != [] && BobbyThumbSuffix[0] !in BobbyThumbSuffix[1..]
  {
  }
}
