/** The feed registry (`feedDict`) and the request handler `processFeed`: an exact
    lookup of the feed id, a call of the bound feed function with the proxy's own
    base URL, and the HTTP answer built from its result. */
module Registry {
  import opened Common
  import opened Feeds
  import opened Filter
  import opened Modify
  import opened Generators

  datatype Generator = Commitstrip | Ruthe | Nichtlustig | Littlebobby

  /** What a registry entry is bound to: a modify feed over an upstream feed, a
      path filter over an upstream feed, or a generator. */
  datatype Binding =
    | ModifyBinding(feedUrl: string, mutator: Mutator)
    | FilterBinding(feedUrl: string, keepMatches: bool, whitelist: seq<string>)
    | Generate(generator: Generator)

  /** `feedDict` (feedproxy.go:20-33). */
  const FeedDict: map<string, Binding> := map[
    "dilbert" := ModifyBinding("http://dilbert.com/feed", DilbertScrape),
    "gamercat" := ModifyBinding("http://www.thegamercat.com/feed/", GamercatThumbnail),
    "dinosandcomics" := ModifyBinding("https://www.webtoons.com/en/challenge/dinos-and-comics/rss?title_no=657052", WebToonsGallery),
    "tortoiseanddino" := ModifyBinding("https://www.webtoons.com/en/challenge/tortoise-and-dino/rss?title_no=656753", WebToonsGallery),
    "ruthe" := Generate(Ruthe),
    "commitstrip" := Generate(Commitstrip),
    "nichtlustig" := Generate(Nichtlustig),
    "littlebobby" := Generate(Littlebobby),
    "heiseonline" := FilterBinding("https://www.heise.de/rss/heise-atom.xml", false, ["security", "developer", "select/ix"]),
    "heisesecurity" := FilterBinding("https://www.heise.de/security/rss/news-atom.xml", true, ["security"]),
    "heisedeveloper" := FilterBinding("https://www.heise.de/developer/rss/news-atom.xml", true, ["developer"]),
    "heiseix" := FilterBinding("https://www.heise.de/ix/rss/news-atom.xml", true, ["select/ix"])
  ]

  /** Everything the feed functions obtain from outside: the upstream feed parser by
      URL, what the item tasks fetch, the order in which they finish, the pages the
      generators fetch (already parsed and matched by the HTML selectors), the JSON
      decoder, the date library and the serializer. */
  datatype World = World(
    parseFeed: string -> Result<SourceFeed, Error>,
    itemInputs: ItemInputs,
    schedule: Scheduler,
    commitstripBody: Result<string, Error>,
    rutheArchive: Result<seq<RutheEntry>, Error>,
    nichtlustigPage: Result<string, Error>,
    decode: Decoder,
    bobbyArchive: Result<seq<BobbyAnchor>, Error>,
    lib: TimeLib,
    toRss: Serializer)

  /** What the bound feed function returns for a base URL. */
  function RunResult(b: Binding, base: string, w: World): Result<string, Error> {
    match b
    case ModifyBinding(url, m) => ModifyResult(m, base, w.parseFeed(url), w.itemInputs, w.toRss)
    case FilterBinding(url, keep, list) => FilterResult(w.parseFeed(url), keep, list, w.toRss)
    case Generate(Commitstrip) => CommitstripResult(w.commitstripBody)
    case Generate(Ruthe) => RutheResult(w.rutheArchive, w.lib, w.toRss)
    case Generate(Nichtlustig) => NichtlustigResult(w.nichtlustigPage, w.decode, w.lib, w.toRss)
    case Generate(Littlebobby) => LittlebobbyResult(w.bobbyArchive, w.lib, w.toRss)
  }

  /** Calling the feed function a binding stands for. */
  method Run(b: Binding, base: string, w: World) returns (r: Result<string, Error>)
    requires ValidScheduler(w.schedule)
    ensures r == RunResult(b, base, w)
  {
    match b
    case ModifyBinding(url, m) =>
      r := ModifyFeed(m, base, w.parseFeed(url), w.itemInputs, w.toRss, w.schedule);
    case FilterBinding(url, keep, list) =>
      r := FilterFeed(w.parseFeed(url), keep, list, w.toRss);
    case Generate(Commitstrip) =>
      r := CommitstripResult(w.commitstripBody);
    case Generate(Ruthe) =>
      r := GetRuthe(w.rutheArchive, w.lib, w.toRss);
    case Generate(Nichtlustig) =>
      r := GetNichtlustig(w.nichtlustigPage, w.decode, w.lib, w.toRss);
    case Generate(Littlebobby) =>
      r := GetLittlebobby(w.bobbyArchive, w.lib, w.toRss);
  }

  /** The answer of `processFeed`: 404, 412 with the error text, 200 with the feed, or
      a connection the server drops because the handler panicked. */
  datatype Response =
    | NotFound
    | PreconditionFailed(message: string)
    | Ok(contentType: string, body: string)
    | Aborted

  const RssContentType: string := "application/rss+xml; charset=utf-8"

  /** The base URL handed to the feed functions. */
  function BaseUrl(host: string, base: string): string {
    "https://" + host + "/" + base
  }

  function Respond(r: Result<string, Error>): (resp: Response)
    ensures resp.Ok? <==> r.Success?
    ensures r.Success? ==> resp == Ok(RssContentType, r.value)
    ensures resp.Aborted? <==> r.Failure? && r.error.Panicked?
    ensures r.Failure? && r.error.Failed? ==> resp == PreconditionFailed(r.error.message)
  {
    match r
    case Success(text) => Ok(RssContentType, text)
    case Failure(Failed(msg)) => PreconditionFailed(msg)
    case Failure(Panicked(_)) => Aborted
  }

  /** `processFeed` (feedproxy.go:42-57) for a request to `/{base}/{feed}` on `host`. */
  function ProcessFeedResult(feed: string, host: string, base: string, w: World): Response {
    if feed !in FeedDict then NotFound
    else Respond(RunResult(FeedDict[feed], BaseUrl(host, base), w))
  }

  method ProcessFeed(feed: string, host: string, base: string, w: World) returns (resp: Response)
    requires ValidScheduler(w.schedule)
    ensures resp == ProcessFeedResult(feed, host, base, w)
  {
    if feed !in FeedDict {
      return NotFound;
    }
    var r := Run(FeedDict[feed], BaseUrl(host, base), w);
    resp := Respond(r);
  }

  /** The ids the registry answers to. */
  lemma FeedIds()
    ensures FeedDict.Keys == {"dilbert", "gamercat", "dinosandcomics", "tortoiseanddino", "ruthe",
                              "commitstrip", "nichtlustig", "littlebobby", "heiseonline",
                              "heisesecurity", "heisedeveloper", "heiseix"}
  {
  }

  /** An unknown id is answered with 404 whatever the world holds, so no feed function
      ran; a known id is never answered with 404. */
  lemma LookupIsExact(feed: string, host: string, base: string, w1: World, w2: World)
    ensures feed !in FeedDict ==>
      ProcessFeedResult(feed, host, base, w1) == NotFound == ProcessFeedResult(feed, host, base, w2)
    ensures feed in FeedDict ==> ProcessFeedResult(feed, host, base, w1) != NotFound
  {
  }

  /** The heise overview feed is a block-list of the three sections that the three
      section feeds each allow. */
  lemma HeiseSections()
    ensures FeedDict["heiseonline"].FilterBinding? && !FeedDict["heiseonline"].keepMatches
    ensures forall id :: id in {"heisesecurity", "heisedeveloper", "heiseix"} ==>
      FeedDict[id].FilterBinding? && FeedDict[id].keepMatches &&
      |FeedDict[id].whitelist| == 1 && FeedDict[id].whitelist[0] in FeedDict["heiseonline"].whitelist
  {
  }
}
