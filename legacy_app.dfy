/**
 * The earlier service of app.py: the first five entries of each configured
 * feed become articles with a generated (or fallback) summary, and `/news`
 * returns all of them in descending string order of `pubDate`.
 */
module LegacyApp {
  import opened Wrappers
  import opened PyStrings
  import opened Feeds
  import Sorting
  import Lists

  /** `feed.entries[:5]` */
  const EntriesPerFeed: nat := 5
  /** `text[:140]` in the fallback summary. */
  const FallbackLength: nat := 140
  const Ellipsis: string := "..."

  /** One element of the `/news` list. */
  datatype Article = Article(title: string, link: string, summary: string, category: string, pubDate: string)

  /** One item of `FEEDS`: a category and its feed URLs, in configuration order. */
  datatype Category = Category(name: string, urls: seq<string>)

  /** One `fetch_feed(cat, url)` call of the task list. */
  datatype Task = Task(category: string, url: string)

  lemma EllipsisHasNoEdgeSpace()
    ensures Ellipsis != [] && NoEdgeSpace(Ellipsis)
  {
    PrintableNotSpace('.');
  }

  /**
   * `(text[:140] + "...").strip()`. The ellipsis ends the string, so the
   * strip removes only the leading whitespace of the first 140 characters;
   * whitespace before the ellipsis stays.
   */
  function FallbackSummary(text: string): (r: string)
    ensures r == DropLeading(Take(text, FallbackLength)) + Ellipsis
    ensures |r| <= FallbackLength + |Ellipsis|
    ensures r[|r| - |Ellipsis|..] == Ellipsis
    ensures NonSpaces(r) == NonSpaces(Take(text, FallbackLength)) + Ellipsis
  {
    var head := Take(text, FallbackLength);
    MarkedStrip(head);
    Strip(head + Ellipsis)
  }

  lemma MarkedStrip(head: string)
    ensures Strip(head + Ellipsis) == DropLeading(head) + Ellipsis
    ensures NonSpaces(DropLeading(head) + Ellipsis) == NonSpaces(head) + Ellipsis
  {
    EllipsisHasNoEdgeSpace();
    StripAppend(head, Ellipsis);
    DropLeadingNonSpaces(head);
    NonSpacesAppend(DropLeading(head), Ellipsis);
    EllipsisNonSpaces();
  }

  lemma EllipsisNonSpaces()
    ensures NonSpaces(Ellipsis) == Ellipsis
  {
    PrintableNotSpace('.');
    assert Ellipsis[1..][1..][1..] == [];
  }

  /**
   * `ai_summary(text)`: the summarizer's text when it succeeds, the fallback
   * when anything in the call raises. The summarizer is the parameter
   * `summarize`, with `None` standing for an exception.
   */
  function AiSummary(text: string, summarize: string -> Option<string>): (r: string)
    ensures summarize(text).Some? ==> r == summarize(text).value
    ensures summarize(text).None? ==> r == FallbackSummary(text) && |r| <= FallbackLength + |Ellipsis|
  {
    match summarize(text)
    case Some(s) => s
    case None => FallbackSummary(text)
  }

  /**
   * `entry.get("summary", entry.get("description", ""))`: the summary when
   * the key is present, even when it is empty; the description only when it
   * is absent.
   */
  function SummaryText(e: Entry): (r: string)
    ensures e.summary.Some? ==> r == e.summary.value
    ensures e.summary.None? ==> r == OrEmpty(e.description)
  {
    if e.summary.Some? then e.summary.value else OrEmpty(e.description)
  }

  /** The article `fetch_feed` builds from one entry. */
  function MakeArticle(category: string, e: Entry, summarize: string -> Option<string>): Article {
    Article(e.title.GetOr("Untitled"), e.link.GetOr(""), AiSummary(SummaryText(e), summarize),
            category, e.published.GetOr(""))
  }

  /** The articles of `es`, one per entry, in entry order. */
  function Articles(category: string, es: seq<Entry>, summarize: string -> Option<string>): (r: seq<Article>)
    ensures |r| == |es|
    ensures forall i | 0 <= i < |es| :: r[i] == MakeArticle(category, es[i], summarize)
  {
    if es == [] then []
    else Articles(category, es[..|es| - 1], summarize) + [MakeArticle(category, es[|es| - 1], summarize)]
  }

  /** What `fetch_feed` returns for a parsed feed: articles of its first five entries. */
  function FeedArticles(category: string, feed: ParsedFeed, summarize: string -> Option<string>): seq<Article> {
    Articles(category, Take(feed.entries, EntriesPerFeed), summarize)
  }

  /**
   * `fetch_feed(category, url)`, with `feed` what `feedparser.parse(url)`
   * returned: one article per entry among the first five, in entry order, all
   * in `category`. The `bozo` flag is not consulted, so a malformed feed's
   * entries are used as they are.
   */
  method FetchFeed(category: string, feed: ParsedFeed, summarize: string -> Option<string>)
    returns (articles: seq<Article>)
    ensures articles == FeedArticles(category, feed, summarize)
    ensures |articles| == Min(EntriesPerFeed, |feed.entries|)
    ensures forall i | 0 <= i < |articles| ::
      articles[i] == MakeArticle(category, feed.entries[i], summarize) && articles[i].category == category
  {
    articles := [];
    var entries := Take(feed.entries, EntriesPerFeed);
    for i := 0 to |entries|
      invariant articles == Articles(category, entries[..i], summarize)
    {
      var entry := entries[i];
      var title := entry.title.GetOr("Untitled");
      var link := entry.link.GetOr("");
      var summaryText := SummaryText(entry);
      var summary := AiSummary(summaryText, summarize);
      assert entries[..i + 1][..i] == entries[..i];
      articles := articles + [Article(title, link, summary, category, entry.published.GetOr(""))];
    }
    assert entries[..|entries|] == entries;
  }

  /** The tasks of one category: one per URL, in order. */
  function CategoryTasks(c: Category): seq<Task> {
    seq(|c.urls|, k requires 0 <= k < |c.urls| => Task(c.name, c.urls[k]))
  }

  /** The task list: every URL of every category, in configuration order. */
  function Tasks(feeds: seq<Category>): seq<Task> {
    Lists.FlatMap(feeds, CategoryTasks)
  }

  /** Each task is a URL of a category with that category's name, and every such pair is a task. */
  lemma TasksSpec(feeds: seq<Category>)
    ensures forall t | t in Tasks(feeds) ::
      exists i, k | 0 <= i < |feeds| && 0 <= k < |feeds[i].urls| :: t == Task(feeds[i].name, feeds[i].urls[k])
    ensures forall i, k | 0 <= i < |feeds| && 0 <= k < |feeds[i].urls| ::
      Task(feeds[i].name, feeds[i].urls[k]) in Tasks(feeds)
  {
    forall t | t in Tasks(feeds)
      ensures exists i, k | 0 <= i < |feeds| && 0 <= k < |feeds[i].urls| :: t == Task(feeds[i].name, feeds[i].urls[k])
    {
      Lists.FlatMapOrigin(feeds, CategoryTasks, t);
      var i :| 0 <= i < |feeds| && t in CategoryTasks(feeds[i]);
      var k :| 0 <= k < |feeds[i].urls| && CategoryTasks(feeds[i])[k] == t;
    }
    forall i, k | 0 <= i < |feeds| && 0 <= k < |feeds[i].urls|
      ensures Task(feeds[i].name, feeds[i].urls[k]) in Tasks(feeds)
    {
      assert CategoryTasks(feeds[i])[k] == Task(feeds[i].name, feeds[i].urls[k]);
      Lists.FlatMapMember(feeds, CategoryTasks, i, Task(feeds[i].name, feeds[i].urls[k]));
    }
  }

  function SubList(sub: seq<Article>): seq<Article> {
    sub
  }

  /** `[item for sub in results for item in sub]` */
  function Flatten(results: seq<seq<Article>>): seq<Article> {
    Lists.FlatMap(results, SubList)
  }

  /** The number of articles: the lengths of the sub-lists added up. */
  function TotalLength(results: seq<seq<Article>>): nat {
    if results == [] then 0 else TotalLength(results[..|results| - 1]) + |results[|results| - 1]|
  }

  /** Flattening keeps every article of every sub-list and adds none. */
  lemma {:induction false} FlattenSpec(results: seq<seq<Article>>)
    ensures |Flatten(results)| == TotalLength(results)
    ensures forall i, k | 0 <= i < |results| && 0 <= k < |results[i]| :: results[i][k] in Flatten(results)
    ensures forall a | a in Flatten(results) :: exists i | 0 <= i < |results| :: a in results[i]
  {
    if results != [] {
      FlattenSpec(results[..|results| - 1]);
    }
    forall i, k | 0 <= i < |results| && 0 <= k < |results[i]|
      ensures results[i][k] in Flatten(results)
    {
      Lists.FlatMapMember(results, SubList, i, results[i][k]);
    }
    forall a | a in Flatten(results) ensures exists i | 0 <= i < |results| :: a in results[i] {
      Lists.FlatMapOrigin(results, SubList, a);
    }
  }

  /** What the gathered `fetch_feed` calls return, one list per task, in task order. */
  function Gathered(tasks: seq<Task>, parse: string -> ParsedFeed, summarize: string -> Option<string>): (r: seq<seq<Article>>)
    ensures |r| == |tasks|
    ensures forall i | 0 <= i < |tasks| :: r[i] == FeedArticles(tasks[i].category, parse(tasks[i].url), summarize)
  {
    if tasks == [] then []
    else
      var t := tasks[|tasks| - 1];
      Gathered(tasks[..|tasks| - 1], parse, summarize) + [FeedArticles(t.category, parse(t.url), summarize)]
  }

  /** The sort key `x.get("pubDate") or ""`: `pubDate` is always a str, so it is the key itself. */
  function PubDateKey(a: Article): string {
    a.pubDate
  }

  /**
   * `pubDate` is compared as text: of two RFC 822 dates, the one with the
   * later weekday name comes first, even when it is the older date.
   */
  lemma TextualPubDateOrder()
    ensures var older := Article("A", "a", "", "Global", "Wed, 02 Oct 2024 10:00:00 GMT");
      var newer := Article("B", "b", "", "Global", "Tue, 08 Oct 2024 10:00:00 GMT");
      Sorting.SortDesc([newer, older], PubDateKey) == [older, newer]
  {
    var older := Article("A", "a", "", "Global", "Wed, 02 Oct 2024 10:00:00 GMT");
    var newer := Article("B", "b", "", "Global", "Tue, 08 Oct 2024 10:00:00 GMT");
    assert StrLt(PubDateKey(newer), PubDateKey(older));
    assert [newer, older][..1] == [newer];
    assert Sorting.SortDesc([newer], PubDateKey) == [newer] by {
      assert [newer][..0] == [];
    }
  }

  /** The `/news` response for configuration `feeds`. */
  function News(feeds: seq<Category>, parse: string -> ParsedFeed, summarize: string -> Option<string>): seq<Article> {
    Sorting.SortDesc(Flatten(Gathered(Tasks(feeds), parse, summarize)), PubDateKey)
  }

  /**
   * `get_news()`: fetch every feed of every category (`parse` stands for
   * `feedparser.parse`), flatten the per-feed lists in task order, and sort
   * them into descending string order of `pubDate`.
   */
  method GetNews(feeds: seq<Category>, parse: string -> ParsedFeed, summarize: string -> Option<string>)
    returns (newsList: seq<Article>)
    ensures newsList == News(feeds, parse, summarize)
  {
    var tasks := Tasks(feeds);
    var results: seq<seq<Article>> := [];
    for i := 0 to |tasks|
      invariant results == Gathered(tasks[..i], parse, summarize)
    {
      var articles := FetchFeed(tasks[i].category, parse(tasks[i].url), summarize);
      assert tasks[..i + 1][..i] == tasks[..i];
      results := results + [articles];
    }
    assert tasks[..|tasks|] == tasks;
    newsList := Flatten(results);
    newsList := Sorting.SortDesc(newsList, PubDateKey);
  }

  /**
   * The response holds exactly the flattened articles (as a multiset), the
   * first five of each configured feed; their `pubDate`s never increase;
   * articles with equal `pubDate` keep task order.
   */
  lemma NewsSpec(feeds: seq<Category>, parse: string -> ParsedFeed, summarize: string -> Option<string>)
    ensures var all := Flatten(Gathered(Tasks(feeds), parse, summarize));
      var news := News(feeds, parse, summarize);
      && multiset(news) == multiset(all)
      && |news| == TotalLength(Gathered(Tasks(feeds), parse, summarize))
      && Sorting.SortedDesc(news, PubDateKey)
      && (forall k :: Sorting.WithKey(news, PubDateKey, k) == Sorting.WithKey(all, PubDateKey, k))
  {
    var all := Flatten(Gathered(Tasks(feeds), parse, summarize));
    Sorting.SortDescSpec(all, PubDateKey);
    FlattenSpec(Gathered(Tasks(feeds), parse, summarize));
    NewsCategories(feeds, parse, summarize);
  }

  /** Every article `fetch_feed` returns is in the category it was called with. */
  lemma FeedArticlesCategory(category: string, feed: ParsedFeed, summarize: string -> Option<string>)
    ensures forall a | a in FeedArticles(category, feed, summarize) :: a.category == category
  {
    var r := FeedArticles(category, feed, summarize);
    forall a | a in r ensures a.category == category {
      var k :| 0 <= k < |r| && r[k] == a;
    }
  }

  /** Every gathered article carries the category of the task that fetched it. */
  lemma GatheredCategories(tasks: seq<Task>, parse: string -> ParsedFeed, summarize: string -> Option<string>)
    ensures forall t: int, a: Article | 0 <= t < |tasks| && a in Gathered(tasks, parse, summarize)[t] ::
      a.category == tasks[t].category
  {
    var r := Gathered(tasks, parse, summarize);
    forall t: int, a: Article | 0 <= t < |tasks| && a in r[t] ensures a.category == tasks[t].category {
      FeedArticlesCategory(tasks[t].category, parse(tasks[t].url), summarize);
    }
  }

  /** Every flattened article was fetched by some task, and carries that task's category. */
  lemma {:induction false} FlattenedOrigin(tasks: seq<Task>, parse: string -> ParsedFeed, summarize: string -> Option<string>, a: Article)
    requires a in Flatten(Gathered(tasks, parse, summarize))
    ensures exists t | 0 <= t < |tasks| ::
      a in FeedArticles(tasks[t].category, parse(tasks[t].url), summarize) && a.category == tasks[t].category
  {
    var r := Gathered(tasks, parse, summarize);
    Lists.FlatMapOrigin(r, SubList, a);
    var t :| 0 <= t < |r| && a in r[t];
    GatheredCategories(tasks, parse, summarize);
    assert a in FeedArticles(tasks[t].category, parse(tasks[t].url), summarize);
  }

  /**
   * Every article of the response comes from the first entries of a feed URL
   * listed under some category, and carries the name of that category.
   */
  lemma NewsCategories(feeds: seq<Category>, parse: string -> ParsedFeed, summarize: string -> Option<string>)
    ensures forall a | a in News(feeds, parse, summarize) ::
      exists i, k | 0 <= i < |feeds| && 0 <= k < |feeds[i].urls| ::
        a in FeedArticles(feeds[i].name, parse(feeds[i].urls[k]), summarize) && a.category == feeds[i].name
  {
    var tasks := Tasks(feeds);
    var all := Flatten(Gathered(tasks, parse, summarize));
    Sorting.SortDescCount(all, PubDateKey);
    TasksSpec(feeds);
    forall a | a in News(feeds, parse, summarize)
      ensures exists i, k | 0 <= i < |feeds| && 0 <= k < |feeds[i].urls| ::
        a in FeedArticles(feeds[i].name, parse(feeds[i].urls[k]), summarize) && a.category == feeds[i].name
    {
      assert a in multiset(all);
      FlattenedOrigin(tasks, parse, summarize, a);
      var t :| 0 <= t < |tasks| &&
        a in FeedArticles(tasks[t].category, parse(tasks[t].url), summarize) && a.category == tasks[t].category;
      assert tasks[t] in tasks;
      var i, k :| 0 <= i < |feeds| && 0 <= k < |feeds[i].urls| && tasks[t] == Task(feeds[i].name, feeds[i].urls[k]);
    }
  }

  /** The number of articles the tasks yield: at most five per feed. */
  function ArticleCount(tasks: seq<Task>, parse: string -> ParsedFeed): nat {
    if tasks == [] then 0
    else ArticleCount(tasks[..|tasks| - 1], parse) + Min(EntriesPerFeed, |parse(tasks[|tasks| - 1].url).entries|)
  }

  /** The response has one article for each of the first five entries of every feed. */
  lemma {:induction false} GatheredCount(tasks: seq<Task>, parse: string -> ParsedFeed, summarize: string -> Option<string>)
    ensures TotalLength(Gathered(tasks, parse, summarize)) == ArticleCount(tasks, parse)
    ensures ArticleCount(tasks, parse) <= EntriesPerFeed * |tasks|
  {
    if tasks != [] {
      var init := tasks[..|tasks| - 1];
      var r := Gathered(tasks, parse, summarize);
      GatheredCount(init, parse, summarize);
      assert r[..|r| - 1] == Gathered(init, parse, summarize);
    }
  }
}
