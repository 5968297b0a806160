/**
 * The headline pipeline of main.py: per-entry filtering and normalisation,
 * deduplication by link, the newest-first sort, the 250-item cap, the
 * five-minute cache (`fetch_news`) and the `limit` of `get_news`.
 */
module Aggregator {
  import opened Wrappers
  import opened PyStrings
  import opened Feeds
  import Sorting
  import TextClean
  import Timestamps
  import Lists

  const CacheTtlSeconds: real := 300.0
  const MaxItems: nat := 250

  /** One configured feed: its display name and what parsing its URL returned. */
  datatype Source = Source(name: string, feed: ParsedFeed)

  /** An item of the `/news` list; `publishedAt` is `None` when `_to_iso` gave `None`. */
  datatype NewsItem = NewsItem(
    headline: string, summary: string, url: string, source: string, publishedAt: Option<string>)

  /** What `fetch_news` ends with: the items, or the TypeError the sort raises on a `None` key. */
  datatype Outcome = Fetched(items: seq<NewsItem>) | SortTypeError

  /** The JSON body of `/news`, or the server error the request ends in when `fetch_news` raises. */
  datatype Response = NewsPage(count: int, items: seq<NewsItem>) | ServerError

  function UrlOf(x: NewsItem): string {
    x.url
  }

  /** The sort key; for a `None` timestamp the sort raises instead (see `SortRaises`). */
  function PublishedKey(x: NewsItem): string {
    x.publishedAt.GetOr("")
  }

  /** `(entry.get("title") or "").strip()`: no whitespace at the ends, every other character kept. */
  function Title(e: Entry): (r: string)
    ensures NoEdgeSpace(r) && NonSpaces(r) == NonSpaces(OrEmpty(e.title))
    ensures exists a, b | 0 <= a <= b <= |OrEmpty(e.title)| :: TrimmedTo(OrEmpty(e.title), r, a, b)
  {
    Strip(OrEmpty(e.title))
  }

  /** `(entry.get("link") or "").strip()`: no whitespace at the ends, every other character kept. */
  function Link(e: Entry): (r: string)
    ensures NoEdgeSpace(r) && NonSpaces(r) == NonSpaces(OrEmpty(e.link))
    ensures exists a, b | 0 <= a <= b <= |OrEmpty(e.link)| :: TrimmedTo(OrEmpty(e.link), r, a, b)
  {
    Strip(OrEmpty(e.link))
  }

  /** `entry.get("summary") or entry.get("description") or ""` */
  function SummaryText(e: Entry): (r: string)
    ensures OrEmpty(e.summary) != [] ==> r == OrEmpty(e.summary)
    ensures OrEmpty(e.summary) == [] ==> r == OrEmpty(e.description)
  {
    if OrEmpty(e.summary) != [] then OrEmpty(e.summary) else OrEmpty(e.description)
  }

  /**
   * The timestamp of an entry: from `published_parsed` whenever it is present
   * (even when it does not convert), else from `updated_parsed`, else the
   * current time `nowStamp`.
   */
  function PublishedAt(e: Entry, nowStamp: string): (r: Option<string>)
    ensures r.None? <==>
      (e.publishedParsed.Some? && !Timestamps.Valid(e.publishedParsed.value)) ||
      (e.publishedParsed.None? && e.updatedParsed.Some? && !Timestamps.Valid(e.updatedParsed.value))
    ensures e.publishedParsed.Some? && Timestamps.Valid(e.publishedParsed.value) ==>
      r == Some(Timestamps.IsoFormat(e.publishedParsed.value))
    ensures e.publishedParsed.None? && e.updatedParsed.Some? && Timestamps.Valid(e.updatedParsed.value) ==>
      r == Some(Timestamps.IsoFormat(e.updatedParsed.value))
    ensures e.publishedParsed.None? && e.updatedParsed.None? ==> r == Some(nowStamp)
  {
    if e.publishedParsed.Some? then Timestamps.ToIso(e.publishedParsed)
    else if e.updatedParsed.Some? then Timestamps.ToIso(e.updatedParsed)
    else Some(nowStamp)
  }

  /** An entry passes the filter when its stripped title and stripped link are non-empty. */
  predicate Admissible(e: Entry) {
    Title(e) != [] && Link(e) != []
  }

  /**
   * The item built from an entry: stripped headline and link (non-empty when
   * the entry passes the filter), the cleaned summary text (at most 400
   * characters, no tag), the configured source name and the chosen timestamp.
   */
  function EntryItem(sourceName: string, e: Entry, nowStamp: string): (x: NewsItem)
    ensures NoEdgeSpace(x.headline) && NoEdgeSpace(x.url)
    ensures Admissible(e) ==> x.headline != [] && x.url != []
    ensures |x.summary| <= TextClean.MaxSummaryLength && x.source == sourceName
    ensures x.url == Link(e) && x.publishedAt == PublishedAt(e, nowStamp)
    ensures x.headline == Title(e) && x.summary == TextClean.Clean(SummaryText(e))
    ensures TextClean.TagFree(x.summary)
  {
    TextClean.CleanTagFree(SummaryText(e));
    NewsItem(Title(e), TextClean.Clean(SummaryText(e)), Link(e), sourceName, PublishedAt(e, nowStamp))
  }

  /** The item of an entry when it passes the filter, else nothing. */
  function EntryPart(sourceName: string, e: Entry, nowStamp: string): (r: seq<NewsItem>)
    ensures |r| <= 1 && (r != [] <==> Admissible(e))
    ensures forall x | x in r :: x == EntryItem(sourceName, e, nowStamp)
  {
    if Admissible(e) then [EntryItem(sourceName, e, nowStamp)] else []
  }

  function EntryParts(sourceName: string, nowStamp: string): Entry -> seq<NewsItem> {
    e => EntryPart(sourceName, e, nowStamp)
  }

  /** Items of the admissible entries, in entry order, before deduplication. */
  function EntryCandidates(sourceName: string, es: seq<Entry>, nowStamp: string): seq<NewsItem> {
    Lists.FlatMap(es, EntryParts(sourceName, nowStamp))
  }

  /** A malformed (bozo) feed contributes nothing. */
  function SourceCandidates(src: Source, nowStamp: string): seq<NewsItem> {
    if src.feed.bozo then [] else EntryCandidates(src.name, src.feed.entries, nowStamp)
  }

  function SourceParts(nowStamp: string): Source -> seq<NewsItem> {
    src => SourceCandidates(src, nowStamp)
  }

  /** Candidate items of all sources, in source order, then entry order. */
  function Candidates(srcs: seq<Source>, nowStamp: string): seq<NewsItem> {
    Lists.FlatMap(srcs, SourceParts(nowStamp))
  }

  /** The links of `s`. */
  function Urls(s: seq<NewsItem>): (r: set<string>)
    ensures r == set i | 0 <= i < |s| :: s[i].url
  {
    if s == [] then {} else Urls(s[..|s| - 1]) + {s[|s| - 1].url}
  }

  /** Keeps the first item for each link and drops later ones. */
  function KeepFirst(s: seq<NewsItem>): (r: seq<NewsItem>)
    ensures |r| <= |s|
  {
    if s == [] then []
    else
      var kept := KeepFirst(s[..|s| - 1]);
      var x := s[|s| - 1];
      if x.url in Urls(kept) then kept else kept + [x]
  }

  lemma KeepFirstStep(s: seq<NewsItem>, x: NewsItem)
    ensures KeepFirst(s + [x]) ==
      if x.url in Urls(KeepFirst(s)) then KeepFirst(s) else KeepFirst(s) + [x]
  {
    assert (s + [x])[..|s|] == s;
  }

  lemma UrlsStep(s: seq<NewsItem>, x: NewsItem)
    ensures Urls(s + [x]) == Urls(s) + {x.url}
  {
    assert (s + [x])[..|s|] == s;
  }

  /** Deduplication drops nothing but duplicates: the kept links are all the links. */
  lemma {:induction false} KeepFirstUrls(s: seq<NewsItem>)
    ensures Urls(KeepFirst(s)) == Urls(s)
  {
    if s != [] {
      var init, x := s[..|s| - 1], s[|s| - 1];
      assert s == init + [x];
      KeepFirstUrls(init);
      KeepFirstStep(init, x);
      UrlsStep(init, x);
      UrlsStep(KeepFirst(init), x);
    }
  }

  /** No two kept items share a link. */
  lemma {:induction false} KeepFirstDistinct(s: seq<NewsItem>)
    ensures Sorting.DistinctBy(KeepFirst(s), UrlOf)
  {
    if s != [] {
      var init, x := s[..|s| - 1], s[|s| - 1];
      assert s == init + [x];
      KeepFirstDistinct(init);
      KeepFirstStep(init, x);
    }
  }

  /** The positions in `s` of the items `KeepFirst` keeps. */
  ghost function KeptPositions(s: seq<NewsItem>): seq<nat> {
    if s == [] then []
    else
      var init := s[..|s| - 1];
      if s[|s| - 1].url in Urls(KeepFirst(init)) then KeptPositions(init)
      else KeptPositions(init) + [|s| - 1]
  }

  /** The kept items are the items of `s` at the kept positions. */
  lemma {:induction false} KeptPositionsItems(s: seq<NewsItem>)
    ensures |KeptPositions(s)| == |KeepFirst(s)|
    ensures forall i | 0 <= i < |KeptPositions(s)| ::
      KeptPositions(s)[i] < |s| && KeepFirst(s)[i] == s[KeptPositions(s)[i]]
  {
    if s != [] {
      var init, x := s[..|s| - 1], s[|s| - 1];
      assert s == init + [x];
      KeptPositionsItems(init);
      KeepFirstStep(init, x);
      var p, k := KeptPositions(init), KeepFirst(init);
      var keep := x.url !in Urls(k);
      assert KeptPositions(s) == if keep then p + [|init|] else p;
      assert KeepFirst(s) == if keep then k + [x] else k;
      PositionsExtend(s, init, x, p, k, keep);
    }
  }

  /** Extending a list by one item, and the kept positions by it when it is kept, keeps them matched. */
  lemma PositionsExtend(s: seq<NewsItem>, init: seq<NewsItem>, x: NewsItem, p: seq<nat>, k: seq<NewsItem>, keep: bool)
    requires s == init + [x]
    requires |p| == |k| && forall i | 0 <= i < |p| :: p[i] < |init| && k[i] == init[p[i]]
    ensures var p', k' := if keep then p + [|init|] else p, if keep then k + [x] else k;
      |p'| == |k'| && forall i | 0 <= i < |p'| :: p'[i] < |s| && k'[i] == s[p'[i]]
  {
  }

  /** The kept positions increase, so the kept items stay in the order of `s`. */
  lemma {:induction false} KeptPositionsIncrease(s: seq<NewsItem>)
    ensures forall i | 0 <= i < |KeptPositions(s)| :: KeptPositions(s)[i] < |s|
    ensures forall i, j | 0 <= i < j < |KeptPositions(s)| :: KeptPositions(s)[i] < KeptPositions(s)[j]
  {
    if s != [] {
      KeptPositionsIncrease(s[..|s| - 1]);
    }
  }

  /** Each kept position is the first occurrence of its link in `s`. */
  lemma {:induction false} KeptPositionsFirst(s: seq<NewsItem>)
    ensures forall i, j | 0 <= i < |KeptPositions(s)| && 0 <= j < KeptPositions(s)[i] < |s| ::
      s[j].url != s[KeptPositions(s)[i]].url
  {
    if s != [] {
      var init, x := s[..|s| - 1], s[|s| - 1];
      assert s == init + [x];
      KeptPositionsFirst(init);
      KeptPositionsIncrease(init);
      var p := KeptPositions(init);
      assert forall i | 0 <= i < |init| :: s[i] == init[i];
      if x.url !in Urls(KeepFirst(init)) {
        KeepFirstUrls(init);
        assert KeptPositions(s) == p + [|init|];
        assert forall j | 0 <= j < |init| :: init[j].url != x.url;
      }
    }
  }

  lemma CandidatesAppend(a: seq<Source>, b: seq<Source>, nowStamp: string)
    ensures Candidates(a + b, nowStamp) == Candidates(a, nowStamp) + Candidates(b, nowStamp)
  {
    Lists.FlatMapAppend(a, b, SourceParts(nowStamp));
  }

  lemma CandidatesSingle(src: Source, nowStamp: string)
    ensures Candidates([src], nowStamp) == SourceCandidates(src, nowStamp)
  {
    Lists.FlatMapSingle(src, SourceParts(nowStamp));
  }

  /** Source isolation: removing a malformed feed from the configuration changes nothing. */
  lemma BozoSourceIgnored(srcs: seq<Source>, i: nat, nowStamp: string)
    requires i < |srcs| && srcs[i].feed.bozo
    ensures Candidates(srcs[..i] + srcs[i + 1..], nowStamp) == Candidates(srcs, nowStamp)
    ensures Aggregate(srcs[..i] + srcs[i + 1..], nowStamp) == Aggregate(srcs, nowStamp)
  {
    BozoSourceCandidates(srcs, i, nowStamp);
    assert Collected(srcs[..i] + srcs[i + 1..], nowStamp) == Collected(srcs, nowStamp);
  }

  lemma BozoSourceCandidates(srcs: seq<Source>, i: nat, nowStamp: string)
    requires i < |srcs| && srcs[i].feed.bozo
    ensures Candidates(srcs[..i] + srcs[i + 1..], nowStamp) == Candidates(srcs, nowStamp)
  {
    var front, mid, back := srcs[..i], [srcs[i]], srcs[i + 1..];
    assert srcs == (front + mid) + back;
    CandidatesAppend(front + mid, back, nowStamp);
    CandidatesAppend(front, mid, nowStamp);
    CandidatesSingle(srcs[i], nowStamp);
    CandidatesAppend(front, back, nowStamp);
    var cf := Candidates(front, nowStamp);
    assert Candidates(front + mid, nowStamp) == cf + [] == cf;
  }

  lemma EntryCandidateOrigin(name: string, es: seq<Entry>, nowStamp: string, x: NewsItem)
    requires x in EntryCandidates(name, es, nowStamp)
    ensures exists k | 0 <= k < |es| :: Admissible(es[k]) && x == EntryItem(name, es[k], nowStamp)
  {
    Lists.FlatMapOrigin(es, EntryParts(name, nowStamp), x);
    var k :| 0 <= k < |es| && x in EntryParts(name, nowStamp)(es[k]);
    assert x in EntryPart(name, es[k], nowStamp);
  }

  /** Every candidate comes from an admissible entry of a well-formed feed and carries that feed's name. */
  lemma CandidateOrigin(srcs: seq<Source>, nowStamp: string, x: NewsItem)
    requires x in Candidates(srcs, nowStamp)
    ensures exists i, k | 0 <= i < |srcs| && 0 <= k < |srcs[i].feed.entries| ::
      !srcs[i].feed.bozo && Admissible(srcs[i].feed.entries[k])
      && x == EntryItem(srcs[i].name, srcs[i].feed.entries[k], nowStamp)
  {
    Lists.FlatMapOrigin(srcs, SourceParts(nowStamp), x);
    var i :| 0 <= i < |srcs| && x in SourceParts(nowStamp)(srcs[i]);
    assert x in SourceCandidates(srcs[i], nowStamp);
    EntryCandidateOrigin(srcs[i].name, srcs[i].feed.entries, nowStamp, x);
  }

  lemma EntryIsCandidate(name: string, es: seq<Entry>, nowStamp: string, k: nat)
    requires k < |es| && Admissible(es[k])
    ensures EntryItem(name, es[k], nowStamp) in EntryCandidates(name, es, nowStamp)
  {
    assert EntryItem(name, es[k], nowStamp) in EntryParts(name, nowStamp)(es[k]);
    Lists.FlatMapMember(es, EntryParts(name, nowStamp), k, EntryItem(name, es[k], nowStamp));
  }

  /** Every admissible entry of a well-formed feed is a candidate. */
  lemma AdmissibleIsCandidate(srcs: seq<Source>, nowStamp: string, i: nat, k: nat)
    requires i < |srcs| && k < |srcs[i].feed.entries|
    requires !srcs[i].feed.bozo && Admissible(srcs[i].feed.entries[k])
    ensures EntryItem(srcs[i].name, srcs[i].feed.entries[k], nowStamp) in Candidates(srcs, nowStamp)
  {
    var x := EntryItem(srcs[i].name, srcs[i].feed.entries[k], nowStamp);
    EntryIsCandidate(srcs[i].name, srcs[i].feed.entries, nowStamp, k);
    assert x in SourceParts(nowStamp)(srcs[i]);
    Lists.FlatMapMember(srcs, SourceParts(nowStamp), i, x);
  }

  /** The deduplicated items built from all feeds, in build order. */
  function Collected(srcs: seq<Source>, nowStamp: string): seq<NewsItem> {
    KeepFirst(Candidates(srcs, nowStamp))
  }

  /** No article is lost: the link of every admissible entry of a well-formed feed is present. */
  lemma CollectedLinks(srcs: seq<Source>, nowStamp: string)
    ensures forall i, k | 0 <= i < |srcs| && 0 <= k < |srcs[i].feed.entries| ::
      !srcs[i].feed.bozo && Admissible(srcs[i].feed.entries[k]) ==>
      Link(srcs[i].feed.entries[k]) in Urls(Collected(srcs, nowStamp))
  {
    var c := Candidates(srcs, nowStamp);
    KeepFirstUrls(c);
    forall i, k | 0 <= i < |srcs| && 0 <= k < |srcs[i].feed.entries|
        && !srcs[i].feed.bozo && Admissible(srcs[i].feed.entries[k])
      ensures Link(srcs[i].feed.entries[k]) in Urls(c)
    {
      AdmissibleIsCandidate(srcs, nowStamp, i, k);
      UrlsMember(c, EntryItem(srcs[i].name, srcs[i].feed.entries[k], nowStamp));
    }
  }

  lemma UrlsMember(s: seq<NewsItem>, x: NewsItem)
    requires x in s
    ensures x.url in Urls(s)
  {
    var m :| 0 <= m < |s| && s[m] == x;
  }

  /**
   * Every item is built from an admissible entry of a well-formed feed: its
   * headline and link are stripped and non-empty, its summary is bounded and
   * its source is the configured name of a feed; and no link repeats.
   */
  lemma CollectedSpec(srcs: seq<Source>, nowStamp: string)
    ensures forall x | x in Collected(srcs, nowStamp) ::
      x.headline != [] && x.url != [] && NoEdgeSpace(x.headline) && NoEdgeSpace(x.url)
      && |x.summary| <= TextClean.MaxSummaryLength && TextClean.TagFree(x.summary)
      && exists i | 0 <= i < |srcs| :: x.source == srcs[i].name
    ensures Sorting.DistinctBy(Collected(srcs, nowStamp), UrlOf)
  {
    var c := Candidates(srcs, nowStamp);
    KeepFirstDistinct(c);
    KeptPositionsItems(c);
    forall x | x in KeepFirst(c)
      ensures x.headline != [] && x.url != [] && NoEdgeSpace(x.headline) && NoEdgeSpace(x.url)
      ensures |x.summary| <= TextClean.MaxSummaryLength && TextClean.TagFree(x.summary)
      ensures exists i | 0 <= i < |srcs| :: x.source == srcs[i].name
    {
      var j :| 0 <= j < |KeepFirst(c)| && KeepFirst(c)[j] == x;
      assert x == c[KeptPositions(c)[j]];
      CandidateOrigin(srcs, nowStamp, x);
      var i, k :| 0 <= i < |srcs| && 0 <= k < |srcs[i].feed.entries|
        && !srcs[i].feed.bozo && Admissible(srcs[i].feed.entries[k])
        && x == EntryItem(srcs[i].name, srcs[i].feed.entries[k], nowStamp);
    }
  }

  /** Python raises TypeError when the sort has to compare a `None` key, which it does whenever there are two or more items. */
  predicate SortRaises(s: seq<NewsItem>) {
    |s| >= 2 && exists i | 0 <= i < |s| :: s[i].publishedAt.None?
  }

  /** `all_items[:250]` when longer than 250. */
  function Cap(s: seq<NewsItem>): (r: seq<NewsItem>)
    ensures |r| == Min(MaxItems, |s|) && r == s[..|r|]
  {
    if |s| > MaxItems then s[..MaxItems] else s
  }

  /** What a refresh of `fetch_news` computes from the parsed feeds. */
  function Aggregate(srcs: seq<Source>, nowStamp: string): Outcome {
    var built := Collected(srcs, nowStamp);
    if SortRaises(built) then SortTypeError
    else Fetched(Cap(Sorting.SortDesc(built, PublishedKey)))
  }

  /**
   * A refresh fails exactly when the sort meets a `None` timestamp; otherwise
   * it returns the first (at most 250) items of the stably sorted list: keys
   * never increase, equal keys keep build order, no link repeats, every item
   * was built, and no dropped item is newer than a kept one.
   */
  lemma AggregateSpec(srcs: seq<Source>, nowStamp: string)
    ensures Aggregate(srcs, nowStamp).SortTypeError? <==> SortRaises(Collected(srcs, nowStamp))
    ensures Aggregate(srcs, nowStamp).Fetched? ==>
      var built := Collected(srcs, nowStamp);
      var sorted := Sorting.SortDesc(built, PublishedKey);
      var r := Aggregate(srcs, nowStamp).items;
      && |r| == Min(MaxItems, |built|)
      && r == sorted[..|r|]
      && Sorting.SortedDesc(r, PublishedKey)
      && (forall k :: Sorting.WithKey(sorted, PublishedKey, k) == Sorting.WithKey(built, PublishedKey, k))
      && Sorting.DistinctBy(r, UrlOf)
      && (forall x | x in r :: x in built && (|built| >= 2 ==> x.publishedAt.Some?))
      && (forall i, j | 0 <= i < |r| <= j < |sorted| ::
            !StrLt(PublishedKey(sorted[i]), PublishedKey(sorted[j])))
  {
    var built := Collected(srcs, nowStamp);
    if !SortRaises(built) {
      var sorted := Sorting.SortDesc(built, PublishedKey);
      Sorting.SortDescSpec(built, PublishedKey);
      CollectedSpec(srcs, nowStamp);
      Sorting.SortDescDistinct(built, PublishedKey, UrlOf);
      CapSpec(built, sorted);
    }
  }

  /** The first items of a sorted permutation of `built` with distinct links. */
  lemma CapSpec(built: seq<NewsItem>, sorted: seq<NewsItem>)
    requires multiset(sorted) == multiset(built)
    requires Sorting.SortedDesc(sorted, PublishedKey) && Sorting.DistinctBy(sorted, UrlOf)
    ensures var r := Cap(sorted);
      && Sorting.SortedDesc(r, PublishedKey)
      && Sorting.DistinctBy(r, UrlOf)
      && (forall x | x in r :: x in built)
      && (forall i, j | 0 <= i < |r| <= j < |sorted| ::
            !StrLt(PublishedKey(sorted[i]), PublishedKey(sorted[j])))
  {
    var r := Cap(sorted);
    forall x | x in r ensures x in built {
      assert x in multiset(sorted);
    }
    assert Sorting.SortedDesc(r, PublishedKey) by {
      forall i, j | 0 <= i < j < |r| ensures !StrLt(PublishedKey(r[i]), PublishedKey(r[j])) {
        assert r[i] == sorted[i] && r[j] == sorted[j];
      }
    }
    assert Sorting.DistinctBy(r, UrlOf) by {
      forall i, j | 0 <= i < j < |r| ensures r[i].url != r[j].url {
        assert r[i] == sorted[i] && r[j] == sorted[j];
      }
    }
  }

  /** `items[:limit]` when `limit > 0`, otherwise all items. */
  function Limit(items: seq<NewsItem>, limit: int): (r: seq<NewsItem>)
    ensures limit > 0 ==> |r| == Min(limit, |items|)
    ensures limit <= 0 ==> |r| == |items|
    ensures r == items[..|r|]
  {
    if limit > 0 then Take(items, limit) else items
  }

  /** The candidates of one more entry. */
  lemma EntryCandidatesStep(name: string, es: seq<Entry>, j: nat, nowStamp: string)
    requires j < |es|
    ensures EntryCandidates(name, es[..j + 1], nowStamp) ==
      EntryCandidates(name, es[..j], nowStamp) + EntryPart(name, es[j], nowStamp)
  {
    Lists.FlatMapStep(es, j, EntryParts(name, nowStamp));
  }

  /** The candidates of one more source. */
  lemma CandidatesStep(srcs: seq<Source>, i: nat, nowStamp: string)
    requires i < |srcs|
    ensures Candidates(srcs[..i + 1], nowStamp) == Candidates(srcs[..i], nowStamp) + SourceCandidates(srcs[i], nowStamp)
  {
    Lists.FlatMapStep(srcs, i, SourceParts(nowStamp));
  }

  /** One step of the build loop: an entry is skipped when filtered out or its link was seen. */
  lemma DedupStep(prev: seq<NewsItem>, name: string, e: Entry, nowStamp: string)
    ensures KeepFirst(prev + EntryPart(name, e, nowStamp)) ==
      if !Admissible(e) || Link(e) in Urls(KeepFirst(prev)) then KeepFirst(prev)
      else KeepFirst(prev) + [EntryItem(name, e, nowStamp)]
  {
    if Admissible(e) {
      KeepFirstStep(prev, EntryItem(name, e, nowStamp));
    } else {
      assert prev + [] == prev;
    }
  }

  /** One step of the entry loop: an entry is skipped when filtered out or its link was seen. */
  lemma EntryStep(prev: seq<NewsItem>, name: string, es: seq<Entry>, j: nat, nowStamp: string)
    requires j < |es|
    ensures KeepFirst(prev + EntryCandidates(name, es[..j + 1], nowStamp)) ==
      var kept := KeepFirst(prev + EntryCandidates(name, es[..j], nowStamp));
      if !Admissible(es[j]) || Link(es[j]) in Urls(kept) then kept
      else kept + [EntryItem(name, es[j], nowStamp)]
  {
    var done := EntryCandidates(name, es[..j], nowStamp);
    var part := EntryPart(name, es[j], nowStamp);
    EntryCandidatesStep(name, es, j, nowStamp);
    assert prev + (done + part) == (prev + done) + part;
    DedupStep(prev + done, name, es[j], nowStamp);
  }

  /**
   * The inner loop of `fetch_news` over the entries of one well-formed feed:
   * extends `allItems` and `seen` exactly as deduplicating the feed's
   * candidates after `prev` does.
   */
  method CollectEntries(allItems: seq<NewsItem>, seen: set<string>, ghost prev: seq<NewsItem>,
                        name: string, entries: seq<Entry>, nowStamp: string)
    returns (items': seq<NewsItem>, seen': set<string>)
    requires allItems == KeepFirst(prev) && seen == Urls(allItems)
    ensures items' == KeepFirst(prev + EntryCandidates(name, entries, nowStamp))
    ensures seen' == Urls(items')
  {
    items', seen' := allItems, seen;
    assert prev + EntryCandidates(name, entries[..0], nowStamp) == prev;
    for j := 0 to |entries|
      invariant items' == KeepFirst(prev + EntryCandidates(name, entries[..j], nowStamp))
      invariant seen' == Urls(items')
    {
      var entry := entries[j];
      EntryStep(prev, name, entries, j, nowStamp);
      var title := Strip(OrEmpty(entry.title));
      var link := Strip(OrEmpty(entry.link));
      if title == [] || link == [] || link in seen' {
        continue;
      }
      seen' := seen' + {link};
      var summary := TextClean.Clean(SummaryText(entry));
      var published: Option<string>;
      if entry.publishedParsed.Some? {
        published := Timestamps.ToIso(entry.publishedParsed);
      } else if entry.updatedParsed.Some? {
        published := Timestamps.ToIso(entry.updatedParsed);
      } else {
        published := Some(nowStamp);
      }
      var item := NewsItem(title, summary, link, name, published);
      assert item == EntryItem(name, entry, nowStamp);
      UrlsStep(items', item);
      items' := items' + [item];
    }
    assert entries[..|entries|] == entries;
  }

  /** The build loop of `fetch_news`: the deduplicated items of all well-formed feeds, in order. */
  method CollectItems(srcs: seq<Source>, nowStamp: string) returns (allItems: seq<NewsItem>)
    ensures allItems == Collected(srcs, nowStamp)
  {
    allItems := [];
    var seen: set<string> := {};
    for i := 0 to |srcs|
      invariant allItems == KeepFirst(Candidates(srcs[..i], nowStamp))
      invariant seen == Urls(allItems)
    {
      ghost var done := Candidates(srcs[..i], nowStamp);
      CandidatesStep(srcs, i, nowStamp);
      var src := srcs[i];
      if src.feed.bozo {
        assert done + [] == done;
        continue;
      }
      allItems, seen := CollectEntries(allItems, seen, done, src.name, src.feed.entries, nowStamp);
    }
    assert srcs[..|srcs|] == srcs;
  }

  /** `NEWS_CACHE`: the last item list and the time (seconds) it was stored. */
  class NewsCache {
    var items: seq<NewsItem>
    var timestamp: real

    /** `{"items": [], "timestamp": 0.0}` */
    constructor ()
      ensures items == [] && timestamp == 0.0
    {
      items := [];
      timestamp := 0.0;
    }

    /** The stored items are served: there are some and they are younger than the TTL. */
    predicate Fresh(now: real)
      reads this
    {
      items != [] && now - timestamp < CacheTtlSeconds
    }

    /**
     * `fetch_news(force)` at clock reading `now` (seconds), with `nowStamp` the
     * ISO text of the current time and `srcs` what parsing each configured
     * feed returns. A fresh cache is served unless forced; otherwise the feeds
     * are aggregated and the result replaces the cache, even when empty. A
     * sort that raises leaves the cache as it was.
     */
    method FetchNews(force: bool, now: real, nowStamp: string, srcs: seq<Source>) returns (r: Outcome)
      modifies this
      ensures !force && old(Fresh(now)) ==>
        r == Fetched(old(items)) && items == old(items) && timestamp == old(timestamp)
      ensures force || !old(Fresh(now)) ==> r == Aggregate(srcs, nowStamp)
      ensures force || !old(Fresh(now)) ==>
        if r.Fetched? then items == r.items && timestamp == now
        else items == old(items) && timestamp == old(timestamp)
    {
      if !force && items != [] && now - timestamp < CacheTtlSeconds {
        return Fetched(items);
      }
      var allItems := CollectItems(srcs, nowStamp);
      if SortRaises(allItems) {
        return SortTypeError;
      }
      allItems := Cap(Sorting.SortDesc(allItems, PublishedKey));
      items := allItems;
      timestamp := now;
      r := Fetched(allItems);
    }

    /**
     * `get_news(limit)`: the (possibly refreshed) items, the first `limit` of
     * them when `limit > 0`, and their count.
     */
    method GetNews(limit: int, now: real, nowStamp: string, srcs: seq<Source>) returns (resp: Response)
      modifies this
      ensures resp.NewsPage? ==> resp.count == |resp.items|
      ensures old(Fresh(now)) ==> items == old(items) && timestamp == old(timestamp)
      ensures !old(Fresh(now)) ==>
        if Aggregate(srcs, nowStamp).Fetched? then items == Aggregate(srcs, nowStamp).items && timestamp == now
        else items == old(items) && timestamp == old(timestamp)
      ensures var fetched := if old(Fresh(now)) then Fetched(old(items)) else Aggregate(srcs, nowStamp);
        if fetched.Fetched? then resp == NewsPage(|Limit(fetched.items, limit)|, Limit(fetched.items, limit))
        else resp == ServerError
    {
      var fetched := FetchNews(false, now, nowStamp, srcs);
      if fetched.SortTypeError? {
        return ServerError;
      }
      var page := Limit(fetched.items, limit);
      resp := NewsPage(|page|, page);
    }
  }

  /** Two calls within the TTL: the second serves exactly what the first stored. */
  method RepeatWithinTtl(cache: NewsCache, t1: real, t2: real, nowStamp: string, srcs: seq<Source>)
    returns (first: Outcome, stamp: real, second: Outcome)
    modifies cache
    ensures first.Fetched? && first.items != [] && t2 - stamp < CacheTtlSeconds ==> second == first
    ensures first.Fetched? && first.items != [] && !old(cache.Fresh(t1)) ==> stamp == t1
  {
    first := cache.FetchNews(false, t1, nowStamp, srcs);
    stamp := cache.timestamp;
    second := cache.FetchNews(false, t2, nowStamp, srcs);
  }
}
