# Fineryx news backend: a Dafny model

This is a model of the news aggregation service behind the Fineryx site.
`main.py` serves `/news`. On each refresh it does the following:

- It reads every configured RSS source and skips any feed the parser flags as malformed (`bozo`).
- It keeps each entry that has a non-empty stripped title and link.
- It drops repeated links; the first occurrence wins.
- It cleans the summary: tags become spaces, whitespace runs collapse to one space, the text is stripped, and anything over 400 characters is cut to 397 plus `...`.
- It picks a timestamp: `published_parsed`, else `updated_parsed`, else the current time.
- It sorts the list newest first, keeps the first 250 items and stores them in a five-minute cache.
- `get_news(limit)` returns the first `limit` items, or all of them when `limit <= 0`, with their count.

`app.py` is the earlier version of the service:

- For each category and URL, it turns the first five entries of the feed into articles.
- Each article's summary comes from a summarization model. When the model call raises, the summary is `(text[:140] + "...").strip()` instead.
- `/news` flattens the per-feed lists in configuration order and sorts them into descending string order of `pubDate`. `pubDate` is the feed's raw date text, so for RFC 822 dates that order is not chronological: the weekday name is compared first.

The modules, one `.dfy` file each:

- `Wrappers` holds `Option`.
- `PyStrings` holds the Python `str` semantics the code uses: the `isspace` table, `strip`, `s[:n]` and `<`.
- `Sorting` holds `list.sort(key=..., reverse=True)` as a stable descending reference function.
- `TextClean` models `_clean`.
- `Timestamps` models `_to_iso`.
- `Feeds` gives the shape of a parsed feed.
- `Lists` models nested list comprehensions.
- `Aggregator` models `main.py`:
  - the build loop, as methods proved equal to a functional specification;
  - the cache, as the class `NewsCache`;
  - `get_news`.
- `LegacyApp` models `app.py`.

## Model

| member | source | states |
|---|---|---|
| PyStrings.Take | main.py:106 | `s[:n]` has length `min(n, len(s))` and is a prefix of `s` |
| PyStrings.WhitespaceTable | main.py:104 | `IsSpace`, the `\s`/`str.isspace` table: space, tab, newline, carriage return, U+001F, U+00A0, U+2028 and U+3000 are whitespace |
| PyStrings.NotWhitespace | main.py:104 | letters and U+FEFF are not in the whitespace table |
| PyStrings.ZeroWidthNotWhitespace | main.py:104 | U+200B and U+180E are not in the whitespace table |
| PyStrings.GapNotSpace | main.py:104 | code points from U+1681 to U+1FFF and from U+200B to U+2027 are not whitespace |
| PyStrings.AboveTableNotSpace | main.py:104 | no code point above U+3000 is whitespace |
| PyStrings.DropLeading | main.py:127 | `lstrip` result is a suffix of the input, starts with a non-space, and everything removed was whitespace |
| PyStrings.DropTrailing | main.py:127 | `rstrip` result is a prefix of the input, ends with a non-space, and everything removed was whitespace |
| PyStrings.Strip | main.py:127-128 | `strip()` returns a slice `s[a:b]` where everything before `a` and from `b` on is whitespace; the slice has no whitespace at either end and keeps every non-whitespace character in order |
| PyStrings.TrimSlices | main.py:127-128 | a prefix of a suffix, with only whitespace cut at each end, is such a trimmed slice |
| PyStrings.NonSpaces | main.py:104 | the non-whitespace characters of a string are never more than the string |
| PyStrings.NonSpacesAppend | main.py:104 | the non-whitespace characters of a concatenation are those of its parts, in order |
| PyStrings.NonSpacesOfSpaces | main.py:104 | an all-whitespace string has no non-whitespace characters |
| PyStrings.OutsideRanges | main.py:104 | a code point outside every range is not in the whitespace table |
| PyStrings.PrintableNotSpace | app.py:45 | printable ASCII other than the space is not whitespace, so `.` is not stripped |
| PyStrings.DropLeadingNonSpaces | main.py:104 | `lstrip` removes only whitespace |
| PyStrings.DropTrailingNonSpaces | main.py:104 | `rstrip` removes only whitespace |
| PyStrings.DropLeadingAppend | app.py:45 | `lstrip` of `a + b`, when `b` starts with a non-space, strips only the front of `a` |
| PyStrings.DropTrailingAppend | app.py:45 | `rstrip` of `a + b`, when `b` ends with a non-space, removes nothing |
| PyStrings.StripAppend | app.py:45 | `(a + b).strip()`, when `b` has no edge whitespace, is `a.lstrip() + b` |
| PyStrings.StripIdentity | main.py:104 | stripping a string without edge whitespace leaves it unchanged |
| PyStrings.Words | main.py:104 | `s.split()`: a list of words, each non-empty and without whitespace, and non-empty when `s` starts with a non-space |
| PyStrings.WordsSpaceCons | main.py:104 | a whitespace character in front adds no word |
| PyStrings.WordsDropLeading | main.py:104 | `s.lstrip().split() == s.split()` |
| PyStrings.WordsOfSpaces | main.py:104 | an all-whitespace string has no words |
| PyStrings.WordsTrailingSpaces | main.py:104 | trailing whitespace adds no word |
| PyStrings.SplitTrailing | main.py:104 | a string is its `rstrip()` followed by a run of whitespace |
| PyStrings.WordsDropTrailing | main.py:104 | `s.rstrip().split() == s.split()` |
| PyStrings.StripWords | main.py:104 | `s.strip().split() == s.split()` |
| PyStrings.StrLtIrreflexive | main.py:153 | Python's `<` on str (`StrLt`: the first differing code point decides, a proper prefix is smaller) is irreflexive |
| PyStrings.StrLtTransitive | main.py:153 | Python's `<` on str is transitive |
| PyStrings.StrLtTotal | main.py:153 | two different strs are ordered one way or the other |
| PyStrings.StrLtConcat | main.py:153 | comparing strings whose first parts have equal length compares the first parts, then the rests |
| Sorting.WithKeyAppend | main.py:153 | the items with a given key in a concatenation are those of the parts, in order |
| Sorting.Insert | main.py:153 | inserting an item adds exactly one position |
| Sorting.SortDesc | main.py:153 | the reference sort keeps the length; its full specification is `SortDescSpec` |
| Sorting.WithKeyNone | main.py:153 | a list with no item of key `k` has no items with key `k` |
| Sorting.InsertCount | main.py:153 | insertion adds exactly the inserted item |
| Sorting.InsertSorted | main.py:153 | insertion into a descending list keeps it descending |
| Sorting.InsertWithKey | main.py:153 | insertion puts the item behind every item with an equal key (stability) |
| Sorting.InsertDistinct | main.py:153 | inserting an item with a new tag keeps the tags distinct |
| Sorting.SortDescCount | main.py:153 | the sorted list is a permutation of the input |
| Sorting.SortDescSpec | main.py:153 | the sorted list is a permutation, has the same length, has non-increasing keys, and keeps each key's items in input order (stable, `reverse=True`) |
| Sorting.SortDescDistinct | main.py:153 | sorting keeps a list's distinct tags distinct |
| TextClean.TagEnd | main.py:103 | the index of the first `>`, or the length when there is none |
| TextClean.TagLength | main.py:103 | a match of `<[^>]+>` is at least three characters long and ends in `>` |
| TextClean.StripTags | main.py:103 | `re.sub(r"<[^>]+>", " ", s)` never lengthens the text |
| TextClean.StripTagsAddsNoClose | main.py:103 | text without `>` stays without `>` after the substitution |
| TextClean.TagFreeCons | main.py:103 | a character that does not start a tag, in front of tag-free text, keeps it tag-free |
| TextClean.StripTagsTagFree | main.py:103 | no match of the tag pattern remains after the substitution |
| TextClean.StripTagsKeepsTagFree | main.py:103 | tag-free text passes the substitution unchanged |
| TextClean.StripTagsFixedPoints | main.py:103 | the substitution is idempotent, and its fixed points are exactly the tag-free strings |
| TextClean.TagAtStartChars | main.py:103 | `<[^>]+>` matches at the start exactly when the text is `<`, a character other than `>`, and later a `>` |
| TextClean.TagAtStartPrefix | main.py:103 | a match at the start of a prefix is a match at the start of the whole text |
| TextClean.TagAtStartPlainTail | main.py:103 | appending text without `<` or `>` creates no new match at the start |
| TextClean.TagFreeSlice | main.py:103 | every slice of tag-free text is tag-free |
| TextClean.TagFreeAppendPlain | main.py:106 | appending text without `<` or `>` (such as `...`) keeps text tag-free |
| TextClean.NonSpacesMember | main.py:104 | a non-whitespace character occurs in a string exactly when it occurs among its non-whitespace characters |
| TextClean.CollapseTagFree | main.py:104 | collapsing whitespace keeps tag-free text tag-free |
| TextClean.Collapse | main.py:104 | `re.sub(r"\s+", " ", s)` leaves only plain spaces, never two whitespace characters in a row, and the same non-whitespace characters; it is empty, or starts with a space or with `s[0]`, exactly as `s` is empty or starts with whitespace or not |
| TextClean.CollapseWords | main.py:104 | the collapse keeps the words: `re.sub(r"\s+", " ", s).split() == s.split()` |
| TextClean.CollapseLast | main.py:104 | the collapse ends with whitespace exactly when `s` does |
| TextClean.ConsSpacing | main.py:104 | prefixing a non-space, or a space before a non-space, keeps the spacing invariants |
| TextClean.Clean | main.py:100-107 | empty text gives `""`; the result is at most 400 characters; normalized text of up to 400 characters is returned whole, longer text is cut to 397 characters plus `...` |
| TextClean.SliceKeepsSpacing | main.py:104 | a slice keeps the spacing invariants |
| TextClean.StripKeepsSpacing | main.py:104 | `strip()` keeps the spacing invariants |
| TextClean.NormalizeSpec | main.py:103-107 | `Normalize` (the text `_clean` works on before the cap) has no edge whitespace, only single plain spaces, the same words and non-whitespace characters as the tag-stripped text, and no tag; the capped `_clean` result has no tag either |
| TextClean.NormalizeTagFree | main.py:103-104 | no tag survives tag removal, whitespace collapsing and stripping |
| TextClean.CleanTagFree | main.py:100-107 | the result of `_clean`, after the cap, contains no tag |
| Timestamps.DaysInMonth | main.py:90-94 | every month has 28 to 31 days |
| Timestamps.Digit | main.py:95 | a digit is written as a character `0`-`9` |
| Timestamps.Pad2 | main.py:95 | two-digit fields are two characters |
| Timestamps.Pad4 | main.py:95 | the year is four characters |
| Timestamps.IsoFormat | main.py:95 | `isoformat()` of a whole-second UTC datetime is 25 characters |
| Timestamps.ToIso | main.py:86-97 | `None` exactly when the record is absent or `datetime` rejects its fields (`Valid`: years 1-9999, a real calendar day, hours 0-23, minutes and seconds 0-59); otherwise the canonical 25-character `isoformat()` text of the record (`IsoFormat`) |
| Timestamps.DigitRoundTrip | main.py:95 | reading a written digit gives it back |
| Timestamps.Pad2Number | main.py:95 | reading a two-digit field gives its value back |
| Timestamps.Pad2Digits | main.py:95 | a two-digit field's value in terms of its two characters |
| Timestamps.Pad4Number | main.py:95 | reading the four-digit year gives it back |
| Timestamps.IsoFormatRoundTrip | main.py:86-97 | parsing the canonical string gives the six fields back |
| Timestamps.IsoFormatInjective | main.py:86-97 | different valid records give different strings |
| Timestamps.Pad2Order | main.py:153 | two-digit fields compare as strings exactly as their values compare |
| Timestamps.Pad4Order | main.py:153 | four-digit years compare as strings exactly as their values compare |
| Timestamps.SeparatorOrder | main.py:153 | a common separator in front does not change the string comparison |
| Timestamps.IsoFormatOrder | main.py:153 | for valid records, str `<` on the canonical strings is chronological order, so the reverse sort puts the newest first |
| Timestamps.CalendarExamples | main.py:90-97 | `Valid`/`IsLeapYear`, the fields `datetime` accepts: month 13, 29 February 1900, second 60 and year 0 are rejected; 29 February 2000 is accepted |
| Lists.FlatMapStep | app.py:79 | one more element adds its list at the end |
| Lists.FlatMapSingle | app.py:79 | a one-element comprehension is that element's list |
| Lists.FlatMapAppend | app.py:71-75 | the comprehension distributes over concatenation |
| Lists.FlatMapOrigin | app.py:79 | every element of the result comes from the list of some input element |
| Lists.FlatMapMember | app.py:79 | every element of every input list is in the result |
| Aggregator.SummaryText | main.py:135 | `summary or description or ""`: the summary when it is non-empty, else the description (or `""`) |
| Aggregator.Title | main.py:127 | `(entry.get("title") or "").strip()` is the slice of the title between its leading and trailing whitespace, with no edge whitespace |
| Aggregator.Link | main.py:128 | `(entry.get("link") or "").strip()` is the slice of the link between its leading and trailing whitespace, with no edge whitespace |
| Aggregator.PublishedAt | main.py:136-143 | when `published_parsed` is present, its conversion is used, even when that conversion gives `None`; else `updated_parsed`; else the current time; `None` exactly when the chosen record does not convert |
| Aggregator.EntryItem | main.py:127-151 | the item of an entry has the stripped title as headline and the stripped link as URL, both non-empty when the entry passes the filter (`Admissible`, main.py:130); its summary is `_clean` of `summary or description or ""`, at most 400 characters and tag-free; it carries the source's configured name and the entry's chosen timestamp |
| Aggregator.EntryPart | main.py:130-151 | an entry contributes one item exactly when it passes the filter, and that item is `EntryItem` |
| Aggregator.Urls | main.py:119 | the `seen` set is exactly the set of links of the list |
| Aggregator.KeepFirst | main.py:119-133 | deduplication by `seen` never lengthens the list; what it keeps is stated by `KeepFirstUrls`, `KeepFirstDistinct` and the `KeptPositions` lemmas |
| Aggregator.UrlsMember | main.py:133 | the link of every item of the list is in `seen` |
| Aggregator.KeepFirstStep | main.py:130-133 | a later item is kept exactly when its link has not been seen |
| Aggregator.UrlsStep | main.py:133 | appending an item adds its link to `seen` |
| Aggregator.KeepFirstUrls | main.py:130-133 | deduplication drops only repeats: the kept links are all the links |
| Aggregator.KeepFirstDistinct | main.py:130-133 | no two kept items share a link |
| Aggregator.KeptPositionsItems | main.py:130-133 | the kept items are items of the input at the kept positions |
| Aggregator.PositionsExtend | main.py:130-133 | appending an item to the list, and to the kept items and positions when it is kept, keeps each kept item equal to the item at its position |
| Aggregator.KeptPositionsIncrease | main.py:145 | the kept items stay in input order |
| Aggregator.KeptPositionsFirst | main.py:130-133 | each kept item is the first occurrence of its link |
| Aggregator.CandidatesAppend | main.py:121 | the candidates of two source lists are the candidates of each, in order |
| Aggregator.CandidatesSingle | main.py:121-126 | the candidates of one source are its own |
| Aggregator.BozoSourceIgnored | main.py:123-124 | removing a malformed source changes neither the candidates nor the refresh result (`Aggregate`) |
| Aggregator.BozoSourceCandidates | main.py:123-124 | removing a malformed source leaves the candidate list unchanged |
| Aggregator.EntryCandidateOrigin | main.py:126-151 | every candidate of a feed is the item of one of its admissible entries |
| Aggregator.CandidateOrigin | main.py:121-151 | every candidate (`Candidates`, through `SourceCandidates`) is the item of an admissible entry of a well-formed feed, under that feed's name |
| Aggregator.EntryIsCandidate | main.py:126-151 | every admissible entry of a feed yields a candidate |
| Aggregator.AdmissibleIsCandidate | main.py:121-151 | every admissible entry of a well-formed feed yields a candidate |
| Aggregator.CollectedLinks | main.py:121-151 | no article is lost: the link of every admissible entry of every well-formed feed is in the result |
| Aggregator.CollectedSpec | main.py:121-151 | every built item has a non-empty stripped headline and link, a tag-free summary of at most 400 characters and the name of a configured source, and no link repeats |
| Aggregator.Cap | main.py:155-156 | `all_items[:250]`: the first `min(250, n)` items |
| Aggregator.AggregateSpec | main.py:118-156 | `Aggregate`, a refresh, fails exactly when the sort meets a `None` key (`SortRaises`: two or more items and a `None` timestamp). Otherwise it returns the first `min(250, n)` items of the stable newest-first sort: distinct links, all of them built, items with `Some` timestamps whenever two or more items were built, and nothing dropped newer than anything kept |
| Aggregator.CapSpec | main.py:153-156 | the first 250 items of the sorted list are sorted, have distinct links, were all built, and are not older than any dropped item |
| Aggregator.Limit | main.py:175-176 | `items[:limit]` when `limit > 0`, otherwise all items; always a prefix |
| Aggregator.EntryCandidatesStep | main.py:126 | one more entry adds its part |
| Aggregator.CandidatesStep | main.py:121 | one more source adds its candidates |
| Aggregator.DedupStep | main.py:127-151 | an entry is skipped when filtered out or its link was seen; otherwise its item is appended |
| Aggregator.EntryStep | main.py:126-151 | the same, one entry of the loop at a time |
| Aggregator.CollectEntries | main.py:126-151 | the entry loop extends `all_items` and `seen` exactly as deduplicating the feed's candidates does |
| Aggregator.CollectItems | main.py:118-151 | the build loop yields the deduplicated candidates of all well-formed feeds |
| Aggregator.NewsCache.constructor | main.py:82 | the cache starts empty with timestamp 0.0 |
| Aggregator.NewsCache.FetchNews | main.py:110-160 | a fresh (`Fresh`: non-empty and younger than 300 s) cache is served unchanged unless forced. Otherwise the refresh result is returned and stored with the current time, even when empty; a raising sort leaves the cache untouched |
| Aggregator.NewsCache.GetNews | main.py:172-177 | the response is the limited item list of `fetch_news` and its count, or a server error when the sort raises; the cache is left as `fetch_news(False)` leaves it |
| Aggregator.RepeatWithinTtl | main.py:113-116 | a second call within the TTL of a non-empty refresh returns exactly the first call's items |
| LegacyApp.EllipsisHasNoEdgeSpace | app.py:45 | `"..."` has no whitespace at its ends |
| LegacyApp.FallbackSummary | app.py:45 | `(text[:140] + "...").strip()` is `text[:140]` with leading whitespace removed, then `...`. It is at most 143 characters, ends with `...`, and keeps every non-whitespace character of `text[:140]` |
| LegacyApp.MarkedStrip | app.py:45 | stripping `head + "..."` only removes the leading whitespace of `head` |
| LegacyApp.EllipsisNonSpaces | app.py:45 | `"..."` is all non-whitespace |
| LegacyApp.AiSummary | app.py:34-45 | the model's summary when the call succeeds, the fallback summary when it raises |
| LegacyApp.SummaryText | app.py:54 | `get("summary", get("description", ""))`: the summary whenever the key is present, even when empty |
| LegacyApp.Articles | app.py:51-64 | one article per entry, in entry order |
| LegacyApp.FetchFeed | app.py:47-66 | `FeedArticles`: the articles (`MakeArticle`) of the first five entries, one per entry in order, with defaults `"Untitled"` and `""`, all in the given category |
| LegacyApp.TasksSpec | app.py:71-75 | `Tasks` is exactly the (category, URL) pairs of the configuration |
| LegacyApp.FlattenSpec | app.py:79 | `Flatten` keeps every article of every sub-list, adds none, and its length is the sum of the sub-list lengths |
| LegacyApp.Gathered | app.py:77 | the gathered results are the `fetch_feed` results, one per task, in task order |
| LegacyApp.GetNews | app.py:68-87 | the response is `News`: the flattened task results, in descending string order of `pubDate` |
| LegacyApp.NewsSpec | app.py:79-85 | `News` is a permutation of the flattened articles, with `pubDate` text non-increasing, and articles with equal `pubDate` keep task order |
| LegacyApp.TextualPubDateOrder | app.py:81-85 | the sort compares `pubDate` as text: `Wed, 02 Oct 2024` comes before the later `Tue, 08 Oct 2024` |
| LegacyApp.FeedArticlesCategory | app.py:62 | every article of `fetch_feed` has the category it was called with |
| LegacyApp.GatheredCategories | app.py:71-79 | every article in a task's result has that task's category |
| LegacyApp.FlattenedOrigin | app.py:71-79 | every flattened article is among the articles of some task's feed and has that task's category |
| LegacyApp.NewsCategories | app.py:47-87 | every article of the response is among the articles of the feed at some URL listed under a category, and carries that category's name |
| LegacyApp.GatheredCount | app.py:51 | the response holds one article per entry among the first five of each feed, so at most five per feed |

## Left out

- Network retrieval and feed parsing (`feedparser.parse`) are not modelled.
  - In `main.py`, each source's parse result is an input value (`Aggregator.Source`).
  - In `app.py`, it is the function parameter `parse`.
  - A fetch that fails at the network level counts only through the `bozo` flag the parser reports.
- The summarization model of `app.py` is the parameter `summarize`, assumed deterministic. `None` stands for any exception the call raises.
- Clocks are parameters.
  - `time.time()` is the `now: real` of `FetchNews`.
  - `datetime.now(timezone.utc).isoformat()` is a single string `nowStamp` per refresh. The source reads the clock once per entry, and its text has microseconds; the model does not capture either.
- The configured source lists (`RSS_FEEDS`, `FEEDS`) are inputs. `FEEDS.items()` is a sequence of categories in insertion order.
- The FastAPI application, CORS middleware, the `/` and `/health` endpoints and JSON serialization are not modelled. A `fetch_news` that raises is the `ServerError` response.
- `asyncio.gather` concurrency is not modelled. The gathered results are modelled in task order, which is the order `gather` returns; `fetch_feed` awaits nothing, so the calls also run in that order.
- HTML entities in summaries are not decoded, because `_clean` does not decode them either.
- Python's `list.sort` is a library call: it is given by the reference function `Sorting.SortDesc`, a stable insertion sort, and not by the library's in-place algorithm.
- `NewsCache.FetchNews` returns the cached list by value. The source returns the same list object it stores, so mutation through that alias is not modelled.
- Only the six date and time fields of a `time.struct_time` are modelled.
- Where the intended behaviour and the code disagree, the model follows the code:
  - `_to_iso` failing on a present `published_parsed` gives `None`, with no fall-through to `updated_parsed`;
  - a `None` timestamp makes the sort raise `TypeError` whenever there are two or more items, and the request fails;
  - an empty refresh result replaces the cache, and there is no last-known-good fallback;
  - concurrent refreshes are not coalesced into one (no single-flight);
  - there is no per-source timeout;
  - `app.py` keeps only the first five entries of each feed and ignores `bozo`.
- One clock reading per refresh also changes the order. In the model every entry without a timestamp gets the same `nowStamp`, so those items tie and keep build order, which the stability clause of `AggregateSpec` states. In the source each such entry reads the clock again (main.py:143), so later entries usually get later stamps and, under `reverse=True`, come first.
- `time.time()` returns a float, and the model uses `real`, so the rounding of the 300-second comparison at main.py:115 is not modelled.
- Python `str` can hold lone surrogate code points, and Dafny `char` cannot, so texts containing them are not modelled.
- Aggregator.PublishedAt: the current-time case is stated as the parameter `nowStamp`, not as any ISO-8601 format property, because the timestamp text comes from the clock.
