# Site crawler model

This project models the crawler that gathers the study material of the AI tutor. For each
configured site the crawler starts from the site's start URLs at depth 0 and works through a
first-in first-out frontier of (URL, depth) entries. It skips an entry whose URL it has already
visited or whose depth exceeds the site's bound (1 unless configured). Otherwise it marks the URL
visited and fetches it. It drops the page when the answer is not 200. It also drops it when the
digest of the page's cleaned text was already recorded, or when that text is shorter than 500
characters. Otherwise it records the digest and writes a file `data/<site>/<digest of URL>.txt`
holding a title line, a URL line, an empty line and the text. Then it enqueues, one level deeper,
every link of the page that passes the link filter. The link filter accepts a URL when:

- the site's first allowed domain occurs in the URL's network location (user info, host and port together, so `https://example.com@other.org/` passes for `example.com`);
- no exclude pattern occurs in the URL;
- the include list is empty, or one of its patterns occurs in the URL.

Every failure while one URL is processed abandons the rest of that URL and moves on to the next
entry.

The modules:

- `Strings`: substring occurrence, with a scanning definition proved equal to an index-based one.
- `LinkFilter`: the link filter and its rules, plus concrete examples.
- `Records`: the output directory, the file name and the record content, with a reader proved to
  invert the writer.
- `Site`: the configuration of a site and the defaults of its optional keys.
- `Web`: the environment. The network, the HTML parser, the digest, the URL library and the file
  system are each a deterministic function.
- `Crawl`: the imperative crawl of one site (`CrawlSite`, a `while` loop over the frontier) and of
  all sites (`CrawlAll`). The crawl is proved to leave a trace that `IsRunOf` characterises. The
  trace records the entries appended to the frontier, the entries taken from it, and each
  processed URL with its outcome.
- `CrawlProperties`: what every such trace satisfies.

A saved file holds the title line, then the URL line directly after it, then one empty line,
then the text; there is no empty line between the title line and the URL line.

## Model

| member | source | states |
|---|---|---|
| Strings.OccursIff | crawl.py:23-28 | the substring test the filter uses holds exactly when the pattern starts at some index of the string |
| LinkFilter.DomainRequired | crawl.py:23-24 | a URL whose network location (user info, host and port) does not contain the domain is rejected, whatever the patterns |
| LinkFilter.ExcludeWins | crawl.py:25-26 | a URL containing an exclude pattern is rejected, even when an include pattern matches |
| LinkFilter.IncludeRule | crawl.py:27-29 | once the domain and exclude checks pass, a URL is accepted exactly when the include list is empty or one of its patterns occurs |
| LinkFilter.ExampleAccepted | crawl.py:22-29 | `https://example.com/a` is accepted for `example.com` with `/login` excluded |
| LinkFilter.ExampleExcluded | crawl.py:25-26 | `https://example.com/login/a` is rejected with `/login` excluded |
| LinkFilter.ExampleOtherDomain | crawl.py:23-24 | `https://other.com/a` is rejected for `example.com` |
| LinkFilter.ExampleIncluded | crawl.py:27-28 | `https://example.com/blog/1` is accepted with `/blog` as the include list |
| LinkFilter.ExampleNotIncluded | crawl.py:27-28 | `https://example.com/shop/1` is rejected with `/blog` as the include list |
| Records.FileNameStem | crawl.py:62 | a file name is the URL digest followed by `.txt`, so two pages share a file name exactly when their URL digests are equal |
| Records.ParseRecordContent | crawl.py:64 | a record whose title and URL contain no line break reads back as exactly its title, URL and text |
| Records.ParseRecordSound | crawl.py:64 | whatever reads back as a record is exactly the content written for those fields, and its title and URL contain no line break |
| Crawl.ExpandLinks | crawl.py:67-71 | the link loop yields the links of the reference definition `Targets`: each href resolved, filtered, in order, cut short where resolution or the domain lookup raises |
| Crawl.ProcessUrl | crawl.py:49-71 | the outcome of one URL is the one the reference definition `Examine` gives; the digest is recorded exactly when the page was long enough and new (also when the write then fails); a file is written exactly when the page is saved |
| Crawl.Step | crawl.py:44-74 | one iteration takes the front entry; a visited or too deep entry changes nothing else; any other entry is marked visited, appended as a visit with the outcome `Examine` gives against the recorded digests, its links pushed one level deeper, its digest recorded and its file written as that outcome says; the crawl invariant is kept and the termination measure strictly decreases |
| Crawl.StartFrontier | crawl.py:36-37 | the frontier starts as the start URLs, each at depth 0, in order |
| Crawl.CrawlSite | crawl.py:31-74 | the crawl of one site terminates and leaves a trace satisfying `IsRunOf` |
| Crawl.CrawlAll | crawl.py:76-79 | every configured site is crawled, in order, each with fresh state, and each leaves a trace satisfying `IsRunOf` |
| CrawlProperties.AdmitFacts | crawl.py:45-47 | the processed entries are taken entries within the depth bound, with pairwise distinct URLs |
| CrawlProperties.AdmitCovers | crawl.py:45-47 | the processed URLs are exactly the URLs taken at least once within the depth bound |
| CrawlProperties.TargetsValid | crawl.py:68-71 | every enqueued link passes the link filter with the first allowed domain and the site's patterns |
| CrawlProperties.TargetsComplete | crawl.py:68-71 | when every href resolves and a domain exists, a URL is enqueued exactly when it is the resolution of some href and passes the filter |
| CrawlProperties.TargetsExample | crawl.py:66-71 | of a page with one in-domain and one out-of-domain link, only the in-domain link is enqueued |
| CrawlProperties.RunFirstVisit | crawl.py:36-47 | the first start URL is the first URL processed, at depth 0 and with no digest recorded yet, whenever the bound admits depth 0 |
| CrawlProperties.RunEndToEndExample | crawl.py:31-74 | a crawl with one start URL and `max_depth` 1, whose page answers 200 with enough text and links once inside and once outside the domain, enqueues the start URL at depth 0, then the in-domain link at depth 1, and every later entry at least two levels deep, so no other entry at depth 1 |
| CrawlProperties.RunFrontierShape | crawl.py:36-71 | the frontier is the start entries, then the links of the first URL processed, then the links of every later one |
| CrawlProperties.RunSingleStart | crawl.py:36-71 | with one start URL, the frontier is that URL at depth 0, the links of its page at depth 1, then entries at least two levels deep |
| CrawlProperties.RunLaterLinksDeep | crawl.py:36-71 | with a single start URL, every link enqueued by a URL other than the first is at least two levels deep |
| CrawlProperties.RunDefaultDepth | crawl.py:45 | a site without `max_depth` has only depth 0 and depth 1 entries processed |
| CrawlProperties.RunWithoutDomain | crawl.py:70 | a site without allowed domains enqueues nothing but its start URLs, since the domain lookup raises at the first resolved href |
| CrawlProperties.ExamineSaved | crawl.py:51-64 | a URL is persisted exactly when it answers 200, its text digest is new, its text has at least 500 characters and the write succeeds; the file is then named after the URL digest and holds the title, URL and text |
| CrawlProperties.ExamineDuplicate | crawl.py:56-58 | a page answering 200 whose text digest is already recorded is skipped as a duplicate |
| CrawlProperties.RunVisitsEachUrlOnce | crawl.py:43-47 | no URL is processed twice, and the visited set is exactly the URLs enqueued at least once within the depth bound |
| CrawlProperties.RunRespectsDepth | crawl.py:45 | every processed entry has a depth between 0 and the bound |
| CrawlProperties.RunEnqueuesValidLinks | crawl.py:36-71 | the frontier receives the start URLs at depth 0 first; every later entry passed the link filter and lies one to bound+1 levels deep |
| CrawlProperties.RunFilesArePersistedPages | crawl.py:52-64 | every file written comes from a page that answered 200, had at least 500 characters of text and a digest not recorded by any earlier visit |
| CrawlProperties.RunHashesUnique | crawl.py:56-59 | no two persisted pages of one crawl share a text digest, hence none share a text |
| CrawlProperties.RunSkipsDuplicates | crawl.py:56-58 | a page processed after a persisted page with the same digest is skipped as a duplicate |

## Left out

- Loading the configuration file (YAML) is not modelled: `CrawlAll` takes the parsed site entries as a sequence.
- A configuration without `start_urls` or `name`, or with a `max_depth` that is not a number (a string, or an explicit null), makes the crawler raise outside its exception handler. The model's configuration type cannot express these.
- An `exclude_patterns` key present with a null value is not modelled: the configuration type reads it as absent, that is as no exclude patterns. The crawler instead gets null, and the exclude test raises at the first resolved link whose network location contains the domain. That ends the page's link loop, so such a site never enqueues a link beyond its start URLs. A null `include_patterns` behaves like an empty list, as the model has it.
- The output directory follows POSIX path joining. Windows joining, with drive letters and backslash separators, gives other paths and is not modelled.
- A fractional `max_depth` compares with the integer depths without error; the model takes the bound as an integer, so fractional bounds are not modelled.
- Network requests, the ten-second timeout, HTML cleaning and link extraction are not modelled. They are the `fetch` and `parse` functions of the environment, deterministic and unchanging for the whole run.
- MD5 is the `digest` function of the environment: its 32-character hexadecimal form is not modelled, and neither are encoding errors on unpaired surrogates.
- URL resolution and the network-location split are the `resolve` and `netloc` functions of the environment. An exception raised by the network-location split inside the link filter is not modelled.
- Creating the output directory is not modelled, and neither is a partially written file when a write fails. A write either succeeds or raises, as `writeOk` says.
- The progress and error lines printed are not modelled.
- Lengths count characters (code points) in the model, as Python's `len` does on `str`.
- Records.ParseRecordContent: a title or URL containing a line break cannot be read back unambiguously, so the round trip is stated only for fields without one.
