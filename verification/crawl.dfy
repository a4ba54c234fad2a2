/** The crawl of one site: a breadth-first traversal over a FIFO frontier of (URL, depth)
    entries, with a visited set, a set of content digests already recorded, and a depth bound.

    The crawl is specified by the trace it leaves (`Run`): every entry appended to the frontier,
    every entry taken from it, and every URL that got past the visited and depth checks together
    with what became of it. `IsRunOf` says which traces a configuration and an environment
    produce; `CrawlSite` is proved to produce one. */
module Crawl {
  import opened Wrappers
  import opened Records
  import opened LinkFilter
  import opened Site
  import opened Web

  /** Shorter texts are not worth keeping. */
  const MinTextLength: nat := 500

  /** A frontier entry: a URL and the number of link hops from a start URL. */
  datatype Entry = Entry(url: string, depth: int)

  /** What happened to a URL once it was marked visited. */
  datatype Outcome =
    | FetchFailed                                  // the request raised
    | BadStatus(status: int)                       // answered, but not with 200
    | Duplicate(hash: string)                      // its text digest was seen already
    | TooShort(hash: string)                       // its text is under MinTextLength
    | WriteFailed(hash: string, file: SavedFile)   // digest recorded, then the write raised
    | Saved(hash: string, file: SavedFile, links: seq<string>)  // written; links enqueued

  /** A URL that got past the visited and depth checks, and its outcome. */
  datatype Visit = Visit(entry: Entry, outcome: Outcome)

  /** The trace of one site's crawl and the state it ends in. */
  datatype Run = Run(
    pushed: seq<Entry>,       // every entry appended to the frontier, in order
    popped: seq<Entry>,       // every entry taken from the front, in order
    visits: seq<Visit>,       // the entries processed, in order
    visited: set<string>,
    seen: set<string>,
    files: seq<SavedFile>)    // the files written, in order

  // ---------------------------------------------------------------------------------------
  // Links

  /** The links of a page that get enqueued, in document order: each href resolved against the
      page URL and kept when the link filter accepts it with the site's first domain and its
      patterns. A resolution that raises, or a site without a domain (the lookup raises),
      abandons the remaining hrefs. */
  function Targets(c: SiteConfig, env: Env, base: string, hrefs: seq<string>): seq<string>
  {
    if hrefs == [] then []
    else match env.resolve(base, hrefs[0])
      case None => []
      case Some(next) =>
        match LinkDomain(c)
        case None => []
        case Some(domain) =>
          (if IsValid(env.netloc, next, domain, IncludePatterns(c), ExcludePatterns(c)) then [next] else [])
          + Targets(c, env, base, hrefs[1..])
  }

  /** Targets of the hrefs from position `i` on, taken apart at the first of them. */
  lemma TargetsAt(c: SiteConfig, env: Env, base: string, hrefs: seq<string>, i: nat)
    requires i < |hrefs|
    ensures Targets(c, env, base, hrefs[i..]) ==
              if env.resolve(base, hrefs[i]).None? || |c.allowedDomains| == 0 then []
              else (if IsValid(env.netloc, env.resolve(base, hrefs[i]).value, c.allowedDomains[0],
                               IncludePatterns(c), ExcludePatterns(c))
                    then [env.resolve(base, hrefs[i]).value] else [])
                   + Targets(c, env, base, hrefs[i + 1..])
  {
    assert hrefs[i..][0] == hrefs[i] && hrefs[i..][1..] == hrefs[i + 1..];
  }

  /** The inner loop over the anchors of a persisted page. */
  method ExpandLinks(c: SiteConfig, env: Env, base: string, hrefs: seq<string>) returns (links: seq<string>)
    ensures links == Targets(c, env, base, hrefs)
  {
    links := [];
    var i := 0;
    while i < |hrefs|
      invariant 0 <= i <= |hrefs|
      invariant links + Targets(c, env, base, hrefs[i..]) == Targets(c, env, base, hrefs)
    {
      TargetsAt(c, env, base, hrefs, i);
      var next := env.resolve(base, hrefs[i]);
      if next.None? || |c.allowedDomains| == 0 {
        assert links + [] == links;
        return;
      }
      ghost var rest := Targets(c, env, base, hrefs[i + 1..]);
      if IsValid(env.netloc, next.value, c.allowedDomains[0], IncludePatterns(c), ExcludePatterns(c)) {
        assert links + ([next.value] + rest) == (links + [next.value]) + rest;
        links := links + [next.value];
      } else {
        assert [] + rest == rest;
      }
      i := i + 1;
    }
    assert hrefs[i..] == [] && links + [] == links;
  }

  /** The frontier entries of the given links, one hop deeper. */
  function LinkEntriesAt(links: seq<string>, depth: int): (r: seq<Entry>)
    ensures |r| == |links|
    ensures forall k :: 0 <= k < |r| ==> r[k] == Entry(links[k], depth)
  {
    if links == [] then [] else [Entry(links[0], depth)] + LinkEntriesAt(links[1..], depth)
  }

  // ---------------------------------------------------------------------------------------
  // Processing one URL

  /** The file a page is persisted as. */
  function PageFile(c: SiteConfig, env: Env, url: string, page: Page): SavedFile {
    SavedFile(OutputDir(c.name), FileName(env.digest, url), RecordContent(TitleText(page.title), url, page.text))
  }

  /** What becomes of a URL marked visited, given the digests recorded so far. */
  function Examine(c: SiteConfig, env: Env, seen: set<string>, url: string): Outcome {
    match env.fetch(url)
    case None => FetchFailed
    case Some(response) =>
      if response.status != OkStatus then BadStatus(response.status)
      else
        var page := env.parse(response.body);
        var hash := env.digest(page.text);
        if hash in seen then Duplicate(hash)
        else if |page.text| < MinTextLength then TooShort(hash)
        else
          var file := PageFile(c, env, url, page);
          if !env.writeOk(file) then WriteFailed(hash, file)
          else Saved(hash, file, Targets(c, env, url, page.hrefs))
  }

  /** The digest a visit records in the seen set, if any. */
  function RecordedHash(o: Outcome): Option<string> {
    match o
    case Saved(h, _, _) => Some(h)
    case WriteFailed(h, _) => Some(h)
    case _ => None
  }

  // ---------------------------------------------------------------------------------------
  // The trace, read off from the end so that each loop iteration extends it

  /** The start URLs, each at depth 0, in order. */
  function StartEntries(urls: seq<string>): (r: seq<Entry>)
    ensures |r| == |urls|
    ensures forall k :: 0 <= k < |r| ==> r[k] == Entry(urls[k], 0)
  {
    if urls == [] then [] else StartEntries(urls[..|urls| - 1]) + [Entry(urls[|urls| - 1], 0)]
  }

  /** The entries a visit appends to the frontier. */
  function Pushes(v: Visit): seq<Entry> {
    if v.outcome.Saved? then LinkEntriesAt(v.outcome.links, v.entry.depth + 1) else []
  }

  /** Everything the visits append to the frontier, in order. */
  function LinkEntries(vs: seq<Visit>): seq<Entry> {
    if vs == [] then [] else LinkEntries(vs[..|vs| - 1]) + Pushes(vs[|vs| - 1])
  }

  /** The entries the visits were made for. */
  function Entries(vs: seq<Visit>): (r: seq<Entry>)
    ensures |r| == |vs|
    ensures forall k :: 0 <= k < |vs| ==> r[k] == vs[k].entry
  {
    if vs == [] then [] else Entries(vs[..|vs| - 1]) + [vs[|vs| - 1].entry]
  }

  /** The URLs of some entries. */
  function EntryUrls(es: seq<Entry>): set<string> {
    set e | e in es :: e.url
  }

  /** The URLs the visits were made for. */
  function UrlsOf(vs: seq<Visit>): set<string> {
    EntryUrls(Entries(vs))
  }

  /** The digests the visits recorded. */
  function SeenBy(vs: seq<Visit>): set<string> {
    if vs == [] then {}
    else
      var last := vs[|vs| - 1];
      SeenBy(vs[..|vs| - 1]) + (if RecordedHash(last.outcome).Some? then {RecordedHash(last.outcome).value} else {})
  }

  /** The files the visits wrote, in order. */
  function FilesOf(vs: seq<Visit>): seq<SavedFile> {
    if vs == [] then []
    else
      var last := vs[|vs| - 1];
      FilesOf(vs[..|vs| - 1]) + (if last.outcome.Saved? then [last.outcome.file] else [])
  }

  /** The entries taken from the frontier that get past the checks: not visited yet (by an
      earlier admitted entry) and not deeper than `maxDepth`. */
  function Admit(ps: seq<Entry>, maxDepth: int): seq<Entry> {
    if ps == [] then []
    else
      var prev := Admit(ps[..|ps| - 1], maxDepth);
      var e := ps[|ps| - 1];
      if e.url !in EntryUrls(prev) && e.depth <= maxDepth then prev + [e] else prev
  }

  /** Each visit's outcome is the one its URL gets given the digests recorded before it. */
  predicate Consistent(c: SiteConfig, env: Env, vs: seq<Visit>) {
    forall k :: 0 <= k < |vs| ==> vs[k].outcome == Examine(c, env, SeenBy(vs[..k]), vs[k].entry.url)
  }

  /** Depths never decrease along the sequence and are never negative. */
  predicate BreadthFirst(es: seq<Entry>) {
    && (forall i, j :: 0 <= i < j < |es| ==> es[i].depth <= es[j].depth)
    && (forall i :: 0 <= i < |es| ==> 0 <= es[i].depth)
  }

  /** The traces a crawl of site `c` in environment `env` leaves. */
  predicate IsRunOf(c: SiteConfig, env: Env, run: Run) {
    // the frontier receives the start URLs at depth 0, then the links of each persisted page
    && run.pushed == StartEntries(c.startUrls) + LinkEntries(run.visits)
    // first in, first out, until the frontier is empty
    && run.popped == run.pushed
    // the processed entries are the admitted ones
    && Entries(run.visits) == Admit(run.popped, MaxDepth(c))
    // each processed URL is examined against the digests recorded before it
    && Consistent(c, env, run.visits)
    && run.visited == UrlsOf(run.visits)
    && run.seen == SeenBy(run.visits)
    && run.files == FilesOf(run.visits)
    // entries leave the frontier level by level
    && BreadthFirst(run.popped)
  }

  // ---------------------------------------------------------------------------------------
  // Termination of the frontier loop

  /** The depth of the front entry; `top` when the frontier is empty. */
  function FrontDepth(q: seq<Entry>, top: nat): int {
    if q == [] then top else q[0].depth
  }

  /** How many levels are left below the front entry. */
  function Level(q: seq<Entry>, top: nat): nat {
    if q == [] || q[0].depth >= top then 0 else top - q[0].depth
  }

  /** The number of entries at depth `d`. */
  function CountAt(q: seq<Entry>, d: int): nat {
    if q == [] then 0 else (if q[0].depth == d then 1 else 0) + CountAt(q[1..], d)
  }

  lemma {:induction false} CountAtAppend(a: seq<Entry>, b: seq<Entry>, d: int)
    ensures CountAt(a + b, d) == CountAt(a, d) + CountAt(b, d)
  {
    if a != [] {
      assert (a + b)[1..] == a[1..] + b;
      CountAtAppend(a[1..], b, d);
    } else {
      assert a + b == b;
    }
  }

  lemma {:induction false} CountAtNone(q: seq<Entry>, d: int)
    requires forall k :: 0 <= k < |q| ==> q[k].depth != d
    ensures CountAt(q, d) == 0
  {
    if q != [] {
      CountAtNone(q[1..], d);
    }
  }

  /** A frontier whose entries lie on the front entry's level or the next one, none below
      level `top`. */
  predicate Layered(q: seq<Entry>, top: nat) {
    && (forall i, j :: 0 <= i < j < |q| ==> q[i].depth <= q[j].depth)
    && (forall k :: 0 <= k < |q| ==> q[0].depth <= q[k].depth <= q[0].depth + 1 && q[k].depth <= top)
    && (|q| > 0 ==> 0 <= q[0].depth)
  }

  /** The frontier measure (levels left, entries on the front level) is lexicographically
      smaller for `q'` than for `q`. */
  predicate Shrinks(q': seq<Entry>, q: seq<Entry>, top: nat) {
    Level(q', top) < Level(q, top) ||
    (Level(q', top) == Level(q, top) && CountAt(q', FrontDepth(q', top)) < CountAt(q, FrontDepth(q, top)))
  }

  /** Taking the front entry and appending entries one level deeper makes the frontier
      measure go down. */
  lemma FrontierShrinks(q: seq<Entry>, added: seq<Entry>, top: nat)
    requires q != [] && Layered(q, top)
    requires forall k :: 0 <= k < |added| ==> added[k].depth == q[0].depth + 1
    requires added != [] ==> q[0].depth + 1 <= top
    ensures Shrinks(q[1..] + added, q, top)
  {
    var d := q[0].depth;
    var q' := q[1..] + added;
    if q' != [] && q'[0].depth == d {
      CountAtAppend(q[1..], added, d);
      CountAtNone(added, d);
    }
  }

  /** After taking the front entry and appending entries one level deeper, the frontier is
      still layered. */
  lemma LayeredStep(q: seq<Entry>, added: seq<Entry>, top: nat)
    requires q != [] && Layered(q, top)
    requires forall k :: 0 <= k < |added| ==> added[k].depth == q[0].depth + 1
    requires added != [] ==> q[0].depth + 1 <= top
    ensures Layered(q[1..] + added, top)
  {
  }

  /** Everything in the trace so far lies at most one level below the front entry. */
  lemma PushedBound(popped: seq<Entry>, q: seq<Entry>, top: nat)
    requires q != [] && Layered(q, top)
    requires BreadthFirst(popped + q)
    ensures forall k :: 0 <= k < |popped + q| ==> (popped + q)[k].depth <= q[0].depth + 1
  {
    var s := popped + q;
    forall k | 0 <= k < |s|
      ensures s[k].depth <= q[0].depth + 1
    {
      if k < |popped| {
        assert s[|popped|] == q[0];
      } else {
        assert s[k] == q[k - |popped|];
      }
    }
  }

  lemma BreadthFirstAppend(s: seq<Entry>, added: seq<Entry>, d: int)
    requires BreadthFirst(s) && 0 <= d
    requires forall k :: 0 <= k < |s| ==> s[k].depth <= d
    requires forall k :: 0 <= k < |added| ==> added[k].depth == d
    ensures BreadthFirst(s + added)
  {
  }

  lemma EntryUrlsAppend(es: seq<Entry>, e: Entry)
    ensures EntryUrls(es + [e]) == EntryUrls(es) + {e.url}
  {
    assert forall x :: x in es + [e] <==> x in es || x == e;
  }

  /** Moving the front entry to the popped side and appending to both the frontier and the
      pushed trace keeps popped + frontier == pushed. */
  lemma FrontierShifts(popped: seq<Entry>, q: seq<Entry>, added: seq<Entry>)
    requires q != []
    ensures (popped + [q[0]]) + (q[1..] + added) == (popped + q) + added
  {
    assert q == [q[0]] + q[1..];
  }

  /** One more processed entry extends every view of the trace by what it did. */
  lemma VisitExtends(vs: seq<Visit>, v: Visit)
    ensures Entries(vs + [v]) == Entries(vs) + [v.entry]
    ensures UrlsOf(vs + [v]) == UrlsOf(vs) + {v.entry.url}
    ensures SeenBy(vs + [v]) == SeenBy(vs) + (if RecordedHash(v.outcome).Some? then {RecordedHash(v.outcome).value} else {})
    ensures FilesOf(vs + [v]) == FilesOf(vs) + (if v.outcome.Saved? then [v.outcome.file] else [])
    ensures LinkEntries(vs + [v]) == LinkEntries(vs) + Pushes(v)
  {
    assert (vs + [v])[..|vs|] == vs;
    EntryUrlsAppend(Entries(vs), v.entry);
  }

  /** One more visit extends the pushed trace by exactly that visit's links. */
  lemma PushedExtends(urls: seq<string>, vs: seq<Visit>, v: Visit)
    ensures StartEntries(urls) + LinkEntries(vs + [v]) == (StartEntries(urls) + LinkEntries(vs)) + Pushes(v)
  {
    assert (vs + [v])[..|vs|] == vs;
  }

  /** One more entry taken from the frontier is admitted when it is new and shallow enough. */
  lemma AdmitExtends(ps: seq<Entry>, e: Entry, maxDepth: int)
    ensures Admit(ps + [e], maxDepth) ==
              if e.url !in EntryUrls(Admit(ps, maxDepth)) && e.depth <= maxDepth
              then Admit(ps, maxDepth) + [e] else Admit(ps, maxDepth)
  {
    assert (ps + [e])[..|ps|] == ps;
  }

  /** Extending the visits keeps them consistent when the new outcome is the examined one. */
  lemma ConsistentAppend(c: SiteConfig, env: Env, vs: seq<Visit>, v: Visit)
    requires Consistent(c, env, vs)
    requires v.outcome == Examine(c, env, SeenBy(vs), v.entry.url)
    ensures Consistent(c, env, vs + [v])
  {
    var vs' := vs + [v];
    forall k | 0 <= k < |vs'|
      ensures vs'[k].outcome == Examine(c, env, SeenBy(vs'[..k]), vs'[k].entry.url)
    {
      if k < |vs| {
        assert vs'[..k] == vs[..k];
      } else {
        assert vs'[..k] == vs;
      }
    }
  }

  // ---------------------------------------------------------------------------------------
  // The crawl

  /** The body of the crawler's exception handler for one URL already marked visited: fetch,
      status check, parsing, digest and length checks, recording the digest, writing the file
      and enqueueing the links. Returns the outcome, the new seen set and the files written. */
  method ProcessUrl(c: SiteConfig, env: Env, url: string, seen: set<string>)
    returns (outcome: Outcome, seenAfter: set<string>, written: seq<SavedFile>)
    ensures outcome == Examine(c, env, seen, url)
    ensures seenAfter == seen + (if RecordedHash(outcome).Some? then {RecordedHash(outcome).value} else {})
    ensures written == (if outcome.Saved? then [outcome.file] else [])
  {
    seenAfter, written := seen, [];
    var response := env.fetch(url);
    if response.None? {
      return FetchFailed, seenAfter, written;
    }
    if response.value.status != OkStatus {
      return BadStatus(response.value.status), seenAfter, written;
    }
    var page := env.parse(response.value.body);
    var hash := env.digest(page.text);
    if hash in seenAfter {
      return Duplicate(hash), seenAfter, written;
    }
    if |page.text| < MinTextLength {
      return TooShort(hash), seenAfter, written;
    }
    seenAfter := seenAfter + {hash};
    var file := SavedFile(OutputDir(c.name), FileName(env.digest, url),
                          RecordContent(TitleText(page.title), url, page.text));
    if !env.writeOk(file) {
      return WriteFailed(hash, file), seenAfter, written;
    }
    written := written + [file];
    var links := ExpandLinks(c, env, url, page.hrefs);
    outcome := Saved(hash, file, links);
  }

  /** The working state of one site's crawl: the frontier, the traces so far, the visited set,
      the seen-digest set and the files written. */
  datatype CrawlState = CrawlState(
    queue: seq<Entry>,
    pushed: seq<Entry>,
    popped: seq<Entry>,
    visits: seq<Visit>,
    visited: set<string>,
    seen: set<string>,
    files: seq<SavedFile>)

  /** One level past the deepest level that is fetched. */
  function Top(c: SiteConfig): nat {
    if MaxDepth(c) + 1 > 0 then MaxDepth(c) + 1 else 0
  }

  /** The frontier part of the loop invariant: the trace of appended entries is the taken
      entries followed by the frontier, in breadth-first order, and the frontier is layered. */
  predicate FrontierOk(top: nat, queue: seq<Entry>, pushed: seq<Entry>, popped: seq<Entry>) {
    && popped + queue == pushed
    && BreadthFirst(pushed)
    && (queue != [] ==> Layered(queue, top))
  }

  /** The trace part: what was appended, what was admitted and what was visited all follow
      from the visits. */
  predicate TraceOk(c: SiteConfig, pushed: seq<Entry>, popped: seq<Entry>, visits: seq<Visit>, visited: set<string>) {
    && pushed == StartEntries(c.startUrls) + LinkEntries(visits)
    && Entries(visits) == Admit(popped, MaxDepth(c))
    && visited == UrlsOf(visits)
  }

  /** The outcome part: every visit was examined against the digests recorded before it, and
      the seen set and the files written follow from the visits. */
  predicate OutcomesOk(c: SiteConfig, env: Env, visits: seq<Visit>, seen: set<string>, files: seq<SavedFile>) {
    && Consistent(c, env, visits)
    && seen == SeenBy(visits)
    && files == FilesOf(visits)
  }

  /** What holds of the state before and after every iteration of the frontier loop. */
  predicate Invariant(c: SiteConfig, env: Env, st: CrawlState) {
    && FrontierOk(Top(c), st.queue, st.pushed, st.popped)
    && TraceOk(c, st.pushed, st.popped, st.visits, st.visited)
    && OutcomesOk(c, env, st.visits, st.seen, st.files)
  }

  lemma FrontierAtStart(top: nat, q: seq<Entry>)
    requires forall k :: 0 <= k < |q| ==> q[k].depth == 0
    ensures FrontierOk(top, q, q, [])
  {
    assert [] + q == q;
  }

  lemma TraceAtStart(c: SiteConfig)
    ensures TraceOk(c, StartEntries(c.startUrls), [], [], {})
  {
    assert StartEntries(c.startUrls) + [] == StartEntries(c.startUrls);
  }

  lemma OutcomesAtStart(c: SiteConfig, env: Env)
    ensures OutcomesOk(c, env, [], {}, [])
  {
  }

  /** Dropping the front entry keeps the frontier part. */
  lemma FrontierSkip(top: nat, queue: seq<Entry>, pushed: seq<Entry>, popped: seq<Entry>)
    requires FrontierOk(top, queue, pushed, popped) && queue != []
    ensures FrontierOk(top, queue[1..], pushed, popped + [queue[0]])
  {
    FrontierShifts(popped, queue, []);
    assert queue[1..] + [] == queue[1..] && pushed + [] == pushed;
    LayeredStep(queue, [], top);
  }

  /** Dropping a front entry that is visited or too deep keeps the trace part. */
  lemma TraceSkip(c: SiteConfig, pushed: seq<Entry>, popped: seq<Entry>, visits: seq<Visit>, visited: set<string>, e: Entry)
    requires TraceOk(c, pushed, popped, visits, visited)
    requires e.url in visited || e.depth > MaxDepth(c)
    ensures TraceOk(c, pushed, popped + [e], visits, visited)
  {
    AdmitExtends(popped, e, MaxDepth(c));
  }

  /** Processing the front entry and appending the links of its page one level deeper keeps
      the frontier part. */
  lemma FrontierVisit(c: SiteConfig, queue: seq<Entry>, pushed: seq<Entry>, popped: seq<Entry>, v: Visit)
    requires FrontierOk(Top(c), queue, pushed, popped) && queue != []
    requires v.entry == queue[0] && v.entry.depth <= MaxDepth(c)
    ensures FrontierOk(Top(c), queue[1..] + Pushes(v), pushed + Pushes(v), popped + [v.entry])
  {
    PushedBound(popped, queue, Top(c));
    FrontierShifts(popped, queue, Pushes(v));
    LayeredStep(queue, Pushes(v), Top(c));
    BreadthFirstAppend(pushed, Pushes(v), v.entry.depth + 1);
  }

  /** Admitting the front entry keeps the trace part. */
  lemma TraceVisit(c: SiteConfig, pushed: seq<Entry>, popped: seq<Entry>, visits: seq<Visit>, visited: set<string>, v: Visit)
    requires TraceOk(c, pushed, popped, visits, visited)
    requires v.entry.url !in visited && v.entry.depth <= MaxDepth(c)
    ensures TraceOk(c, pushed + Pushes(v), popped + [v.entry], visits + [v], visited + {v.entry.url})
  {
    AdmitExtends(popped, v.entry, MaxDepth(c));
    VisitExtends(visits, v);
    PushedExtends(c.startUrls, visits, v);
  }

  /** Recording the examined outcome of the front entry keeps the outcome part. */
  lemma OutcomesVisit(c: SiteConfig, env: Env, visits: seq<Visit>, seen: set<string>, files: seq<SavedFile>,
                      v: Visit, seenAfter: set<string>, written: seq<SavedFile>)
    requires OutcomesOk(c, env, visits, seen, files)
    requires v.outcome == Examine(c, env, seen, v.entry.url)
    requires seenAfter == seen + (if RecordedHash(v.outcome).Some? then {RecordedHash(v.outcome).value} else {})
    requires written == (if v.outcome.Saved? then [v.outcome.file] else [])
    ensures OutcomesOk(c, env, visits + [v], seenAfter, files + written)
  {
    ConsistentAppend(c, env, visits, v);
    VisitExtends(visits, v);
  }

  /** The state is done with when the frontier is empty, and then it is a run of the site. */
  lemma InvariantAtEnd(c: SiteConfig, env: Env, st: CrawlState)
    requires Invariant(c, env, st) && st.queue == []
    ensures IsRunOf(c, env, Run(st.pushed, st.popped, st.visits, st.visited, st.seen, st.files))
  {
    assert st.popped + [] == st.popped;
  }

  /** Dropping a front entry that is visited or too deep keeps the invariant and shrinks the
      frontier. */
  lemma SkipStep(c: SiteConfig, env: Env, st: CrawlState)
    requires Invariant(c, env, st) && st.queue != []
    requires st.queue[0].url in st.visited || st.queue[0].depth > MaxDepth(c)
    ensures var next := st.(queue := st.queue[1..], popped := st.popped + [st.queue[0]]);
            Invariant(c, env, next) && Shrinks(next.queue, st.queue, Top(c))
  {
    FrontierSkip(Top(c), st.queue, st.pushed, st.popped);
    TraceSkip(c, st.pushed, st.popped, st.visits, st.visited, st.queue[0]);
    FrontierShrinks(st.queue, [], Top(c));
    assert st.queue[1..] + [] == st.queue[1..];
  }

  /** Processing an admitted front entry keeps the invariant and shrinks the frontier. */
  lemma VisitStep(c: SiteConfig, env: Env, st: CrawlState, v: Visit, seenAfter: set<string>, written: seq<SavedFile>)
    requires Invariant(c, env, st) && st.queue != []
    requires v.entry == st.queue[0] && v.entry.url !in st.visited && v.entry.depth <= MaxDepth(c)
    requires v.outcome == Examine(c, env, st.seen, v.entry.url)
    requires seenAfter == st.seen + (if RecordedHash(v.outcome).Some? then {RecordedHash(v.outcome).value} else {})
    requires written == (if v.outcome.Saved? then [v.outcome.file] else [])
    ensures var next := CrawlState(st.queue[1..] + Pushes(v), st.pushed + Pushes(v), st.popped + [v.entry],
                                   st.visits + [v], st.visited + {v.entry.url}, seenAfter, st.files + written);
            Invariant(c, env, next) && Shrinks(next.queue, st.queue, Top(c))
  {
    FrontierVisit(c, st.queue, st.pushed, st.popped, v);
    TraceVisit(c, st.pushed, st.popped, st.visits, st.visited, v);
    OutcomesVisit(c, env, st.visits, st.seen, st.files, v, seenAfter, written);
    FrontierShrinks(st.queue, Pushes(v), Top(c));
  }

  /** One iteration of the frontier loop: take the front entry, skip it when it is visited or
      too deep, otherwise mark it visited and process it. */
  method Step(c: SiteConfig, env: Env, st: CrawlState) returns (next: CrawlState)
    requires Invariant(c, env, st) && st.queue != []
    ensures Invariant(c, env, next)
    ensures Shrinks(next.queue, st.queue, Top(c))
    ensures next.popped == st.popped + [st.queue[0]]
    ensures var e := st.queue[0];
            e.url in st.visited || e.depth > MaxDepth(c) ==>
              next == st.(queue := st.queue[1..], popped := st.popped + [e])
    ensures var e := st.queue[0];
            e.url !in st.visited && e.depth <= MaxDepth(c) ==>
              var v := Visit(e, Examine(c, env, st.seen, e.url));
              && next.queue == st.queue[1..] + Pushes(v)
              && next.pushed == st.pushed + Pushes(v)
              && next.visits == st.visits + [v]
              && next.visited == st.visited + {e.url}
              && next.seen == st.seen + (if RecordedHash(v.outcome).Some? then {RecordedHash(v.outcome).value} else {})
              && next.files == st.files + (if v.outcome.Saved? then [v.outcome.file] else [])
  {
    var e := st.queue[0];
    if e.url in st.visited || e.depth > MaxDepth(c) {
      SkipStep(c, env, st);
      return st.(queue := st.queue[1..], popped := st.popped + [e]);
    }
    var visited := st.visited + {e.url};
    var outcome, seen, written := ProcessUrl(c, env, e.url, st.seen);
    var v := Visit(e, outcome);
    VisitStep(c, env, st, v, seen, written);
    var added := Pushes(v);
    next := CrawlState(st.queue[1..] + added, st.pushed + added, st.popped + [e],
                       st.visits + [v], visited, seen, st.files + written);
  }

  /** The loop that puts every start URL on the frontier at depth 0. */
  method StartFrontier(urls: seq<string>) returns (q: seq<Entry>)
    ensures q == StartEntries(urls)
  {
    q := [];
    var i := 0;
    while i < |urls|
      invariant 0 <= i <= |urls|
      invariant q == StartEntries(urls[..i])
    {
      assert urls[..i + 1][..i] == urls[..i];
      q := q + [Entry(urls[i], 0)];
      i := i + 1;
    }
    assert urls[..i] == urls;
  }

  /** The state the frontier loop starts from. */
  lemma InvariantAtStart(c: SiteConfig, env: Env, q: seq<Entry>)
    requires q == StartEntries(c.startUrls)
    ensures Invariant(c, env, CrawlState(q, q, [], [], {}, {}, []))
  {
    FrontierAtStart(Top(c), q);
    TraceAtStart(c);
    OutcomesAtStart(c, env);
  }

  /** The crawl of one site: processes the frontier of one site to exhaustion. */
  method CrawlSite(c: SiteConfig, env: Env) returns (run: Run)
    ensures IsRunOf(c, env, run)
  {
    var q := StartFrontier(c.startUrls);
    var st := CrawlState(q, q, [], [], {}, {}, []);
    InvariantAtStart(c, env, q);
    while st.queue != []
      invariant Invariant(c, env, st)
      decreases Level(st.queue, Top(c)), CountAt(st.queue, FrontDepth(st.queue, Top(c)))
    {
      st := Step(c, env, st);
    }
    InvariantAtEnd(c, env, st);
    run := Run(st.pushed, st.popped, st.visits, st.visited, st.seen, st.files);
  }

  /** Appending the trace of the next site keeps every trace matched with its site. */
  lemma RunsExtend(configs: seq<SiteConfig>, env: Env, runs: seq<Run>, run: Run)
    requires |runs| < |configs|
    requires forall k :: 0 <= k < |runs| ==> IsRunOf(configs[k], env, runs[k])
    requires IsRunOf(configs[|runs|], env, run)
    ensures forall k :: 0 <= k < |runs| + 1 ==> IsRunOf(configs[k], env, (runs + [run])[k])
  {
    forall k | 0 <= k < |runs| + 1
      ensures IsRunOf(configs[k], env, (runs + [run])[k])
    {
      if k < |runs| {
        assert (runs + [run])[k] == runs[k];
      } else {
        assert (runs + [run])[k] == run;
      }
    }
  }

  /** The crawl of every configured site: crawls every configured site in turn, each with fresh state. */
  method CrawlAll(configs: seq<SiteConfig>, env: Env) returns (runs: seq<Run>)
    ensures |runs| == |configs|
    ensures forall i :: 0 <= i < |configs| ==> IsRunOf(configs[i], env, runs[i])
  {
    runs := [];
    var i := 0;
    while i < |configs|
      invariant 0 <= i <= |configs| && |runs| == i
      invariant forall k :: 0 <= k < i ==> IsRunOf(configs[k], env, runs[k])
    {
      var run := CrawlSite(configs[i], env);
      RunsExtend(configs, env, runs, run);
      runs := runs + [run];
      i := i + 1;
    }
  }
}
