/** What a crawl promises, proved of every trace `IsRunOf` admits: each URL is processed at most
    once, nothing deeper than the bound is fetched, only valid links are enqueued, only long
    pages with a new digest are persisted, and no two persisted pages share a digest. */
module CrawlProperties {
  import opened Wrappers
  import opened Records
  import opened LinkFilter
  import opened Site
  import opened Web
  import opened Crawl

  // ---------------------------------------------------------------------------------------
  // The admission filter

  /** Admitted entries come from the taken ones, in bound, and have pairwise distinct URLs. */
  lemma {:induction false} AdmitFacts(ps: seq<Entry>, m: int)
    ensures forall i :: 0 <= i < |Admit(ps, m)| ==> Admit(ps, m)[i] in ps && Admit(ps, m)[i].depth <= m
    ensures forall i, j :: 0 <= i < j < |Admit(ps, m)| ==> Admit(ps, m)[i].url != Admit(ps, m)[j].url
    decreases |ps|
  {
    if ps != [] {
      var init, e := ps[..|ps| - 1], ps[|ps| - 1];
      assert ps == init + [e];
      AdmitFacts(init, m);
      var prev := Admit(init, m);
      if e.url !in EntryUrls(prev) && e.depth <= m {
        forall i | 0 <= i < |prev|
          ensures prev[i].url != e.url
        {
          assert prev[i] in prev;
        }
      }
    }
  }

  /** Exactly the URLs taken at least once within the depth bound are admitted. */
  lemma {:induction false} AdmitCovers(ps: seq<Entry>, m: int)
    ensures EntryUrls(Admit(ps, m)) == set e | e in ps && e.depth <= m :: e.url
    decreases |ps|
  {
    if ps == [] {
      assert EntryUrls([]) == {};
    } else {
      var init, e := ps[..|ps| - 1], ps[|ps| - 1];
      assert ps == init + [e];
      AdmitCovers(init, m);
      var prev := Admit(init, m);
      if e.url !in EntryUrls(prev) && e.depth <= m {
        EntryUrlsAppend(prev, e);
      }
      assert forall x :: x in ps <==> x in init || x == e;
    }
  }

  // ---------------------------------------------------------------------------------------
  // Views of the trace

  /** A visit that recorded a digest leaves it in the seen set of every longer trace. */
  lemma {:induction false} SeenByHas(vs: seq<Visit>, i: nat)
    requires i < |vs| && RecordedHash(vs[i].outcome).Some?
    ensures RecordedHash(vs[i].outcome).value in SeenBy(vs)
    decreases |vs|
  {
    if i < |vs| - 1 {
      var init := vs[..|vs| - 1];
      assert init[i] == vs[i];
      SeenByHas(init, i);
    }
  }

  /** The files written are the files of the persisted visits, one for one and in order. */
  lemma {:induction false} FilesOfSaved(vs: seq<Visit>, f: SavedFile)
    ensures f in FilesOf(vs) <==> exists i :: 0 <= i < |vs| && vs[i].outcome.Saved? && vs[i].outcome.file == f
    decreases |vs|
  {
    if vs != [] {
      var init, last := vs[..|vs| - 1], vs[|vs| - 1];
      FilesOfSaved(init, f);
      if exists i :: 0 <= i < |init| && init[i].outcome.Saved? && init[i].outcome.file == f {
        var i :| 0 <= i < |init| && init[i].outcome.Saved? && init[i].outcome.file == f;
        assert vs[i] == init[i];
      }
      if exists i :: 0 <= i < |vs| && vs[i].outcome.Saved? && vs[i].outcome.file == f {
        var i :| 0 <= i < |vs| && vs[i].outcome.Saved? && vs[i].outcome.file == f;
        if i < |init| {
          assert init[i] == vs[i];
        }
      }
    }
  }

  /** Every entry a visit appends comes from the links of a persisted visit, one level below it. */
  lemma {:induction false} LinkEntriesOrigin(vs: seq<Visit>, k: nat)
    requires k < |LinkEntries(vs)|
    ensures exists i :: 0 <= i < |vs| && vs[i].outcome.Saved? &&
              LinkEntries(vs)[k].url in vs[i].outcome.links &&
              LinkEntries(vs)[k].depth == vs[i].entry.depth + 1
    decreases |vs|
  {
    var init, last := vs[..|vs| - 1], vs[|vs| - 1];
    var prev := LinkEntries(init);
    if k < |prev| {
      assert LinkEntries(vs)[k] == prev[k];
      LinkEntriesOrigin(init, k);
      var i :| 0 <= i < |init| && init[i].outcome.Saved? && prev[k].url in init[i].outcome.links &&
               prev[k].depth == init[i].entry.depth + 1;
      assert vs[i] == init[i];
    } else {
      var p := Pushes(last);
      assert LinkEntries(vs)[k] == p[k - |prev|];
      assert last.outcome.Saved?;
      assert p[k - |prev|] == Entry(last.outcome.links[k - |prev|], last.entry.depth + 1);
      assert vs[|vs| - 1] == last;
    }
  }

  // ---------------------------------------------------------------------------------------
  // Links

  /** Every enqueued link passes the link filter with the site's first domain and patterns. */
  lemma {:induction false} TargetsValid(c: SiteConfig, env: Env, base: string, hrefs: seq<string>)
    ensures forall l :: l in Targets(c, env, base, hrefs) ==>
              LinkDomain(c).Some? && IsValid(env.netloc, l, LinkDomain(c).value, IncludePatterns(c), ExcludePatterns(c))
    decreases |hrefs|
  {
    if hrefs != [] {
      TargetsValid(c, env, base, hrefs[1..]);
    }
  }

  /** When every href resolves and the site has a domain, the enqueued links are exactly the
      resolved hrefs that pass the link filter. */
  lemma {:induction false} TargetsComplete(c: SiteConfig, env: Env, base: string, hrefs: seq<string>, l: string)
    requires |c.allowedDomains| > 0
    requires forall h :: h in hrefs ==> env.resolve(base, h).Some?
    ensures l in Targets(c, env, base, hrefs) <==>
              (exists h :: h in hrefs && env.resolve(base, h) == Some(l)) &&
              IsValid(env.netloc, l, c.allowedDomains[0], IncludePatterns(c), ExcludePatterns(c))
    decreases |hrefs|
  {
    if hrefs != [] {
      TargetsComplete(c, env, base, hrefs[1..], l);
      assert forall h :: h in hrefs <==> h == hrefs[0] || h in hrefs[1..];
    }
  }

  /** A page with one in-domain and one out-of-domain link, crawled with the default
      patterns, yields only the in-domain link. */
  lemma TargetsExample(c: SiteConfig, env: Env, start: string, inside: string, outside: string,
                       h1: string, h2: string)
    requires c.allowedDomains == ["example.com"] && c.includePatterns.None? && c.excludePatterns.None?
    requires env.resolve(start, h1) == Some(inside) && env.resolve(start, h2) == Some(outside)
    requires env.netloc(inside) == "example.com" && env.netloc(outside) == "other.com"
    ensures Targets(c, env, start, [h1, h2]) == [inside]
  {
    assert LinkDomain(c) == Some("example.com");
    assert IncludePatterns(c) == [] && ExcludePatterns(c) == [];
    assert Strings.IsPrefix("example.com", env.netloc(inside));
    assert !Strings.AnyOccurs([], inside);
    assert IsValid(env.netloc, inside, "example.com", [], []);
    Strings.MissingChar("example.com", env.netloc(outside), 'x');
    assert !IsValid(env.netloc, outside, "example.com", [], []);
    assert [h1, h2][1..] == [h2] && [h2][1..] == [];
    assert Targets(c, env, start, [h2]) == [];
  }

  /** A site without allowed domains has no domain to scope links by: the lookup raises at the
      first href that resolves, so no link is ever enqueued. */
  lemma TargetsWithoutDomain(c: SiteConfig, env: Env, base: string, hrefs: seq<string>)
    requires c.allowedDomains == []
    ensures Targets(c, env, base, hrefs) == []
  {
  }

  /** Without allowed domains, a persisted page enqueues no link. */
  lemma ExamineWithoutDomain(c: SiteConfig, env: Env, seen: set<string>, url: string)
    requires c.allowedDomains == []
    ensures Examine(c, env, seen, url).Saved? ==> Examine(c, env, seen, url).links == []
  {
    if Examine(c, env, seen, url).Saved? {
      TargetsWithoutDomain(c, env, url, env.parse(env.fetch(url).value.body).hrefs);
    }
  }

  /** Read from the front, the entries the visits append are the first visit's, then the rest's. */
  lemma {:induction false} LinkEntriesFront(vs: seq<Visit>)
    requires vs != []
    ensures LinkEntries(vs) == Pushes(vs[0]) + LinkEntries(vs[1..])
    decreases |vs|
  {
    var init, last := vs[..|vs| - 1], vs[|vs| - 1];
    if |vs| == 1 {
      assert init == [] && vs[1..] == [];
      assert LinkEntries(vs) == [] + Pushes(last);
    } else {
      var tail := vs[1..];
      LinkEntriesFront(init);
      assert init[0] == vs[0];
      assert tail[..|tail| - 1] == init[1..] && tail[|tail| - 1] == last;
      var p0, mid, pl := Pushes(vs[0]), LinkEntries(init[1..]), Pushes(last);
      assert LinkEntries(tail) == mid + pl;
      assert LinkEntries(vs) == (p0 + mid) + pl;
      assert (p0 + mid) + pl == p0 + (mid + pl);
    }
  }

  /** The entries the visits append are empty when no visit has links to append. */
  lemma {:induction false} LinkEntriesNone(vs: seq<Visit>)
    requires forall k :: 0 <= k < |vs| ==> Pushes(vs[k]) == []
    ensures LinkEntries(vs) == []
    decreases |vs|
  {
    if vs != [] {
      var init := vs[..|vs| - 1];
      forall k | 0 <= k < |init|
        ensures Pushes(init[k]) == []
      {
        assert init[k] == vs[k];
      }
      LinkEntriesNone(init);
    }
  }

  /** The first entry taken, when within the bound, is always admitted first. */
  lemma {:induction false} AdmitHead(ps: seq<Entry>, m: int)
    requires ps != [] && ps[0].depth <= m
    ensures Admit(ps, m) != [] && Admit(ps, m)[0] == ps[0]
    decreases |ps|
  {
    var init := ps[..|ps| - 1];
    if |ps| == 1 {
      assert init == [] && EntryUrls([]) == {};
    } else {
      assert init[0] == ps[0];
      AdmitHead(init, m);
    }
  }

  /** The first start URL is the first URL processed, against no recorded digest, whenever the
      bound admits depth 0. */
  lemma RunFirstVisit(c: SiteConfig, env: Env, run: Run)
    requires IsRunOf(c, env, run)
    requires |c.startUrls| > 0 && MaxDepth(c) >= 0
    ensures |run.visits| > 0
    ensures run.visits[0].entry == Entry(c.startUrls[0], 0)
    ensures run.visits[0].outcome == Examine(c, env, {}, c.startUrls[0])
  {
    assert run.popped[0] == StartEntries(c.startUrls)[0];
    AdmitHead(run.popped, MaxDepth(c));
    assert Entries(run.visits)[0] == run.visits[0].entry;
    assert run.visits[..0] == [];
  }

  // ---------------------------------------------------------------------------------------
  // Processing one URL

  /** What a persisted visit went through: a 200 answer, a text of at least MinTextLength
      characters whose digest is the recorded one, a successful write, and a file named after
      the URL digest holding the title, the URL and the text. */
  predicate PersistedPage(c: SiteConfig, env: Env, v: Visit) {
    && v.outcome.Saved?
    && env.fetch(v.entry.url).Some?
    && env.fetch(v.entry.url).value.status == OkStatus
    && var page := env.parse(env.fetch(v.entry.url).value.body);
       && |page.text| >= MinTextLength
       && v.outcome.hash == env.digest(page.text)
       && env.writeOk(v.outcome.file)
       && v.outcome.file.dir == OutputDir(c.name)
       && v.outcome.file.name == FileName(env.digest, v.entry.url)
       && v.outcome.file.content == RecordContent(TitleText(page.title), v.entry.url, page.text)
       && v.outcome.links == Targets(c, env, v.entry.url, page.hrefs)
  }

  /** A URL is persisted exactly when it answers 200, its text is long enough, its digest is
      new and the write succeeds; and then it is persisted as described. */
  lemma ExamineSaved(c: SiteConfig, env: Env, seen: set<string>, url: string)
    ensures var o := Examine(c, env, seen, url);
            o.Saved? <==>
              && env.fetch(url).Some? && env.fetch(url).value.status == OkStatus
              && var page := env.parse(env.fetch(url).value.body);
                 && env.digest(page.text) !in seen
                 && |page.text| >= MinTextLength
                 && env.writeOk(PageFile(c, env, url, page))
    ensures var o := Examine(c, env, seen, url);
            o.Saved? ==> o.hash !in seen && PersistedPage(c, env, Visit(Entry(url, 0), o))
  {
  }

  /** A page whose digest is already recorded is skipped as a duplicate, however long it is. */
  lemma ExamineDuplicate(c: SiteConfig, env: Env, seen: set<string>, url: string)
    requires env.fetch(url).Some? && env.fetch(url).value.status == OkStatus
    requires env.digest(env.parse(env.fetch(url).value.body).text) in seen
    ensures Examine(c, env, seen, url) == Duplicate(env.digest(env.parse(env.fetch(url).value.body).text))
  {
  }

  // ---------------------------------------------------------------------------------------
  // Properties of a whole crawl

  /** Each URL is processed at most once, however often it was enqueued; the visited set is
      exactly the URLs enqueued at least once within the depth bound, so a URL whose fetch
      failed stays visited and is never retried. */
  lemma RunVisitsEachUrlOnce(c: SiteConfig, env: Env, run: Run)
    requires IsRunOf(c, env, run)
    ensures forall i, j :: 0 <= i < j < |run.visits| ==> run.visits[i].entry.url != run.visits[j].entry.url
    ensures run.visited == set e | e in run.pushed && e.depth <= MaxDepth(c) :: e.url
  {
    var es := Entries(run.visits);
    AdmitFacts(run.popped, MaxDepth(c));
    AdmitCovers(run.popped, MaxDepth(c));
    forall i, j | 0 <= i < j < |run.visits|
      ensures run.visits[i].entry.url != run.visits[j].entry.url
    {
      assert es[i] == run.visits[i].entry && es[j] == run.visits[j].entry;
    }
  }

  /** No entry deeper than the bound is fetched, and depths are never negative. */
  lemma RunRespectsDepth(c: SiteConfig, env: Env, run: Run)
    requires IsRunOf(c, env, run)
    ensures forall i :: 0 <= i < |run.visits| ==> 0 <= run.visits[i].entry.depth <= MaxDepth(c)
  {
    var es := Entries(run.visits);
    AdmitFacts(run.popped, MaxDepth(c));
    forall i | 0 <= i < |run.visits|
      ensures 0 <= run.visits[i].entry.depth <= MaxDepth(c)
    {
      assert es[i] == run.visits[i].entry;
      assert es[i] in run.popped;
      var k :| 0 <= k < |run.popped| && run.popped[k] == es[i];
    }
  }

  /** The frontier receives the start URLs at depth 0 first; every later entry is a valid link
      of a persisted page, one level below that page, so at most one level past the bound. */
  lemma RunEnqueuesValidLinks(c: SiteConfig, env: Env, run: Run)
    requires IsRunOf(c, env, run)
    ensures forall k :: 0 <= k < |c.startUrls| ==> run.pushed[k] == Entry(c.startUrls[k], 0)
    ensures forall k :: |c.startUrls| <= k < |run.pushed| ==>
              && LinkDomain(c).Some?
              && IsValid(env.netloc, run.pushed[k].url, LinkDomain(c).value, IncludePatterns(c), ExcludePatterns(c))
              && 1 <= run.pushed[k].depth <= MaxDepth(c) + 1
  {
    var starts := StartEntries(c.startUrls);
    var links := LinkEntries(run.visits);
    RunRespectsDepth(c, env, run);
    forall k | 0 <= k < |c.startUrls|
      ensures run.pushed[k] == Entry(c.startUrls[k], 0)
    {
      assert run.pushed[k] == starts[k];
    }
    forall k | |c.startUrls| <= k < |run.pushed|
      ensures && LinkDomain(c).Some?
              && IsValid(env.netloc, run.pushed[k].url, LinkDomain(c).value, IncludePatterns(c), ExcludePatterns(c))
              && 1 <= run.pushed[k].depth <= MaxDepth(c) + 1
    {
      var n := k - |c.startUrls|;
      assert run.pushed[k] == links[n];
      LinkEntriesOrigin(run.visits, n);
      var i :| 0 <= i < |run.visits| && run.visits[i].outcome.Saved? &&
               links[n].url in run.visits[i].outcome.links && links[n].depth == run.visits[i].entry.depth + 1;
      var v := run.visits[i];
      var seen := SeenBy(run.visits[..i]);
      assert v.outcome == Examine(c, env, seen, v.entry.url);
      ExamineSaved(c, env, seen, v.entry.url);
      var page := env.parse(env.fetch(v.entry.url).value.body);
      TargetsValid(c, env, v.entry.url, page.hrefs);
    }
  }

  /** Every file written is a persisted visit's page: it answered 200, its text has at least
      MinTextLength characters, its digest had not been recorded before it, and the file is
      named after the URL digest and holds the title, the URL and the text. */
  lemma RunFilesArePersistedPages(c: SiteConfig, env: Env, run: Run)
    requires IsRunOf(c, env, run)
    ensures forall f :: f in run.files ==>
              exists i :: 0 <= i < |run.visits| && run.visits[i].outcome.Saved? &&
                run.visits[i].outcome.file == f && PersistedPage(c, env, run.visits[i]) &&
                run.visits[i].outcome.hash !in SeenBy(run.visits[..i])
  {
    forall f | f in run.files
      ensures exists i :: 0 <= i < |run.visits| && run.visits[i].outcome.Saved? &&
                run.visits[i].outcome.file == f && PersistedPage(c, env, run.visits[i]) &&
                run.visits[i].outcome.hash !in SeenBy(run.visits[..i])
    {
      FilesOfSaved(run.visits, f);
      var i :| 0 <= i < |run.visits| && run.visits[i].outcome.Saved? && run.visits[i].outcome.file == f;
      var v := run.visits[i];
      ExamineSaved(c, env, SeenBy(run.visits[..i]), v.entry.url);
      assert PersistedPage(c, env, v);
    }
  }

  /** No two persisted pages of one crawl share a content digest, so no two share a text. */
  lemma RunHashesUnique(c: SiteConfig, env: Env, run: Run)
    requires IsRunOf(c, env, run)
    ensures forall i, j :: 0 <= i < j < |run.visits| && run.visits[i].outcome.Saved? && run.visits[j].outcome.Saved? ==>
              run.visits[i].outcome.hash != run.visits[j].outcome.hash
    ensures forall i, j :: 0 <= i < j < |run.visits| && run.visits[i].outcome.Saved? && run.visits[j].outcome.Saved? ==>
              env.parse(env.fetch(run.visits[i].entry.url).value.body).text !=
              env.parse(env.fetch(run.visits[j].entry.url).value.body).text
  {
    forall i, j | 0 <= i < j < |run.visits| && run.visits[i].outcome.Saved? && run.visits[j].outcome.Saved?
      ensures run.visits[i].outcome.hash != run.visits[j].outcome.hash
      ensures env.parse(env.fetch(run.visits[i].entry.url).value.body).text !=
              env.parse(env.fetch(run.visits[j].entry.url).value.body).text
    {
      var vi, vj := run.visits[i], run.visits[j];
      var before := run.visits[..j];
      assert before[i] == vi;
      SeenByHas(before, i);
      ExamineSaved(c, env, SeenBy(run.visits[..i]), vi.entry.url);
      ExamineSaved(c, env, SeenBy(before), vj.entry.url);
    }
  }

  /** Of pages with the same text, only the first one persisted keeps it: any later page that
      answers 200 with that text is skipped as a duplicate. */
  lemma RunSkipsDuplicates(c: SiteConfig, env: Env, run: Run, i: nat, j: nat)
    requires IsRunOf(c, env, run)
    requires i < j < |run.visits| && run.visits[i].outcome.Saved?
    requires var u := run.visits[j].entry.url;
             env.fetch(u).Some? && env.fetch(u).value.status == OkStatus &&
             env.digest(env.parse(env.fetch(u).value.body).text) == run.visits[i].outcome.hash
    ensures run.visits[j].outcome == Duplicate(run.visits[i].outcome.hash)
  {
    var before := run.visits[..j];
    assert before[i] == run.visits[i];
    SeenByHas(before, i);
    ExamineDuplicate(c, env, SeenBy(before), run.visits[j].entry.url);
  }

  /** A site without `max_depth` is crawled to depth 1: the start URLs and their direct links. */
  lemma RunDefaultDepth(c: SiteConfig, env: Env, run: Run)
    requires IsRunOf(c, env, run) && c.maxDepth.None?
    ensures forall i :: 0 <= i < |run.visits| ==> 0 <= run.visits[i].entry.depth <= 1
  {
    RunRespectsDepth(c, env, run);
  }

  /** A site without allowed domains is crawled no further than its start URLs: nothing but
      them is ever enqueued. */
  lemma RunWithoutDomain(c: SiteConfig, env: Env, run: Run)
    requires IsRunOf(c, env, run) && c.allowedDomains == []
    ensures run.pushed == StartEntries(c.startUrls)
  {
    assert Consistent(c, env, run.visits);
    forall k | 0 <= k < |run.visits|
      ensures Pushes(run.visits[k]) == []
    {
      ExamineWithoutDomain(c, env, SeenBy(run.visits[..k]), run.visits[k].entry.url);
    }
    LinkEntriesNone(run.visits);
    assert run.pushed == StartEntries(c.startUrls) + [];
  }

  /** With a single start URL, every URL processed after it is at least one level deep, so
      the links it enqueues are at least two levels deep. */
  lemma RunLaterLinksDeep(c: SiteConfig, env: Env, run: Run)
    requires IsRunOf(c, env, run)
    requires |c.startUrls| == 1 && MaxDepth(c) >= 0
    ensures |run.visits| > 0
    ensures forall k :: 0 <= k < |LinkEntries(run.visits[1..])| ==> LinkEntries(run.visits[1..])[k].depth >= 2
  {
    RunFirstVisit(c, env, run);
    RunVisitsEachUrlOnce(c, env, run);
    RunEnqueuesValidLinks(c, env, run);
    AdmitFacts(run.popped, MaxDepth(c));
    var rest := run.visits[1..];
    forall k | 0 <= k < |LinkEntries(rest)|
      ensures LinkEntries(rest)[k].depth >= 2
    {
      LinkEntriesOrigin(rest, k);
      var i :| 0 <= i < |rest| && rest[i].outcome.Saved? && LinkEntries(rest)[k].url in rest[i].outcome.links &&
               LinkEntries(rest)[k].depth == rest[i].entry.depth + 1;
      var e := run.visits[i + 1].entry;
      assert rest[i].entry == e;
      assert Entries(run.visits)[i + 1] == e;
      assert e in run.popped;
      var m :| 0 <= m < |run.pushed| && run.pushed[m] == e;
      assert e.url != run.visits[0].entry.url;
      assert m != 0;
    }
  }

  /** The frontier of a crawl: the start entries, then the first visit's links, then the links
      of all later visits. */
  lemma RunFrontierShape(c: SiteConfig, env: Env, run: Run)
    requires IsRunOf(c, env, run)
    requires |c.startUrls| > 0 && MaxDepth(c) >= 0
    ensures |run.visits| > 0
    ensures run.pushed == StartEntries(c.startUrls) + Pushes(run.visits[0]) + LinkEntries(run.visits[1..])
  {
    RunFirstVisit(c, env, run);
    LinkEntriesFront(run.visits);
  }

  /** The start page of the example is persisted with exactly the in-domain link. */
  lemma FirstPageExample(c: SiteConfig, env: Env, s: string, body: string,
                         inside: string, outside: string, h1: string, h2: string)
    requires c.allowedDomains == ["example.com"] && c.includePatterns.None? && c.excludePatterns.None?
    requires env.fetch(s) == Some(Response(OkStatus, body))
    requires env.parse(body).hrefs == [h1, h2] && |env.parse(body).text| >= MinTextLength
    requires env.writeOk(PageFile(c, env, s, env.parse(body)))
    requires env.resolve(s, h1) == Some(inside) && env.resolve(s, h2) == Some(outside)
    requires env.netloc(inside) == "example.com" && env.netloc(outside) == "other.com"
    ensures Examine(c, env, {}, s).Saved? && Examine(c, env, {}, s).links == [inside]
    ensures Pushes(Visit(Entry(s, 0), Examine(c, env, {}, s))) == [Entry(inside, 1)]
  {
    TargetsExample(c, env, s, inside, outside, h1, h2);
  }

  /** The frontier of a crawl from one start URL: the start URL at depth 0, the links of its
      page at depth 1, then entries at least two levels deep. */
  lemma RunSingleStart(c: SiteConfig, env: Env, run: Run)
    requires IsRunOf(c, env, run)
    requires |c.startUrls| == 1 && MaxDepth(c) >= 0
    ensures |run.visits| > 0
    ensures var s := c.startUrls[0];
            run.pushed == [Entry(s, 0)] + Pushes(Visit(Entry(s, 0), Examine(c, env, {}, s))) + LinkEntries(run.visits[1..])
    ensures forall k :: 0 <= k < |LinkEntries(run.visits[1..])| ==> LinkEntries(run.visits[1..])[k].depth >= 2
  {
    RunFirstVisit(c, env, run);
    RunFrontierShape(c, env, run);
    RunLaterLinksDeep(c, env, run);
    assert StartEntries(c.startUrls) == [Entry(c.startUrls[0], 0)];
  }

  /** One start URL whose page answers 200 with enough text and two links, one in the domain and
      one outside it, crawled with `max_depth` 1: the frontier receives the start URL at depth 0,
      then exactly the in-domain link at depth 1, and every later entry is at least two levels
      deep, so beyond the bound. */
  lemma RunEndToEndExample(c: SiteConfig, env: Env, run: Run, s: string, body: string,
                           inside: string, outside: string, h1: string, h2: string)
    requires IsRunOf(c, env, run)
    requires c.startUrls == [s] && c.maxDepth == Some(1)
    requires c.allowedDomains == ["example.com"] && c.includePatterns.None? && c.excludePatterns.None?
    requires env.fetch(s) == Some(Response(OkStatus, body))
    requires env.parse(body).hrefs == [h1, h2] && |env.parse(body).text| >= MinTextLength
    requires env.writeOk(PageFile(c, env, s, env.parse(body)))
    requires env.resolve(s, h1) == Some(inside) && env.resolve(s, h2) == Some(outside)
    requires env.netloc(inside) == "example.com" && env.netloc(outside) == "other.com"
    ensures |run.pushed| >= 2 && run.pushed[..2] == [Entry(s, 0), Entry(inside, 1)]
    ensures forall k :: 2 <= k < |run.pushed| ==> run.pushed[k].depth >= 2
  {
    RunSingleStart(c, env, run);
    FirstPageExample(c, env, s, body, inside, outside, h1, h2);
    var later := LinkEntries(run.visits[1..]);
    assert [Entry(s, 0)] + [Entry(inside, 1)] == [Entry(s, 0), Entry(inside, 1)];
    DeepAfter([Entry(s, 0), Entry(inside, 1)], later);
  }


  /** Entries that follow a two-entry head and are all at least two levels deep. */
  lemma DeepAfter(head: seq<Entry>, later: seq<Entry>)
    requires |head| == 2 && forall k :: 0 <= k < |later| ==> later[k].depth >= 2
    ensures (head + later)[..2] == head
    ensures forall k :: 2 <= k < |head + later| ==> (head + later)[k].depth >= 2
  {
    forall k | 2 <= k < |head + later|
      ensures (head + later)[k].depth >= 2
    {
      assert (head + later)[k] == later[k - 2];
    }
  }

}
