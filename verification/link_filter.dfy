/** The link-eligibility rule applied to every outbound link of a persisted page. */
module LinkFilter {
  import opened Strings

  /** Whether a discovered link is eligible: the four short-circuiting rules, in the order the crawler applies them.
      `netloc` is the network location of a URL as the URL parser extracts it: user info, host
      and port together, so the domain may match in any of the three. */
  predicate IsValid(netloc: string -> string, url: string, domain: string,
                    includes: seq<string>, excludes: seq<string>)
  {
    if !Occurs(domain, netloc(url)) then false
    else if AnyOccurs(excludes, url) then false
    else if |includes| > 0 then AnyOccurs(includes, url)
    else true
  }

  /** A link is never accepted unless the domain is a substring of its network location,
      whatever the patterns are. */
  lemma DomainRequired(netloc: string -> string, url: string, domain: string,
                       includes: seq<string>, excludes: seq<string>)
    requires forall i :: !OccursAt(domain, netloc(url), i)
    ensures !IsValid(netloc, url, domain, includes, excludes)
  {
    OccursIff(domain, netloc(url));
  }

  /** An exclude pattern occurring in the URL rejects it, even when an include pattern matches too. */
  lemma ExcludeWins(netloc: string -> string, url: string, domain: string,
                    includes: seq<string>, excludes: seq<string>, p: string, i: int)
    requires p in excludes && OccursAt(p, url, i)
    ensures !IsValid(netloc, url, domain, includes, excludes)
  {
    OccursIff(p, url);
  }

  /** Once the domain and exclude checks pass, the link is accepted exactly when the include
      list is empty or one of its patterns occurs in the URL. */
  lemma IncludeRule(netloc: string -> string, url: string, domain: string,
                    includes: seq<string>, excludes: seq<string>)
    requires exists i :: OccursAt(domain, netloc(url), i)
    requires forall p, i :: p in excludes ==> !OccursAt(p, url, i)
    ensures IsValid(netloc, url, domain, includes, excludes) <==>
              (includes == [] || exists p, i :: p in includes && OccursAt(p, url, i))
  {
    OccursIff(domain, netloc(url));
    forall p | p in excludes
      ensures !Occurs(p, url)
    {
      OccursIff(p, url);
    }
    forall p | p in includes
      ensures Occurs(p, url) <==> exists i :: OccursAt(p, url, i)
    {
      OccursIff(p, url);
    }
  }

  // The rule on concrete links of one site, `example.com`, whose network locations `netloc` reports.

  /** With `/login` excluded and no include list, an ordinary page of the site is accepted. */
  lemma ExampleAccepted(netloc: string -> string, u: string)
    requires u == "https://example.com/a" && netloc(u) == "example.com"
    ensures IsValid(netloc, u, "example.com", [], ["/login"])
  {
    assert IsPrefix("example.com", netloc(u));
    MissingChar("/login", u, 'g');
    assert !AnyOccurs(["/login"], u);
  }

  /** With `/login` excluded, a login page of the site is rejected. */
  lemma ExampleExcluded(netloc: string -> string, u: string)
    requires u == "https://example.com/login/a" && netloc(u) == "example.com"
    ensures !IsValid(netloc, u, "example.com", [], ["/login"])
  {
    assert u[19..25] == "/login";
    ExcludeWins(netloc, u, "example.com", [], ["/login"], "/login", 19);
  }

  /** A page of another site is rejected whatever the patterns. */
  lemma ExampleOtherDomain(netloc: string -> string, u: string)
    requires u == "https://other.com/a" && netloc(u) == "other.com"
    ensures !IsValid(netloc, u, "example.com", [], ["/login"])
  {
    MissingChar("example.com", netloc(u), 'x');
  }

  /** With `/blog` as the only include pattern, a blog page of the site is accepted. */
  lemma ExampleIncluded(netloc: string -> string, u: string)
    requires u == "https://example.com/blog/1" && netloc(u) == "example.com"
    ensures IsValid(netloc, u, "example.com", ["/blog"], [])
  {
    assert IsPrefix("example.com", netloc(u));
    assert OccursAt("/blog", u, 19);
    OccursIff("/blog", u);
    assert AnyOccurs(["/blog"], u);
  }

  /** With `/blog` as the only include pattern, a shop page of the site is rejected. */
  lemma ExampleNotIncluded(netloc: string -> string, u: string)
    requires u == "https://example.com/shop/1" && netloc(u) == "example.com"
    ensures !IsValid(netloc, u, "example.com", ["/blog"], [])
  {
    MissingChar("/blog", u, 'b');
    assert !AnyOccurs(["/blog"], u);
  }
}
