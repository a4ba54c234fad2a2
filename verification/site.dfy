/** One site's crawl configuration, as read from the configuration file, with the defaults
    the crawler applies to its optional keys. */
module Site {
  import opened Wrappers

  /** Depth used when a site gives no `max_depth`. */
  const DefaultMaxDepth: int := 1

  /** A parsed site entry. The optional keys keep their absence, so that the defaults are
      applied where the crawler applies them; a key present with a null value is not
      expressible and reads as absent. */
  datatype SiteConfig = SiteConfig(
    name: string,
    startUrls: seq<string>,
    allowedDomains: seq<string>,
    includePatterns: Option<seq<string>>,
    excludePatterns: Option<seq<string>>,
    maxDepth: Option<int>)

  /** The depth bound: the configured one, or the default when the key is absent. */
  function MaxDepth(c: SiteConfig): int {
    c.maxDepth.GetOr(DefaultMaxDepth)
  }

  /** The include patterns, none when the key is absent. */
  function IncludePatterns(c: SiteConfig): seq<string> {
    c.includePatterns.GetOr([])
  }

  /** The exclude patterns, none when the key is absent. */
  function ExcludePatterns(c: SiteConfig): seq<string> {
    c.excludePatterns.GetOr([])
  }

  /** The domain links are scoped to: only the first listed domain scopes the links; an empty
      list has none (the lookup raises). */
  function LinkDomain(c: SiteConfig): Option<string> {
    if |c.allowedDomains| > 0 then Some(c.allowedDomains[0]) else None
  }
}
