/** What the crawler gets from outside: the network, the HTML parser, the digest, the URL
    library and the file system, each as a deterministic function. */
module Web {
  import opened Wrappers
  import opened Records

  /** The HTTP status a page must come back with to be processed. */
  const OkStatus: int := 200

  /** An HTTP response: its status code and its decoded body. */
  datatype Response = Response(status: int, body: string)

  /** What the HTML parser extracts from a body: the visible text with the non-content
      elements removed, the `<title>` element (absent, or present with a `.string` that may be
      None), and the `href` of every anchor that has one, in document order. */
  datatype Page = Page(text: string, title: Option<Option<string>>, hrefs: seq<string>)

  /** The environment of one crawl.
      - fetch: a GET with the crawler's timeout; None when the request raised (timeout,
        connection error).
      - parse: the HTML parser over a body.
      - digest: the hex MD5 digest of a string.
      - netloc: the network location of a URL as the URL parser splits it (user info, host
        and port, as one string).
      - resolve: the href resolved against the page URL; None when resolution raised.
      - writeOk: whether writing a file succeeds (False when the write raised). */
  datatype Env = Env(
    fetch: string -> Option<Response>,
    parse: string -> Page,
    digest: string -> string,
    netloc: string -> string,
    resolve: (string, string) -> Option<string>,
    writeOk: SavedFile -> bool)
}
