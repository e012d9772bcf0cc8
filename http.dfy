/**
 * What the engine sees of the network. Every `get(url)` of the source is a
 * lookup in a `Web`: a transport error, or the response after redirects,
 * with the anchors the HTML parser would extract from its body already
 * resolved to absolute URLs (all anchors, and those under `nav`/`footer`).
 */
module Http {
  import opened Text

  /** One extracted anchor: absolute URL and its combined visible/aria/title label. */
  datatype Link = Link(url: string, caption: string)

  datatype Response = Response(
    url: string,          // final URL after redirects ("" when requests reports none)
    status: int,
    contentType: string,  // the Content-Type header, "" when absent
    body: string,
    links: seq<Link>,     // extract_links(page, body)
    navLinks: seq<Link>)  // extract_links_with_selector(page, body, "nav a[href], footer a[href]")
  {
    /** `resp.url or requested`. */
    function FinalUrl(requested: string): string {
      if url != "" then url else requested
    }

    /** `(resp.headers.get("Content-Type") or "").lower()`. */
    function LowerType(): string {
      Lower(contentType)
    }
  }

  datatype Fetch = TransportError(message: string) | Fetched(resp: Response)

  /** The web as the engine observes it during one run: same URL, same answer. */
  type Web = string -> Fetch
}
