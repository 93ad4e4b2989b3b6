/** The remote HTTP server as the core sees it. Every network call of the core
    is an application of one of the functions held by a `Server`, so that each
    decision the core takes on a response can be stated exactly. */
module Remote {
  import opened Common

  /** One `tr` row of an automatic index page, as the HTML parser delivers it.
      `alt` is the alt text of the icon in the row's first `td`, or `None` when
      the row has no `td` at all (the header row); `link` is the text of the
      link in the second cell; `modified` is the timestamp in the third cell. */
  datatype Row = Row(alt: Option<string>, link: string, modified: Stamp)

  /** The answer to a HEAD probe (redirects followed): its status, and the
      Content-Length and Last-Modified headers when they are present. */
  datatype Head = Head(status: int, contentLength: Option<int>, lastModified: Option<Stamp>)

  /** A GET carrying `Range: bytes=first-last` (both ends inclusive). */
  datatype RangeRequest = RangeRequest(url: string, first: int, last: int)

  /** The answer to a range GET: its status and its body. */
  datatype Body = Body(status: int, content: seq<byte>)

  /** The server: the rows of the page a GET of a URL returns, the answer to a
      HEAD of a URL, and the answer to a range GET. */
  datatype Server = Server(page: string -> seq<Row>, head: string -> Head, get: RangeRequest -> Body)

  /** The statuses a range GET is accepted with: 200 (whole content) or 206 (partial content). */
  predicate RangeAccepted(status: int) {
    status == 200 || status == 206
  }
}
