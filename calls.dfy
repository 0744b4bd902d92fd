/**
 * One call to the remote API, as every listing, detail and write function of
 * the tool performs it: the request URL, then the order in which a response
 * is checked (transport, Link header, rate-limit headers, status, body).
 */
module Calls {
  import opened Types
  import opened Text
  import opened GhApi

  /** How a listing treats a status other than 200. */
  datatype StatusRule =
    | IgnoreStatus    // decode whatever came back
    | EmptyUnlessOK   // an empty page and no error (repository contributors)
    | ErrorUnlessOK   // an error carrying the body text (organization members)

  /** The base of every request URL. */
  const Api: string := "https://api.github.com/"

  const NoCursor: ListPages := ListPages(0, 0, 0)

  /**
   * One listing call: a transport failure, then a Link header that does not
   * parse, then unparsable rate-limit headers, then the status rule, then a
   * body that does not decode (whose partial value is still returned).
   */
  function ListPage<T>(res: Response<seq<T>>, rule: StatusRule): (page: Page<T>)
    ensures res.Unreachable? ==> page == Page([], NoCursor, Some(Transport(res.reason)))
    ensures res.Http? ==> page.cursor == LinksOf(res.link).pages
    ensures page.err.None? ==>
      res.Http? && LinksOf(res.link).err.None? && ParseRateLimit(res.headers).Ok?
    ensures page.items != [] ==>
      res.Http? && page.items == res.body.value && (res.status == 200 || rule.IgnoreStatus?) &&
      LinksOf(res.link).err.None? && ParseRateLimit(res.headers).Ok?
    ensures res.Http? && LinksOf(res.link).err.Some? ==> page == Page([], LinksOf(res.link).pages, LinksOf(res.link).err)
    ensures res.Http? && LinksOf(res.link).err.None? && ParseRateLimit(res.headers).Err? ==>
      page == Page([], LinksOf(res.link).pages, Some(ParseRateLimit(res.headers).error))
    ensures HeadersParse(res) && (res.status == 200 || rule.IgnoreStatus?) && !res.body.decoded ==>
      page == Page(res.body.value, LinksOf(res.link).pages, Some(Malformed(res.body.text)))
  {
    match res
    case Unreachable(reason) => Page([], NoCursor, Some(Transport(reason)))
    case Http(link, headers, status, body) =>
      var links := LinksOf(link);
      if links.err.Some? then Page([], links.pages, links.err)
      else match ParseRateLimit(headers)
        case Err(e) => Page([], links.pages, Some(e))
        case Ok(_) =>
          if status != 200 && rule.EmptyUnlessOK? then Page([], links.pages, None)
          else if status != 200 && rule.ErrorUnlessOK? then Page([], links.pages, Some(RemoteError(body.text)))
          else if !body.decoded then Page(body.value, links.pages, Some(Malformed(body.text)))
          else Page(body.value, links.pages, None)
  }

  /** A response whose Link and rate-limit headers both parse. */
  predicate HeadersParse<T>(res: Response<T>) {
    res.Http? && LinksOf(res.link).err.None? && ParseRateLimit(res.headers).Ok?
  }

  /** Contributors: any status other than 200 is an empty page and no error. */
  lemma EmptyUnlessOKNon200<T>(res: Response<seq<T>>)
    requires HeadersParse(res) && res.status != 200
    ensures ListPage(res, EmptyUnlessOK) == Page([], LinksOf(res.link).pages, None)
  {
  }

  /** Organization members: any status other than 200 is an error carrying the body. */
  lemma ErrorUnlessOKNon200<T>(res: Response<seq<T>>)
    requires HeadersParse(res) && res.status != 200
    ensures ListPage(res, ErrorUnlessOK) == Page([], LinksOf(res.link).pages, Some(RemoteError(res.body.text)))
  {
  }

  /** On a 200 response every listing behaves alike, and a decoded body is the page. */
  lemma ListPageOK<T>(res: Response<seq<T>>, rule: StatusRule)
    requires HeadersParse(res) && res.status == 200
    ensures ListPage(res, rule) == ListPage(res, IgnoreStatus)
    ensures res.body.decoded ==> ListPage(res, rule) == Page(res.body.value, LinksOf(res.link).pages, None)
  {
  }

  /** The request URL of a listing: "?page=N" is added only for a positive page. */
  function PagedURL(base: string, page: int): (url: string)
    ensures page <= 0 ==> url == base
    ensures page > 0 ==> |url| > |base| && url[..|base|] == base
  {
    if page > 0 then base + "?page=" + Itoa(page) else base
  }

  /** Distinct positive pages are requested at distinct URLs. */
  lemma PagedURLInjective(base: string, p: int, q: int)
    requires 0 < p <= MaxInt && 0 < q <= MaxInt
    requires PagedURL(base, p) == PagedURL(base, q)
    ensures p == q
  {
    var u := PagedURL(base, p);
    assert u[|base| + 6..] == Itoa(p) by {
      assert u == (base + "?page=") + Itoa(p);
    }
    assert u[|base| + 6..] == Itoa(q) by {
      assert u == (base + "?page=") + Itoa(q);
    }
    ItoaInjective(p, q);
  }

  /**
   * A detail GET (a user, a team, a membership): transport, then rate-limit
   * headers, then decoding. The status is never looked at.
   */
  function Fetch<T>(res: Response<T>): (r: Result<T>)
    ensures r.Ok? <==> res.Http? && ParseRateLimit(res.headers).Ok? && res.body.decoded
    ensures r.Ok? ==> r.value == res.body.value
  {
    match res
    case Unreachable(reason) => Err(Transport(reason))
    case Http(_, headers, _, body) =>
      match ParseRateLimit(headers)
      case Err(e) => Err(e)
      case Ok(_) => if body.decoded then Ok(body.value) else Err(Malformed(body.text))
  }

  /** An error page decodes like any other body: the status does not change the outcome. */
  lemma FetchIgnoresStatus<T>(res: Response<T>, status: int)
    requires res.Http?
    ensures Fetch(res.(status := status)) == Fetch(res)
  {
  }

  /**
   * A write whose response is not inspected (removing a member, adding a
   * team membership): only transport and rate-limit header failures count.
   */
  function WriteOutcome(res: Response<()>): (err: Option<Error>)
    ensures err.None? <==> res.Http? && ParseRateLimit(res.headers).Ok?
  {
    match res
    case Unreachable(reason) => Some(Transport(reason))
    case Http(_, headers, _, _) =>
      match ParseRateLimit(headers)
      case Err(e) => Some(e)
      case Ok(_) => None
  }
}
