/**
  `get_website_content`: the page text the extraction proxy returned, or an
  error message in its place. The HTTP exchange itself is a parameter `web`
  from URL to the response received, `None` when `requests.get` raised.
 */
module Fetch {
  import opened Wrappers
  import opened Text
  import opened Decimal

  /** What `requests.get` hands back that the application looks at. */
  datatype Response = Response(status: int, body: string)

  /** The HTTP exchange with the extraction proxy for a target URL. */
  type Web = string -> Option<Response>

  const ErrorPrefix: string := "Error al obtener contenido del sitio web: "

  /** The text returned in place of the page for a status other than 200. */
  function FetchError(status: int): (text: string)
    ensures |text| > |ErrorPrefix| && text[..|ErrorPrefix|] == ErrorPrefix
    ensures ParseFetchError(text) == Some(status)
  {
    var text := ErrorPrefix + IntToString(status);
    assert text[|ErrorPrefix|..] == IntToString(status);
    ParseIntToString(status);
    text
  }

  /** Reads a status code back out of an error message; `None` for text that
      does not have the error message's shape. */
  function ParseFetchError(text: string): Option<int> {
    if |text| >= |ErrorPrefix| && text[..|ErrorPrefix|] == ErrorPrefix then
      ParseInt(text[|ErrorPrefix|..])
    else
      None
  }

  /** The status decision: a 200 response yields its body unchanged, any
      other status yields an error message from which that status can be read
      back. */
  function ContentOf(resp: Response): (text: string)
    ensures resp.status == 200 ==> text == resp.body
    ensures resp.status != 200 ==> ParseFetchError(text) == Some(resp.status)
  {
    if resp.status == 200 then
      resp.body
    else
      FetchError(resp.status)
  }

  /** The error message is the only text that reads back as a given status:
      the prefix followed by `str(status)`, with no other spelling of the
      number. */
  lemma ParseFetchErrorExact(text: string, status: int)
    ensures ParseFetchError(text) == Some(status) <==> text == FetchError(status)
  {
    if ParseFetchError(text) == Some(status) {
      assert text == ErrorPrefix + text[|ErrorPrefix|..];
    }
  }

  /** Distinct failing statuses give distinct messages. */
  lemma FetchErrorInjective(s1: int, s2: int)
    ensures FetchError(s1) == FetchError(s2) ==> s1 == s2
  {
    if FetchError(s1) == FetchError(s2) {
      assert IntToString(s1) == FetchError(s1)[|ErrorPrefix|..];
      IntToStringInjective(s1, s2);
    }
  }

  /** Errors and content share one representation: a page whose text happens
      to be an error message reads exactly like a failed fetch, whatever body
      the failed response carried. */
  lemma ErrorLooksLikeContent(status: int, body: string)
    requires status != 200
    ensures ContentOf(Response(200, FetchError(status))) == ContentOf(Response(status, body))
    ensures ParseFetchError(ContentOf(Response(200, FetchError(status)))) == Some(status)
  {
  }

  /** `get_website_content(url)`; `None` when the request raised. */
  function GetWebsiteContent(web: Web, url: string): (r: Option<string>)
    ensures r.Some? <==> web(url).Some?
    ensures r.Some? ==> r.value == ContentOf(web(url).value)
  {
    match web(url)
    case None => None
    case Some(resp) => Some(ContentOf(resp))
  }

  /** `[get_website_content(url) for url in urls]`: one text per URL, in
      order; the whole list is lost if any request raised. */
  function FetchAll(web: Web, urls: seq<string>): (r: Option<seq<string>>)
    ensures r.Some? <==> forall k :: 0 <= k < |urls| ==> web(urls[k]).Some?
    ensures r.Some? ==> |r.value| == |urls|
    ensures r.Some? ==> forall k :: 0 <= k < |urls| ==> r.value[k] == ContentOf(web(urls[k]).value)
  {
    if urls == [] then Some([])
    else
      match (GetWebsiteContent(web, urls[0]), FetchAll(web, urls[1..]))
      case (Some(first), Some(rest)) => Some([first] + rest)
      case _ => None
  }

  /** `"\n".join(...)` of the fetched texts: the page contents sent to the
      model. No URL gives the empty text, one URL gives its text alone, and
      every URL adds at least one line. */
  function Contents(web: Web, urls: seq<string>): (r: Option<string>)
    ensures r.Some? <==> forall k :: 0 <= k < |urls| ==> web(urls[k]).Some?
    ensures urls == [] ==> r == Some([])
    ensures r.Some? && |urls| == 1 ==> r.value == ContentOf(web(urls[0]).value)
    ensures r.Some? ==> r.value == JoinLines(FetchAll(web, urls).value)
    ensures r.Some? ==> |Lines(r.value)| >= |urls|
  {
    match FetchAll(web, urls)
    case None => None
    case Some(texts) =>
      JoinLinesKeepsLines(texts);
      Some(JoinLines(texts))
  }

  /** The lines of the contents are the lines of each URL's text, URL after
      URL: joining neither drops nor merges a line of any page. */
  lemma ContentsLines(web: Web, urls: seq<string>)
    requires |urls| >= 1 && Contents(web, urls).Some?
    ensures Lines(Contents(web, urls).value) == LinesOfEach(FetchAll(web, urls).value)
  {
    LinesOfJoinLinesEach(FetchAll(web, urls).value);
  }
}
