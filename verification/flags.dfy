/**
 * The two handlers behind "/secure": the flag proxy (`fetchFlag`) and the
 * identity page (`fetchUserInfo`). Both build the flag image's address the
 * same way.
 */
module Flags {
  import opened Wrappers
  import opened Strings
  import opened Http

  /** The object-storage origin that serves one `<country>.png` per country. */
  const FlagHost := "https://pub-a0f085f9f9a74647b5b726dd329ccbdd.r2.dev/"
  const FlagExt := ".png"

  /** The flag image's address: the storage origin, the lower-cased country, ".png". */
  function FlagUrl(country: string): (url: string)
    ensures StartsWith(url, FlagHost)
    ensures |url| == |FlagHost| + |country| + |FlagExt|
    ensures url[|url| - |FlagExt|..] == FlagExt
    ensures IsLowered(url[|FlagHost|..|url| - |FlagExt|])
  {
    var url := FlagHost + Lower(country) + FlagExt;
    assert url[..|FlagHost|] == FlagHost;
    assert url[|FlagHost|..|url| - |FlagExt|] == Lower(country);
    url
  }

  /** Reads the country back out of a flag address: the text between the origin and ".png". */
  function CountryOfFlagUrl(url: string): Option<string> {
    if StartsWith(url, FlagHost) && |url| >= |FlagHost| + |FlagExt| && url[|url| - |FlagExt|..] == FlagExt
    then Some(url[|FlagHost|..|url| - |FlagExt|])
    else None
  }

  /** The address keeps the country: reading it back gives the lower-cased country. */
  lemma FlagUrlRoundTrip(country: string)
    ensures CountryOfFlagUrl(FlagUrl(country)) == Some(Lower(country))
  {
    var url := FlagUrl(country);
    assert url == FlagHost + Lower(country) + FlagExt;
    assert url[|FlagHost|..|url| - |FlagExt|] == Lower(country);
  }

  /** Two countries share a flag address exactly when they agree up to ASCII case. */
  lemma FlagUrlInjective(a: string, b: string)
    ensures FlagUrl(a) == FlagUrl(b) <==> Lower(a) == Lower(b)
  {
    FlagUrlRoundTrip(a);
    FlagUrlRoundTrip(b);
  }

  /** What the upstream `fetch` did: answered with a status and body, or threw. */
  datatype FetchOutcome = Responded(status: int, body: Body) | Threw

  /**
   * `fetchFlag`'s mapping from the upstream outcome to its response: a 200
   * passes the body through as a PNG, any other status is "Flag not found"
   * (404), and a thrown fetch is "Error fetching flag" (500).
   */
  function FlagResponse(upstream: FetchOutcome): (r: Response)
    ensures r.status == 200 <==> upstream.Responded? && upstream.status == 200
    ensures r.status == 200 ==> r.body == upstream.body && Get(r.headers, "Content-Type") == Some("image/png")
    ensures upstream.Responded? && upstream.status != 200 ==>
      r.status == 404 && r.body == Text("Flag not found") && Get(r.headers, "Content-Type") == Some(PlainText)
    ensures upstream.Threw? ==>
      r.status == 500 && r.body == Text("Error fetching flag") && Get(r.headers, "Content-Type") == Some(PlainText)
  {
    match upstream
    case Threw => TextResponse(500, "Error fetching flag")
    case Responded(status, body) =>
      if status == 200 then Response(200, Set(map[], "Content-Type", "image/png"), body)
      else TextResponse(404, "Flag not found")
  }

  /** `fetchFlag(country)` for a defined country, with `fetch` as the upstream. */
  function FetchFlag(country: string, fetch: string -> FetchOutcome): Response {
    FlagResponse(fetch(FlagUrl(country)))
  }

  /**
   * The proxy asks upstream for one address only, and countries that differ
   * only in ASCII case get the same response.
   */
  lemma FetchFlagAsksFlagUrl(a: string, b: string, f: string -> FetchOutcome, g: string -> FetchOutcome)
    requires Lower(a) == Lower(b) && f(FlagUrl(a)) == g(FlagUrl(a))
    ensures FetchFlag(a, f) == FetchFlag(b, g)
  {
    FlagUrlInjective(a, b);
  }

  /** A template literal renders a missing header (`null`) as the text "null". */
  function EmailText(email: Option<string>): string {
    match email
    case None => "null"
    case Some(e) => e
  }

  /** The fixed markup before and after the dynamic part of the identity page. */
  const PageHead := "<!DOCTYPE html>\n<html>\n<body>\n<div class=\"container\">\n<div>\n<p>"
  const PageTail := "\" alt=\"Flag\" class=\"flag\">\n</div>\n</div>\n</body>\n</html>\n"

  /** The indentation before the `<img>` tag on the template's next line. */
  const ImgIndent := "            "

  /** The identity page's HTML: the email, the timestamp and the flag image address. */
  function IdentityHtml(email: string, timestamp: string, flagUrl: string): string {
    PageHead + email + " authenticated at " + timestamp + " from</p>\n" + ImgIndent + "<img src=\"" + flagUrl + PageTail
  }

  /**
   * `fetchUserInfo`: a 200 `text/html` page for the caller, or a crash when
   * the edge network supplied no country (`undefined.toLowerCase()`).
   */
  function IdentityPage(email: Option<string>, geoCountry: Option<string>, now: string): (o: Outcome)
    ensures o.Crashed? <==> geoCountry.None?
    ensures o.Served? ==> o.response.status == 200 && Get(o.response.headers, "Content-Type") == Some("text/html")
  {
    match geoCountry
    case None => Crashed
    case Some(c) =>
      Served(Response(200, Set(map[], "Content-Type", "text/html"), Text(IdentityHtml(EmailText(email), now, FlagUrl(c)))))
  }

  /** `x + t + y` holds `t` verbatim. */
  lemma ContainsMiddle(x: string, t: string, y: string)
    ensures Contains(x + t + y, t)
  {
    assert (x + t + y)[|x|..|x| + |t|] == t;
    assert OccursAt(x + t + y, t, |x|);
  }

  /**
   * The identity page shows the email verbatim ("null" when absent) and the
   * same flag address the flag proxy fetches for the caller's country.
   */
  lemma IdentityPageShows(email: Option<string>, country: string, now: string)
    ensures IdentityPage(email, Some(country), now).Served?
    ensures Contains(IdentityPage(email, Some(country), now).response.body.text, EmailText(email))
    ensures Contains(IdentityPage(email, Some(country), now).response.body.text, FlagUrl(country))
  {
    var e := EmailText(email);
    var u := FlagUrl(country);
    var mid := " authenticated at " + now + " from</p>\n" + ImgIndent + "<img src=\"";
    var html := IdentityHtml(e, now, u);
    assert html == PageHead + e + (mid + u + PageTail);
    ContainsMiddle(PageHead, e, mid + u + PageTail);
    assert html == (PageHead + e + mid) + u + PageTail;
    ContainsMiddle(PageHead + e + mid, u, PageTail);
  }
}
