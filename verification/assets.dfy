/**
 * The static-asset branch of `handleEvent`: serve the asset the key-value
 * asset store finds, stamped with the security headers; otherwise try the
 * "/404.html" page; otherwise answer 500 with the lookup's error message.
 */
module Assets {
  import opened Wrappers
  import opened Strings
  import opened Http

  /** An asset response from the store: its status, headers and body. */
  datatype Asset = Asset(status: int, headers: Headers, body: Body)

  /** A thrown value: its `message` property (absent reads as `undefined`) and its `toString()`. */
  datatype Thrown = Thrown(message: Option<string>, text: string)

  /** The asset store's answer for one request: an asset, or a thrown error. */
  datatype AssetOutcome = Found(asset: Asset) | Failed(error: Thrown)

  /** The path the fallback lookup maps every request to. */
  const NotFoundPath := "/404.html"

  /** `e.message || e.toString()`: the message unless it is missing or empty. */
  function ErrorText(e: Thrown): (t: string)
    ensures e.message.Some? && e.message.value != "" ==> t == e.message.value
    ensures e.message.None? || e.message.value == "" ==> t == e.text
  {
    match e.message
    case Some(m) => if m != "" then m else e.text
    case None => e.text
  }

  /** The five headers stamped on every served asset, in the order they are set. */
  const SecurityHeaders: seq<(string, string)> := [
    ("X-XSS-Protection", "1; mode=block"),
    ("X-Content-Type-Options", "nosniff"),
    ("X-Frame-Options", "DENY"),
    ("Referrer-Policy", "unsafe-url"),
    ("Feature-Policy", "none")
  ]

  /** `name` is, ignoring ASCII case, one of the five security header names. */
  predicate IsSecurityHeader(name: string) {
    exists k :: 0 <= k < |SecurityHeaders| && Lower(SecurityHeaders[k].0) == Lower(name)
  }

  /** The five security header names differ from each other even ignoring case. */
  lemma SecurityNamesDistinct()
    ensures forall k :: 0 <= k < |SecurityHeaders| ==> LastFor(SecurityHeaders, k)
  {
    var n0 := Lower(SecurityHeaders[0].0);
    var n1 := Lower(SecurityHeaders[1].0);
    var n2 := Lower(SecurityHeaders[2].0);
    var n3 := Lower(SecurityHeaders[3].0);
    var n4 := Lower(SecurityHeaders[4].0);
    assert |n0| == 16 && |n1| == 22 && |n2| == 15 && |n3| == 15 && |n4| == 14;
    assert n2[0] == 'x' && n3[0] == 'r';
  }

  /**
   * The headers of a served asset: each security header reads back as its
   * fixed value, replacing any value the asset had, and every other header
   * of the asset is kept as it was.
   */
  function StampSecurity(h: Headers): (r: Headers)
    ensures Get(r, "X-XSS-Protection") == Some("1; mode=block")
    ensures Get(r, "X-Content-Type-Options") == Some("nosniff")
    ensures Get(r, "X-Frame-Options") == Some("DENY")
    ensures Get(r, "Referrer-Policy") == Some("unsafe-url")
    ensures Get(r, "Feature-Policy") == Some("none")
    ensures forall n :: !IsSecurityHeader(n) ==> Get(r, n) == Get(h, n)
  {
    var r := SetAll(h, SecurityHeaders);
    SecurityNamesDistinct();
    SetAllLast(h, SecurityHeaders, 0);
    SetAllLast(h, SecurityHeaders, 1);
    SetAllLast(h, SecurityHeaders, 2);
    SetAllLast(h, SecurityHeaders, 3);
    SetAllLast(h, SecurityHeaders, 4);
    assert forall n :: !IsSecurityHeader(n) ==> Get(r, n) == Get(h, n) by {
      forall n | !IsSecurityHeader(n)
        ensures Get(r, n) == Get(h, n)
      {
        SetAllUntouched(h, SecurityHeaders, n);
      }
    }
    r
  }

  /**
   * The static branch of `handleEvent` for `req`, with `kv` answering each
   * asset lookup. `spreadCopiesFields` says whether the runtime copies a
   * response's fields in `{...notFoundResponse}`: only when they are own
   * properties of the object, not getters on its prototype.
   */
  function ServeStatic(req: Request, kv: Request -> AssetOutcome, spreadCopiesFields: bool): Response {
    match kv(req)
    case Found(page) => Response(page.status, StampSecurity(page.headers), page.body)
    case Failed(e) =>
      match kv(req.(path := NotFoundPath))
      case Found(notFound) =>
        Response(404, if spreadCopiesFields then notFound.headers else map[], notFound.body)
      case Failed(_) => TextResponse(500, ErrorText(e))
  }

  /** A found asset keeps its status and body and carries the five security headers. */
  lemma ServeStaticFound(req: Request, kv: Request -> AssetOutcome, spread: bool)
    requires kv(req).Found?
    ensures ServeStatic(req, kv, spread).status == kv(req).asset.status
    ensures ServeStatic(req, kv, spread).body == kv(req).asset.body
    ensures var h := ServeStatic(req, kv, spread).headers;
      && Get(h, "X-XSS-Protection") == Some("1; mode=block")
      && Get(h, "X-Content-Type-Options") == Some("nosniff")
      && Get(h, "X-Frame-Options") == Some("DENY")
      && Get(h, "Referrer-Policy") == Some("unsafe-url")
      && Get(h, "Feature-Policy") == Some("none")
    ensures forall n :: !IsSecurityHeader(n) ==>
      Get(ServeStatic(req, kv, spread).headers, n) == Get(kv(req).asset.headers, n)
  {
    var page := kv(req).asset;
    assert ServeStatic(req, kv, spread).headers == StampSecurity(page.headers);
  }

  /** A missing asset with a "/404.html" page gives that page's body with status 404. */
  lemma ServeStaticFallback(req: Request, kv: Request -> AssetOutcome, spread: bool)
    requires kv(req).Failed? && kv(req.(path := NotFoundPath)).Found?
    ensures ServeStatic(req, kv, spread).status == 404
    ensures ServeStatic(req, kv, spread).body == kv(req.(path := NotFoundPath)).asset.body
  {
  }

  /**
   * When both lookups fail the answer is 500 with the FIRST lookup's error
   * text: the fallback's own error never reaches the response.
   */
  lemma ServeStaticError(req: Request, kv: Request -> AssetOutcome, kv': Request -> AssetOutcome, spread: bool)
    requires kv(req).Failed? && kv(req.(path := NotFoundPath)).Failed?
    requires kv'(req) == kv(req) && kv'(req.(path := NotFoundPath)).Failed?
    ensures ServeStatic(req, kv, spread) == ServeStatic(req, kv', spread)
    ensures ServeStatic(req, kv, spread).status == 500
    ensures ServeStatic(req, kv, spread).body == Text(ErrorText(kv(req).error))
  {
  }

  /** Every static answer is the asset's own status, 404 or 500. */
  lemma ServeStaticStatus(req: Request, kv: Request -> AssetOutcome, spread: bool)
    ensures var s := ServeStatic(req, kv, spread).status;
      (kv(req).Found? && s == kv(req).asset.status) || (kv(req).Failed? && (s == 404 || s == 500))
  {
  }
}
