/**
 * `handleEvent`: the whole request handler, with everything outside the
 * script (the clock, the network and the asset store) passed in as a world.
 */
module Worker {
  import opened Wrappers
  import opened Strings
  import opened Http
  import opened Routing
  import opened Flags
  import opened Assets

  /**
   * Everything the handler's answer depends on besides the request: the
   * clock's ISO-8601 reading, the upstream answer for each fetched address,
   * the asset store's answer for each request, and whether the runtime's
   * object spread copies a response's fields.
   */
  datatype World = World(
    now: string,
    fetch: string -> FetchOutcome,
    kv: Request -> AssetOutcome,
    spreadCopiesFields: bool)

  /** The handler: classify the path, then run the branch it selects. */
  function HandleEvent(req: Request, w: World): Outcome {
    match Classify(req.path)
    case Identity => IdentityPage(req.email, req.geoCountry, w.now)
    case FlagProxy(c) => Served(FetchFlag(c, w.fetch))
    case Crash => Crashed
    case StaticAsset => Served(ServeStatic(req, w.kv, w.spreadCopiesFields))
  }

  /** A path not starting with "/secure" is answered from the asset store, whatever the upstream or clock. */
  lemma HandleStatic(req: Request, w: World, fetch': string -> FetchOutcome, now': string)
    requires !StartsWith(req.path, SecurePrefix)
    ensures HandleEvent(req, w) == Served(ServeStatic(req, w.kv, w.spreadCopiesFields))
    ensures HandleEvent(req, w) == HandleEvent(req, w.(fetch := fetch', now := now'))
  {
    ClassifyStatic(req.path);
  }

  /** A path starting with "/secure" never consults the asset store. */
  lemma HandleSecureIgnoresStore(req: Request, w: World, kv': Request -> AssetOutcome, spread': bool)
    requires StartsWith(req.path, SecurePrefix)
    ensures HandleEvent(req, w) == HandleEvent(req, w.(kv := kv', spreadCopiesFields := spread'))
  {
    ClassifyStatic(req.path);
  }

  /** "/secure" and "/secure/" give the identity page, showing the email and the caller's flag address. */
  lemma HandleIdentity(req: Request, w: World, country: string)
    requires req.path == SecurePrefix || req.path == SecureSlash
    requires req.geoCountry == Some(country)
    ensures HandleEvent(req, w).Served?
    ensures HandleEvent(req, w).response.status == 200
    ensures Get(HandleEvent(req, w).response.headers, "Content-Type") == Some("text/html")
    ensures Contains(HandleEvent(req, w).response.body.text, EmailText(req.email))
    ensures Contains(HandleEvent(req, w).response.body.text, FlagUrl(country))
  {
    ClassifyIdentity(req.path);
    IdentityPageShows(req.email, country, w.now);
  }

  /**
   * The handler crashes exactly when the path starts with "/secure", is not
   * an identity path and holds no "/secure/", or when it is an identity path
   * and the edge network gave no country.
   */
  lemma HandleCrashes(req: Request, w: World)
    ensures HandleEvent(req, w).Crashed? <==>
      || (StartsWith(req.path, SecurePrefix) && req.path != SecurePrefix && req.path != SecureSlash
          && Free(req.path, SecureSlash))
      || ((req.path == SecurePrefix || req.path == SecureSlash) && req.geoCountry.None?)
  {
    ClassifyCrash(req.path);
    ClassifyIdentity(req.path);
  }

  /**
   * "/secure/" then a country holding no further "/secure/": the upstream
   * answer for that country's flag address decides the response.
   */
  lemma HandleFlag(req: Request, w: World, country: string)
    requires req.path == SecureSlash + country
    requires country != [] && Free(country, SecureSlash)
    ensures HandleEvent(req, w) == Served(FlagResponse(w.fetch(FlagUrl(country))))
  {
    ClassifySecureCountry(country);
  }

  /** An upstream 200 for "de.png" gives "/secure/de" a 200 PNG response with the upstream body. */
  lemma FlagDeFound(req: Request, w: World, body: Body)
    requires req.path == "/secure/de"
    requires w.fetch(FlagUrl("de")) == Responded(200, body)
    ensures HandleEvent(req, w).Served?
    ensures HandleEvent(req, w).response.status == 200
    ensures Get(HandleEvent(req, w).response.headers, "Content-Type") == Some("image/png")
    ensures HandleEvent(req, w).response.body == body
  {
    assert req.path == SecureSlash + "de";
    NoStartChar("de", SecureSlash, 0, 2);
    HandleFlag(req, w, "de");
  }

  /** An upstream 404 for "zz.png" gives "/secure/zz" a 404 "Flag not found". */
  lemma FlagZzMissing(req: Request, w: World, body: Body)
    requires req.path == "/secure/zz"
    requires w.fetch(FlagUrl("zz")) == Responded(404, body)
    ensures HandleEvent(req, w).Served?
    ensures HandleEvent(req, w).response.status == 404
    ensures HandleEvent(req, w).response.body == Text("Flag not found")
  {
    assert req.path == SecureSlash + "zz";
    NoStartChar("zz", SecureSlash, 0, 2);
    HandleFlag(req, w, "zz");
  }

  /** A missing "/missing.html" with a "/404.html" page in the store gives that page with status 404. */
  lemma MissingPageFallsBack(req: Request, w: World)
    requires req.path == "/missing.html"
    requires w.kv(req).Failed? && w.kv(req.(path := NotFoundPath)).Found?
    ensures HandleEvent(req, w).Served?
    ensures HandleEvent(req, w).response.status == 404
    ensures HandleEvent(req, w).response.body == w.kv(req.(path := NotFoundPath)).asset.body
  {
    assert req.path[1] == 'm';
    HandleStatic(req, w, w.fetch, w.now);
    ServeStaticFallback(req, w.kv, w.spreadCopiesFields);
  }

  /** A found "/index.html" is served with all five security headers. */
  lemma IndexPageHeaders(req: Request, w: World)
    requires req.path == "/index.html"
    requires w.kv(req).Found?
    ensures HandleEvent(req, w).Served?
    ensures var h := HandleEvent(req, w).response.headers;
      && Get(h, "X-XSS-Protection") == Some("1; mode=block")
      && Get(h, "X-Content-Type-Options") == Some("nosniff")
      && Get(h, "X-Frame-Options") == Some("DENY")
      && Get(h, "Referrer-Policy") == Some("unsafe-url")
      && Get(h, "Feature-Policy") == Some("none")
  {
    assert req.path[1] == 'i';
    HandleStatic(req, w, w.fetch, w.now);
    ServeStaticFound(req, w.kv, w.spreadCopiesFields);
  }
}
