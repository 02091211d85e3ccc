# Edge request dispatcher — a Dafny model

This project models `handleEvent` in `index.js`, the single request handler of
a Cloudflare Worker. It also models the two helpers that handler calls for
paths under `/secure`. The handler does one of four things with a request,
decided by the URL's pathname alone:

* `/secure` and `/secure/` get the **identity page** (`fetchUserInfo`). This is
  an HTML page showing the authenticated user's email and an `<img>` of the
  flag for the country the edge network reports.
* Every other path starting with `/secure` goes to the **flag proxy**
  (`fetchFlag`). The country is `pathname.split("/secure/")[1]`, lower-cased and
  put into a fixed object-storage address. The upstream answer becomes a 200
  PNG, a 404 `Flag not found` or a 500 `Error fetching flag`.
* If such a path holds no `/secure/` at all (for example `/securefoo`), the
  country is `undefined`. `undefined.toLowerCase()` then throws outside any
  `try`, and the handler **crashes**: its promise rejects.
* All other paths are **static assets** from the key-value asset store. A found
  asset is served with five fixed security headers. On a failed lookup the
  handler tries `/404.html` and serves it with status 404. If that lookup also
  fails, it answers 500 with the first failure's message.

Layout, one module per file:

| file | module | contents |
|---|---|---|
| `wrappers.dfy` | `Wrappers` | `Option`, standing for JavaScript's `undefined`/`null` |
| `strings.dfy` | `Strings` | `startsWith`, `indexOf`, `split`, `join` and ASCII lower-casing, with their laws |
| `http.dfy` | `Http` | `Request`, case-insensitive `Headers` with `get`/`set`, `Response`, and `Outcome` (`Served` or `Crashed`) |
| `routing.dfy` | `Routing` | `Route`, `Country` (the `split(...)[1]`), `Classify`, and the routing laws |
| `flags.dfy` | `Flags` | the flag address, the flag proxy's response mapping, and the identity page |
| `assets.dfy` | `Assets` | the security headers and the static branch with its 404 and 500 fallbacks |
| `worker.dfy` | `Worker` | `World` (clock, upstream, asset store), `HandleEvent`, and end-to-end properties |

Everything outside the script is a parameter (`Worker.World`):
* the clock's `toISOString()` reading;
* the upstream answer for each fetched address (`string -> FetchOutcome`:
  a status and body, or a throw);
* the asset store's answer for each request (`Request -> AssetOutcome`:
  an asset, or a thrown error);
* whether the runtime's object spread copies a `Response`'s fields.

The fallback lookup asks the store about the same request with its path
replaced by `/404.html`. This matches `new Request(origin + "/404.html", req)`,
which keeps the method and headers.

Two consequences of the code deserve a note:
* Every path starting with `/secure`, not only `/secure/…`, leaves the static
  branch (index.js:16). So `/securefoo` crashes, and `/secureabc/secure/us` is
  a flag request for `us`.
* The handler's promise can reject: on such a path (index.js:20, 112), and on
  the identity page when the request has no `cf.country` (index.js:65, 101).

Two points come from the Fetch Standard rather than from the script:
* A response built from a string body with no `Content-Type` gets
  `text/plain;charset=UTF-8` (`Http.TextResponse`).
* `{...notFoundResponse, status: 404}` copies only own enumerable properties.
  Runtimes that expose `Response` fields as prototype getters copy nothing, so
  the 404 page has no headers. Runtimes that expose them as own properties copy
  the asset's headers. `World.spreadCopiesFields` chooses between the two.

## Model

| member | source | states |
|---|---|---|
| Routing.ClassifyStatic | index.js:16-23 | A path goes to static asset serving if and only if it does not start with "/secure"; the "/secure" test comes first. |
| Routing.ClassifyIdentity | index.js:16-18 | Exactly the two paths "/secure" and "/secure/" reach the identity page, including "/secure/", which also holds a "/secure/". |
| Routing.ClassifyCrash | index.js:16-21 | The route is a crash if and only if the path starts with "/secure", is neither identity path, and contains no "/secure/" anywhere. |
| Routing.ClassifyFlag | index.js:19-21 | A flag route's country is the text from the end of the first "/secure/" to the next "/secure/" or the end of the path. |
| Routing.ClassifyFlagFromCut | index.js:19-21 | Conversely, every other "/secure"-prefixed path cut that way is a flag route for exactly that country. |
| Routing.ClassifySecureCountry | index.js:19-21 | "/secure/" followed by a non-empty country with no "/secure/" inside is a flag route for that country. |
| Routing.CountryUndefined | index.js:20 | `split("/secure/")[1]` is undefined if and only if "/secure/" does not occur in the path. |
| Routing.CountryFound | index.js:20 | A defined `split("/secure/")[1]` sits after the leftmost "/secure/" and runs up to the next non-overlapping one, or to the end. |
| Routing.CountryFromCut | index.js:20 | Any cut of the path with that shape determines `split("/secure/")[1]`, so the shape characterises the country uniquely. |
| Routing.ClassifyExamples | index.js:16-21 | "/secure" and "/secure/" are identity paths, "/index.html" is static, "/secure/us" is the flag route for "us". |
| Routing.ClassifyRepeatedSeparator | index.js:20-21 | "/secure/us/secure/de" is the flag route for "us": a second "/secure/" ends the country. |
| Routing.ClassifyLateSeparator | index.js:20-21 | "/secureabc/secure/us" is the flag route for "us": the country follows the first "/secure/", wherever it is. |
| Routing.ClassifySecureFoo | index.js:16-21 | "/securefoo" crashes: it starts with "/secure" but the split has no second piece. |
| Strings.IndexOf | index.js:20 | The search behind `split` finds the leftmost occurrence; when it finds nothing, the separator occurs nowhere. |
| Strings.SplitJoin | index.js:20 | Joining the pieces of `split` with the separator gives back the original path. |
| Strings.SplitPiecesFree | index.js:20 | No piece of `split`, in particular the country, contains the separator. |
| Strings.Lower | index.js:112 | `toLowerCase` keeps the length, turns each ASCII capital into its small letter, leaves every other character alone, and leaves no capital. |
| Http.Set | index.js:37-41 | `headers.set` makes the name read back as the new value under any spelling of its case; every other name reads back as before. |
| Http.SetAllLast | index.js:37-41 | After a run of `set` calls, each name reads back as the value of the last call that named it. |
| Http.SetAllUntouched | index.js:37-41 | After a run of `set` calls, a name none of them mentions reads back as it did before. |
| Http.TextResponse | index.js:121 | A response built from a string has that status and text body, and its only header is the default `text/plain;charset=UTF-8` content type. |
| Flags.FlagUrl | index.js:112 | The flag address starts with the storage origin, ends in ".png", is as long as origin plus country plus ".png", and has no capital in the country part. |
| Flags.FlagUrlRoundTrip | index.js:112 | Reading the country back out of a flag address gives the lower-cased country. |
| Flags.FlagUrlInjective | index.js:112 | Two countries share a flag address if and only if they agree up to ASCII case. |
| Flags.FetchFlagAsksFlagUrl | index.js:111-115 | The proxy's response depends on the upstream only through its answer for the country's flag address, and ignores the country's case. |
| Flags.FlagResponse | index.js:114-125 | Status 200 exactly when upstream answered 200, with the upstream body and `image/png`; any other upstream status gives 404 "Flag not found"; a thrown fetch gives 500 "Error fetching flag". |
| Flags.IdentityPage | index.js:63-108 | The identity page crashes if and only if the request has no country; otherwise it is a 200 `text/html` page. |
| Flags.IdentityPageShows | index.js:100-101 | The page body contains the email header verbatim ("null" when it is absent) and the same flag address the flag proxy fetches for that country. |
| Assets.ErrorText | index.js:59 | The 500 body is the thrown value's message when it is present and non-empty, otherwise the error's string form. |
| Assets.SecurityNamesDistinct | index.js:37-41 | The five security header names differ from each other even ignoring case, so each `set` survives the later ones. |
| Assets.StampSecurity | index.js:36-41 | The five security headers read back with their exact literal values, replacing any the asset had, and every other asset header is kept. |
| Assets.ServeStaticFound | index.js:34-43 | A found asset keeps its status and body, carries the five security headers, and keeps its other headers. |
| Assets.ServeStaticFallback | index.js:44-55 | A failed lookup with a "/404.html" page in the store gives that page's body with status 404. |
| Assets.ServeStaticError | index.js:44-59 | When both lookups fail the answer is 500 with the first failure's text; the fallback's own error never changes the response. |
| Assets.ServeStaticStatus | index.js:34-59 | A static answer's status is the asset's own when it was found, and 404 or 500 when it was not. |
| Worker.HandleStatic | index.js:16-34 | A path not starting with "/secure" is answered by the static branch, and the answer does not depend on the upstream or the clock. |
| Worker.HandleSecureIgnoresStore | index.js:16-23 | A path starting with "/secure" is answered without consulting the asset store. |
| Worker.HandleIdentity | index.js:16-18 | An identity path with a country gives a 200 `text/html` page that contains the email and that country's flag address. |
| Worker.HandleCrashes | index.js:12-23 | The handler crashes if and only if the path is a "/secure"-prefixed non-identity path with no "/secure/", or an identity path on a request with no country. |
| Worker.HandleFlag | index.js:19-21 | "/secure/" plus a country with no further "/secure/" is answered by mapping the upstream's answer for that country's flag address. |
| Worker.FlagDeFound | index.js:111-119 | With upstream 200 for "de.png", "/secure/de" gives status 200, `image/png` and the upstream body. |
| Worker.FlagZzMissing | index.js:120-122 | With upstream 404 for "zz.png", "/secure/zz" gives status 404 and "Flag not found". |
| Worker.MissingPageFallsBack | index.js:44-55 | A missing "/missing.html" with a "/404.html" page in the store gives that page's body with status 404. |
| Worker.IndexPageHeaders | index.js:34-43 | A found "/index.html" is served with all five security headers and their exact values. |

## Left out

- The `addEventListener("fetch", …)`/`respondWith` wiring (index.js:8-10) is platform plumbing. `Worker.HandleEvent` is the function it registers.
- `new URL(...)` parsing (index.js:13-14) is not modelled. The pathname is given as a string, already percent-encoded and normalised by the runtime.
- `getAssetFromKV` and `mapRequestToAsset` are foreign library code: the default key mapping, content-type inference, method checks and KV access. Each lookup is the store's abstract answer for a request.
- `fetch` is the network. Each call is the upstream's abstract answer for an address.
- The `DEBUG` cache-bypass branch (index.js:28-32) and the `if (!DEBUG)` test (index.js:45) are not modelled: `DEBUG` is the constant `false`, so the model is the non-debug behaviour.
- `new Date().toISOString()` is the clock, passed in as `World.now`.
- The identity page's fixed markup (index.js:68-99, 102-105) is abbreviated to two constants, `Flags.PageHead` and `Flags.PageTail`. The text from the email through the flag address (index.js:100-101) is kept exactly, including the line break and indentation between `</p>` and `<img`.
- Strings.Lower: covers ASCII letters only. JavaScript's `toLowerCase` also lower-cases non-ASCII letters, which the model leaves unchanged. Both `<img>` and the proxy use the same `Lower`, so they always agree.
- Strings.Split: covers non-empty separators only. The handler only splits on "/secure/".
- Http.Set: a header list keeps one combined value per name. `append`, iteration order and `statusText` are not modelled.
- Response bodies are byte sequences or text. Streaming is not modelled.
- A failure while building the response after a successful lookup (index.js:36-41) is not modelled apart from the lookup. Such a failure counts as the store's `Failed` answer.
- A thrown value whose `message` access itself throws (`null` or `undefined` thrown) is not modelled. Every thrown value has an optional message and a string form.
- A crash is the outcome `Crashed`. The runtime's error page for a rejected handler promise is not modelled.
