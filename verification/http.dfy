/**
 * The request, header list, response and outcome values the handler works
 * with, following the Fetch Standard's `Headers` and `Response` objects.
 */
module Http {
  import opened Wrappers
  import opened Strings

  /**
   * The parts of an incoming request the handler reads: its method (`verb`), the
   * URL's pathname, the `cf-access-authenticated-user-email` header (absent
   * reads as `null`) and the edge network's `request.cf.country`.
   */
  datatype Request = Request(verb: string, path: string, email: Option<string>, geoCountry: Option<string>)

  /** Header names compare case-insensitively; the model keeps each name in lower case. */
  predicate NormalizedNames(m: map<string, string>) {
    forall name :: name in m ==> Lower(name) == name
  }

  /** A header list: at most one (combined) value per case-insensitive name. */
  type Headers = m: map<string, string> | NormalizedNames(m) witness map[]

  /** Headers.get: the value stored under `name`, ignoring case. */
  function Get(h: Headers, name: string): Option<string> {
    if Lower(name) in h then Some(h[Lower(name)]) else None
  }

  /**
   * Headers.set: `name` now reads back as `value`, replacing any value it had
   * under any spelling, and every other name reads back as before.
   */
  function Set(h: Headers, name: string, value: string): (r: Headers)
    ensures Get(r, name) == Some(value)
    ensures forall other :: Lower(other) != Lower(name) ==> Get(r, other) == Get(h, other)
    ensures |r| <= |h| + 1
  {
    LowerIdempotent(name);
    h[Lower(name) := value]
  }

  /** `pairs[k]` is the last pair in `pairs` that names its header. */
  predicate LastFor(pairs: seq<(string, string)>, k: int)
    requires 0 <= k < |pairs|
  {
    forall m :: k < m < |pairs| ==> Lower(pairs[m].0) != Lower(pairs[k].0)
  }

  /** A run of Headers.set calls, applied in order. */
  function SetAll(h: Headers, pairs: seq<(string, string)>): Headers
    decreases |pairs|
  {
    if |pairs| == 0 then h
    else SetAll(Set(h, pairs[0].0, pairs[0].1), pairs[1..])
  }

  /** After a run of sets, a header the run never names reads back as before. */
  lemma {:induction false} SetAllUntouched(h: Headers, pairs: seq<(string, string)>, n: string)
    requires forall k :: 0 <= k < |pairs| ==> Lower(pairs[k].0) != Lower(n)
    ensures Get(SetAll(h, pairs), n) == Get(h, n)
    decreases |pairs|
  {
    if |pairs| > 0 {
      var h' := Set(h, pairs[0].0, pairs[0].1);
      var rest := pairs[1..];
      assert SetAll(h, pairs) == SetAll(h', rest);
      assert Lower(pairs[0].0) != Lower(n);
      forall m | 0 <= m < |rest|
        ensures Lower(rest[m].0) != Lower(n)
      {
        assert rest[m] == pairs[m + 1];
      }
      SetAllUntouched(h', rest, n);
    }
  }

  /** After a run of sets, a header named in the run reads back as the value of the last pair naming it. */
  lemma {:induction false} SetAllLast(h: Headers, pairs: seq<(string, string)>, k: nat)
    requires k < |pairs| && LastFor(pairs, k)
    ensures Get(SetAll(h, pairs), pairs[k].0) == Some(pairs[k].1)
    decreases |pairs|
  {
    var h' := Set(h, pairs[0].0, pairs[0].1);
    var rest := pairs[1..];
    assert SetAll(h, pairs) == SetAll(h', rest);
    if k == 0 {
      forall m | 0 <= m < |rest|
        ensures Lower(rest[m].0) != Lower(pairs[0].0)
      {
        assert rest[m] == pairs[m + 1];
      }
      SetAllUntouched(h', rest, pairs[0].0);
    } else {
      assert rest[k - 1] == pairs[k];
      forall m | k - 1 < m < |rest|
        ensures Lower(rest[m].0) != Lower(rest[k - 1].0)
      {
        assert rest[m] == pairs[m + 1];
      }
      SetAllLast(h', rest, k - 1);
    }
  }

  /** A response body: text the handler wrote itself, or a byte stream passed through. */
  datatype Body = Text(text: string) | Stream(data: seq<bv8>)

  datatype Response = Response(status: int, headers: Headers, body: Body)

  /**
   * What the runtime sees from the handler: a response, or a rejected
   * promise (an exception escaped the handler).
   */
  datatype Outcome = Served(response: Response) | Crashed

  /** The content type the Fetch Standard gives a string body when the headers name none. */
  const PlainText := "text/plain;charset=UTF-8"

  /** `new Response(text, { status })`: a text body with the default content type. */
  function TextResponse(status: int, text: string): (r: Response)
    ensures r.status == status && r.body == Text(text)
    ensures Get(r.headers, "Content-Type") == Some(PlainText)
    ensures |r.headers| == 1
  {
    Response(status, Set(map[], "Content-Type", PlainText), Text(text))
  }
}
