/**
 * Path classification in `handleEvent`: which of the four things the
 * handler does with a request, decided from the URL's pathname alone.
 */
module Routing {
  import opened Wrappers
  import opened Strings

  const SecurePrefix := "/secure"
  const SecureSlash := "/secure/"

  datatype Route =
    | Identity                  // the authenticated identity page
    | FlagProxy(country: string) // the flag proxy, for the text taken from the path
    | StaticAsset               // asset serving from the key-value store
    | Crash                     // `undefined.toLowerCase()` throws outside any try block

  /**
   * `pathname.split("/secure/")[1]`: the second piece of the split, or
   * `None` (JavaScript's `undefined`) when there is no second piece.
   */
  function Country(path: string): Option<string> {
    var parts := Split(path, SecureSlash);
    if |parts| >= 2 then Some(parts[1]) else None
  }

  /** `path` cut around `c`: the first "/secure/" ends where `c` starts, and `c` runs to the next one or to the end. */
  predicate CountryCut(path: string, a: string, c: string, b: string) {
    && path == a + SecureSlash + c + b
    && NoneBefore(path, SecureSlash, |a|)
    && NoneBefore(c + b, SecureSlash, |c|)
    && (b == [] || StartsWith(b, SecureSlash))
  }

  /** There is no country exactly when "/secure/" does not occur. */
  lemma CountryUndefined(path: string)
    ensures Country(path) == None <==> Free(path, SecureSlash)
  {
  }

  /** A country found by the split sits between the first "/secure/" and the next one (or the end). */
  lemma CountryFound(path: string, c: string)
    requires Country(path) == Some(c)
    ensures exists a, b :: CountryCut(path, a, c, b)
  {
    var i := SecondPiece(path);
    var a := path[..i];
    var rest := path[i + |SecureSlash|..];
    CutAt(path, SecureSlash, i);
    var b := CutRest(rest, c);
    assert path == a + SecureSlash + c + b;
    assert CountryCut(path, a, c, b);
  }

  /** When the split has a second piece, it is the first piece of what follows the first separator. */
  lemma SecondPiece(path: string) returns (i: nat)
    requires |Split(path, SecureSlash)| >= 2
    ensures OccursAt(path, SecureSlash, i) && NoneBefore(path, SecureSlash, i)
    ensures Split(path, SecureSlash)[1] == Split(path[i + |SecureSlash|..], SecureSlash)[0]
  {
    if IndexOf(path, SecureSlash).None? {
      SplitWhole(path, SecureSlash);
      assert false;
    }
    i := IndexOf(path, SecureSlash).value;
    SplitStep(path, SecureSlash, i);
  }

  /** The remainder after the first piece of a split: empty, or starting with the separator. */
  lemma CutRest(rest: string, c: string) returns (b: string)
    requires Split(rest, SecureSlash)[0] == c
    ensures rest == c + b
    ensures NoneBefore(rest, SecureSlash, |c|)
    ensures b == [] || StartsWith(b, SecureSlash)
  {
    match IndexOf(rest, SecureSlash)
    case None =>
      SplitWhole(rest, SecureSlash);
      b := [];
      assert rest == c + b;
    case Some(j) =>
      SplitStep(rest, SecureSlash, j);
      b := rest[j..];
      assert rest == rest[..j] + b;
      assert b[..|SecureSlash|] == rest[j..j + |SecureSlash|];
  }

  /** Any cut of that shape determines the country: the converse of `CountryFound`. */
  lemma CountryFromCut(path: string, a: string, c: string, b: string)
    requires CountryCut(path, a, c, b)
    ensures Country(path) == Some(c)
  {
    var n := |SecureSlash|;
    assert path[|a|..|a| + n] == SecureSlash;
    IndexOfUnique(path, SecureSlash, |a|);
    var rest := path[|a| + n..];
    assert rest == c + b;
    assert path[..|a|] == a;
    SplitStep(path, SecureSlash, |a|);
    if b == [] {
      assert !OccursAt(c, SecureSlash, |c|);
      assert Free(rest, SecureSlash);
      SplitWhole(rest, SecureSlash);
      assert rest == c;
    } else {
      assert rest[|c|..|c| + n] == b[..n];
      IndexOfUnique(rest, SecureSlash, |c|);
      SplitStep(rest, SecureSlash, |c|);
      assert rest[..|c|] == c;
    }
  }

  /** `handleEvent`'s routing decision: the "/secure" tests come first, so the first match wins. */
  function Classify(path: string): Route {
    if StartsWith(path, SecurePrefix) then
      if path == SecurePrefix || path == SecureSlash then Identity
      else
        match Country(path)
        case None => Crash
        case Some(c) => FlagProxy(c)
    else StaticAsset
  }

  /** A path goes to static asset serving exactly when it does not start with "/secure". */
  lemma ClassifyStatic(path: string)
    ensures Classify(path) == StaticAsset <==> !StartsWith(path, SecurePrefix)
  {
  }

  /** Exactly "/secure" and "/secure/" reach the identity page. */
  lemma ClassifyIdentity(path: string)
    ensures Classify(path) == Identity <==> path == SecurePrefix || path == SecureSlash
  {
  }

  /**
   * The handler crashes exactly on the "/secure"-prefixed paths other than
   * the two identity paths that hold no "/secure/" at all.
   */
  lemma ClassifyCrash(path: string)
    ensures Classify(path) == Crash <==>
      StartsWith(path, SecurePrefix) && path != SecurePrefix && path != SecureSlash && Free(path, SecureSlash)
  {
    CountryUndefined(path);
  }

  /** Every flag route carries the text between the first "/secure/" and the next one (or the end). */
  lemma ClassifyFlag(path: string, c: string)
    requires Classify(path) == FlagProxy(c)
    ensures StartsWith(path, SecurePrefix) && path != SecurePrefix && path != SecureSlash
    ensures exists a, b :: CountryCut(path, a, c, b)
  {
    CountryFound(path, c);
  }

  /** Conversely, every other "/secure"-prefixed path cut that way is a flag route for that text. */
  lemma ClassifyFlagFromCut(path: string, a: string, c: string, b: string)
    requires StartsWith(path, SecurePrefix) && path != SecurePrefix && path != SecureSlash
    requires CountryCut(path, a, c, b)
    ensures Classify(path) == FlagProxy(c)
  {
    CountryFromCut(path, a, c, b);
  }

  /** The common case: "/secure/" followed by a country and nothing that holds another "/secure/". */
  lemma ClassifySecureCountry(c: string)
    requires c != [] && Free(c, SecureSlash)
    ensures Classify(SecureSlash + c) == FlagProxy(c)
  {
    var path := SecureSlash + c;
    assert path[..|SecurePrefix|] == SecurePrefix;
    assert path == [] + SecureSlash + c + [];
    assert c + [] == c;
    ClassifyFlagFromCut(path, [], c, []);
  }

  /** Worked cases of the rule: the identity paths, a static path and a plain country. */
  lemma ClassifyExamples()
    ensures Classify("/secure") == Identity
    ensures Classify("/secure/") == Identity
    ensures Classify("/index.html") == StaticAsset
    ensures Classify("/secure/us") == FlagProxy("us")
  {
    assert "/index.html"[..7][1] == 'i';
    assert "/secure/us" == SecureSlash + "us";
    NotAt("us", SecureSlash, 0, 0);
    NotAt("us", SecureSlash, 1, 0);
    ClassifySecureCountry("us");
  }

  /** A second "/secure/" ends the country. */
  lemma ClassifyRepeatedSeparator()
    ensures Classify("/secure/us/secure/de") == FlagProxy("us")
  {
    var p := "/secure/us/secure/de";
    assert p == [] + SecureSlash + "us" + "/secure/de";
    assert p[..7] == SecurePrefix;
    assert "us/secure/de"[0..2] == "us";
    NoStartChar("us/secure/de", SecureSlash, 0, 2);
    assert "us" + "/secure/de" == "us/secure/de";
    assert "/secure/de"[..8] == SecureSlash;
    ClassifyFlagFromCut(p, [], "us", "/secure/de");
  }

  /** The country follows the first "/secure/", wherever it is. */
  lemma ClassifyLateSeparator()
    ensures Classify("/secureabc/secure/us") == FlagProxy("us")
  {
    var p := "/secureabc/secure/us";
    assert p == "/secureabc" + SecureSlash + "us" + [];
    assert p[..7] == SecurePrefix;
    NotAt(p, SecureSlash, 0, 7);
    assert p[1..10] == "secureabc";
    NoStartChar(p, SecureSlash, 1, 10);
    assert "us" + [] == "us";
    NoStartChar("us", SecureSlash, 0, 2);
    ClassifyFlagFromCut(p, "/secureabc", "us", []);
  }

  /** "/secure" followed by anything but a slash, and no "/secure/" later, crashes. */
  lemma ClassifySecureFoo()
    ensures Classify("/securefoo") == Crash
  {
    var p := "/securefoo";
    assert p[..7] == SecurePrefix;
    NotAt(p, SecureSlash, 0, 7);
    assert p[1..10] == "securefoo";
    NoStartChar(p, SecureSlash, 1, 10);
    ClassifyCrash(p);
  }
}
