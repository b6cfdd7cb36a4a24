/**
 * Endpoint identity in background.js: `toAbsoluteUrl` and `canonicalKeyFor`.
 *
 * URL parsing is not modelled. Every operation that parses takes the parser
 * as a parameter: `resolve(input)` stands for `new URL(input, base)`, giving
 * the parts of the resolved URL, or `None` where the constructor throws.
 */
module Endpoint {
  import opened Wrappers
  import opened Text

  /**
   * The parts of a parsed URL that the extension reads: its serialisation
   * `href` (what `u.toString()` returns), its `origin` and its `pathname`.
   */
  datatype Url = Url(href: string, origin: string, pathname: string)

  /** `(method || 'GET')`: a missing or empty method means GET. */
  function MethodOrGet(verb: Option<string>): (m: string)
    ensures m != []
    ensures verb.Some? && verb.value != [] ==> m == verb.value
  {
    if verb.None? || verb.value == [] then "GET" else verb.value
  }

  /** `toAbsoluteUrl`: the resolved URL, or the input unchanged when it does not parse. */
  function ToAbsoluteUrl(input: string, resolve: string -> Option<Url>): (r: string)
    ensures resolve(input).None? ==> r == input
    ensures resolve(input).Some? ==> r == resolve(input).value.href
  {
    match resolve(input)
    case Some(u) => u.href
    case None => input
  }

  /** `canonicalKeyFor`: origin and path of the resolved URL, `::`, and the upper-cased method. */
  function CanonicalKeyFor(input: string, verb: string, resolve: string -> Option<Url>): (key: string)
    ensures EndsWith(key, "::" + ToUpper(verb))
  {
    var prefix := match resolve(input)
      case Some(u) => u.origin + u.pathname
      case None => input;
    var suffix := "::" + ToUpper(verb);
    assert (prefix + suffix)[|prefix|..] == suffix;
    prefix + suffix
  }

  /** The key does not depend on the query string or the fragment. */
  lemma KeyIgnoresQueryAndFragment(x: string, y: string, verb: string, resolve: string -> Option<Url>)
    requires resolve(x).Some? && resolve(y).Some?
    requires resolve(x).value.origin == resolve(y).value.origin
    requires resolve(x).value.pathname == resolve(y).value.pathname
    ensures CanonicalKeyFor(x, verb, resolve) == CanonicalKeyFor(y, verb, resolve)
  {
  }

  /** Parsable URLs whose origin and path, written one after the other, differ get different keys, for the same method. */
  lemma KeySeparatesEndpoints(x: string, y: string, verb: string, resolve: string -> Option<Url>)
    requires resolve(x).Some? && resolve(y).Some?
    requires resolve(x).value.origin + resolve(x).value.pathname != resolve(y).value.origin + resolve(y).value.pathname
    ensures CanonicalKeyFor(x, verb, resolve) != CanonicalKeyFor(y, verb, resolve)
  {
  }

  /** The method is compared case-insensitively: upper-casing it first changes nothing. */
  lemma KeyIgnoresMethodCase(x: string, verb: string, resolve: string -> Option<Url>)
    ensures CanonicalKeyFor(x, ToUpper(verb), resolve) == CanonicalKeyFor(x, verb, resolve)
  {
    ToUpperIdempotent(verb);
  }

  /** An input that does not parse falls back to `input::METHOD`. */
  lemma KeyFallback(x: string, verb: string, resolve: string -> Option<Url>)
    requires resolve(x).None?
    ensures CanonicalKeyFor(x, verb, resolve) == x + ("::" + ToUpper(verb))
  {
  }
}
