/**
 * URL validation and normalisation (app/Services/UrlValidatorService.php) and the URL errors of
 * app/Exceptions/Url/InvalidUrlException.php.
 *
 * PHP's `parse_url` is not modelled: every operation takes the parser as a parameter `parse`,
 * which returns `None` where `parse_url` returns false and otherwise the components it found.
 */
module UrlValidation {
  import opened Wrappers
  import opened PhpStrings

  /** The components `parse_url` may report; an absent key is `None`. */
  datatype UrlParts = UrlParts(
    scheme: Option<string>,
    host: Option<string>,
    port: Option<nat>,
    user: Option<string>,
    pass: Option<string>,
    path: Option<string>,
    query: Option<string>,
    fragment: Option<string>)

  type Parser = string -> Option<UrlParts>

  /** The named constructors of `InvalidUrlException`, each carrying the URL it reports. */
  datatype InvalidUrl =
    | Invalid(url: string)
    | InvalidScheme(url: string)
    | EmptyUrl
    | MissingScheme(url: string)
    | Malformed(url: string)

  const AllowedSchemes: seq<string> := ["http", "https"]

  /** `$parsed !== false && isset($parsed['scheme'], $parsed['host'])`. */
  predicate HasSchemeAndHost(parsed: Option<UrlParts>)
  {
    parsed.Some? && parsed.value.scheme.Some? && parsed.value.host.Some?
  }

  /** `isValid($url)`: non-empty, parsed with a scheme and a host, and the scheme is http or https in any case. */
  predicate IsValid(parse: Parser, url: string)
  {
    if url == "" then false
    else
      var parsed := parse(url);
      if !HasSchemeAndHost(parsed) then false
      else Lower(parsed.value.scheme.value) in AllowedSchemes
  }

  /** The path `sanitize` keeps: a missing path and the root path `/` both become empty. */
  function PathPart(path: Option<string>): (r: string)
    ensures path.None? || path == Some("/") ==> r == ""
    ensures path.Some? && path != Some("/") ==> r == path.value
  {
    var p := OrElse(path, "");
    if p == "/" then "" else p
  }

  /** The string `sanitize` builds from a parse with a scheme and a host; user and password are dropped. */
  function Rebuild(p: UrlParts): string
    requires p.scheme.Some? && p.host.Some?
  {
    var port := if p.port.Some? then ":" + DecimalString(p.port.value) else "";
    var query := if p.query.Some? then "?" + p.query.value else "";
    var fragment := if p.fragment.Some? then "#" + p.fragment.value else "";
    Lower(p.scheme.value) + "://" + Lower(p.host.value) + port + PathPart(p.path) + query + fragment
  }

  /** `sanitize($url)`: the rebuilt URL, or the trimmed input when it has no scheme or no host. */
  function Sanitize(parse: Parser, url: string): string
  {
    var u := Trim(url);
    var parsed := parse(u);
    if !HasSchemeAndHost(parsed) then u else Rebuild(parsed.value)
  }

  /** `validateAndSanitize($url)`: the sanitized URL, or the exception it throws. */
  function ValidateAndSanitize(parse: Parser, url: string): Result<string, InvalidUrl>
  {
    var u := Trim(url);
    if u == "" then Err(EmptyUrl)
    else
      var parsed := parse(u);
      if parsed.None? || parsed.value.scheme.None? then
        if IsAsciiAlnum(u[0]) && ' ' !in u then Err(MissingScheme(u)) else Err(Malformed(u))
      else if Lower(parsed.value.scheme.value) !in AllowedSchemes then Err(MissingScheme(u))
      else if parsed.value.host.None? then Err(Malformed(u))
      else Ok(Sanitize(parse, u))
  }

  /** The empty string is never valid, whatever the parser says. */
  lemma EmptyIsInvalid(parse: Parser)
    ensures !IsValid(parse, "")
  {
  }

  /** `isValid` accepts exactly the parses with a host and a scheme equal to http or https up to ASCII case. */
  lemma IsValidCharacterised(parse: Parser, url: string)
    ensures IsValid(parse, url) <==>
      url != "" && HasSchemeAndHost(parse(url)) &&
      (Lower(parse(url).value.scheme.value) == "http" || Lower(parse(url).value.scheme.value) == "https")
  {
  }

  /** Whatever the input, `sanitize` only sees it trimmed: sanitizing the trimmed input changes nothing. */
  lemma SanitizeIgnoresSurroundingWhitespace(parse: Parser, url: string)
    ensures Sanitize(parse, Trim(url)) == Sanitize(parse, url)
  {
    TrimIdempotent(url);
  }

  /** Without a scheme or a host the result is the trimmed input, which has no surrounding whitespace. */
  lemma SanitizeUnparsedIsTrimmed(parse: Parser, url: string)
    requires !HasSchemeAndHost(parse(Trim(url)))
    ensures Sanitize(parse, url) == Trim(url) && IsTrimmed(Sanitize(parse, url))
  {
  }

  /**
   * With a scheme and a host, `sanitize` returns the lowercased scheme, `://` and the lowercased
   * host, then `:port` when a port was given, the kept path, `?query` when a query was given and
   * `#fragment` when a fragment was given; so the result starts with the lowercased scheme and host.
   */
  lemma SanitizeStartsWithSchemeAndHost(parse: Parser, url: string)
    requires HasSchemeAndHost(parse(Trim(url)))
    ensures var p := parse(Trim(url)).value;
      var head := Lower(p.scheme.value) + "://" + Lower(p.host.value);
      var port := if p.port.Some? then ":" + DecimalString(p.port.value) else "";
      var query := if p.query.Some? then "?" + p.query.value else "";
      var fragment := if p.fragment.Some? then "#" + p.fragment.value else "";
      && Sanitize(parse, url) == head + port + PathPart(p.path) + query + fragment
      && |head| <= |Sanitize(parse, url)| && Sanitize(parse, url)[..|head|] == head
  {
    var p := parse(Trim(url)).value;
    RebuildStartsWithHead(p);
  }

  /** The rebuilt URL begins with the lowercased scheme, `://` and the lowercased host. */
  lemma RebuildStartsWithHead(p: UrlParts)
    requires p.scheme.Some? && p.host.Some?
    ensures var head := Lower(p.scheme.value) + "://" + Lower(p.host.value);
      |head| <= |Rebuild(p)| && Rebuild(p)[..|head|] == head
  {
    var head := Lower(p.scheme.value) + "://" + Lower(p.host.value);
    var port := if p.port.Some? then ":" + DecimalString(p.port.value) else "";
    var query := if p.query.Some? then "?" + p.query.value else "";
    var fragment := if p.fragment.Some? then "#" + p.fragment.value else "";
    var tail := port + PathPart(p.path) + query + fragment;
    assert Rebuild(p) == head + tail;
  }

  /** Differing only in user and password, two parses give the same sanitized URL. */
  lemma SanitizeDropsCredentials(p: UrlParts, user: Option<string>, pass: Option<string>)
    requires p.scheme.Some? && p.host.Some?
    ensures Rebuild(p.(user := user, pass := pass)) == Rebuild(p)
  {
  }

  /** Scheme and host are case-insensitive: writing them in lower case gives the same sanitized URL. */
  lemma SanitizeFoldsSchemeAndHostCase(p: UrlParts)
    requires p.scheme.Some? && p.host.Some?
    ensures Rebuild(p.(scheme := Some(Lower(p.scheme.value)), host := Some(Lower(p.host.value)))) == Rebuild(p)
  {
    LowerIdempotent(p.scheme.value);
    LowerIdempotent(p.host.value);
  }

  /** The root path `/` is dropped: it gives the same URL as no path at all. */
  lemma SanitizeDropsRootPath(p: UrlParts)
    requires p.scheme.Some? && p.host.Some?
    ensures Rebuild(p.(path := Some("/"))) == Rebuild(p.(path := None))
  {
  }

  /**
   * Every other path is kept verbatim, so two paths that differ (in case, or by a trailing slash)
   * give different URLs.
   */
  lemma SanitizeKeepsOtherPaths(p: UrlParts, a: string, b: string)
    requires p.scheme.Some? && p.host.Some?
    requires a != "/" && b != "/" && a != b
    ensures Rebuild(p.(path := Some(a))) != Rebuild(p.(path := Some(b)))
  {
    var port := if p.port.Some? then ":" + DecimalString(p.port.value) else "";
    var query := if p.query.Some? then "?" + p.query.value else "";
    var fragment := if p.fragment.Some? then "#" + p.fragment.value else "";
    var head := Lower(p.scheme.value) + "://" + Lower(p.host.value) + port;
    var tail := query + fragment;
    assert Rebuild(p.(path := Some(a))) == head + a + tail;
    assert Rebuild(p.(path := Some(b))) == head + b + tail;
    InfixCancels(head, a, b, tail);
  }

  lemma InfixCancels(head: string, a: string, b: string, tail: string)
    requires a != b
    ensures head + a + tail != head + b + tail
  {
    if |a| == |b| {
      assert (head + a + tail)[|head|..|head| + |a|] == a;
      assert (head + b + tail)[|head|..|head| + |b|] == b;
    } else {
      assert |head + a + tail| != |head + b + tail|;
    }
  }

  /** The form `sanitize` puts a parse into: lowercased scheme and host, no credentials, no root path. */
  function Normalize(p: UrlParts): (n: UrlParts)
    requires p.scheme.Some? && p.host.Some?
    ensures n.scheme.Some? && n.host.Some?
  {
    p.(scheme := Some(Lower(p.scheme.value)), host := Some(Lower(p.host.value)),
       user := None, pass := None, path := if p.path == Some("/") then None else p.path)
  }

  /**
   * Sanitizing is idempotent for every parser that reads a sanitized URL back as the normalised
   * parse it was built from, provided the rebuilt URL carries no surrounding whitespace.
   */
  lemma SanitizeIdempotent(parse: Parser, url: string)
    requires HasSchemeAndHost(parse(Trim(url)))
    requires IsTrimmed(Sanitize(parse, url))
    requires parse(Sanitize(parse, url)) == Some(Normalize(parse(Trim(url)).value))
    ensures Sanitize(parse, Sanitize(parse, url)) == Sanitize(parse, url)
  {
    var s := Sanitize(parse, url);
    var p := parse(Trim(url)).value;
    TrimOfTrimmed(s);
    LowerIdempotent(p.scheme.value);
    LowerIdempotent(p.host.value);
    assert PathPart(Normalize(p).path) == PathPart(p.path);
  }

  /**
   * `validateAndSanitize` succeeds exactly when `isValid` accepts the trimmed input, and then it
   * returns what `sanitize` returns.
   */
  lemma ValidateAgreesWithIsValid(parse: Parser, url: string)
    ensures ValidateAndSanitize(parse, url).Ok? <==> IsValid(parse, Trim(url))
    ensures ValidateAndSanitize(parse, url).Ok? ==> ValidateAndSanitize(parse, url).value == Sanitize(parse, url)
  {
    ValidateOutcome(parse, url);
    SanitizeIgnoresSurroundingWhitespace(parse, url);
  }

  /** `validateAndSanitize` unfolded: success under the `isValid` conditions, with the sanitized trimmed input. */
  lemma ValidateOutcome(parse: Parser, url: string)
    ensures ValidateAndSanitize(parse, url).Ok? <==> IsValid(parse, Trim(url))
    ensures ValidateAndSanitize(parse, url).Ok? ==> ValidateAndSanitize(parse, url) == Ok(Sanitize(parse, Trim(url)))
  {
    var u := Trim(url);
    var parsed := parse(u);
    if u == "" {
    } else if parsed.None? || parsed.value.scheme.None? {
    } else if Lower(parsed.value.scheme.value) !in AllowedSchemes {
    } else if parsed.value.host.None? {
    } else {
      assert IsValid(parse, u);
    }
  }

  /**
   * The failures of `validateAndSanitize`: Empty for blank input; with no scheme, MissingScheme when
   * the input looks like a bare host (starts with an ASCII letter or digit, no space) and Malformed
   * otherwise; MissingScheme for a scheme other than http(s); Malformed when the host is missing.
   * Every failure but Empty reports the trimmed input, and `invalidScheme` and `invalid` never occur.
   */
  lemma ValidateErrors(parse: Parser, url: string)
    ensures var r := ValidateAndSanitize(parse, url);
      var u := Trim(url);
      && (r == Err(EmptyUrl) <==> u == "")
      && (u != "" && (parse(u).None? || parse(u).value.scheme.None?) ==>
            r == (if IsAsciiAlnum(u[0]) && ' ' !in u then Err(MissingScheme(u)) else Err(Malformed(u))))
      && (parse(u).Some? && parse(u).value.scheme.Some? && u != "" &&
          Lower(parse(u).value.scheme.value) != "http" && Lower(parse(u).value.scheme.value) != "https" ==>
            r == Err(MissingScheme(u)))
      && (u != "" && parse(u).Some? && parse(u).value.scheme.Some? && parse(u).value.host.None? &&
          Lower(parse(u).value.scheme.value) in AllowedSchemes ==>
            r == Err(Malformed(u)))
      && (r.Err? ==> !r.error.Invalid? && !r.error.InvalidScheme?)
  {
  }
}
