/** `getRequestHostname` of apps/collector/src/hono/app.ts: the host name of
    the page that sent an event. */
module RequestHost {
  import opened Wrappers
  import opened Requests

  /** `new URL(s).hostname`, with `None` where the URL constructor throws.
      URL parsing itself is not part of this model, so the parser is a
      parameter. */
  type HostParser = string -> Option<string>

  /** The one source the host name is read from: `Origin` when it is
      non-empty, else `Referer` when it is non-empty, else the request URL. */
  function Source(h: Headers, url: string): (s: string)
    ensures Truthy(h.origin) ==> s == h.origin.value
    ensures !Truthy(h.origin) && Truthy(h.referer) ==> s == h.referer.value
    ensures !Truthy(h.origin) && !Truthy(h.referer) ==> s == url
  {
    if Truthy(h.origin) then h.origin.value
    else if Truthy(h.referer) then h.referer.value
    else url
  }

  /** `getRequestHostname`: each step returns from inside its own `try`, so
      an unparsable source yields no host name and never falls through to
      the next one. */
  function GetRequestHostname(h: Headers, url: string, parseHost: HostParser): (r: Option<string>)
    ensures r == parseHost(Source(h, url))
  {
    if Truthy(h.origin) then parseHost(h.origin.value)
    else if Truthy(h.referer) then parseHost(h.referer.value)
    else parseHost(url)
  }

  /** A non-empty `Origin` alone decides: neither `Referer` nor the URL is
      read, even when `Origin` cannot be parsed. */
  lemma OriginDecides(h: Headers, url: string, parseHost: HostParser, referer: Option<string>, otherUrl: string)
    requires Truthy(h.origin)
    ensures GetRequestHostname(h, url, parseHost) == GetRequestHostname(h.(referer := referer), otherUrl, parseHost)
    ensures parseHost(h.origin.value).None? ==> GetRequestHostname(h, url, parseHost).None?
  {
  }

  /** `Referer` is read only when `Origin` is missing or empty, and then it
      alone decides. */
  lemma RefererDecides(h: Headers, url: string, parseHost: HostParser, otherUrl: string)
    requires !Truthy(h.origin) && Truthy(h.referer)
    ensures GetRequestHostname(h, url, parseHost) == GetRequestHostname(h.(origin := None), otherUrl, parseHost)
    ensures GetRequestHostname(h, url, parseHost) == parseHost(h.referer.value)
  {
  }

  /** The URL is read only when both headers are missing or empty. */
  lemma UrlAsLastResort(h: Headers, url: string, parseHost: HostParser)
    requires !Truthy(h.origin) && !Truthy(h.referer)
    ensures GetRequestHostname(h, url, parseHost) == parseHost(url)
  {
  }

  /** Any host name returned comes from parsing one of the three sources. */
  lemma HostFromSources(h: Headers, url: string, parseHost: HostParser)
    ensures GetRequestHostname(h, url, parseHost).Some? ==>
      || (h.origin.Some? && parseHost(h.origin.value) == GetRequestHostname(h, url, parseHost))
      || (h.referer.Some? && parseHost(h.referer.value) == GetRequestHostname(h, url, parseHost))
      || parseHost(url) == GetRequestHostname(h, url, parseHost)
  {
  }

  /** With no `Origin`, a parsable `Referer` gives its host. */
  lemma RefererExample(referer: string, url: string, parseHost: HostParser)
    requires referer == "https://shop.example.com/path"
    requires parseHost(referer) == Some("shop.example.com")
    ensures GetRequestHostname(Headers(None, None, None, None, None, Some(referer)), url, parseHost) == Some("shop.example.com")
  {
  }
}
