/** What the collector reads from an incoming request besides its body. */
module Requests {
  import opened Wrappers

  /** The request headers the collector reads; `None` is a header that is
      not there. */
  datatype Headers = Headers(
    cfConnectingIpv4: Option<string>,
    cfConnectingIpv6: Option<string>,
    cfConnectingIp: Option<string>,
    xForwardedFor: Option<string>,
    origin: Option<string>,
    referer: Option<string>)

  /** A header that is there and not empty: a truthy string. */
  predicate Truthy(h: Option<string>) {
    h.Some? && h.value != []
  }
}
