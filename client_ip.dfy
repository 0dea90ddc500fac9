/** `getClientIp` of apps/collector/src/hono/app.ts: the visitor's address,
    read from the proxy headers in a fixed order. */
module ClientIp {
  import opened Wrappers
  import opened Text
  import opened IpAddress
  import opened Requests

  const MappedPrefix: string := "::ffff:"

  /** `CF-Connecting-IP ?? X-Forwarded-For`: the first whenever it is there,
      even when it is empty. */
  function GenericHeader(h: Headers): Option<string> {
    if h.cfConnectingIp.Some? then h.cfConnectingIp else h.xForwardedFor
  }

  /** The first comma-separated entry of a header, trimmed: a comma-free
      slice of the header. */
  function FirstEntry(header: string): (r: string)
    ensures ',' !in r && Trimmed(r)
    ensures exists k :: OccursAt(header, r, k)
  {
    var piece := Split(header, ',')[0];
    var r := Trim(piece);
    FirstEntryFacts(header, piece, r);
    r
  }

  lemma FirstEntryFacts(header: string, piece: string, r: string)
    requires piece == Split(header, ',')[0] && r == Trim(piece)
    ensures ',' !in r
    ensures exists k :: OccursAt(header, r, k)
  {
    SplitFirstPiece(header, ',');
    TrimSlice(piece);
    var k :| OccursAt(piece, r, k);
    OccursAtTrans(header, piece, r, 0, k);
    SliceLacks(piece, r, k, ',');
  }

  /** The address an entry names: the IPv4 part of an IPv4-mapped entry, or
      the entry itself when it is a valid address. */
  function FromEntry(first: string): (r: Option<string>)
    ensures r.Some? ==> IsValidIp(r.value)
    ensures r.Some? ==> r.value == first || (StartsWith(first, MappedPrefix) && r.value == first[|MappedPrefix|..])
    ensures StartsWith(first, MappedPrefix) && IsIPv4(first[|MappedPrefix|..]) ==> r == Some(first[|MappedPrefix|..])
    ensures !(StartsWith(first, MappedPrefix) && IsIPv4(first[|MappedPrefix|..])) ==>
              r == (if IsValidIp(first) then Some(first) else None)
  {
    if StartsWith(first, MappedPrefix) && IsIPv4(first[|MappedPrefix|..]) then Some(first[|MappedPrefix|..])
    else if IsValidIp(first) then Some(first)
    else None
  }

  /** `getClientIp`: any address it returns is a valid IPv4 or IPv6 literal. */
  function GetClientIp(h: Headers): (r: Option<string>)
    ensures r.Some? ==> IsValidIp(r.value)
  {
    if Truthy(h.cfConnectingIpv4) && IsIPv4(h.cfConnectingIpv4.value) then h.cfConnectingIpv4
    else if Truthy(h.cfConnectingIpv6) && IsIPv6(h.cfConnectingIpv6.value) then h.cfConnectingIpv6
    else
      var header := GenericHeader(h);
      if !Truthy(header) then None else FromEntry(FirstEntry(header.value))
  }

  /** The address, when there is one, appears verbatim in one of the headers. */
  ghost predicate Within(a: string, header: Option<string>) {
    header.Some? && exists k :: OccursAt(header.value, a, k)
  }

  lemma AddressFromHeaders(h: Headers)
    ensures GetClientIp(h).Some? ==>
      var a := GetClientIp(h).value;
      Within(a, h.cfConnectingIpv4) || Within(a, h.cfConnectingIpv6)
      || Within(a, h.cfConnectingIp) || Within(a, h.xForwardedFor)
  {
    var r := GetClientIp(h);
    if r.Some? {
      var a := r.value;
      if Truthy(h.cfConnectingIpv4) && IsIPv4(h.cfConnectingIpv4.value) {
        assert OccursAt(a, a, 0);
      } else if Truthy(h.cfConnectingIpv6) && IsIPv6(h.cfConnectingIpv6.value) {
        assert OccursAt(a, a, 0);
      } else {
        EntryWithin(GenericHeader(h).value);
      }
    }
  }

  lemma EntryWithin(header: string)
    ensures FromEntry(FirstEntry(header)).Some? ==>
              exists k :: OccursAt(header, FromEntry(FirstEntry(header)).value, k)
  {
    var first := FirstEntry(header);
    var r := FromEntry(first);
    if r.Some? {
      SliceOfEntry(header, first, r.value);
    }
  }

  lemma SliceOfEntry(header: string, first: string, a: string)
    requires first == FirstEntry(header)
    requires a == first || (StartsWith(first, MappedPrefix) && a == first[|MappedPrefix|..])
    ensures exists k :: OccursAt(header, a, k)
  {
    var k :| OccursAt(header, first, k);
    if a == first {
      assert OccursAt(header, a, k);
    } else {
      OccursAtTrans(header, first, a, k, |MappedPrefix|);
    }
  }

  /** A valid `CF-Connecting-IPV4` wins over every other header. */
  lemma Ipv4HeaderWins(h: Headers, a: string)
    requires h.cfConnectingIpv4 == Some(a) && IsIPv4(a)
    ensures GetClientIp(h) == Some(a)
  {
    Ipv4Alphabet(a);
  }

  /** Without a valid `CF-Connecting-IPV4`, a valid `CF-Connecting-IPV6`
      wins over the generic headers. */
  lemma Ipv6HeaderWins(h: Headers, a: string)
    requires !(Truthy(h.cfConnectingIpv4) && IsIPv4(h.cfConnectingIpv4.value))
    requires h.cfConnectingIpv6 == Some(a) && IsIPv6(a)
    ensures GetClientIp(h) == Some(a)
  {
    ValidIpShape(a);
  }

  /** A dedicated header that holds no valid address is skipped, as if it
      were not there. */
  lemma InvalidDedicatedSkipped(h: Headers)
    ensures !IsIPv4(h.cfConnectingIpv4.GetOr([])) ==>
              GetClientIp(h) == GetClientIp(h.(cfConnectingIpv4 := None))
    ensures !IsIPv6(h.cfConnectingIpv6.GetOr([])) ==>
              GetClientIp(h) == GetClientIp(h.(cfConnectingIpv6 := None))
  {
  }

  /** Without a valid dedicated header, `CF-Connecting-IP` alone decides when
      it is there: an empty one yields no address and `X-Forwarded-For` is
      never read. */
  lemma ConnectingIpShadowsForwardedFor(h: Headers, xff: Option<string>)
    requires h.cfConnectingIp.Some?
    ensures GetClientIp(h) == GetClientIp(h.(xForwardedFor := xff))
    ensures h.cfConnectingIp == Some([])
              && !(Truthy(h.cfConnectingIpv4) && IsIPv4(h.cfConnectingIpv4.value))
              && !(Truthy(h.cfConnectingIpv6) && IsIPv6(h.cfConnectingIpv6.value))
            ==> GetClientIp(h) == None
  {
  }

  /** Only the first entry of the list is ever considered: whatever follows
      the first comma makes no difference. */
  lemma {:induction false} OnlyFirstEntryCounts(first: string, rest: string)
    requires ',' !in first
    ensures FirstEntry(first + "," + rest) == Trim(first)
  {
    SplitAtFirst(first, rest, ',');
  }

  /** Headers that hold no entry but the generic one. */
  function OnlyGeneric(cfIp: Option<string>, xff: Option<string>): Headers {
    Headers(None, None, cfIp, xff, None, None)
  }

  /** An IPv4-mapped first entry yields its IPv4 part; later entries are
      ignored. */
  lemma MappedExample(first: string, rest: string)
    requires first == "::ffff:192.0.2.1" && rest == " 10.0.0.1"
    ensures GetClientIp(OnlyGeneric(None, Some(first + "," + rest))) == Some("192.0.2.1")
  {
    assert Trimmed(first) && ',' !in first;
    CleanFirstEntry(first, rest);
    GenericEntryDecides(OnlyGeneric(None, Some(first + "," + rest)));
    MappedEntry(first);
  }

  lemma CleanFirstEntry(first: string, rest: string)
    requires ',' !in first && Trimmed(first)
    ensures FirstEntry(first + "," + rest) == first
  {
    OnlyFirstEntryCounts(first, rest);
    TrimOfTrimmed(first);
  }

  /** Without dedicated headers, the first entry of the generic one decides. */
  lemma GenericEntryDecides(h: Headers)
    requires h.cfConnectingIpv4.None? && h.cfConnectingIpv6.None?
    requires Truthy(GenericHeader(h))
    ensures GetClientIp(h) == FromEntry(FirstEntry(GenericHeader(h).value))
  {
  }

  lemma MappedEntry(first: string)
    requires first == "::ffff:192.0.2.1"
    ensures FromEntry(first) == Some("192.0.2.1")
  {
    DottedQuadIsIpv4(192, 0, 2, 1);
    assert DecimalString(192) == "192";
    assert DottedQuad(192, 0, 2, 1) == first[|MappedPrefix|..] == "192.0.2.1";
    assert StartsWith(first, MappedPrefix);
  }

  /** A dedicated IPv4 header beats `CF-Connecting-IP`. */
  lemma PriorityExample()
    ensures GetClientIp(Headers(Some("10.0.0.1"), None, Some("8.8.8.8"), None, None, None)) == Some("10.0.0.1")
  {
    DottedQuadIsIpv4(10, 0, 0, 1);
    assert DecimalString(10) == "10";
    assert DottedQuad(10, 0, 0, 1) == "10.0.0.1";
  }

  /** Text that is not an address yields none. */
  lemma MalformedExample(header: string)
    requires header == "not-an-ip"
    ensures GetClientIp(OnlyGeneric(None, Some(header))) == None
  {
    SplitWithoutSeparator(header, ',');
    TrimOfTrimmed(header);
    NotAnAddress(header);
  }

  lemma NotAnAddress(s: string)
    requires s == "not-an-ip"
    ensures FromEntry(s) == None
  {
    assert !IsDigit(s[0]) && !IsHexDigit(s[0]) && s[0] != '.' && s[0] != ':';
    if IsIPv4(s) {
      Ipv4Alphabet(s);
    }
    if IsIPv6(s) {
      Ipv6Shape(s);
    }
    assert !StartsWith(s, MappedPrefix);
  }
}
