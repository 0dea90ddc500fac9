/** `matchesDomain` of apps/collector/src/hono/app.ts and the allow-list test
    the `/events` handler builds from it. */
module DomainMatch {
  import opened Text

  const WildcardPrefix: string := "*."

  /** `hostname.trim().toLowerCase()` */
  function NormalHost(hostname: string): string {
    Lower(Trim(hostname))
  }

  /** `domain.trim().toLowerCase().replace(/^\*\./, "")`: one leading `*.`
      at most is removed. */
  function NormalDomain(domain: string): string {
    var d := Lower(Trim(domain));
    if StartsWith(d, WildcardPrefix) then d[|WildcardPrefix|..] else d
  }

  /** `matchesDomain(hostname, domain, wildcard)` */
  predicate MatchesDomain(hostname: string, domain: string, wildcard: bool) {
    var host := NormalHost(hostname);
    var d := NormalDomain(domain);
    if host == [] || d == [] then false
    else if wildcard then host == d || EndsWith(host, "." + d)
    else host == d
  }

  /** A wildcard rule admits the domain itself and exactly the names that
      end in a dot followed by the domain: the dot is required, so a name
      that merely ends with the same letters is not admitted. */
  lemma WildcardMeaning(hostname: string, domain: string)
    ensures MatchesDomain(hostname, domain, true) <==>
      var host, d := NormalHost(hostname), NormalDomain(domain);
      d != [] && (host == d || DotSuffix(host, d))
  {
    DotSuffixMeaning(NormalHost(hostname), NormalDomain(domain));
  }

  /** `host` is some label, a dot and then `d`. */
  predicate DotSuffix(host: string, d: string) {
    |host| > |d| && host[|host| - |d| - 1] == '.' && host[|host| - |d|..] == d
  }

  lemma DotSuffixMeaning(host: string, d: string)
    ensures EndsWith(host, "." + d) <==> DotSuffix(host, d)
  {
    if |host| > |d| {
      var tail := host[|host| - |d| - 1..];
      assert tail == [tail[0]] + host[|host| - |d|..];
    }
  }

  /** An exact rule admits exactly the names equal to the domain. */
  lemma ExactMeaning(hostname: string, domain: string)
    ensures MatchesDomain(hostname, domain, false) <==>
      NormalDomain(domain) != [] && NormalHost(hostname) == NormalDomain(domain)
  {
  }

  /** Whatever an exact rule admits, the wildcard rule for the same domain
      admits too. */
  lemma ExactImpliesWildcard(hostname: string, domain: string)
    requires MatchesDomain(hostname, domain, false)
    ensures MatchesDomain(hostname, domain, true)
  {
  }

  /** Lower-casing keeps the non-whitespace ends of a trimmed string. */
  lemma NormalHostIdempotent(hostname: string)
    ensures NormalHost(NormalHost(hostname)) == NormalHost(hostname)
  {
    var t := Trim(hostname);
    var l := Lower(t);
    LowerKeepsWhitespace(t);
    TrimOfTrimmed(l);
    LowerIdempotent(t);
  }

  /** Matching ignores surrounding whitespace and ASCII case in the host
      name: a name matches exactly when its normal form does. */
  lemma MatchIgnoresHostSpelling(hostname: string, domain: string, wildcard: bool)
    ensures MatchesDomain(hostname, domain, wildcard) == MatchesDomain(NormalHost(hostname), domain, wildcard)
  {
    NormalHostIdempotent(hostname);
  }

  /** A trimmed name without capitals is its own normal form. */
  lemma CleanIsNormal(s: string)
    requires Trimmed(s) && NoUpper(s)
    ensures NormalHost(s) == s
    ensures !StartsWith(s, WildcardPrefix) ==> NormalDomain(s) == s
  {
    TrimOfTrimmed(s);
    LowerMeaning(s);
  }

  /** For names already in normal form, a rule compares them directly. */
  lemma CleanMatch(host: string, domain: string)
    requires Trimmed(host) && NoUpper(host)
    requires Trimmed(domain) && NoUpper(domain) && !StartsWith(domain, WildcardPrefix) && domain != []
    ensures MatchesDomain(host, domain, false) <==> host == domain
    ensures MatchesDomain(host, domain, true) <==> host == domain || DotSuffix(host, domain)
  {
    CleanIsNormal(host);
    CleanIsNormal(domain);
    WildcardMeaning(host, domain);
  }

  /** Example: a wildcard rule for `example.com` admits `a.example.com` but
      not `notexample.com`. */
  lemma DotBoundaryExample(sub: string, other: string, domain: string)
    requires sub == "a.example.com" && other == "notexample.com" && domain == "example.com"
    ensures MatchesDomain(sub, domain, true)
    ensures !MatchesDomain(other, domain, true)
  {
    assert Trimmed(sub) && NoUpper(sub);
    assert Trimmed(other) && NoUpper(other);
    assert Trimmed(domain) && NoUpper(domain) && !StartsWith(domain, WildcardPrefix);
    assert sub[|sub| - |domain|..] == domain;
    assert DotSuffix(sub, domain);
    assert other[|other| - |domain| - 1] == 't';
    CleanMatch(sub, domain);
    CleanMatch(other, domain);
  }

  /** A name in capitals and padded with spaces matches the exact rule for
      its lower-case form. */
  lemma PaddedNameMatches(spaced: string, t: string, domain: string)
    requires spaced == " " + t + " " && Trimmed(t) && t != [] && Lower(t) == domain
    requires Trimmed(domain) && NoUpper(domain) && !StartsWith(domain, WildcardPrefix)
    ensures MatchesDomain(spaced, domain, false)
  {
    TrimOfPadded(" ", t, " ");
    assert NormalHost(spaced) == domain;
    CleanMatch(domain, domain);
    MatchIgnoresHostSpelling(spaced, domain, false);
  }

  /** Example: an exact rule ignores case and surrounding spaces. */
  lemma ExactIgnoresCaseExample(spaced: string, t: string, domain: string)
    requires t == "Example.COM" && spaced == " " + t + " " && domain == "example.com"
    ensures MatchesDomain(spaced, domain, false)
  {
    assert Trimmed(t);
    LowerExample(t, domain);
    assert Trimmed(domain) && NoUpper(domain) && !StartsWith(domain, WildcardPrefix);
    PaddedNameMatches(spaced, t, domain);
  }

  lemma LowerExample(t: string, domain: string)
    requires t == "Example.COM" && domain == "example.com"
    ensures Lower(t) == domain
  {
    LowerAt(t);
  }

  /** Example: an exact rule does not admit a sub-domain. */
  lemma ExactSubdomainExample(sub: string, domain: string)
    requires sub == "sub.example.com" && domain == "example.com"
    ensures !MatchesDomain(sub, domain, false)
  {
    assert Trimmed(sub) && NoUpper(sub);
    assert Trimmed(domain) && NoUpper(domain) && !StartsWith(domain, WildcardPrefix);
    CleanMatch(sub, domain);
  }

  /** One stored allow-list row: a host name and whether sub-domains count. */
  datatype DomainRule = DomainRule(hostname: string, wildcard: bool)

  /** `domains.some((domain) => matchesDomain(...))` */
  predicate AnyRuleAdmits(hostname: string, rules: seq<DomainRule>) {
    exists i :: 0 <= i < |rules| && MatchesDomain(hostname, rules[i].hostname, rules[i].wildcard)
  }

  /** An empty allow-list admits nothing, and growing an allow-list never
      takes an admitted host name away. */
  lemma AllowListMonotone(hostname: string, rules: seq<DomainRule>, more: seq<DomainRule>)
    requires forall r :: r in rules ==> r in more
    ensures !AnyRuleAdmits(hostname, [])
    ensures AnyRuleAdmits(hostname, rules) ==> AnyRuleAdmits(hostname, more)
  {
    if AnyRuleAdmits(hostname, rules) {
      var i :| 0 <= i < |rules| && MatchesDomain(hostname, rules[i].hostname, rules[i].wildcard);
      assert rules[i] in more;
      var j :| 0 <= j < |more| && more[j] == rules[i];
    }
  }
}
