/** The allow-list entries of apps/web/src/core/functions/projects.ts: the
    `DomainValueSchema` check on what an owner types, and the stored form
    (`hostname` and `wildcard`) that the collector later matches against. */
module DomainValues {
  import opened Wrappers
  import opened Text
  import opened DomainMatch
  import opened JsValues

  const MaxValueLength: nat := 255
  const MaxHostnameLength: nat := 253
  const MaxWildcardNameLength: nat := 251

  /** `[a-z0-9-]` under the case-insensitive flag. */
  predicate IsLdh(c: char) {
    'a' <= c <= 'z' || 'A' <= c <= 'Z' || '0' <= c <= '9' || c == '-'
  }

  predicate IsAlnum(c: char) {
    IsLdh(c) && c != '-'
  }

  predicate AllLdh(s: string) {
    forall i :: 0 <= i < |s| ==> IsLdh(s[i])
  }

  /** `[a-z0-9](?:[a-z0-9-]{0,61}[a-z0-9])?`: 1 to 63 characters, neither
      end a hyphen. */
  predicate IsLabel(l: string) {
    1 <= |l| <= 63 && AllLdh(l) && IsAlnum(l[0]) && IsAlnum(l[|l| - 1])
  }

  /** `[a-z0-9-]{2,63}`: the last label, where hyphens may sit anywhere. */
  predicate IsFinalLabel(l: string) {
    2 <= |l| <= 63 && AllLdh(l)
  }

  /** `(?:label\.)+final`: no label holds a dot, so the labels are exactly
      the pieces between the dots, and there are at least two. */
  predicate IsDottedName(s: string) {
    var parts := Split(s, '.');
    && |parts| >= 2
    && (forall i :: 0 <= i < |parts| - 1 ==> IsLabel(parts[i]))
    && IsFinalLabel(parts[|parts| - 1])
  }

  /** The `hostname` pattern: a dotted name of at most 253 characters. */
  predicate IsHostnamePattern(s: string) {
    1 <= |s| <= MaxHostnameLength && IsDottedName(s)
  }

  /** The `wildcard` pattern: `*.` and a dotted name of at most 251
      characters. */
  predicate IsWildcardPattern(s: string) {
    StartsWith(s, WildcardPrefix) && 1 <= |s| - |WildcardPrefix| <= MaxWildcardNameLength
    && IsDottedName(s[|WildcardPrefix|..])
  }

  predicate IsLocal(lower: string) {
    lower == "localhost" || lower == "127.0.0.1"
  }

  /** The refinement: `localhost`, `127.0.0.1`, a host name or a wildcard
      name. */
  predicate AcceptedForm(lower: string) {
    IsLocal(lower) || IsHostnamePattern(lower) || IsWildcardPattern(lower)
  }

  /** `DomainValueSchema`: the trimmed value must be 1 to 255 characters
      and, lower-cased, be `localhost`, `127.0.0.1`, a host name or a
      wildcard name. The trimmed value is the output. */
  function ParseDomainValue(input: string): (r: Result<string, Issue>)
    ensures r.Ok? ==> r.value == Trim(input)
    ensures r.Ok? <==> 1 <= |Trim(input)| <= MaxValueLength && AcceptedForm(Lower(Trim(input)))
  {
    var value := Trim(input);
    var lower := Lower(value);
    if 1 <= |value| <= MaxValueLength && AcceptedForm(lower)
    then Ok(value)
    else Err(Issue(["value"]))
  }

  /** A row of the allow-list as stored: host name and wildcard flag. */
  datatype StoredDomain = StoredDomain(hostname: string, wildcard: bool)

  /** The stored form of an accepted value: lower-cased, flagged as a
      wildcard exactly when it starts with `*.`, and with that prefix
      removed. */
  function ToStored(value: string): (d: StoredDomain)
    ensures d.wildcard <==> StartsWith(Lower(value), WildcardPrefix)
    ensures Lower(value) == (if d.wildcard then WildcardPrefix + d.hostname else d.hostname)
  {
    var lower := Lower(value);
    var wildcard := StartsWith(lower, WildcardPrefix);
    var hostname := if wildcard then lower[|WildcardPrefix|..] else lower;
    assert wildcard ==> lower == WildcardPrefix + hostname;
    StoredDomain(hostname, wildcard)
  }

  /** The value shown for a stored row: `*.` before the host name of a
      wildcard row. */
  function Display(d: StoredDomain): string {
    if d.wildcard then WildcardPrefix + d.hostname else d.hostname
  }

  /** Storing then displaying gives back the lower-cased value. */
  lemma DisplayOfStored(value: string)
    ensures Display(ToStored(value)) == Lower(value)
  {
  }

  /** Displaying then storing gives back a row whose host name is already
      lower-case and does not itself start with `*.`. */
  lemma StoredOfDisplay(d: StoredDomain)
    requires NoUpper(d.hostname) && !StartsWith(d.hostname, WildcardPrefix)
    ensures ToStored(Display(d)) == d
  {
    LowerMeaning(d.hostname);
    var shown := Display(d);
    if d.wildcard {
      LowerMeaning(shown);
      assert NoUpper(shown) by {
        forall i | 0 <= i < |shown| ensures !('A' <= shown[i] <= 'Z') {
          if i >= 2 {
            assert shown[i] == d.hostname[i - 2];
          }
        }
      }
      assert shown[|WildcardPrefix|..] == d.hostname;
    }
  }

  /** The first character of a dotted name is a letter or digit. */
  lemma DottedNameStart(s: string)
    requires IsDottedName(s)
    ensures s != [] && IsAlnum(s[0]) && IsLdh(s[|s| - 1])
  {
    var parts := Split(s, '.');
    SplitFirstPiece(s, '.');
    assert s[0] == parts[0][0];
    SplitLastPiece(s, '.');
    var last := parts[|parts| - 1];
    assert s[|s| - 1] == last[|last| - 1];
  }

  /** What remains of an accepted lower-case form once a leading `*.` is
      removed is non-empty, trimmed, lower-case and without a `*.` of its
      own. */
  lemma AcceptedFormIsClean(lower: string)
    requires AcceptedForm(lower) && NoUpper(lower)
    ensures var h := if StartsWith(lower, WildcardPrefix) then lower[|WildcardPrefix|..] else lower;
            && h != [] && Trimmed(h) && NoUpper(h) && !StartsWith(h, WildcardPrefix)
  {
    if StartsWith(lower, WildcardPrefix) {
      WildcardFormIsClean(lower);
    } else if !IsLocal(lower) {
      DottedNameStart(lower);
    }
  }

  /** An accepted form that starts with `*.` can only be a wildcard name:
      a host name starts with a letter or digit. */
  lemma WildcardFormIsPattern(lower: string)
    requires AcceptedForm(lower) && StartsWith(lower, WildcardPrefix)
    ensures IsWildcardPattern(lower)
  {
    assert lower[0] == '*';
    if IsHostnamePattern(lower) {
      DottedNameStart(lower);
      assert false;
    }
  }

  lemma WildcardFormIsClean(lower: string)
    requires AcceptedForm(lower) && NoUpper(lower) && StartsWith(lower, WildcardPrefix)
    ensures var h := lower[|WildcardPrefix|..];
            && h != [] && Trimmed(h) && NoUpper(h) && !StartsWith(h, WildcardPrefix)
  {
    WildcardFormIsPattern(lower);
    var h := lower[|WildcardPrefix|..];
    assert IsDottedName(h);
    DottedNameStart(h);
    LdhIsNotWhitespace(h[0]);
    LdhIsNotWhitespace(h[|h| - 1]);
    assert NoUpper(h) by {
      forall i | 0 <= i < |h| ensures !('A' <= h[i] <= 'Z') {
        assert h[i] == lower[i + 2];
      }
    }
  }

  lemma LdhIsNotWhitespace(c: char)
    requires IsLdh(c)
    ensures !IsWhitespace(c) && c != '*'
  {
  }

  /** The host name of every accepted value, once stored, is already in the
      form the collector compares: non-empty, trimmed, lower-case, and
      without a `*.` of its own. */
  lemma StoredHostnameIsClean(input: string)
    requires ParseDomainValue(input).Ok?
    ensures var d := ToStored(Trim(input));
            && d.hostname != [] && Trimmed(d.hostname) && NoUpper(d.hostname)
            && !StartsWith(d.hostname, WildcardPrefix)
  {
    var value := Trim(input);
    LowerMeaning(value);
    AcceptedFormIsClean(Lower(value));
  }

  /** A stored row admits its own host name, whether or not it is a
      wildcard row. */
  lemma StoredRuleAdmitsItsName(input: string)
    requires ParseDomainValue(input).Ok?
    ensures var d := ToStored(Trim(input));
            MatchesDomain(d.hostname, d.hostname, d.wildcard)
  {
    var d := ToStored(Trim(input));
    StoredHostnameIsClean(input);
    CleanMatch(d.hostname, d.hostname);
  }

  /** A form without a dot is accepted only as `localhost`. */
  lemma DotlessForm(lower: string)
    requires '.' !in lower
    ensures AcceptedForm(lower) ==> lower == "localhost"
  {
    SplitWithoutSeparator(lower, '.');
    if |lower| >= 4 {
      assert lower[1] in lower && lower[3] in lower;
    }
  }
}
