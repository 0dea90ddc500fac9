/** The collector's address grammars: `IPV4_REGEX`, `IPV6_REGEX` and
    `isValidIpAddress` of apps/collector/src/hono/app.ts. */
module IpAddress {
  import opened Text

  predicate IsDigit(c: char) {
    '0' <= c <= '9'
  }

  predicate AllDigits(g: string) {
    forall i :: 0 <= i < |g| ==> IsDigit(g[i])
  }

  function DigitValue(c: char): nat
    requires IsDigit(c)
  {
    c as int - '0' as int
  }

  function DigitChar(d: nat): char
    requires d < 10
  {
    ('0' as int + d) as char
  }

  /** The number a string of decimal digits denotes. */
  function DecimalValue(g: string): nat
    requires AllDigits(g)
  {
    if g == [] then 0 else DecimalValue(g[..|g| - 1]) * 10 + DigitValue(g[|g| - 1])
  }

  /** The value of one, two or three digits, written out. */
  lemma DecimalOfShort(g: string)
    requires AllDigits(g) && 1 <= |g| <= 3
    ensures |g| == 1 ==> DecimalValue(g) == DigitValue(g[0])
    ensures |g| == 2 ==> DecimalValue(g) == DigitValue(g[0]) * 10 + DigitValue(g[1])
    ensures |g| == 3 ==> DecimalValue(g) == DigitValue(g[0]) * 100 + DigitValue(g[1]) * 10 + DigitValue(g[2])
  {
    assert g[..1][..0] == [];
    assert DecimalValue(g[..1]) == DigitValue(g[0]);
    if |g| >= 2 {
      assert g[..2][..1] == g[..1];
      assert DecimalValue(g[..2]) == DigitValue(g[0]) * 10 + DigitValue(g[1]);
      if |g| == 3 {
        assert g[..2] == g[..|g| - 1];
      } else {
        assert g[..1] == g[..|g| - 1];
      }
    } else {
      assert g[..0] == g[..|g| - 1];
    }
  }

  /** The usual decimal rendering of a number below 1000. */
  function DecimalString(n: nat): string
    requires n < 1000
  {
    if n < 10 then [DigitChar(n)]
    else if n < 100 then [DigitChar(n / 10), DigitChar(n % 10)]
    else [DigitChar(n / 100), DigitChar(n / 10 % 10), DigitChar(n % 10)]
  }

  // ---------------------------------------------------------------- IPv4

  /** One group of IPV4_REGEX: `25[0-5] | 2[0-4]\d | 1?\d?\d`. */
  predicate IsOctet(g: string) {
    || (|g| == 1 && IsDigit(g[0]))
    || (|g| == 2 && IsDigit(g[0]) && IsDigit(g[1]))
    || (|g| == 3 && g[0] == '1' && IsDigit(g[1]) && IsDigit(g[2]))
    || (|g| == 3 && g[0] == '2' && '0' <= g[1] <= '4' && IsDigit(g[2]))
    || (|g| == 3 && g[0] == '2' && g[1] == '5' && '0' <= g[2] <= '5')
  }

  /** IPV4_REGEX: a group followed by three dot-and-group pairs, anchored at
      both ends. A group holds no dot, so the groups are exactly the pieces
      between the dots. */
  predicate IsIPv4(s: string) {
    var groups := Split(s, '.');
    |groups| == 4 && forall i :: 0 <= i < 4 ==> IsOctet(groups[i])
  }

  /** Every group the IPv4 pattern admits is a decimal number of at most 255. */
  lemma OctetInRange(g: string)
    requires IsOctet(g)
    ensures AllDigits(g) && 1 <= |g| <= 3 && DecimalValue(g) <= 255
  {
    assert AllDigits(g);
    DecimalOfShort(g);
  }

  /** Every number from 0 to 255, written the usual way, is a group the
      pattern admits, and it reads back as the same number. */
  lemma OctetOfNumber(n: nat)
    requires n <= 255
    ensures IsOctet(DecimalString(n)) && AllDigits(DecimalString(n))
    ensures DecimalValue(DecimalString(n)) == n
  {
    DecimalOfShort(DecimalString(n));
  }

  /** A valid IPv4 literal is exactly four dot-separated decimal groups, each
      between 0 and 255. */
  lemma Ipv4Groups(s: string)
    requires IsIPv4(s)
    ensures var groups := Split(s, '.');
            && |groups| == 4
            && s == groups[0] + "." + groups[1] + "." + groups[2] + "." + groups[3]
            && forall i :: 0 <= i < 4 ==> AllDigits(groups[i]) && 1 <= |groups[i]| <= 3 && DecimalValue(groups[i]) <= 255
  {
    var groups := Split(s, '.');
    forall i | 0 <= i < 4
      ensures AllDigits(groups[i]) && 1 <= |groups[i]| <= 3 && DecimalValue(groups[i]) <= 255
    {
      OctetInRange(groups[i]);
    }
    JoinFour(groups, '.');
  }

  function DottedQuad(a: nat, b: nat, c: nat, d: nat): string
    requires a <= 255 && b <= 255 && c <= 255 && d <= 255
  {
    DecimalString(a) + "." + DecimalString(b) + "." + DecimalString(c) + "." + DecimalString(d)
  }

  /** Any four numbers from 0 to 255, written in dotted-decimal form, are a
      valid IPv4 literal. */
  lemma DottedQuadIsIpv4(a: nat, b: nat, c: nat, d: nat)
    requires a <= 255 && b <= 255 && c <= 255 && d <= 255
    ensures IsIPv4(DottedQuad(a, b, c, d))
  {
    var groups := [DecimalString(a), DecimalString(b), DecimalString(c), DecimalString(d)];
    OctetOfNumber(a);
    OctetOfNumber(b);
    OctetOfNumber(c);
    OctetOfNumber(d);
    JoinFour(groups, '.');
    forall i | 0 <= i < 4 ensures '.' !in groups[i] {
      assert AllDigits(groups[i]);
    }
    SplitJoin(groups, '.');
  }

  predicate DigitsAndDots(s: string) {
    forall i :: 0 <= i < |s| ==> IsDigit(s[i]) || s[i] == '.'
  }

  lemma {:induction false} JoinOfDigits(parts: seq<string>)
    requires forall i :: 0 <= i < |parts| ==> AllDigits(parts[i])
    ensures DigitsAndDots(Join(parts, '.'))
  {
    if |parts| > 1 {
      JoinOfDigits(parts[1..]);
      var rest := Join(parts[1..], '.');
      var s := parts[0] + "." + rest;
      forall i | 0 <= i < |s| ensures IsDigit(s[i]) || s[i] == '.' {
        if i < |parts[0]| {
          assert s[i] == parts[0][i];
        } else if i > |parts[0]| {
          assert s[i] == rest[i - |parts[0]| - 1];
        }
      }
    }
  }

  /** An IPv4 literal is made of digits and dots only. */
  lemma Ipv4Alphabet(s: string)
    requires IsIPv4(s)
    ensures DigitsAndDots(s) && |s| >= 7
  {
    var groups := Split(s, '.');
    forall i | 0 <= i < 4 ensures AllDigits(groups[i]) {
      OctetInRange(groups[i]);
    }
    JoinOfDigits(groups);
    Ipv4Groups(s);
  }

  // ---------------------------------------------------------------- IPv6

  predicate IsHexDigit(c: char) {
    IsDigit(c) || 'a' <= c <= 'f' || 'A' <= c <= 'F'
  }

  /** `[0-9a-fA-F]{1,4}` */
  predicate IsHexGroup(g: string) {
    1 <= |g| <= 4 && forall i :: 0 <= i < |g| ==> IsHexDigit(g[i])
  }

  /** `s` matches `(?:[0-9a-fA-F]{1,4}:){n}`. */
  predicate LeadGroups(s: string, n: nat) {
    if n == 0 then s == []
    else exists k {:trigger s[..k]} :: 1 <= k <= 4 && k < |s| && s[k] == ':' && IsHexGroup(s[..k]) && LeadGroups(s[k + 1..], n - 1)
  }

  /** `s` matches `(?::[0-9a-fA-F]{1,4}){n}`. */
  predicate TrailGroups(s: string, n: nat) {
    if n == 0 then s == []
    else |s| >= 2 && s[0] == ':' && exists k :: 2 <= k <= 5 && k <= |s| && IsHexGroup(s[1..k]) && TrailGroups(s[k..], n - 1)
  }

  /** `(?:H:){lo,hi}` */
  predicate LeadRepeat(s: string, lo: nat, hi: nat) {
    exists n :: lo <= n <= hi && LeadGroups(s, n)
  }

  /** `(?::H){lo,hi}` */
  predicate TrailRepeat(s: string, lo: nat, hi: nat) {
    exists n :: lo <= n <= hi && TrailGroups(s, n)
  }

  /** `(?:H:){1,maxLead}(?::H){1,maxTrail}`: groups before and after one `::`. */
  predicate Compressed(s: string, maxLead: nat, maxTrail: nat) {
    exists j :: 0 <= j <= |s| && LeadRepeat(s[..j], 1, maxLead) && TrailRepeat(s[j..], 1, maxTrail)
  }

  /** IPV6_REGEX, alternative by alternative. */
  predicate IsIPv6(s: string) {
    // (?:H:){7}H
    || (exists j :: 0 <= j <= |s| && LeadGroups(s[..j], 7) && IsHexGroup(s[j..]))
    // (?:H:){1,7}:
    || (|s| >= 1 && s[|s| - 1] == ':' && LeadRepeat(s[..|s| - 1], 1, 7))
    // (?:H:){1,6}:H  ...  H:(?:(?::H){1,6})
    || Compressed(s, 6, 1)
    || Compressed(s, 5, 2)
    || Compressed(s, 4, 3)
    || Compressed(s, 3, 4)
    || Compressed(s, 2, 5)
    || Compressed(s, 1, 6)
    // :(?:(?::H){1,7}|:)
    || (|s| >= 1 && s[0] == ':' && (TrailRepeat(s[1..], 1, 7) || s[1..] == ":"))
  }

  predicate HexOrColon(s: string) {
    forall i :: 0 <= i < |s| ==> IsHexDigit(s[i]) || s[i] == ':'
  }

  /** A `::` starts at index `i` of `s`. */
  predicate DoubleColonAt(s: string, i: int) {
    0 <= i < |s| - 1 && s[i] == ':' && s[i + 1] == ':'
  }

  /** Five hex digits in a row start at index `i` of `s`: a group too long. */
  predicate LongRunAt(s: string, i: int) {
    0 <= i && i + 5 <= |s| && forall k :: i <= k < i + 5 ==> IsHexDigit(s[k])
  }

  /** The number of groups in `s`: its maximal runs of hex digits. */
  function GroupCount(s: string): nat {
    if s == [] then 0
    else GroupCount(s[..|s| - 1]) + (if IsHexDigit(s[|s| - 1]) && (|s| == 1 || !IsHexDigit(s[|s| - 2])) then 1 else 0)
  }

  ghost predicate NoDoubleColon(s: string) {
    forall i :: !DoubleColonAt(s, i)
  }

  ghost predicate NoLongRun(s: string) {
    forall i :: !LongRunAt(s, i)
  }

  ghost predicate AtMostOneDoubleColon(s: string) {
    forall i, j :: DoubleColonAt(s, i) && DoubleColonAt(s, j) ==> i == j
  }

  /** Hex digits and single colons, no group longer than four digits. */
  ghost predicate Piece(s: string) {
    HexOrColon(s) && NoDoubleColon(s) && NoLongRun(s)
  }

  lemma {:induction false} HexRunCount(g: string)
    requires 1 <= |g| && forall i :: 0 <= i < |g| ==> IsHexDigit(g[i])
    ensures GroupCount(g) == 1
  {
    if |g| > 1 {
      HexRunCount(g[..|g| - 1]);
    }
  }

  /** Groups add up across a seam that a non-digit separates. */
  lemma {:induction false} ConcatCount(x: string, y: string)
    requires x == [] || y == [] || !IsHexDigit(x[|x| - 1]) || !IsHexDigit(y[0])
    ensures GroupCount(x + y) == GroupCount(x) + GroupCount(y)
    decreases |y|
  {
    var s := x + y;
    if y == [] {
      assert s == x;
    } else {
      assert s[..|s| - 1] == x + y[..|y| - 1];
      if |y| > 1 {
        ConcatCount(x, y[..|y| - 1]);
        assert s[|s| - 2] == y[|y| - 2];
      } else {
        assert x + y[..|y| - 1] == x;
        assert y[..|y| - 1] == [];
        if x != [] {
          assert s[|s| - 2] == x[|x| - 1];
        }
      }
    }
  }

  /** A hex group with a colon after it or before it. */
  lemma GroupWithColon(g: string)
    requires IsHexGroup(g)
    ensures Piece(g + ":") && GroupCount(g + ":") == 1
    ensures Piece(":" + g) && GroupCount(":" + g) == 1
  {
    var x, y := g + ":", ":" + g;
    forall i | 0 <= i < |g| ensures x[i] == g[i] && y[i + 1] == g[i] {
    }
    forall i | 0 <= i && i + 5 <= |x| ensures !LongRunAt(x, i) {
      assert x[|g|] == ':';
    }
    forall i | 0 <= i && i + 5 <= |y| ensures !LongRunAt(y, i) {
      assert y[0] == ':';
    }
    HexRunCount(g);
    assert GroupCount(":") == 0;
    ConcatCount(g, ":");
    ConcatCount(":", g);
  }

  lemma ConcatRuns(x: string, y: string)
    requires NoLongRun(x) && NoLongRun(y)
    requires x == [] || y == [] || x[|x| - 1] == ':' || y[0] == ':'
    ensures NoLongRun(x + y)
  {
    var s := x + y;
    forall i | 0 <= i && i + 5 <= |s| ensures !LongRunAt(s, i) {
      if i + 5 <= |x| {
        assert !LongRunAt(x, i);
        var k :| i <= k < i + 5 && !IsHexDigit(x[k]);
        assert s[k] == x[k];
      } else if i >= |x| {
        assert !LongRunAt(y, i - |x|);
        var k :| i - |x| <= k < i - |x| + 5 && !IsHexDigit(y[k]);
        assert s[k + |x|] == y[k];
      } else if x[|x| - 1] == ':' {
        assert s[|x| - 1] == ':';
      } else {
        assert s[|x|] == y[0];
      }
    }
  }

  /** Gluing two pieces at a colon: the groups add up, no group grows, and
      any `::` of the whole straddles the seam. */
  lemma Concat(x: string, y: string)
    requires Piece(x) && Piece(y)
    requires x == [] || y == [] || x[|x| - 1] == ':' || y[0] == ':'
    ensures HexOrColon(x + y) && NoLongRun(x + y)
    ensures forall i :: DoubleColonAt(x + y, i) ==> i == |x| - 1
    ensures GroupCount(x + y) == GroupCount(x) + GroupCount(y)
  {
    var s := x + y;
    forall i | 0 <= i < |s| ensures IsHexDigit(s[i]) || s[i] == ':' {
      if i >= |x| {
        assert s[i] == y[i - |x|];
      }
    }
    forall i | i != |x| - 1 ensures !DoubleColonAt(s, i) {
      if 0 <= i < |x| - 1 {
        assert s[i] == x[i] && s[i + 1] == x[i + 1];
        assert !DoubleColonAt(x, i);
      } else if |x| <= i < |s| - 1 {
        assert s[i] == y[i - |x|] && s[i + 1] == y[i - |x| + 1];
        assert !DoubleColonAt(y, i - |x|);
      }
    }
    ConcatRuns(x, y);
    ConcatCount(x, y);
  }

  /** The first group of a non-empty `(?:H:){n}`. */
  lemma LeadFirst(s: string, n: nat) returns (g: string, rest: string)
    requires n > 0 && LeadGroups(s, n)
    ensures IsHexGroup(g) && LeadGroups(rest, n - 1) && s == (g + ":") + rest
  {
    var k :| 1 <= k <= 4 && k < |s| && s[k] == ':' && IsHexGroup(s[..k]) && LeadGroups(s[k + 1..], n - 1);
    g, rest := s[..k], s[k + 1..];
    assert s == (g + ":") + rest;
  }

  /** The first group of a non-empty `(?::H){n}`. */
  lemma TrailFirst(s: string, n: nat) returns (g: string, rest: string)
    requires n > 0 && TrailGroups(s, n)
    ensures IsHexGroup(g) && TrailGroups(rest, n - 1) && s == (":" + g) + rest
  {
    var k :| 2 <= k <= 5 && k <= |s| && IsHexGroup(s[1..k]) && TrailGroups(s[k..], n - 1);
    g, rest := s[1..k], s[k..];
    assert s == (":" + g) + rest;
  }

  lemma {:induction false} LeadShape(s: string, n: nat)
    requires LeadGroups(s, n)
    ensures Piece(s) && GroupCount(s) == n && 2 * n <= |s| <= 5 * n
    ensures n > 0 ==> IsHexDigit(s[0]) && s[|s| - 1] == ':'
    decreases n
  {
    if n > 0 {
      var g, rest := LeadFirst(s, n);
      LeadShape(rest, n - 1);
      GroupWithColon(g);
      Concat(g + ":", rest);
      assert s[0] == g[0];
      if rest != [] {
        assert s[|g| + 1] == rest[0];
      }
      assert !DoubleColonAt(s, |g|);
    } else {
      assert GroupCount(s) == 0;
    }
  }

  lemma {:induction false} TrailShape(s: string, n: nat)
    requires TrailGroups(s, n)
    ensures Piece(s) && GroupCount(s) == n && 2 * n <= |s| <= 5 * n
    ensures n > 0 ==> s[0] == ':' && IsHexDigit(s[|s| - 1])
    decreases n
  {
    if n > 0 {
      var g, rest := TrailFirst(s, n);
      TrailShape(rest, n - 1);
      GroupWithColon(g);
      Concat(":" + g, rest);
      assert s[|g|] == g[|g| - 1];
      if rest != [] {
        assert s[|s| - 1] == rest[|rest| - 1];
      }
      assert !DoubleColonAt(s, |g|);
    } else {
      assert GroupCount(s) == 0;
    }
  }

  /** The shape of `(?:H:){1,lead}(?::H){1,trail}` with at most seven groups. */
  lemma CompressedShape(s: string, lead: nat, trail: nat)
    requires Compressed(s, lead, trail) && lead + trail <= 7
    ensures Ipv6Like(s) && GroupCount(s) <= 7
  {
    var j :| 0 <= j <= |s| && LeadRepeat(s[..j], 1, lead) && TrailRepeat(s[j..], 1, trail);
    var a :| 1 <= a <= lead && LeadGroups(s[..j], a);
    var b :| 1 <= b <= trail && TrailGroups(s[j..], b);
    var x, y := s[..j], s[j..];
    assert s == x + y;
    LeadShape(x, a);
    TrailShape(y, b);
    Concat(x, y);
    assert s[j - 1] == x[j - 1];
  }

  /** The facts every IPv6 literal shares, see `Ipv6Shape`. */
  ghost predicate Ipv6Like(s: string) {
    HexOrColon(s) && ':' in s && 2 <= |s| <= 39
    && NoLongRun(s) && GroupCount(s) <= 8 && AtMostOneDoubleColon(s)
  }

  /** `(?:H:){7}H` */
  lemma FullFormShape(s: string, j: int)
    requires 0 <= j <= |s| && LeadGroups(s[..j], 7) && IsHexGroup(s[j..])
    ensures Ipv6Like(s)
  {
    var x, y := s[..j], s[j..];
    assert s == x + y;
    LeadShape(x, 7);
    HexRunCount(y);
    Concat(x, y);
    assert s[|x|] == y[0];
    assert s[|x| - 1] == x[|x| - 1];
    assert !DoubleColonAt(s, |x| - 1);
  }

  /** `(?:H:){1,7}:` */
  lemma TrailingColonShape(s: string)
    requires |s| >= 1 && s[|s| - 1] == ':' && LeadRepeat(s[..|s| - 1], 1, 7)
    ensures Ipv6Like(s)
  {
    var n :| 1 <= n <= 7 && LeadGroups(s[..|s| - 1], n);
    var x, y := s[..|s| - 1], ":";
    assert s == x + y;
    LeadShape(x, n);
    assert GroupCount(y) == 0;
    Concat(x, y);
  }

  /** `:(?::H){1,7}` */
  lemma LeadingColonShape(s: string)
    requires |s| >= 1 && s[0] == ':' && TrailRepeat(s[1..], 1, 7)
    ensures Ipv6Like(s)
  {
    var b :| 1 <= b <= 7 && TrailGroups(s[1..], b);
    var x, y := ":", s[1..];
    assert s == x + y;
    TrailShape(y, b);
    assert GroupCount(x) == 0;
    Concat(x, y);
  }

  /** `::`, the unspecified address. */
  lemma UnspecifiedShape()
    ensures Ipv6Like("::")
  {
    assert GroupCount("::"[..1]) == 0;
    assert DoubleColonAt("::", 0);
  }

  /** What every literal the IPv6 pattern admits looks like: hex digits and
      colons only, at least one colon, no group of more than four digits, at
      most eight groups, at most one `::` compression, and no longer than the
      39 characters of eight full groups. */
  lemma Ipv6Shape(s: string)
    requires IsIPv6(s)
    ensures Ipv6Like(s)
  {
    if j :| 0 <= j <= |s| && LeadGroups(s[..j], 7) && IsHexGroup(s[j..]) {
      FullFormShape(s, j);
    } else if |s| >= 1 && s[|s| - 1] == ':' && LeadRepeat(s[..|s| - 1], 1, 7) {
      TrailingColonShape(s);
    } else if |s| >= 1 && s[0] == ':' && s[1..] == ":" {
      assert s == "::";
      UnspecifiedShape();
    } else if |s| >= 1 && s[0] == ':' && TrailRepeat(s[1..], 1, 7) {
      LeadingColonShape(s);
    } else if Compressed(s, 6, 1) {
      CompressedShape(s, 6, 1);
    } else if Compressed(s, 5, 2) {
      CompressedShape(s, 5, 2);
    } else if Compressed(s, 4, 3) {
      CompressedShape(s, 4, 3);
    } else if Compressed(s, 3, 4) {
      CompressedShape(s, 3, 4);
    } else if Compressed(s, 2, 5) {
      CompressedShape(s, 2, 5);
    } else {
      CompressedShape(s, 1, 6);
    }
  }

  // ---------------------------------------------------------------- both

  /** `isValidIpAddress`. */
  predicate IsValidIp(s: string) {
    IsIPv4(s) || IsIPv6(s)
  }

  /** No string is both an IPv4 and an IPv6 literal. */
  lemma Ipv4IsNotIpv6(s: string)
    requires IsIPv4(s)
    ensures !IsIPv6(s)
  {
    Ipv4Alphabet(s);
    forall i | 0 <= i < |s| ensures s[i] != ':' {
      assert IsDigit(s[i]) || s[i] == '.';
    }
    if IsIPv6(s) {
      Ipv6Shape(s);
    }
  }

  /** A valid address is never empty, never carries whitespace and never a
      comma, so it cannot smuggle a second list entry. */
  lemma ValidIpShape(s: string)
    requires IsValidIp(s)
    ensures s != [] && NoWhitespace(s) && ',' !in s
  {
    if IsIPv4(s) {
      Ipv4Alphabet(s);
      forall i | 0 <= i < |s| ensures !IsWhitespace(s[i]) && s[i] != ',' {
        assert IsDigit(s[i]) || s[i] == '.';
      }
    } else {
      Ipv6Shape(s);
      forall i | 0 <= i < |s| ensures !IsWhitespace(s[i]) && s[i] != ',' {
        assert IsHexDigit(s[i]) || s[i] == ':';
      }
    }
  }

  /** A private-range literal is accepted. */
  lemma Ipv4Accepts()
    ensures IsIPv4("192.168.1.1")
  {
    DottedQuadIsIpv4(192, 168, 1, 1);
    assert DecimalString(192) == "192";
    assert DecimalString(168) == "168";
    assert DecimalString(1) == "1";
    assert DottedQuad(192, 168, 1, 1) == "192.168.1.1";
  }

  /** A group above 255 is rejected. */
  lemma Ipv4RejectsLargeGroup()
    ensures !IsIPv4("256.1.1.1")
  {
    assert "256.1.1.1" == "256" + ['.'] + "1.1.1";
    SplitAtFirst("256", "1.1.1", '.');
  }

  /** Three groups are too few. */
  lemma Ipv4RejectsThreeGroups()
    ensures !IsIPv4("1.2.3")
  {
    var parts := ["1", "2", "3"];
    assert parts[1..][1..] == ["3"];
    assert Join(parts, '.') == "1.2.3";
    SplitJoin(parts, '.');
  }

  /** `::1`, the loopback address. */
  lemma Ipv6AcceptsLoopback()
    ensures IsIPv6("::1")
  {
    var one := ":1";
    assert IsHexGroup(one[1..2]) && TrailGroups(one[2..], 0);
    assert TrailGroups(one, 1);
    assert "::1"[1..] == one;
  }

  /** A compressed address with groups on both sides. */
  lemma Ipv6AcceptsCompressed()
    ensures IsIPv6("2001:db8::1")
  {
    var s := "2001:db8::1";
    var lead, one := "2001:db8:", ":1";
    assert s[..9] == lead && s[9..] == one;
    assert IsHexGroup(one[1..2]) && TrailGroups(one[2..], 0);
    assert TrailGroups(one, 1);
    var rest := lead[5..];
    assert rest == "db8:" && IsHexGroup(rest[..3]) && rest[4..] == [];
    assert LeadGroups(rest[4..], 0);
    assert LeadGroups(rest, 1);
    assert IsHexGroup(lead[..4]) && lead[4] == ':';
    assert LeadGroups(lead, 2);
    assert LeadRepeat(s[..9], 1, 6) && TrailRepeat(s[9..], 1, 1);
    assert Compressed(s, 6, 1);
  }

  /** A trailing `::`. */
  lemma Ipv6AcceptsTrailingCompression()
    ensures IsIPv6("fe80::")
  {
    var t := "fe80::";
    var lead := t[..|t| - 1];
    assert lead == "fe80:" && IsHexGroup(lead[..4]) && lead[5..] == [];
    assert LeadGroups(lead[5..], 0);
    assert LeadGroups(lead, 1);
  }

  /** Two compressions are rejected. */
  lemma Ipv6RejectsTwoCompressions()
    ensures !IsIPv6("1::2::3")
  {
    var u := "1::2::3";
    assert DoubleColonAt(u, 1) && DoubleColonAt(u, 4);
    if IsIPv6(u) {
      Ipv6Shape(u);
    }
  }

  /** A group of five digits is rejected. */
  lemma Ipv6RejectsLongGroup()
    ensures !IsIPv6("12345::1")
  {
    var v := "12345::1";
    assert LongRunAt(v, 0);
    if IsIPv6(v) {
      Ipv6Shape(v);
    }
  }

  /** The IPv4-mapped spelling is not an IPv6 literal for the pattern. */
  lemma Ipv6RejectsMapped()
    ensures !IsIPv6("::ffff:192.0.2.1")
  {
    var w := "::ffff:192.0.2.1";
    assert !IsHexDigit(w[10]) && w[10] != ':';
    if IsIPv6(w) {
      Ipv6Shape(w);
    }
  }
}
