/** The JavaScript string operations the collector and the dashboard rely on:
    `trim`, `toLowerCase`, `split`, `startsWith`, `endsWith`, `includes`, and a
    code-point order standing in for `localeCompare`. */
module Text {

  /** JavaScript's WhiteSpace and LineTerminator code points: exactly what
      `String.prototype.trim` removes. */
  predicate IsWhitespace(c: char) {
    var n := c as int;
    n == 0x09 || n == 0x0A || n == 0x0B || n == 0x0C || n == 0x0D || n == 0x20
    || n == 0xA0 || n == 0x1680 || (0x2000 <= n <= 0x200A) || n == 0x2028
    || n == 0x2029 || n == 0x202F || n == 0x205F || n == 0x3000 || n == 0xFEFF
  }

  predicate NoWhitespace(s: string) {
    forall i :: 0 <= i < |s| ==> !IsWhitespace(s[i])
  }

  /** Neither end of `s` is whitespace: `s` is its own `trim()`. */
  predicate Trimmed(s: string) {
    s != [] ==> !IsWhitespace(s[0]) && !IsWhitespace(s[|s| - 1])
  }

  /** The first index at or after `i` that is not whitespace, or `|s|`. */
  function TrimStartIndex(s: string, i: nat): (k: nat)
    requires i <= |s|
    ensures i <= k <= |s|
    ensures forall m :: i <= m < k ==> IsWhitespace(s[m])
    ensures k < |s| ==> !IsWhitespace(s[k])
    decreases |s| - i
  {
    if i < |s| && IsWhitespace(s[i]) then TrimStartIndex(s, i + 1) else i
  }

  /** One past the last index before `j`, and not below `lo`, that is not
      whitespace. */
  function TrimEndIndex(s: string, lo: nat, j: nat): (k: nat)
    requires lo <= j <= |s|
    ensures lo <= k <= j
    ensures forall m :: k <= m < j ==> IsWhitespace(s[m])
    ensures k > lo ==> !IsWhitespace(s[k - 1])
    decreases j
  {
    if j > lo && IsWhitespace(s[j - 1]) then TrimEndIndex(s, lo, j - 1) else j
  }

  /** `s.trim()`: the longest slice of `s` whose ends are not whitespace,
      obtained by removing only whitespace. */
  function Trim(s: string): (r: string)
    ensures Trimmed(r) && |r| <= |s|
  {
    var a := TrimStartIndex(s, 0);
    s[a..TrimEndIndex(s, a, |s|)]
  }

  /** What `trim()` keeps is a slice of the string, and only whitespace
      lies around it. */
  lemma TrimSlice(s: string)
    ensures exists k :: OccursAt(s, Trim(s), k)
              && (forall i :: 0 <= i < k ==> IsWhitespace(s[i]))
              && (forall i :: k + |Trim(s)| <= i < |s| ==> IsWhitespace(s[i]))
  {
    var k := TrimStartIndex(s, 0);
    assert OccursAt(s, Trim(s), k);
  }

  predicate AllWhitespace(s: string) {
    forall i :: 0 <= i < |s| ==> IsWhitespace(s[i])
  }

  /** `trim()` removes exactly the whitespace around a string whose ends
      are not whitespace. */
  lemma TrimOfPadded(a: string, s: string, b: string)
    requires AllWhitespace(a) && AllWhitespace(b) && Trimmed(s) && s != []
    ensures Trim(a + s + b) == s
  {
    var t := a + s + b;
    StartIndexAt(t, 0, |a|);
    EndIndexAt(t, |a|, |t|, |a| + |s|);
    assert t[|a|..|a| + |s|] == s;
  }

  lemma {:induction false} StartIndexAt(s: string, i: nat, k: nat)
    requires i <= k < |s|
    requires forall m :: i <= m < k ==> IsWhitespace(s[m])
    requires !IsWhitespace(s[k])
    ensures TrimStartIndex(s, i) == k
    decreases k - i
  {
    if i < k {
      StartIndexAt(s, i + 1, k);
    }
  }

  lemma {:induction false} EndIndexAt(s: string, lo: nat, j: nat, k: nat)
    requires lo < k <= j <= |s|
    requires forall m :: k <= m < j ==> IsWhitespace(s[m])
    requires !IsWhitespace(s[k - 1])
    ensures TrimEndIndex(s, lo, j) == k
    decreases j - k
  {
    if k < j {
      EndIndexAt(s, lo, j - 1, k);
    }
  }

  /** A string whose ends are not whitespace is left alone by `trim()`. */
  lemma TrimOfTrimmed(s: string)
    requires Trimmed(s)
    ensures Trim(s) == s
  {
    if s != [] {
      TrimOfPadded([], s, []);
      assert [] + s + [] == s;
    }
  }

  /** `trim()` of a string of only whitespace is empty. */
  lemma TrimOfBlank(s: string)
    requires AllWhitespace(s)
    ensures Trim(s) == []
  {
  }

  function LowerChar(c: char): char {
    if 'A' <= c <= 'Z' then (c as int + 32) as char else c
  }

  /** `s.toLowerCase()`, restricted to the ASCII letters. */
  function Lower(s: string): (r: string)
    ensures |r| == |s|
  {
    if s == [] then [] else [LowerChar(s[0])] + Lower(s[1..])
  }

  /** Lower-casing works character by character. */
  lemma {:induction false} LowerAt(s: string)
    ensures forall i :: 0 <= i < |s| ==> Lower(s)[i] == LowerChar(s[i])
  {
    if s != [] {
      LowerAt(s[1..]);
    }
  }

  /** Lower-casing keeps the whitespace of a string where it was. */
  lemma LowerKeepsWhitespace(s: string)
    ensures forall i :: 0 <= i < |s| ==> (IsWhitespace(Lower(s)[i]) <==> IsWhitespace(s[i]))
    ensures Trimmed(s) ==> Trimmed(Lower(s))
    ensures NoWhitespace(s) ==> NoWhitespace(Lower(s))
  {
    LowerAt(s);
  }

  /** No ASCII capital letter in `s`. */
  predicate NoUpper(s: string) {
    forall i :: 0 <= i < |s| ==> !('A' <= s[i] <= 'Z')
  }

  /** Lower-casing leaves no capital letter behind, and changes nothing in
      a string that has none. */
  lemma LowerMeaning(s: string)
    ensures NoUpper(Lower(s))
    ensures NoUpper(s) ==> Lower(s) == s
  {
    LowerAt(s);
  }

  /** Lower-casing twice is lower-casing once. */
  lemma LowerIdempotent(s: string)
    ensures Lower(Lower(s)) == Lower(s)
  {
    LowerMeaning(s);
    LowerMeaning(Lower(s));
  }

  function StartsWith(s: string, prefix: string): bool {
    |prefix| <= |s| && s[..|prefix|] == prefix
  }

  function EndsWith(s: string, suffix: string): bool {
    |suffix| <= |s| && s[|s| - |suffix|..] == suffix
  }

  /** `s.includes(t)`; the empty string is included in every string. */
  predicate Contains(s: string, t: string) {
    exists i :: 0 <= i <= |s| && OccursAt(s, t, i)
  }

  /** `t` is the slice of `s` that starts at index `i`. */
  predicate OccursAt(s: string, t: string, i: int) {
    0 <= i && i + |t| <= |s| && s[i..i + |t|] == t
  }

  /** A slice of a slice is a slice of the whole. */
  lemma OccursAtTrans(s: string, t: string, u: string, i: int, j: int)
    requires OccursAt(s, t, i) && OccursAt(t, u, j)
    ensures OccursAt(s, u, i + j)
  {
    forall m | 0 <= m < |u| ensures s[i + j + m] == u[m] {
      assert u[m] == t[j + m] == s[i + j + m];
    }
    assert s[i + j..i + j + |u|] == u;
  }

  /** A slice of a string free of `c` is free of `c`. */
  lemma SliceLacks(s: string, t: string, k: int, c: char)
    requires OccursAt(s, t, k) && c !in s
    ensures c !in t
  {
    forall m | 0 <= m < |t| ensures t[m] != c {
      assert t[m] == s[k + m];
    }
  }

  function Join(parts: seq<string>, sep: char): string {
    if |parts| == 0 then []
    else if |parts| == 1 then parts[0]
    else parts[0] + [sep] + Join(parts[1..], sep)
  }

  lemma JoinFour(parts: seq<string>, sep: char)
    requires |parts| == 4
    ensures Join(parts, sep) == parts[0] + [sep] + parts[1] + [sep] + parts[2] + [sep] + parts[3]
  {
    assert parts[1..][1..] == parts[2..] && parts[2..][1..] == parts[3..] && parts[3..] == [parts[3]];
    assert Join(parts[2..], sep) == parts[2] + [sep] + parts[3];
    assert Join(parts[1..], sep) == parts[1] + [sep] + (parts[2] + [sep] + parts[3]);
  }

  /** `s.split(sep)`: the pieces between separators, at least one of them,
      none containing the separator, and joined back they give `s`. */
  function Split(s: string, sep: char): (parts: seq<string>)
    ensures |parts| >= 1
    ensures forall i :: 0 <= i < |parts| ==> sep !in parts[i]
    ensures Join(parts, sep) == s
  {
    if s == [] then [[]]
    else
      var rest := Split(s[1..], sep);
      if s[0] == sep then
        assert ([[]] + rest)[1..] == rest;
        [[]] + rest
      else
        var parts := [[s[0]] + rest[0]] + rest[1..];
        assert parts[1..] == rest[1..];
        assert |rest| > 1 ==> Join(rest, sep) == rest[0] + [sep] + Join(rest[1..], sep);
        assert s == [s[0]] + s[1..];
        parts
  }

  /** The first piece of a split is where the string starts. */
  lemma SplitFirstPiece(s: string, sep: char)
    ensures OccursAt(s, Split(s, sep)[0], 0)
  {
    var parts := Split(s, sep);
    if |parts| > 1 {
      assert s == parts[0] + ([sep] + Join(parts[1..], sep));
    }
  }

  /** The last piece of a split is where the string ends. */
  lemma {:induction false} SplitLastPiece(s: string, sep: char)
    ensures var parts := Split(s, sep);
            OccursAt(s, parts[|parts| - 1], |s| - |parts[|parts| - 1]|)
  {
    var parts := Split(s, sep);
    JoinLastPiece(parts, sep);
  }

  lemma {:induction false} JoinLastPiece(parts: seq<string>, sep: char)
    requires |parts| >= 1
    ensures var s := Join(parts, sep);
            OccursAt(s, parts[|parts| - 1], |s| - |parts[|parts| - 1]|)
  {
    if |parts| > 1 {
      JoinLastPiece(parts[1..], sep);
      var rest := Join(parts[1..], sep);
      var s := parts[0] + [sep] + rest;
      var last := parts[|parts| - 1];
      assert s[|s| - |last|..] == rest[|rest| - |last|..];
    }
  }

  lemma {:induction false} SplitWithoutSeparator(a: string, sep: char)
    requires sep !in a
    ensures Split(a, sep) == [a]
  {
    if a != [] {
      SplitWithoutSeparator(a[1..], sep);
    }
  }

  /** Splitting at the first separator: the piece before it comes first and
      the rest is split on its own. */
  lemma {:induction false} SplitAtFirst(a: string, b: string, sep: char)
    requires sep !in a
    ensures Split(a + [sep] + b, sep) == [a] + Split(b, sep)
  {
    var s := a + [sep] + b;
    if a == [] {
      assert s[1..] == b;
    } else {
      assert s[1..] == a[1..] + [sep] + b;
      SplitAtFirst(a[1..], b, sep);
      assert [a[0]] + a[1..] == a;
    }
  }

  /** Joining pieces free of the separator and splitting again gives the
      pieces back. */
  lemma {:induction false} SplitJoin(parts: seq<string>, sep: char)
    requires |parts| >= 1
    requires forall i :: 0 <= i < |parts| ==> sep !in parts[i]
    ensures Split(Join(parts, sep), sep) == parts
  {
    if |parts| == 1 {
      SplitWithoutSeparator(parts[0], sep);
    } else {
      SplitJoin(parts[1..], sep);
      SplitAtFirst(parts[0], Join(parts[1..], sep), sep);
    }
  }

  /** Code-point lexicographic order on strings. */
  predicate LexLeq(a: string, b: string) {
    a == [] || (b != [] && (a[0] < b[0] || (a[0] == b[0] && LexLeq(a[1..], b[1..]))))
  }

  lemma {:induction false} LexLeqTotal(a: string, b: string)
    ensures LexLeq(a, b) || LexLeq(b, a)
  {
    if a != [] && b != [] && a[0] == b[0] {
      LexLeqTotal(a[1..], b[1..]);
    }
  }

  lemma {:induction false} LexLeqTransitive(a: string, b: string, c: string)
    requires LexLeq(a, b) && LexLeq(b, c)
    ensures LexLeq(a, c)
  {
    if a != [] && a[0] == b[0] && b[0] == c[0] {
      LexLeqTransitive(a[1..], b[1..], c[1..]);
    }
  }
}
