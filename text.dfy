/**
 * The string operations the actions rely on: JavaScript's `trim`, `split` and
 * `join`, decimal rendering of integers, and the store's case-insensitive
 * pattern match (`ilike`) with its `%` and `_` wildcards.
 */
module Text {

  // ---------------------------------------------------------------------------
  // Substrings and prefixes

  /** `q` occurs in `s` as a contiguous substring (`s.includes(q)`). */
  predicate Contains(s: string, q: string) {
    exists i | 0 <= i <= |s| - |q| :: OccursAt(s, q, i)
  }

  /** `q` occurs in `s` starting at position `i`. */
  predicate OccursAt(s: string, q: string, i: int) {
    0 <= i && i + |q| <= |s| && s[i..i + |q|] == q
  }

  /** One step of the substring search: at the front, or somewhere in the tail. */
  lemma ContainsStep(s: string, q: string)
    ensures Contains(s, q) <==> q <= s || (s != [] && Contains(s[1..], q))
  {
    if Contains(s, q) {
      var i :| 0 <= i <= |s| - |q| && OccursAt(s, q, i);
      if i > 0 {
        assert s[1..][i - 1..i - 1 + |q|] == q;
        assert OccursAt(s[1..], q, i - 1);
      }
    }
    if q <= s {
      assert OccursAt(s, q, 0);
    } else if s != [] && Contains(s[1..], q) {
      var t := s[1..];
      var j :| 0 <= j <= |t| - |q| && OccursAt(t, q, j);
      assert 0 <= j && j + |q| <= |t| && t[j..j + |q|] == q;
      assert s[j + 1..j + 1 + |q|] == t[j..j + |q|];
      assert OccursAt(s, q, j + 1);
    }
  }

  /** Every string contains itself. */
  lemma ContainsSelf(s: string)
    ensures Contains(s, s)
  {
    assert OccursAt(s, s, 0);
  }

  // ---------------------------------------------------------------------------
  // trim

  /** The characters `String.prototype.trim` removes: ECMAScript WhiteSpace and LineTerminator. */
  predicate IsJsWhitespace(c: char) {
    || c == '\t' || c == '\n' || c == '\U{000B}' || c == '\U{000C}' || c == '\r' || c == ' '
    || c == '\U{00A0}' || c == '\U{1680}' || ('\U{2000}' <= c <= '\U{200A}')
    || c == '\U{2028}' || c == '\U{2029}' || c == '\U{202F}' || c == '\U{205F}'
    || c == '\U{3000}' || c == '\U{FEFF}'
  }

  /** `s` without its leading whitespace: a suffix of `s`. */
  function TrimStart(s: string): (r: string)
    ensures |r| <= |s| && r == s[|s| - |r|..]
    ensures forall i :: 0 <= i < |s| - |r| ==> IsJsWhitespace(s[i])
    ensures r != [] ==> !IsJsWhitespace(r[0])
  {
    if s != [] && IsJsWhitespace(s[0]) then TrimStart(s[1..]) else s
  }

  /** `s` without its trailing whitespace: a prefix of `s`. */
  function TrimEnd(s: string): (r: string)
    ensures |r| <= |s| && r == s[..|r|]
    ensures forall i :: |r| <= i < |s| ==> IsJsWhitespace(s[i])
    ensures r != [] ==> !IsJsWhitespace(r[|r| - 1])
  {
    if s != [] && IsJsWhitespace(s[|s| - 1]) then TrimEnd(s[..|s| - 1]) else s
  }

  /** `s` neither starts nor ends with whitespace. */
  predicate Trimmed(s: string) {
    s == [] || (!IsJsWhitespace(s[0]) && !IsJsWhitespace(s[|s| - 1]))
  }

  /**
   * `s.trim()`. The result neither starts nor ends with whitespace; it is
   * empty exactly when `s` is all whitespace, and a string that is already
   * trimmed is left as it is. `TrimContained` shows it is a substring of `s`.
   */
  function Trim(s: string): (r: string)
    ensures Trimmed(r)
    ensures r == [] <==> forall k :: 0 <= k < |s| ==> IsJsWhitespace(s[k])
    ensures Trimmed(s) ==> r == s
  {
    var t := TrimStart(s);
    var r := TrimEnd(t);
    TrimSlice(s, t, r);
    r
  }

  /** How the two halves of `Trim` compose: the result is the slice of `s` after the leading whitespace. */
  lemma TrimSlice(s: string, t: string, r: string)
    requires t == TrimStart(s) && r == TrimEnd(t)
    ensures Contains(s, r)
    ensures r != [] ==> !IsJsWhitespace(r[0]) && !IsJsWhitespace(r[|r| - 1])
    ensures r == [] <==> forall k :: 0 <= k < |s| ==> IsJsWhitespace(s[k])
    ensures s == [] || (!IsJsWhitespace(s[0]) && !IsJsWhitespace(s[|s| - 1])) ==> r == s
  {
    var i := |s| - |t|;
    assert t == s[i..];
    assert r == t[..|r|];
    assert s[i..i + |r|] == r;
    assert OccursAt(s, r, i);
    if r == [] {
      forall k | 0 <= k < |s| ensures IsJsWhitespace(s[k]) {
        if k >= i {
          assert s[k] == t[k - i];
        }
      }
    }
  }

  /** The trimmed string is a substring of the original. */
  lemma TrimContained(s: string)
    ensures Contains(s, Trim(s))
  {
    TrimSlice(s, TrimStart(s), TrimEnd(TrimStart(s)));
  }

  /** Every character of `s` from index `lo` up to (not including) `hi` is whitespace. */
  predicate WhitespaceBetween(s: string, lo: int, hi: int)
    requires 0 <= lo && hi <= |s|
  {
    forall k :: lo <= k < hi ==> IsJsWhitespace(s[k])
  }

  /**
   * `r` is the slice of `s` that starts at index `a` (character by
   * character), and every character of
   * `s` before it and after it is whitespace.
   */
  predicate BetweenWhitespace(s: string, a: int, r: string) {
    && 0 <= a && a + |r| <= |s|
    && (forall i :: 0 <= i < |r| ==> r[i] == s[a + i])
    && WhitespaceBetween(s, 0, a)
    && WhitespaceBetween(s, a + |r|, |s|)
  }

  /**
   * What `trim()` removes: exactly the leading and the trailing whitespace.
   * The result is the slice of `s` that starts after the leading whitespace;
   * everything before it and everything after it is whitespace.
   */
  lemma TrimRemovesOnlyEnds(s: string)
    ensures BetweenWhitespace(s, |s| - |TrimStart(s)|, Trim(s))
  {
    var t := TrimStart(s);
    TrimHalves(s, t, |s| - |t|, TrimEnd(t));
  }

  /** `TrimRemovesOnlyEnds` for the two halves of `Trim`, named. */
  lemma TrimHalves(s: string, t: string, a: int, r: string)
    requires t == TrimStart(s) && a == |s| - |t| && r == TrimEnd(t)
    ensures BetweenWhitespace(s, a, r)
  {
    assert t == s[a..] && r == t[..|r|];
    assert WhitespaceBetween(s, 0, a);
    TrailingWhitespace(s, t, a, |r|);
  }

  /** Whitespace at the end of the suffix `t` of `s` is whitespace at the end of `s`. */
  lemma TrailingWhitespace(s: string, t: string, a: int, n: int)
    requires 0 <= a <= |s| && t == s[a..] && 0 <= n <= |t|
    requires forall i :: n <= i < |t| ==> IsJsWhitespace(t[i])
    ensures WhitespaceBetween(s, a + n, |s|)
  {
    forall k | a + n <= k < |s| ensures IsJsWhitespace(s[k]) {
      assert s[k] == t[k - a];
    }
  }

  /** Trimming twice is trimming once. */
  lemma TrimIdempotent(s: string)
    ensures Trim(Trim(s)) == Trim(s)
  {
  }

  // ---------------------------------------------------------------------------
  // split and join

  /** `parts.join(sep)`; the empty list joins to the empty string. */
  function Join(parts: seq<string>, sep: char): string {
    if |parts| == 0 then ""
    else if |parts| == 1 then parts[0]
    else parts[0] + [sep] + Join(parts[1..], sep)
  }

  /**
   * `s.split(sep)`: the maximal separator-free pieces of `s`, in order. There is
   * always at least one piece, and joining the pieces back gives `s`.
   */
  function Split(s: string, sep: char): (r: seq<string>)
    ensures |r| >= 1
    ensures forall i :: 0 <= i < |r| ==> sep !in r[i]
    ensures Join(r, sep) == s
    decreases |s|
  {
    if s == [] then [[]]
    else
      var rest := Split(s[1..], sep);
      if s[0] == sep then
        assert [sep] + Join(rest, sep) == s;
        [[]] + rest
      else
        var r := [[s[0]] + rest[0]] + rest[1..];
        assert |rest| > 1 ==> Join(rest, sep) == rest[0] + [sep] + Join(rest[1..], sep);
        assert |rest| > 1 ==> r[1..] == rest[1..];
        r
  }

  /** Splitting a string that starts with a separator-free run `a` puts `a` in front of the first piece. */
  lemma {:induction false} SplitAfterFreeRun(a: string, b: string, sep: char)
    requires sep !in a
    ensures Split(a + b, sep) == [a + Split(b, sep)[0]] + Split(b, sep)[1..]
    decreases |a|
  {
    if a == [] {
      var r := Split(b, sep);
      assert a + b == b;
      assert a + r[0] == r[0];
      assert [r[0]] + r[1..] == r;
    } else {
      assert (a + b)[1..] == a[1..] + b;
      SplitAfterFreeRun(a[1..], b, sep);
      assert [a[0]] + (a[1..] + Split(b, sep)[0]) == a + Split(b, sep)[0];
    }
  }

  /** A leading separator closes an empty first piece. */
  lemma SplitAtSeparator(s: string, sep: char)
    ensures Split([sep] + s, sep) == [[]] + Split(s, sep)
  {
    var u := [sep] + s;
    assert u[1..] == s;
  }

  /** Joining separator-free pieces and splitting again gives the pieces back. */
  lemma {:induction false} SplitOfJoin(parts: seq<string>, sep: char)
    requires |parts| >= 1
    requires forall i :: 0 <= i < |parts| ==> sep !in parts[i]
    ensures Split(Join(parts, sep), sep) == parts
  {
    if |parts| == 1 {
      SplitAfterFreeRun(parts[0], [], sep);
      assert parts[0] + [] == parts[0];
    } else {
      var tail := Join(parts[1..], sep);
      SplitOfJoin(parts[1..], sep);
      assert parts[0] + [sep] + tail == parts[0] + ([sep] + tail);
      SplitAfterFreeRun(parts[0], [sep] + tail, sep);
      SplitAtSeparator(tail, sep);
      assert parts[0] + [] == parts[0];
      assert parts == [parts[0]] + parts[1..];
    }
  }

  /** `pieces.map(t => t.trim())`. */
  function TrimEach(pieces: seq<string>): (r: seq<string>)
    ensures |r| == |pieces| && forall j :: 0 <= j < |r| ==> r[j] == Trim(pieces[j])
  {
    seq(|pieces|, j requires 0 <= j < |pieces| => Trim(pieces[j]))
  }

  /** `xs.filter(t => t)`: the strings that are not empty, in order. */
  function NonEmpty(xs: seq<string>): (r: seq<string>)
    ensures |r| <= |xs|
    ensures forall x :: x in r <==> x in xs && x != ""
  {
    if xs == [] then []
    else if xs[0] == "" then NonEmpty(xs[1..])
    else [xs[0]] + NonEmpty(xs[1..])
  }

  /** Strings none of which is empty pass the filter unchanged. */
  lemma {:induction false} NonEmptyKeepsAll(xs: seq<string>)
    requires forall k :: 0 <= k < |xs| ==> xs[k] != ""
    ensures NonEmpty(xs) == xs
  {
    if xs != [] {
      NonEmptyKeepsAll(xs[1..]);
      assert [xs[0]] + xs[1..] == xs;
    }
  }

  /** The trimmed pieces that are not empty, in order (`.map(t => t.trim()).filter(t => t)`). */
  function TrimmedNonEmpty(pieces: seq<string>): (r: seq<string>)
    ensures |r| <= |pieces|
    ensures forall x :: x in r <==> x in TrimEach(pieces) && x != ""
  {
    NonEmpty(TrimEach(pieces))
  }

  /** Every token is not empty, trimmed, and the trimmed form of one of the pieces. */
  lemma TokenOfPiece(pieces: seq<string>, k: nat)
    requires k < |TrimmedNonEmpty(pieces)|
    ensures TrimmedNonEmpty(pieces)[k] != "" && Trimmed(TrimmedNonEmpty(pieces)[k])
    ensures exists j :: 0 <= j < |pieces| && TrimmedNonEmpty(pieces)[k] == Trim(pieces[j])
  {
    var x := TrimmedNonEmpty(pieces)[k];
    assert x in TrimEach(pieces);
    var j :| 0 <= j < |pieces| && TrimEach(pieces)[j] == x;
    assert x == Trim(pieces[j]);
  }

  /** A piece whose trimmed form is not empty shows up, trimmed, among the tokens. */
  lemma TrimmedPieceKept(pieces: seq<string>, x: string)
    requires x in pieces && Trim(x) != ""
    ensures Trim(x) in TrimmedNonEmpty(pieces)
  {
    var j :| 0 <= j < |pieces| && pieces[j] == x;
    assert TrimEach(pieces)[j] == Trim(x);
  }

  /** Pieces that are already trimmed and not empty pass through unchanged. */
  lemma TrimmedNonEmptyKeepsClean(pieces: seq<string>)
    requires forall k :: 0 <= k < |pieces| ==> pieces[k] != "" && Trim(pieces[k]) == pieces[k]
    ensures TrimmedNonEmpty(pieces) == pieces
  {
    assert TrimEach(pieces) == pieces;
    NonEmptyKeepsAll(pieces);
  }

  /** A substring of a substring is a substring. */
  lemma ContainsTransitive(a: string, b: string, c: string)
    requires Contains(a, b) && Contains(b, c)
    ensures Contains(a, c)
  {
    var i :| 0 <= i <= |a| - |b| && OccursAt(a, b, i);
    var j :| 0 <= j <= |b| - |c| && OccursAt(b, c, j);
    assert b == a[i..i + |b|];
    forall m | 0 <= m < |c| ensures a[i + j + m] == c[m] {
      assert c[m] == b[j + m];
    }
    assert a[i + j..i + j + |c|] == c;
    assert OccursAt(a, c, i + j);
  }

  /** A character absent from `s` is absent from every substring of `s`. */
  lemma ContainsExcludes(s: string, t: string, ch: char)
    requires Contains(s, t) && ch !in s
    ensures ch !in t
  {
    var i :| 0 <= i <= |s| - |t| && OccursAt(s, t, i);
    forall m | 0 <= m < |t| ensures t[m] != ch {
      assert s[i + m] == t[m];
    }
  }

  /** A substring of a wildcard-free string is wildcard-free. */
  lemma NoWildcardsOfContains(s: string, t: string)
    requires Contains(s, t) && NoWildcards(s)
    ensures NoWildcards(t)
  {
    var i :| 0 <= i <= |s| - |t| && OccursAt(s, t, i);
    forall m | 0 <= m < |t| ensures !IsWildcard(t[m]) {
      assert s[i + m] == t[m];
    }
  }

  /** Every part of a join occurs in the joined string. */
  lemma {:induction false} JoinContainsPart(parts: seq<string>, sep: char, i: int)
    requires 0 <= i < |parts|
    ensures Contains(Join(parts, sep), parts[i])
  {
    var whole := Join(parts, sep);
    if |parts| == 1 {
      ContainsSelf(parts[0]);
    } else if i == 0 {
      assert whole[0..|parts[0]|] == parts[0];
      assert OccursAt(whole, parts[0], 0);
    } else {
      var tail := Join(parts[1..], sep);
      JoinContainsPart(parts[1..], sep, i - 1);
      var k := |parts[0]| + 1;
      assert whole[k..k + |tail|] == tail;
      assert OccursAt(whole, tail, k);
      ContainsTransitive(whole, tail, parts[i]);
    }
  }

  /**
   * The comma-separated search terms of a case query: split on `,`, trim each
   * piece, drop the empty ones. Every term is a non-empty, trimmed, comma-free
   * substring of the query.
   */
  function CommaTerms(s: string): (r: seq<string>)
    ensures forall k :: 0 <= k < |r| ==> r[k] != "" && Trim(r[k]) == r[k]
    ensures forall k :: 0 <= k < |r| ==> ',' !in r[k] && Contains(s, r[k])
  {
    var pieces := Split(s, ',');
    var r := TrimmedNonEmpty(pieces);
    CommaTermsWithin(s, pieces, r);
    r
  }

  /** Why the tokens are trimmed, not empty, substrings of the query and free of commas. */
  lemma CommaTermsWithin(s: string, pieces: seq<string>, r: seq<string>)
    requires pieces == Split(s, ',') && r == TrimmedNonEmpty(pieces)
    ensures forall k :: 0 <= k < |r| ==> r[k] != "" && Trim(r[k]) == r[k]
    ensures forall k :: 0 <= k < |r| ==> ',' !in r[k] && Contains(s, r[k])
  {
    forall k | 0 <= k < |r| ensures r[k] != "" && Trim(r[k]) == r[k] && ',' !in r[k] && Contains(s, r[k]) {
      TokenOfPiece(pieces, k);
      var j :| 0 <= j < |pieces| && r[k] == Trim(pieces[j]);
      TrimContained(pieces[j]);
      ContainsExcludes(pieces[j], r[k], ',');
      JoinContainsPart(pieces, ',', j);
      ContainsTransitive(s, pieces[j], r[k]);
    }
  }

  /** Terms that are clean (non-empty, trimmed, comma-free) survive a join with `,` and a re-parse. */
  lemma CommaTermsOfJoin(terms: seq<string>)
    requires |terms| >= 1
    requires forall k :: 0 <= k < |terms| ==> terms[k] != "" && Trim(terms[k]) == terms[k] && ',' !in terms[k]
    ensures CommaTerms(Join(terms, ',')) == terms
  {
    SplitOfJoin(terms, ',');
    TrimmedNonEmptyKeepsClean(terms);
  }

  // ---------------------------------------------------------------------------
  // Case folding and the ilike pattern match

  /** ASCII lower-casing of one character. */
  function LowerChar(c: char): char {
    if 'A' <= c <= 'Z' then (c as int + 32) as char else c
  }

  /** ASCII lower-casing of a string, character by character. */
  function Lower(s: string): string {
    seq(|s|, i requires 0 <= i < |s| => LowerChar(s[i]))
  }

  lemma LowerAppend(a: string, b: string)
    ensures Lower(a + b) == Lower(a) + Lower(b)
  {
  }

  lemma LowerSlice(s: string, i: int, j: int)
    requires 0 <= i <= j <= |s|
    ensures Lower(s[i..j]) == Lower(s)[i..j]
  {
  }

  /** `q` occurs in `s` when both are lower-cased. */
  predicate ContainsFolded(s: string, q: string) {
    Contains(Lower(s), Lower(q))
  }

  /** A substring is also a substring ignoring case. */
  lemma ContainsFoldedOfContains(s: string, q: string)
    requires Contains(s, q)
    ensures ContainsFolded(s, q)
  {
    var i :| 0 <= i <= |s| - |q| && OccursAt(s, q, i);
    LowerSlice(s, i, i + |q|);
    assert OccursAt(Lower(s), Lower(q), i);
  }

  /** A query longer than the text never occurs in it. */
  lemma ContainsFoldedTooLong(s: string, q: string)
    requires |q| > |s|
    ensures !ContainsFolded(s, q)
  {
  }

  /** The two pattern wildcards: `%` (any run) and `_` (any one character). */
  predicate IsWildcard(c: char) {
    c == '%' || c == '_'
  }

  predicate NoWildcards(s: string) {
    forall i :: 0 <= i < |s| ==> !IsWildcard(s[i])
  }

  /** `s LIKE p`: `%` matches any run of characters, `_` any single one, the rest themselves. */
  predicate Like(s: string, p: string)
    decreases |s| + |p|
  {
    if p == [] then s == []
    else if p[0] == '%' then Like(s, p[1..]) || (s != [] && Like(s[1..], p))
    else s != [] && (p[0] == '_' || s[0] == p[0]) && Like(s[1..], p[1..])
  }

  /** `s ILIKE p`: the same match on lower-cased text and pattern. */
  predicate ILike(s: string, p: string) {
    Like(Lower(s), Lower(p))
  }

  /** The pattern `%` matches everything. */
  lemma {:induction false} PercentMatchesAll(s: string)
    ensures Like(s, "%")
  {
    if s != [] {
      PercentMatchesAll(s[1..]);
    }
  }

  /** A wildcard-free pattern followed by `%` matches exactly the strings it is a prefix of. */
  lemma {:induction false} LikeLiteralThenPercent(s: string, q: string)
    requires NoWildcards(q)
    ensures Like(s, q + "%") <==> q <= s
    decreases |q|
  {
    if q == [] {
      assert q + "%" == "%";
      PercentMatchesAll(s);
    } else {
      assert (q + "%")[1..] == q[1..] + "%";
      if s != [] {
        LikeLiteralThenPercent(s[1..], q[1..]);
      }
    }
  }

  /** The pattern `%q%` for a wildcard-free `q` is substring search. */
  lemma {:induction false} LikeSurroundedIsContains(s: string, q: string)
    requires NoWildcards(q)
    ensures Like(s, "%" + q + "%") <==> Contains(s, q)
    decreases |s|
  {
    var p := "%" + q + "%";
    assert p[1..] == q + "%";
    LikeLiteralThenPercent(s, q);
    ContainsStep(s, q);
    if s != [] {
      LikeSurroundedIsContains(s[1..], q);
    }
  }

  /**
   * `s ILIKE '%q%'` for a wildcard-free `q` holds exactly when `q` occurs in `s`
   * ignoring case: stripping the wildcards from a user query turns the pattern
   * match into plain case-insensitive substring search.
   */
  lemma ILikeSurroundedIsContainsFolded(s: string, q: string)
    requires NoWildcards(q)
    ensures ILike(s, "%" + q + "%") <==> ContainsFolded(s, q)
  {
    LowerAppend("%" + q, "%");
    LowerAppend("%", q);
    assert Lower("%") == "%";
    assert NoWildcards(Lower(q));
    LikeSurroundedIsContains(Lower(s), Lower(q));
  }

  /**
   * `s.replace(/[%_]/g, '')`: no wildcard left, and text without wildcards
   * unchanged. `StripWildcardsKeeps` shows every other character is kept as
   * often as it occurred.
   */
  function StripWildcards(s: string): (r: string)
    ensures NoWildcards(r)
    ensures |r| <= |s|
    ensures NoWildcards(s) ==> r == s
  {
    if s == [] then []
    else
      var rest := StripWildcards(s[1..]);
      assert s == [s[0]] + s[1..];
      (if IsWildcard(s[0]) then [] else [s[0]]) + rest
  }

  /** Stripping the wildcards keeps every other character exactly as often as it occurs. */
  lemma {:induction false} StripWildcardsKeeps(s: string)
    ensures forall c :: !IsWildcard(c) ==> multiset(StripWildcards(s))[c] == multiset(s)[c]
  {
    if s != [] {
      StripWildcardsKeeps(s[1..]);
      assert s == [s[0]] + s[1..];
      assert multiset(s) == multiset{s[0]} + multiset(s[1..]);
    }
  }

  // ---------------------------------------------------------------------------
  // Decimal rendering of integers (`${n}` in a template string)

  predicate IsDigit(c: char) {
    '0' <= c <= '9'
  }

  predicate AllDigits(s: string) {
    forall i :: 0 <= i < |s| ==> IsDigit(s[i])
  }

  /** The value of a string of decimal digits. */
  function DigitsValue(s: string): nat
    requires AllDigits(s)
  {
    if s == [] then 0 else DigitsValue(s[..|s| - 1]) * 10 + (s[|s| - 1] as int - '0' as int)
  }

  /**
   * The decimal numeral of `n`: digits only, no leading zero, and read back it
   * gives `n` again.
   */
  function NatToString(n: nat): (r: string)
    ensures |r| >= 1 && AllDigits(r)
    ensures r[0] == '0' ==> n == 0
    ensures DigitsValue(r) == n
  {
    if n < 10 then [('0' as int + n) as char]
    else
      var r := NatToString(n / 10) + [('0' as int + n % 10) as char];
      assert r[..|r| - 1] == NatToString(n / 10);
      r
  }
}
