/**
 * The string primitives of Rust's standard library that the core relies on:
 * `char::is_whitespace`, `str::trim`, `str::trim_start`, `str::split_whitespace`, `str::split`,
 * `[&str]::join`, `str::starts_with` and `str::parse` for `u32`/`i32`.
 * Strings are sequences of Unicode scalar values.
 */
module Text {
  import opened Wrappers

  /** Rust's `char::is_whitespace`: the Unicode White_Space property. */
  predicate IsWhitespace(c: char) {
    || ('\t' <= c <= '\r')
    || c == ' '
    || c == '\U{85}'
    || c == '\U{A0}'
    || c == '\U{1680}'
    || ('\U{2000}' <= c <= '\U{200A}')
    || c == '\U{2028}'
    || c == '\U{2029}'
    || c == '\U{202F}'
    || c == '\U{205F}'
    || c == '\U{3000}'
  }

  /** Every character is whitespace (this includes the empty string). */
  predicate IsBlank(s: string) {
    forall i :: 0 <= i < |s| ==> IsWhitespace(s[i])
  }

  /** A non-empty run of non-whitespace characters. */
  predicate IsWord(s: string) {
    s != [] && forall i :: 0 <= i < |s| ==> !IsWhitespace(s[i])
  }

  predicate StartsWith(s: string, prefix: string) {
    |prefix| <= |s| && s[..|prefix|] == prefix
  }

  /** The number of whitespace characters at the start. */
  function LeadingSpace(s: string): (n: nat)
    ensures n <= |s|
    ensures forall k :: 0 <= k < n ==> IsWhitespace(s[k])
    ensures n == |s| || !IsWhitespace(s[n])
  {
    if |s| == 0 || !IsWhitespace(s[0]) then 0 else 1 + LeadingSpace(s[1..])
  }

  /** `str::trim_start` */
  function TrimStart(s: string): (r: string)
    ensures |r| <= |s| && r == s[|s| - |r|..]
    ensures forall k :: 0 <= k < |s| - |r| ==> IsWhitespace(s[k])
    ensures r == [] || !IsWhitespace(r[0])
  {
    s[LeadingSpace(s)..]
  }

  /** `str::trim`: the longest infix that neither starts nor ends with whitespace. */
  function Trim(s: string): (r: string)
    ensures |r| <= |s|
    ensures r == [] <==> IsBlank(s)
    ensures r != [] ==> !IsWhitespace(r[0]) && !IsWhitespace(r[|r| - 1])
  {
    if |s| > 0 && IsWhitespace(s[0]) then Trim(s[1..])
    else if |s| > 0 && IsWhitespace(s[|s| - 1]) then Trim(s[..|s| - 1])
    else s
  }

  /** `Trim(s)` is the infix of `s` after its leading whitespace, and what follows it is blank. */
  predicate TrimmedInfix(s: string) {
    && LeadingSpace(s) + |Trim(s)| <= |s|
    && Trim(s) == s[LeadingSpace(s)..LeadingSpace(s) + |Trim(s)|]
    && IsBlank(s[LeadingSpace(s) + |Trim(s)|..])
  }

  /** What `Trim` removes is whitespace at either end. */
  lemma {:induction false} TrimInfix(s: string)
    ensures TrimmedInfix(s)
    decreases |s|
  {
    if |s| > 0 && IsWhitespace(s[0]) {
      TrimInfix(s[1..]);
      TrimInfixFront(s);
    } else if |s| > 0 && IsWhitespace(s[|s| - 1]) {
      TrimInfix(s[..|s| - 1]);
      TrimInfixBack(s);
    } else {
      assert LeadingSpace(s) == 0;
      assert s[0..|s|] == s;
    }
  }

  lemma TrimInfixFront(s: string)
    requires |s| > 0 && IsWhitespace(s[0]) && TrimmedInfix(s[1..])
    ensures TrimmedInfix(s)
  {
    var t := s[1..];
    var n := |Trim(s)|;
    var i := LeadingSpace(t);
    assert LeadingSpace(s) == i + 1;
    assert t[i..i + n] == s[i + 1..i + 1 + n];
    assert t[i + n..] == s[i + 1 + n..];
  }

  lemma TrimInfixBack(s: string)
    requires |s| > 0 && !IsWhitespace(s[0]) && IsWhitespace(s[|s| - 1]) && TrimmedInfix(s[..|s| - 1])
    ensures TrimmedInfix(s)
  {
    var t := s[..|s| - 1];
    var n := |Trim(s)|;
    assert LeadingSpace(s) == 0;
    assert t == [] || t[0] == s[0];
    assert LeadingSpace(t) == 0;
    assert t[..n] == s[..n];
    assert s[n..] == t[n..] + [s[|s| - 1]];
    BlankConcat(t[n..], [s[|s| - 1]]);
  }

  lemma TrimOfTrimmed(s: string)
    requires s == [] || (!IsWhitespace(s[0]) && !IsWhitespace(s[|s| - 1]))
    ensures Trim(s) == s
  {
  }

  lemma TrimIdempotent(s: string)
    ensures Trim(Trim(s)) == Trim(s)
  {
    TrimOfTrimmed(Trim(s));
  }

  lemma BlankConcat(a: string, b: string)
    ensures IsBlank(a + b) <==> IsBlank(a) && IsBlank(b)
  {
    if IsBlank(a) && IsBlank(b) {
      forall i | 0 <= i < |a + b| ensures IsWhitespace((a + b)[i]) {
        if i >= |a| { assert (a + b)[i] == b[i - |a|]; }
      }
    }
    if IsBlank(a + b) {
      forall i | 0 <= i < |a| ensures IsWhitespace(a[i]) {
        assert (a + b)[i] == a[i];
      }
      forall i | 0 <= i < |b| ensures IsWhitespace(b[i]) {
        assert (a + b)[|a| + i] == b[i];
      }
    }
  }

  /** The number of leading characters before the first whitespace. */
  function WordLength(s: string): (n: nat)
    ensures n <= |s|
    ensures forall k :: 0 <= k < n ==> !IsWhitespace(s[k])
    ensures n == |s| || IsWhitespace(s[n])
  {
    if |s| == 0 || IsWhitespace(s[0]) then 0 else 1 + WordLength(s[1..])
  }

  /** `str::split_whitespace`: the maximal runs of non-whitespace characters, in order. */
  function SplitWhitespace(s: string): (r: seq<string>)
    ensures forall i :: 0 <= i < |r| ==> IsWord(r[i])
    decreases |s|
  {
    var t := TrimStart(s);
    if t == [] then []
    else
      var n := WordLength(t);
      WordPrefix(t);
      var tail := SplitWhitespace(t[n..]);
      var r := [t[..n]] + tail;
      assert forall i :: 0 < i < |r| ==> r[i] == tail[i - 1];
      r
  }

  lemma WordPrefix(t: string)
    requires t != [] && !IsWhitespace(t[0])
    ensures WordLength(t) > 0 && IsWord(t[..WordLength(t)])
  {
    var n := WordLength(t);
    forall i | 0 <= i < n ensures !IsWhitespace(t[..n][i]) {
      assert t[..n][i] == t[i];
    }
  }

  lemma SplitWhitespaceBlank(s: string)
    requires IsBlank(s)
    ensures SplitWhitespace(s) == []
  {
  }

  /** A word followed by whitespace splits off as the first token. */
  lemma SplitWhitespaceCons(w: string, sp: char, rest: string)
    requires IsWord(w) && IsWhitespace(sp)
    ensures SplitWhitespace(w + [sp] + rest) == [w] + SplitWhitespace(rest)
  {
    var s := w + [sp] + rest;
    assert s[0] == w[0];
    assert TrimStart(s) == s;
    WordLengthOf(w, [sp] + rest);
    assert s == w + ([sp] + rest);
    assert WordLength(s) == |w|;
    assert s[..|w|] == w;
    assert s[|w|..] == [sp] + rest;
    assert SplitWhitespace(s) == [w] + SplitWhitespace([sp] + rest);
    SplitWhitespaceLeadingSpace(sp, rest);
  }

  lemma SplitWhitespaceLeadingSpace(sp: char, rest: string)
    requires IsWhitespace(sp)
    ensures SplitWhitespace([sp] + rest) == SplitWhitespace(rest)
  {
    assert ([sp] + rest)[1..] == rest;
    assert TrimStart([sp] + rest) == TrimStart(rest);
  }

  lemma SplitWhitespaceWord(w: string)
    requires IsWord(w)
    ensures SplitWhitespace(w) == [w]
  {
    assert TrimStart(w) == w;
    WordLengthOf(w, []);
    assert w + [] == w;
    assert WordLength(w) == |w|;
    assert w[..|w|] == w && w[|w|..] == [];
    assert TrimStart([]) == [];
    assert SplitWhitespace(w) == [w] + SplitWhitespace([]);
  }

  lemma WordLengthOf(w: string, rest: string)
    requires forall i :: 0 <= i < |w| ==> !IsWhitespace(w[i])
    requires rest == [] || IsWhitespace(rest[0])
    ensures WordLength(w + rest) == |w|
  {
    assert forall k :: 0 <= k < |w| ==> (w + rest)[k] == w[k];
    assert |rest| > 0 ==> (w + rest)[|w|] == rest[0];
  }

  /** Splitting words joined by single spaces at whitespace gives the words back. */
  lemma {:induction false} SplitWhitespaceJoin(words: seq<string>)
    requires forall i :: 0 <= i < |words| ==> IsWord(words[i])
    ensures SplitWhitespace(Join(words, " ")) == words
  {
    if |words| == 0 {
    } else if |words| == 1 {
      SplitWhitespaceWord(words[0]);
    } else {
      var w, rest := words[0], words[1..];
      assert forall i :: 0 <= i < |rest| ==> rest[i] == words[i + 1];
      SplitWhitespaceJoin(rest);
      var tail := Join(rest, " ");
      assert Join(words, " ") == w + [' '] + tail;
      SplitWhitespaceCons(w, ' ', tail);
      assert words == [w] + rest;
    }
  }

  /** `[&str]::join(sep)` */
  function Join(parts: seq<string>, sep: string): (r: string)
  {
    if |parts| == 0 then ""
    else if |parts| == 1 then parts[0]
    else parts[0] + sep + Join(parts[1..], sep)
  }

  /** Index of the first occurrence of `c`, or `|s|` when there is none. */
  function IndexOf(s: string, c: char): (k: nat)
    ensures k <= |s|
    ensures forall j :: 0 <= j < k ==> s[j] != c
    ensures k < |s| ==> s[k] == c
  {
    if |s| == 0 then 0 else if s[0] == c then 0 else 1 + IndexOf(s[1..], c)
  }

  /** `str::split(c)`: the pieces between occurrences of `c`; at least one piece. */
  function Split(s: string, c: char): (r: seq<string>)
    ensures |r| >= 1
    ensures forall i :: 0 <= i < |r| ==> c !in r[i]
    decreases |s|
  {
    var k := IndexOf(s, c);
    if k == |s| then [s] else [s[..k]] + Split(s[k + 1..], c)
  }

  /** Splitting a join at its separator gives back the parts when no part contains the separator. */
  lemma {:induction false} SplitJoin(parts: seq<string>, c: char)
    requires |parts| >= 1
    requires forall i :: 0 <= i < |parts| ==> c !in parts[i]
    ensures Split(Join(parts, [c]), c) == parts
  {
    var s := Join(parts, [c]);
    var p := parts[0];
    if |parts| == 1 {
      assert IndexOf(s, c) == |s|;
    } else {
      var tail := Join(parts[1..], [c]);
      assert s == p + [c] + tail;
      assert IndexOf(s, c) == |p| by {
        assert s[|p|] == c;
        assert forall j :: 0 <= j < |p| ==> s[j] == p[j];
      }
      assert s[..|p|] == p;
      assert s[|p| + 1..] == tail;
      SplitJoin(parts[1..], c);
    }
  }

  /** Splitting at a separator splits the text on either side of it separately. */
  lemma {:induction false} SplitAround(a: string, c: char, b: string)
    ensures Split(a + [c] + b, c) == Split(a, c) + Split(b, c)
    decreases |a|
  {
    var k := IndexOf(a, c);
    if k == |a| {
      SplitAroundFirst(a, c, b);
    } else {
      var rest := a[k + 1..];
      SplitAroundLater(a, c, b, k);
      SplitAround(rest, c, b);
      SplitAt(a, c, k);
      var head, middle, tail := [a[..k]], Split(rest, c), Split(b, c);
      assert head + (middle + tail) == (head + middle) + tail;
    }
  }

  lemma SplitAt(s: string, c: char, k: nat)
    requires k == IndexOf(s, c) && k < |s|
    ensures Split(s, c) == [s[..k]] + Split(s[k + 1..], c)
  {
  }

  /** With no separator in `a`, the first piece is `a`. */
  lemma SplitAroundFirst(a: string, c: char, b: string)
    requires IndexOf(a, c) == |a|
    ensures Split(a + [c] + b, c) == Split(a, c) + Split(b, c)
  {
    var s := a + [c] + b;
    assert forall j :: 0 <= j < |a| ==> s[j] == a[j];
    IndexOfFirst(s, c, |a|);
    assert s[..|a|] == a && s[|a| + 1..] == b;
    assert Split(s, c) == [a] + Split(b, c);
  }

  /** With a separator at `k` in `a`, the first piece is `a[..k]` and splitting goes on after it. */
  lemma SplitAroundLater(a: string, c: char, b: string, k: nat)
    requires k == IndexOf(a, c) && k < |a|
    ensures Split(a + [c] + b, c) == [a[..k]] + Split(a[k + 1..] + [c] + b, c)
  {
    var s := a + [c] + b;
    assert forall j :: 0 <= j < |a| ==> s[j] == a[j];
    IndexOfFirst(s, c, k);
    assert s[..k] == a[..k];
    assert s[k + 1..] == a[k + 1..] + [c] + b;
  }

  /** The first occurrence is at `k` when `s[k]` is the separator and no earlier character is. */
  lemma {:induction false} IndexOfFirst(s: string, c: char, k: nat)
    requires k < |s| && s[k] == c && forall j :: 0 <= j < k ==> s[j] != c
    ensures IndexOf(s, c) == k
    decreases k
  {
    if k > 0 {
      assert forall j :: 0 <= j < k - 1 ==> s[1..][j] == s[j + 1];
      IndexOfFirst(s[1..], c, k - 1);
    }
  }

  /** A text without the separator is a single piece. */
  lemma SplitNone(s: string, c: char)
    requires c !in s
    ensures Split(s, c) == [s]
  {
  }

  predicate IsAsciiDigit(c: char) {
    '0' <= c <= '9'
  }

  predicate AllDigits(s: string) {
    forall i :: 0 <= i < |s| ==> IsAsciiDigit(s[i])
  }

  /** The decimal value of a digit string (leading zeros allowed). */
  function DigitsValue(s: string): nat
    requires AllDigits(s)
  {
    if s == [] then 0 else DigitsValue(s[..|s| - 1]) * 10 + (s[|s| - 1] as int - '0' as int)
  }

  const U32_LIMIT: int := 0x1_0000_0000
  const I32_LIMIT: int := 0x8000_0000

  type U32 = x: int | 0 <= x < U32_LIMIT
  type I32 = x: int | -I32_LIMIT <= x < I32_LIMIT

  /** `str::parse::<u32>`: an optional `+`, then one or more ASCII digits, value below 2^32. */
  function ParseU32(s: string): (r: Option<U32>)
    ensures r.Some? ==> s != [] && (IsAsciiDigit(s[0]) || s[0] == '+')
  {
    if s == [] then None
    else
      var digits := if s[0] == '+' then s[1..] else s;
      if digits == [] || !AllDigits(digits) then None
      else if DigitsValue(digits) < U32_LIMIT then Some(DigitsValue(digits))
      else None
  }

  /** `str::parse::<i32>`: an optional sign, then one or more ASCII digits, value in the i32 range. */
  function ParseI32(s: string): (r: Option<I32>)
    ensures r.Some? ==> s != [] && (IsAsciiDigit(s[0]) || s[0] == '+' || s[0] == '-')
  {
    if s == [] then None
    else
      var negative := s[0] == '-';
      var digits := if s[0] == '+' || s[0] == '-' then s[1..] else s;
      if digits == [] || !AllDigits(digits) then None
      else
        var v: int := if negative then -(DigitsValue(digits) as int) else DigitsValue(digits);
        if -I32_LIMIT <= v < I32_LIMIT then Some(v) else None
  }
}
