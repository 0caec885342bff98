// Options and the string operations the handlers lean on: JavaScript's
// `startsWith`, `replace` with a string pattern, `split`, `join`,
// `toLowerCase`, number-to-string conversion, and the case-insensitive
// substring match that stands in for a `$regex` query with option "i".

module Wrappers {
  datatype Option<T> = None | Some(value: T)
}

module Text {
  import opened Wrappers

  /** JavaScript truthiness of an optional string field: absent and "" are falsy. */
  predicate Truthy(o: Option<string>) {
    o.Some? && o.value != ""
  }

  /** `x || fallback` for an optional string field. */
  function OrElse(o: Option<string>, fallback: string): (r: string)
    ensures Truthy(o) ==> r == o.value
    ensures !Truthy(o) ==> r == fallback
  {
    if Truthy(o) then o.value else fallback
  }

  predicate StartsWith(s: string, prefix: string) {
    prefix <= s
  }

  /** `needle` occurs in `hay` as a contiguous block. */
  predicate Contains(hay: string, needle: string)
    decreases |hay|
  {
    needle <= hay || (hay != [] && Contains(hay[1..], needle))
  }

  /** The empty query matches every string. */
  lemma EmptyContained(hay: string)
    ensures Contains(hay, "")
  {
  }

  function LowerChar(c: char): (r: char)
    ensures 'A' <= c <= 'Z' ==> 'a' <= r <= 'z'
    ensures !('A' <= c <= 'Z') ==> r == c
  {
    if 'A' <= c <= 'Z' then (c as int + 32) as char else c
  }

  /** `toLowerCase`, on the ASCII letters. */
  function Lower(s: string): (r: string)
    ensures |r| == |s|
    ensures forall i :: 0 <= i < |s| ==> r[i] == LowerChar(s[i])
  {
    seq(|s|, i requires 0 <= i < |s| => LowerChar(s[i]))
  }

  predicate IsLower(s: string) {
    forall i :: 0 <= i < |s| ==> !('A' <= s[i] <= 'Z')
  }

  lemma LowerIsLower(s: string)
    ensures IsLower(Lower(s))
    ensures IsLower(s) ==> Lower(s) == s
  {
  }

  /** A literal, case-insensitive substring match. */
  predicate MatchesIgnoreCase(hay: string, query: string) {
    Contains(Lower(hay), Lower(query))
  }

  // ---------------------------------------------------------------------
  // Searching, replacing, splitting

  /** The index of the first occurrence of `pat` in `s`. */
  function IndexOf(s: string, pat: string): (r: Option<nat>)
    ensures r.Some? ==> r.value + |pat| <= |s| && s[r.value..r.value + |pat|] == pat
    ensures pat <= s ==> r == Some(0)
    decreases |s|
  {
    if pat <= s then Some(0)
    else if s == [] then None
    else match IndexOf(s[1..], pat)
      case None => None
      case Some(i) => Some(i + 1)
  }

  /** `s.replace(pat, rep)` with a string pattern: only the first occurrence. */
  function ReplaceFirst(s: string, pat: string, rep: string): (r: string)
  {
    match IndexOf(s, pat)
    case None => s
    case Some(i) => s[..i] + rep + s[i + |pat|..]
  }

  const BearerPrefix := "Bearer "

  /** The token inside a cookie value: `cookie.replace("Bearer ", "")`. */
  function StripBearer(cookie: string): (t: string)
  {
    ReplaceFirst(cookie, BearerPrefix, "")
  }

  /** Stripping undoes the "Bearer " prefix that login writes into the cookie. */
  lemma StripAfterBearer(token: string)
    ensures StripBearer(BearerPrefix + token) == token
  {
    assert BearerPrefix <= BearerPrefix + token;
    assert (BearerPrefix + token)[|BearerPrefix|..] == token;
  }

  function IndexOfChar(s: string, c: char): (i: nat)
    requires c in s
    ensures i < |s| && s[i] == c && c !in s[..i]
  {
    if s[0] == c then 0
    else
      var j := IndexOfChar(s[1..], c);
      assert s[..j + 1] == [s[0]] + s[1..][..j];
      j + 1
  }

  /** `s.split(sep)` for a one-character separator. */
  function Split(s: string, sep: char): (parts: seq<string>)
    ensures |parts| >= 1
    decreases |s|
  {
    if sep !in s then [s]
    else
      var i := IndexOfChar(s, sep);
      [s[..i]] + Split(s[i + 1..], sep)
  }

  /** Splitting at the first separator peels off the text before it. */
  lemma SplitAfter(a: string, sep: char, b: string)
    requires sep !in a
    ensures Split(a + [sep] + b, sep) == [a] + Split(b, sep)
  {
    var s := a + [sep] + b;
    assert s[|a|] == sep;
    var i := IndexOfChar(s, sep);
    assert s[..|a|] == a;
    assert i == |a|;
    assert s[..i] == a;
    assert s[i + 1..] == b;
  }

  /** Two texts joined by a separator neither holds split back into the two. */
  lemma SplitTwo(a: string, sep: char, b: string)
    requires sep !in a && sep !in b
    ensures Split(a + [sep] + b, sep) == [a, b]
  {
    SplitAfter(a, sep, b);
  }

  /** Three texts joined by a separator none holds split back into the three. */
  lemma SplitThree(a: string, sep: char, b: string, c: string)
    requires sep !in a && sep !in b && sep !in c
    ensures Split(a + [sep] + b + [sep] + c, sep) == [a, b, c]
  {
    assert a + [sep] + b + [sep] + c == a + [sep] + (b + [sep] + c);
    SplitAfter(a, sep, b + [sep] + c);
    SplitTwo(b, sep, c);
  }

  /** Each text followed by `sep`, as text built by appending one line at a time. */
  function Terminated(xs: seq<string>, sep: char): string {
    if xs == [] then "" else xs[0] + [sep] + Terminated(xs[1..], sep)
  }

  /** Splitting separator-terminated lines gives them back, then the empty text after the last one. */
  lemma {:induction false} SplitTerminated(xs: seq<string>, sep: char)
    requires forall i :: 0 <= i < |xs| ==> sep !in xs[i]
    ensures Split(Terminated(xs, sep), sep) == xs + [""]
  {
    if xs != [] {
      var rest := xs[1..];
      var t := Terminated(rest, sep);
      assert Terminated(xs, sep) == xs[0] + [sep] + t;
      assert sep !in xs[0];
      SplitAfter(xs[0], sep, t);
      assert forall i :: 0 <= i < |rest| ==> rest[i] == xs[i + 1];
      SplitTerminated(rest, sep);
      assert xs == [xs[0]] + rest;
    }
  }

  /** `xs.join(sep)`, which is also what an array turns into under loose `==`. */
  function Join(xs: seq<string>, sep: char): (r: string)
  {
    if xs == [] then ""
    else if |xs| == 1 then xs[0]
    else xs[0] + [sep] + Join(xs[1..], sep)
  }

  /** A character other than the separator is in a join only if it is in one of the parts. */
  lemma {:induction false} JoinAvoids(xs: seq<string>, sep: char, c: char)
    requires c != sep
    requires forall i :: 0 <= i < |xs| ==> c !in xs[i]
    ensures c !in Join(xs, sep)
    decreases |xs|
  {
    if |xs| >= 2 {
      JoinAvoids(xs[1..], sep, c);
    }
  }

  lemma {:induction false} JoinHasSeparator(xs: seq<string>, sep: char)
    requires |xs| >= 2
    ensures sep in Join(xs, sep)
  {
    assert Join(xs, sep)[|xs[0]|] == sep;
  }

  // ---------------------------------------------------------------------
  // Decimal numerals

  predicate IsDigits(s: string) {
    forall i :: 0 <= i < |s| ==> '0' <= s[i] <= '9'
  }

  function DigitChar(d: nat): (c: char)
    requires d < 10
    ensures '0' <= c <= '9'
  {
    ('0' as int + d) as char
  }

  function DigitValue(c: char): int {
    c as int - '0' as int
  }

  /** JavaScript's conversion of a non-negative integer to text. */
  function NatToString(n: nat): (s: string)
    ensures |s| >= 1
  {
    if n < 10 then [DigitChar(n)] else NatToString(n / 10) + [DigitChar(n % 10)]
  }

  function ParseNat(s: string): int
  {
    if s == [] then 0 else ParseNat(s[..|s| - 1]) * 10 + DigitValue(s[|s| - 1])
  }

  /** Reading back the numeral gives the number, and the numeral is all digits. */
  lemma {:induction false} ParseNatToString(n: nat)
    ensures IsDigits(NatToString(n))
    ensures ParseNat(NatToString(n)) == n
  {
    if n >= 10 {
      ParseNatToString(n / 10);
      var s := NatToString(n);
      assert s[..|s| - 1] == NatToString(n / 10);
    }
  }

  lemma DigitsHaveNo(s: string, c: char)
    requires IsDigits(s)
    requires !('0' <= c <= '9')
    ensures c !in s
  {
  }
}
