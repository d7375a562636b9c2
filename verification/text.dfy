/** The few pieces of Rust's `str` API the client relies on, over
    `string` (a sequence of Unicode scalar values). */
module Text {
  import opened Basics

  /** `char::is_whitespace`: the Unicode White_Space property. */
  predicate IsWhitespace(c: char) {
    ('\t' <= c <= '\r') || c == ' ' || c == '\U{85}' || c == '\U{A0}' || c == '\U{1680}'
    || ('\U{2000}' <= c <= '\U{200A}') || c == '\U{2028}' || c == '\U{2029}'
    || c == '\U{202F}' || c == '\U{205F}' || c == '\U{3000}'
  }

  predicate AllWhitespace(s: string) {
    forall i :: 0 <= i < |s| ==> IsWhitespace(s[i])
  }

  /** `str::trim_start` */
  function TrimStart(s: string): (r: string)
    ensures |r| <= |s| && r == s[|s| - |r|..]
    ensures r == [] || !IsWhitespace(r[0])
  {
    if s == [] || !IsWhitespace(s[0]) then s else TrimStart(s[1..])
  }

  /** `TrimStart` removes only whitespace. */
  lemma {:induction false} TrimStartDropsWhitespace(s: string)
    ensures AllWhitespace(s[..|s| - |TrimStart(s)|])
    decreases |s|
  {
    if s != [] && IsWhitespace(s[0]) {
      var n := |s| - |TrimStart(s[1..])|;
      TrimStartDropsWhitespace(s[1..]);
      forall i | 0 <= i < n ensures IsWhitespace(s[..n][i]) {
        if i > 0 {
          assert s[..n][i] == s[1..][..n - 1][i - 1];
        }
      }
    }
  }

  /** `str::trim_end` */
  function TrimEnd(s: string): (r: string)
    ensures |r| <= |s| && r == s[..|r|]
    ensures r == [] || !IsWhitespace(r[|r| - 1])
  {
    if s == [] || !IsWhitespace(s[|s| - 1]) then s else TrimEnd(s[..|s| - 1])
  }

  /** `TrimEnd` removes only whitespace. */
  lemma {:induction false} TrimEndDropsWhitespace(s: string)
    ensures AllWhitespace(s[|TrimEnd(s)|..])
    decreases |s|
  {
    if s != [] && IsWhitespace(s[|s| - 1]) {
      var n := |TrimEnd(s[..|s| - 1])|;
      TrimEndDropsWhitespace(s[..|s| - 1]);
      forall i | 0 <= i < |s| - n ensures IsWhitespace(s[n..][i]) {
        if i < |s| - 1 - n {
          assert s[n..][i] == s[..|s| - 1][n..][i];
        }
      }
    }
  }

  /** `str::trim`: both ends, whitespace as `char::is_whitespace` says. */
  function Trim(s: string): (r: string)
    ensures |r| <= |s|
    ensures r != [] ==> !IsWhitespace(r[0]) && !IsWhitespace(r[|r| - 1])
    ensures (s == [] || (!IsWhitespace(s[0]) && !IsWhitespace(s[|s| - 1]))) ==> r == s
  {
    TrimEnd(TrimStart(s))
  }

  /** Trimming leaves nothing exactly when there is nothing but whitespace. */
  lemma {:induction false} TrimEmpty(s: string)
    ensures Trim(s) == [] <==> AllWhitespace(s)
  {
    var t := TrimStart(s);
    TrimStartDropsWhitespace(s);
    TrimEndDropsWhitespace(t);
    if AllWhitespace(t) {
      assert t == [];
      assert s == s[..|s| - |t|];
    }
    if Trim(s) == [] {
      assert t == t[|Trim(s)|..];
    }
  }

  /** Trimming only removes characters. */
  lemma TrimKeepsOnly(s: string, c: char)
    requires c !in s
    ensures c !in Trim(s)
  {
    var t := TrimStart(s);
    var r := TrimEnd(t);
    forall i | 0 <= i < |r| ensures r[i] != c {
      assert r[i] == t[i] == s[|s| - |t| + i];
    }
  }

  predicate StartsWith(s: string, prefix: string) {
    |prefix| <= |s| && s[..|prefix|] == prefix
  }

  /** `str::strip_prefix` */
  function StripPrefix(s: string, prefix: string): (r: Option<string>)
    ensures r.Some? <==> StartsWith(s, prefix)
    ensures r.Some? ==> s == prefix + r.value
  {
    if StartsWith(s, prefix) then Some(s[|prefix|..]) else None
  }

  /** `str::contains` with a string pattern. */
  predicate Contains(s: string, pattern: string) {
    exists i :: 0 <= i <= |s| - |pattern| && StartsWith(s[i..], pattern)
  }

  /** `str::trim_start_matches` with a string pattern: strips the pattern
      from the front as many times as it occurs there. */
  function TrimStartMatches(s: string, pattern: string): (r: string)
    ensures |r| <= |s| && r == s[|s| - |r|..]
    ensures pattern != [] ==> !StartsWith(r, pattern)
    decreases |s|
  {
    if pattern != [] && StartsWith(s, pattern) then TrimStartMatches(s[|pattern|..], pattern)
    else s
  }

  /** `str::trim_end_matches` with a `char` pattern. */
  function TrimEndMatches(s: string, c: char): (r: string)
    ensures |r| <= |s| && r == s[..|r|]
    ensures forall i :: |r| <= i < |s| ==> s[i] == c
    ensures r == [] || r[|r| - 1] != c
  {
    if s != [] && s[|s| - 1] == c then TrimEndMatches(s[..|s| - 1], c) else s
  }

  /** `str::replace` of one `char` by another. */
  function ReplaceChar(s: string, from: char, to: char): (r: string)
    ensures |r| == |s|
    ensures forall i :: 0 <= i < |s| ==> r[i] == if s[i] == from then to else s[i]
  {
    if s == [] then [] else [if s[0] == from then to else s[0]] + ReplaceChar(s[1..], from, to)
  }

  /** The first piece of `s.split(c)`: everything before the first `c`,
      or all of `s` when there is none. */
  function BeforeChar(s: string, c: char): (r: string)
    ensures |r| <= |s| && r == s[..|r|]
    ensures c !in r
    ensures |r| < |s| ==> s[|r|] == c
  {
    if s == [] || s[0] == c then [] else [s[0]] + BeforeChar(s[1..], c)
  }

  /** `BeforeChar` stops at the first occurrence of the character. */
  lemma {:induction false} BeforeCharAt(s: string, c: char, k: nat)
    requires k <= |s| && c !in s[..k] && (k == |s| || s[k] == c)
    ensures BeforeChar(s, c) == s[..k]
    decreases k
  {
    if k > 0 {
      assert s[0] == s[..k][0];
      assert s[1..][..k - 1] == s[..k][1..];
      BeforeCharAt(s[1..], c, k - 1);
    }
  }

  predicate IsAsciiDigit(c: char) {
    '0' <= c <= '9'
  }

  predicate AllAsciiDigits(s: string) {
    forall i :: 0 <= i < |s| ==> IsAsciiDigit(s[i])
  }

  /** The number a string of ASCII digits denotes. */
  function DigitsValue(s: string): nat
    requires AllAsciiDigits(s)
  {
    if s == [] then 0 else 10 * DigitsValue(s[..|s| - 1]) + (s[|s| - 1] as int - '0' as int)
  }

  /** Whether `s.parse::<u32>()` succeeds: an optional `+`, then at least
      one ASCII digit, denoting a value that fits in 32 bits. */
  predicate ParsesAsU32(s: string) {
    var digits := if s != [] && s[0] == '+' then s[1..] else s;
    digits != [] && AllAsciiDigits(digits) && DigitsValue(digits) <= U32Max
  }

  /** The decimal text of a natural number, as Rust's `Display` writes it. */
  function DecimalText(n: nat): (r: string)
    ensures r != [] && AllAsciiDigits(r) && DigitsValue(r) == n
  {
    var d := ['0' + (n % 10) as char];
    if n < 10 then d
    else
      var r := DecimalText(n / 10) + d;
      assert r[..|r| - 1] == DecimalText(n / 10);
      r
  }
}
