/**
 * String helpers shared by the extension's modules: JavaScript's `String(n)`
 * for array indices, ASCII case mapping, `trim`, `indexOf`, `startsWith` and
 * `includes`, all on `seq<char>`, where a `char` is a Unicode scalar value.
 */
module Text {
  import opened Wrappers

  /** The decimal digit `d` as a character. */
  function DigitChar(d: nat): (c: char)
    requires d < 10
    ensures '0' <= c <= '9'
  {
    (48 + d) as char
  }

  /** `String(n)` for a non-negative integer: the key JavaScript uses for `obj[n]`. */
  function IndexKey(n: nat): (s: string)
    ensures |s| >= 1
    ensures forall i | 0 <= i < |s| :: '0' <= s[i] <= '9'
    ensures n < 10 <==> |s| == 1
    decreases n
  {
    if n < 10 then [DigitChar(n)] else IndexKey(n / 10) + [DigitChar(n % 10)]
  }

  /** Distinct indices give distinct keys, so index-keyed children never overwrite each other. */
  lemma {:induction false} IndexKeyInjective(a: nat, b: nat)
    requires IndexKey(a) == IndexKey(b)
    ensures a == b
    decreases a
  {
    if a < 10 || b < 10 {
      assert |IndexKey(a)| == 1 && |IndexKey(b)| == 1;
      assert IndexKey(a)[0] == IndexKey(b)[0];
    } else {
      var sa, sb := IndexKey(a), IndexKey(b);
      assert sa == IndexKey(a / 10) + [DigitChar(a % 10)];
      assert sb == IndexKey(b / 10) + [DigitChar(b % 10)];
      assert sa[|sa| - 1] == sb[|sb| - 1];
      assert a % 10 == b % 10;
      assert sa[..|sa| - 1] == IndexKey(a / 10);
      assert sb[..|sb| - 1] == IndexKey(b / 10);
      IndexKeyInjective(a / 10, b / 10);
    }
  }

  /** Every key of `m` is the index key of some `i < n`. */
  predicate OnlyIndexKeys<T>(m: map<string, T>, n: nat) {
    forall key | key in m :: exists i | 0 <= i < n :: key == IndexKey(i)
  }

  /**
   * The object `o` left by `o[0] = vals[0]; o[1] = vals[1]; …` on an empty
   * object: each value under its index key.
   */
  function IndexKeyed<T>(vals: seq<T>): (m: map<string, T>)
    ensures forall key | key in m :: exists i | 0 <= i < |vals| :: key == IndexKey(i) && m[key] == vals[i]
    decreases |vals|
  {
    if |vals| == 0 then map[]
    else IndexKeyed(vals[..|vals| - 1])[IndexKey(|vals| - 1) := vals[|vals| - 1]]
  }

  /** Keying one more value of `vals` adds it under the next index. */
  lemma IndexKeyedStep<T>(vals: seq<T>, i: nat)
    requires i < |vals|
    ensures IndexKeyed(vals[..i + 1]) == IndexKeyed(vals[..i])[IndexKey(i) := vals[i]]
  {
    assert vals[..i + 1][..i] == vals[..i];
  }

  /** Every index is present under its key with its own value: no later index overwrites an earlier one. */
  lemma {:induction false} IndexKeyedLookup<T>(vals: seq<T>)
    ensures forall i | 0 <= i < |vals| :: IndexKey(i) in IndexKeyed(vals) && IndexKeyed(vals)[IndexKey(i)] == vals[i]
    decreases |vals|
  {
    if |vals| > 0 {
      var n := |vals|;
      var prefix := vals[..n - 1];
      IndexKeyedLookup(prefix);
      forall i | 0 <= i < n - 1
        ensures IndexKey(i) != IndexKey(n - 1)
      {
        if IndexKey(i) == IndexKey(n - 1) {
          IndexKeyInjective(i, n - 1);
        }
      }
      forall i | 0 <= i < n
        ensures IndexKey(i) in IndexKeyed(vals) && IndexKeyed(vals)[IndexKey(i)] == vals[i]
      {
        if i < n - 1 {
          assert prefix[i] == vals[i];
        }
      }
    }
  }

  // ---------------------------------------------------------------------------
  // Case mapping (ASCII letters; see README for what is not modelled)

  function UpperChar(c: char): char {
    if 'a' <= c <= 'z' then (c as int - 32) as char else c
  }

  function LowerChar(c: char): char {
    if 'A' <= c <= 'Z' then (c as int + 32) as char else c
  }

  /** `s.toUpperCase()` */
  function ToUpper(s: string): (r: string)
    ensures |r| == |s|
    ensures forall i | 0 <= i < |s| :: r[i] == UpperChar(s[i])
  {
    seq(|s|, i requires 0 <= i < |s| => UpperChar(s[i]))
  }

  /** `s.toLowerCase()` */
  function ToLower(s: string): (r: string)
    ensures |r| == |s|
    ensures forall i | 0 <= i < |s| :: r[i] == LowerChar(s[i])
  {
    seq(|s|, i requires 0 <= i < |s| => LowerChar(s[i]))
  }

  /** Upper-casing twice is upper-casing once: a canonical method name is stable. */
  lemma ToUpperIdempotent(s: string)
    ensures ToUpper(ToUpper(s)) == ToUpper(s)
  {
    assert forall i | 0 <= i < |s| :: UpperChar(UpperChar(s[i])) == UpperChar(s[i]);
  }

  // ---------------------------------------------------------------------------
  // Whitespace and trim

  /** The characters `String.prototype.trim` and the regular-expression class `\s` remove. */
  predicate IsWhitespace(c: char) {
    c == '\t' || c == '\n' || c == '\U{000B}' || c == '\U{000C}' || c == '\r' || c == ' '
    || c == '\U{00A0}' || c == '\U{1680}' || ('\U{2000}' <= c <= '\U{200A}')
    || c == '\U{2028}' || c == '\U{2029}' || c == '\U{202F}' || c == '\U{205F}'
    || c == '\U{3000}' || c == '\U{FEFF}'
  }

  /** `s` without its leading whitespace. */
  function TrimStart(s: string): (r: string)
    ensures |r| <= |s| && r == s[|s| - |r|..]
    ensures r == [] || !IsWhitespace(r[0])
    ensures forall i | 0 <= i < |s| - |r| :: IsWhitespace(s[i])
  {
    if s == [] || !IsWhitespace(s[0]) then s else TrimStart(s[1..])
  }

  /** `s` without its trailing whitespace. */
  function TrimEnd(s: string): (r: string)
    ensures |r| <= |s| && r == s[..|r|]
    ensures r == [] || !IsWhitespace(r[|r| - 1])
    ensures forall i | |r| <= i < |s| :: IsWhitespace(s[i])
  {
    if s == [] || !IsWhitespace(s[|s| - 1]) then s else TrimEnd(s[..|s| - 1])
  }

  /** `s.trim()` */
  function Trim(s: string): (r: string)
    ensures |r| <= |s|
    ensures r == [] || (!IsWhitespace(r[0]) && !IsWhitespace(r[|r| - 1]))
  {
    var t := TrimStart(s);
    var r := TrimEnd(t);
    assert r != [] ==> r[0] == t[0];
    r
  }

  /** A string with no whitespace at either end is its own trim. */
  lemma TrimOfTrimmed(s: string)
    requires s == [] || (!IsWhitespace(s[0]) && !IsWhitespace(s[|s| - 1]))
    ensures Trim(s) == s
  {
  }

  // ---------------------------------------------------------------------------
  // Searching

  predicate StartsWith(s: string, prefix: string) {
    |prefix| <= |s| && s[..|prefix|] == prefix
  }

  predicate EndsWith(s: string, suffix: string) {
    |suffix| <= |s| && s[|s| - |suffix|..] == suffix
  }

  /** `pat` occurs in `s` at position `i`. */
  predicate OccursAt(s: string, pat: string, i: int) {
    0 <= i && i + |pat| <= |s| && s[i..i + |pat|] == pat
  }

  /** `s.indexOf(pat, from)`, with `None` for JavaScript's -1. */
  function IndexOfFrom(s: string, pat: string, from: nat): (r: Option<nat>)
    ensures r.Some? ==> from <= r.value && OccursAt(s, pat, r.value)
    ensures r.Some? ==> forall j | from <= j < r.value :: !OccursAt(s, pat, j)
    ensures r.None? ==> forall j | from <= j :: !OccursAt(s, pat, j)
    decreases |s| - from
  {
    if from + |pat| > |s| then None
    else if s[from..from + |pat|] == pat then Some(from)
    else IndexOfFrom(s, pat, from + 1)
  }

  /** `s.indexOf(pat)` */
  function IndexOf(s: string, pat: string): Option<nat> {
    IndexOfFrom(s, pat, 0)
  }

  /** `s.includes(pat)` */
  predicate Contains(s: string, pat: string) {
    IndexOf(s, pat).Some?
  }
}
