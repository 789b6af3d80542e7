/** The string operations the dispatcher's Python relies on, on Dafny strings: whitespace,
    stripping, prefixes and substrings, decimal numerals, and `str.splitlines`. */
module PyText {

  datatype Option<+T> = None | Some(value: T)

  predicate Distinct<T(==)>(s: seq<T>) {
    forall i, j | 0 <= i < j < |s| :: s[i] != s[j]
  }

  /** `str.isspace`, which is also what `\s` matches in a text pattern. */
  predicate IsSpace(c: char) {
    || '\t' <= c <= '\r' || '\U{1c}' <= c <= ' '
    || c == '\U{85}' || c == '\U{a0}' || c == '\U{1680}' || '\U{2000}' <= c <= '\U{200a}'
    || c == '\U{2028}' || c == '\U{2029}' || c == '\U{202f}' || c == '\U{205f}' || c == '\U{3000}'
  }

  /** The end of the run of non-whitespace that starts at `i`. */
  function SkipWord(s: string, i: nat): (j: nat)
    requires i <= |s|
    ensures i <= j <= |s|
    ensures forall k | i <= k < j :: !IsSpace(s[k])
    ensures j < |s| ==> IsSpace(s[j])
    decreases |s| - i
  {
    if i < |s| && !IsSpace(s[i]) then SkipWord(s, i + 1) else i
  }

  predicate Blank(s: string) {
    forall k | 0 <= k < |s| :: IsSpace(s[k])
  }

  function LStrip(s: string): (r: string)
    ensures |r| <= |s| && s[|s| - |r|..] == r
    ensures r != [] ==> !IsSpace(r[0])
  {
    if s != [] && IsSpace(s[0]) then LStrip(s[1..]) else s
  }

  function RStrip(s: string): (r: string)
    ensures r <= s
    ensures r != [] ==> !IsSpace(r[|r| - 1])
    ensures forall k | |r| <= k < |s| :: IsSpace(s[k])
  {
    if s != [] && IsSpace(s[|s| - 1]) then RStrip(s[..|s| - 1]) else s
  }

  function Strip(s: string): string {
    RStrip(LStrip(s))
  }

  /** A string `strip` leaves alone. */
  predicate Trimmed(s: string) {
    s != [] ==> !IsSpace(s[0]) && !IsSpace(s[|s| - 1])
  }

  lemma StripOfTrimmed(s: string)
    requires Trimmed(s)
    ensures Strip(s) == s
  {
  }

  lemma LeadingSpace(c: char, s: string)
    requires IsSpace(c)
    ensures LStrip([c] + s) == LStrip(s)
  {
  }

  predicate StartsWith(s: string, p: string) {
    |p| <= |s| && s[..|p|] == p
  }

  predicate EndsWith(s: string, p: string) {
    |p| <= |s| && s[|s| - |p|..] == p
  }

  /** `p` stands in `s` at position `i`. */
  predicate At(s: string, i: nat, p: string) {
    i + |p| <= |s| && s[i..i + |p|] == p
  }

  lemma AtChars(s: string, i: nat, p: string, k: nat)
    requires At(s, i, p) && k < |p|
    ensures s[i + k] == p[k]
  {
  }

  lemma NotAt(s: string, i: nat, p: string, k: nat)
    requires k < |p| && (i + k < |s| ==> s[i + k] != p[k])
    ensures !At(s, i, p)
  {
  }

  lemma AtFront(p: string, s: string)
    ensures At(p + s, 0, p)
  {
  }

  predicate Contains(s: string, p: string) {
    exists i: nat | i <= |s| :: At(s, i, p)
  }

  // ---- letter case: the letters a to z and A to Z ------------------------------------------

  function UpChar(c: char): char {
    if 'a' <= c <= 'z' then c - 'a' + 'A' else c
  }

  function LowChar(c: char): char {
    if 'A' <= c <= 'Z' then c - 'A' + 'a' else c
  }

  function Upper(s: string): (r: string)
    ensures |r| == |s| && forall k | 0 <= k < |s| :: r[k] == UpChar(s[k])
  {
    seq(|s|, k requires 0 <= k < |s| => UpChar(s[k]))
  }

  function Lower(s: string): (r: string)
    ensures |r| == |s| && forall k | 0 <= k < |s| :: r[k] == LowChar(s[k])
  {
    seq(|s|, k requires 0 <= k < |s| => LowChar(s[k]))
  }

  lemma LowerConcat(a: string, b: string)
    ensures Lower(a + b) == Lower(a) + Lower(b)
  {
  }

  predicate IsWordChar(c: char) {
    'a' <= c <= 'z' || 'A' <= c <= 'Z' || '0' <= c <= '9' || c == '_'
  }

  function Concat(parts: seq<string>): string {
    if parts == [] then [] else parts[0] + Concat(parts[1..])
  }

  lemma {:induction false} ConcatAppend(a: seq<string>, b: seq<string>)
    ensures Concat(a + b) == Concat(a) + Concat(b)
  {
    if a == [] {
      assert a + b == b;
    } else {
      assert (a + b)[1..] == a[1..] + b;
      ConcatAppend(a[1..], b);
    }
  }

  const DIGITS := "0123456789"

  /** `str(n)` for a natural number. */
  function Decimal(n: nat): (s: string)
    ensures |s| >= 1
    ensures forall c | c in s :: '0' <= c <= '9'
  {
    if n < 10 then [DIGITS[n]] else Decimal(n / 10) + [DIGITS[n % 10]]
  }
}
