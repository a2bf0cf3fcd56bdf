/** Character classes and string primitives used by the pattern scanners.

    The source relies on Python's `re` and `str` methods over Unicode text;
    this model uses their ASCII core: `\w` is `[A-Za-z0-9_]`, `\s` (and
    `strip()`) is the ASCII characters Python's `str.isspace()` accepts (tab,
    line feed, vertical tab, form feed, carriage return, the four separators
    0x1C-0x1F and the blank), `\d` is `[0-9]` and `lower()` folds `A`-`Z`. */
module Text {

  predicate IsWordChar(c: char)
  {
    ('a' <= c <= 'z') || ('A' <= c <= 'Z') || ('0' <= c <= '9') || c == '_'
  }

  predicate IsSpace(c: char)
  {
    c == ' ' || (9 <= c as int <= 13) || (28 <= c as int <= 31)
  }

  predicate IsQuote(c: char)
  {
    c == '\'' || c == '"'
  }

  predicate IsDigit(c: char)
  {
    '0' <= c <= '9'
  }

  /** The character classes a scanner skips greedily: `\w`, `\s`, and the
      class `[\w\s=:,]` of the lazy group in the SET-clause pattern. */
  datatype CharClass = Word | Space | SetBody

  predicate InClass(c: char, k: CharClass)
  {
    match k
    case Word => IsWordChar(c)
    case Space => IsSpace(c)
    case SetBody => IsWordChar(c) || IsSpace(c) || c == '=' || c == ':' || c == ','
  }

  /** Length of the longest run of class `k` starting at `i` (what a greedy
      `k*` consumes there). */
  function Run(s: string, i: nat, k: CharClass): (n: nat)
    requires i <= |s|
    ensures i + n <= |s|
    decreases |s| - i
  {
    if i < |s| && InClass(s[i], k) then 1 + Run(s, i + 1, k) else 0
  }

  /** A run holds only characters of its class and stops at the end of the
      string or at a character outside the class. */
  lemma {:induction false} RunFacts(s: string, i: nat, k: CharClass)
    requires i <= |s|
    ensures forall j :: i <= j < i + Run(s, i, k) ==> InClass(s[j], k)
    ensures i + Run(s, i, k) == |s| || !InClass(s[i + Run(s, i, k)], k)
    decreases |s| - i
  {
    if i < |s| && InClass(s[i], k) {
      RunFacts(s, i + 1, k);
    }
  }

  /** A non-empty string of word characters: what `\w+` can capture. */
  predicate IsWord(w: string)
  {
    |w| > 0 && forall j :: 0 <= j < |w| ==> IsWordChar(w[j])
  }

  function LowerChar(c: char): (r: char)
  {
    if 'A' <= c <= 'Z' then (c as int + 32) as char else c
  }

  /** `str.lower()` on ASCII letters. */
  function Lower(s: string): (r: string)
    ensures |r| == |s|
    ensures forall j :: 0 <= j < |s| ==> r[j] == LowerChar(s[j])
  {
    seq(|s|, j requires 0 <= j < |s| => LowerChar(s[j]))
  }

  /** `lit` occurs in `s` at position `i`. */
  predicate StartsWith(s: string, i: nat, lit: string)
  {
    i + |lit| <= |s| && s[i..i + |lit|] == lit
  }

  /** `lit` (written in lower case) occurs at `i` ignoring letter case, as
      under `re.IGNORECASE`. */
  predicate StartsWithCI(s: string, i: nat, lit: string)
  {
    i + |lit| <= |s| && Lower(s[i..i + |lit|]) == lit
  }

  /** Python's `sub in s` for strings. */
  predicate Contains(s: string, sub: string)
  {
    exists i :: 0 <= i <= |s| && StartsWith(s, i, sub)
  }

  /** Python's `sub in s.lower()`, for a lower-case `sub`. */
  predicate ContainsCI(s: string, sub: string)
  {
    Contains(Lower(s), sub)
  }

  /** `str.strip()`: white space removed from both ends. */
  function Strip(s: string): (r: string)
    ensures |r| <= |s|
    ensures r != [] ==> !IsSpace(r[0]) && !IsSpace(r[|r| - 1])
    decreases |s|
  {
    if s == [] then []
    else if IsSpace(s[0]) then Strip(s[1..])
    else if IsSpace(s[|s| - 1]) then Strip(s[..|s| - 1])
    else s
  }

  /** `str.split(sep)` for a one-character separator: the pieces between
      consecutive separators, so there is always one more piece than there
      are separators. */
  function Split(s: string, sep: char): (r: seq<string>)
    ensures |r| >= 1
    decreases |s|
  {
    if sep in s then
      var k := FirstIndex(s, sep);
      [s[..k]] + Split(s[k + 1..], sep)
    else [s]
  }

  function FirstIndex(s: string, c: char): (k: nat)
    requires c in s
    ensures k < |s| && s[k] == c && c !in s[..k]
  {
    if s[0] == c then 0 else 1 + FirstIndex(s[1..], c)
  }

  /** Decimal rendering of a natural number, as `str(n)` gives it. */
  function NatToString(n: nat): (r: string)
    ensures |r| >= 1
    ensures forall j :: 0 <= j < |r| ==> IsDigit(r[j])
  {
    var d := [(48 + n % 10) as char];
    if n < 10 then d else NatToString(n / 10) + d
  }
}
