/** Field-name lists as the analysers print and filter them. */
module FieldNames {
  import opened Common
  import opened Text

  /** `[f for f in fields if sub in f.lower()]`. */
  function Variants(fields: seq<string>, sub: string): (r: seq<string>)
    ensures forall f :: f in r <==> f in fields && ContainsCI(f, sub)
    ensures NoDuplicates(fields) ==> NoDuplicates(r)
  {
    if fields == [] then []
    else
      var init := fields[..|fields| - 1];
      var last := fields[|fields| - 1];
      var rest := Variants(init, sub);
      assert NoDuplicates(fields) ==> NoDuplicates(init) && last !in init by {
        if NoDuplicates(fields) {
          forall i | 0 <= i < |init| ensures init[i] != last && init[i] == fields[i] {
            assert init[i] == fields[i];
          }
        }
      }
      if ContainsCI(last, sub) then rest + [last] else rest
  }

  /** The filter distributes over concatenation, so it keeps the order
      of the names it lets through. */
  lemma {:induction false} VariantsAppend(xs: seq<string>, ys: seq<string>, sub: string)
    ensures Variants(xs + ys, sub) == Variants(xs, sub) + Variants(ys, sub)
    decreases |ys|
  {
    if ys == [] {
      assert xs + ys == xs;
    } else {
      var init := ys[..|ys| - 1];
      assert (xs + ys)[..|xs + ys| - 1] == xs + init;
      assert (xs + ys)[|xs + ys| - 1] == ys[|ys| - 1];
      VariantsAppend(xs, init, sub);
    }
  }

  /** No name mentions `sub`: nothing is kept. */
  lemma {:induction false} VariantsNone(fields: seq<string>, sub: string)
    requires forall j :: 0 <= j < |fields| ==> !ContainsCI(fields[j], sub)
    ensures Variants(fields, sub) == []
  {
    if fields != [] {
      VariantsNone(fields[..|fields| - 1], sub);
    }
  }

  /** The first name the filter keeps is the first name of the list that
      mentions `sub`. */
  lemma VariantsFirst(fields: seq<string>, sub: string, i: nat)
    requires i < |fields| && ContainsCI(fields[i], sub)
    requires forall j :: 0 <= j < i ==> !ContainsCI(fields[j], sub)
    ensures Variants(fields, sub) != [] && Variants(fields, sub)[0] == fields[i]
  {
    VariantsUpTo(fields, sub, i);
    VariantsAppend(fields[..i + 1], fields[i + 1..], sub);
    assert fields[..i + 1] + fields[i + 1..] == fields;
  }

  lemma VariantsUpTo(fields: seq<string>, sub: string, i: nat)
    requires i < |fields| && ContainsCI(fields[i], sub)
    requires forall j :: 0 <= j < i ==> !ContainsCI(fields[j], sub)
    ensures Variants(fields[..i + 1], sub) == [fields[i]]
  {
    var before := fields[..i];
    assert forall j :: 0 <= j < |before| ==> before[j] == fields[j];
    VariantsNone(before, sub);
    assert fields[..i + 1][..i] == before;
  }

  /** The members of a field set whose lower-case form contains `sub`. */
  ghost function Mentioning(fields: set<string>, sub: string): set<string>
  {
    set f | f in fields && ContainsCI(f, sub)
  }

  /** Python's `repr` of a list of field names: each name as `Repr` shows
      it, separated by a comma and a blank. */
  function ListRepr(xs: seq<string>): string
  {
    "[" + ReprItems(xs) + "]"
  }

  function ReprItems(xs: seq<string>): string
  {
    if xs == [] then ""
    else if |xs| == 1 then Repr(xs[0])
    else Repr(xs[0]) + ", " + ReprItems(xs[1..])
  }

  /** The quote `repr` puts around a string: double quotes when the string
      holds a single quote and no double quote, single quotes otherwise. */
  function QuoteFor(s: string): (q: char)
    ensures IsQuote(q)
  {
    if '\'' in s && '"' !in s then '"' else '\''
  }

  /** A control character `repr` writes as `\xhh`. */
  predicate IsHexEscaped(c: char)
  {
    (c as int < 32 || c as int == 127) && c != '\t' && c != '\n' && c != '\r'
  }

  function HexDigit(d: nat): (c: char)
    requires d < 16
  {
    if d < 10 then (48 + d) as char else (87 + d) as char
  }

  predicate IsHexDigit(c: char)
  {
    ('0' <= c <= '9') || ('a' <= c <= 'f')
  }

  function HexValue(c: char): (d: nat)
    requires IsHexDigit(c)
    ensures d < 16
  {
    if c <= '9' then c as int - 48 else c as int - 87
  }

  /** How `repr` writes one character inside quotes `q`: the quote and the
      backslash are preceded by a backslash, tab, line feed and carriage
      return become `\t`, `\n` and `\r`, the other ASCII control characters
      `\xhh`, and every other character stands for itself. */
  function EscapeChar(c: char, q: char): string
  {
    if c == q || c == '\\' then ['\\', c]
    else if c == '\t' then "\\t"
    else if c == '\n' then "\\n"
    else if c == '\r' then "\\r"
    else if IsHexEscaped(c) then ['\\', 'x', HexDigit(c as int / 16), HexDigit(c as int % 16)]
    else [c]
  }

  function Escaped(s: string, q: char): string
  {
    if s == [] then "" else EscapeChar(s[0], q) + Escaped(s[1..], q)
  }

  /** Python's `repr` of a string (its ASCII core): quoted by double
      quotes exactly when the string holds a single quote and no double
      quote. */
  function Repr(s: string): (r: string)
    ensures |r| >= 2 && IsQuote(r[0]) && r[|r| - 1] == r[0]
    ensures r[0] == '"' <==> '\'' in s && '"' !in s
  {
    [QuoteFor(s)] + Escaped(s, QuoteFor(s)) + [QuoteFor(s)]
  }

  function Prepend(c: char, t: Option<string>): Option<string>
  {
    if t.Some? then Some([c] + t.value) else None
  }

  /** Reading the inside of a string literal quoted by `q` back, as Python's
      parser does for the escapes `repr` writes: `None` for a bare quote or
      an escape `repr` never produces. */
  function Unescape(t: string, q: char): Option<string>
    decreases |t|
  {
    if t == [] then Some("")
    else if t[0] == '\\' then
      if |t| >= 2 && (IsQuote(t[1]) || t[1] == '\\') then Prepend(t[1], Unescape(t[2..], q))
      else if |t| >= 2 && t[1] == 't' then Prepend('\t', Unescape(t[2..], q))
      else if |t| >= 2 && t[1] == 'n' then Prepend('\n', Unescape(t[2..], q))
      else if |t| >= 2 && t[1] == 'r' then Prepend('\r', Unescape(t[2..], q))
      else if |t| >= 4 && t[1] == 'x' && IsHexDigit(t[2]) && IsHexDigit(t[3]) then
        Prepend((HexValue(t[2]) * 16 + HexValue(t[3])) as char, Unescape(t[4..], q))
      else None
    else if t[0] == q then None
    else Prepend(t[0], Unescape(t[1..], q))
  }

  /** Reading a quoted literal back. */
  function Unrepr(r: string): Option<string>
  {
    if |r| >= 2 && IsQuote(r[0]) && r[|r| - 1] == r[0] then Unescape(r[1..|r| - 1], r[0])
    else None
  }

  lemma HexRoundTrip(d: nat)
    requires d < 16
    ensures IsHexDigit(HexDigit(d)) && HexValue(HexDigit(d)) == d
  {
  }

  /** Reading back one written character leaves the rest to be read. */
  lemma UnescapeChar(c: char, q: char, rest: string)
    requires IsQuote(q)
    ensures Unescape(EscapeChar(c, q) + rest, q) == Prepend(c, Unescape(rest, q))
  {
    var t := EscapeChar(c, q) + rest;
    if c == q || c == '\\' {
      assert t[2..] == rest;
    } else if c == '\t' || c == '\n' || c == '\r' {
      assert t[2..] == rest;
    } else if IsHexEscaped(c) {
      HexRoundTrip(c as int / 16);
      HexRoundTrip(c as int % 16);
      assert t[4..] == rest;
      assert (HexValue(t[2]) * 16 + HexValue(t[3])) as char == c;
    } else {
      assert t[1..] == rest;
    }
  }

  lemma {:induction false} EscapedRoundTrip(s: string, q: char)
    requires IsQuote(q)
    ensures Unescape(Escaped(s, q), q) == Some(s)
  {
    if s != [] {
      EscapedRoundTrip(s[1..], q);
      UnescapeChar(s[0], q, Escaped(s[1..], q));
      assert [s[0]] + s[1..] == s;
    }
  }

  /** `repr` loses nothing: the literal it writes reads back as the string. */
  lemma ReprRoundTrip(s: string)
    ensures Unrepr(Repr(s)) == Some(s)
  {
    var r := Repr(s);
    assert r[1..|r| - 1] == Escaped(s, QuoteFor(s));
    EscapedRoundTrip(s, QuoteFor(s));
  }

  /** A name without quotes, backslashes or control characters is shown
      between single quotes as it is. */
  lemma {:induction false} ReprPlain(s: string)
    requires forall j :: 0 <= j < |s| ==> !IsQuote(s[j]) && s[j] != '\\' && 32 <= s[j] as int && s[j] as int != 127
    ensures Repr(s) == "'" + s + "'"
  {
    assert QuoteFor(s) == '\'';
    EscapedPlain(s);
  }

  lemma {:induction false} EscapedPlain(s: string)
    requires forall j :: 0 <= j < |s| ==> !IsQuote(s[j]) && s[j] != '\\' && 32 <= s[j] as int && s[j] as int != 127
    ensures Escaped(s, '\'') == s
  {
    if s != [] {
      EscapedPlain(s[1..]);
      assert [s[0]] + s[1..] == s;
    }
  }

  lemma VariantsAsSet(fields: seq<string>, sub: string)
    ensures AsSet(Variants(fields, sub)) == Mentioning(AsSet(fields), sub)
  {
  }

  lemma VariantsOfSet(fields: seq<string>, sub: string)
    requires NoDuplicates(fields)
    ensures Variants(fields, sub) != [] <==> Mentioning(AsSet(fields), sub) != {}
    ensures |Variants(fields, sub)| == |Mentioning(AsSet(fields), sub)|
  {
    var v := Variants(fields, sub);
    assert AsSet(v) == Mentioning(AsSet(fields), sub);
    DistinctCardinality(v);
    if v != [] {
      assert v[0] in Mentioning(AsSet(fields), sub);
    }
  }

  /** Strings whose fixed prefixes differ at some index are different. */
  lemma PrefixesDiffer(a: string, b: string, x: string, y: string, c: string, d: string, k: nat)
    requires k < |a| && k < |b| && a[k] != b[k]
    ensures a + x + c != b + y + d
  {
    assert (a + x + c)[k] == a[k];
    assert (b + y + d)[k] == b[k];
  }
}
