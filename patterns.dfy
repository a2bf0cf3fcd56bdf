/** The six regular expressions of the handler-source field extractor, each
    written as a scanner that decides whether a match starts at a given
    position and, if so, what it captures and where it ends; and `FindAll`,
    which collects captures left to right and resumes after each match, as
    Python's `re.findall` does.

    Every scanner reproduces the backtracking regex's behaviour: a greedy
    `\s*`, `\s+` or `\w+` takes the longest run (giving characters back can
    never rescue these patterns, because the character that follows a run
    never fits what comes next), and the lazy group of the SET-clause pattern
    tries the shortest prefix first. */
module Patterns {
  import opened Common
  import opened Text

  datatype Pattern =
    /** `body.get(` quote word quote `)` or `body[` quote word quote `]`;
        case-sensitive, two groups (one per alternative). */
    | KeyedAccess
    /** quote word quote, white space, `in`, white space, `body`. */
    | Membership
    /** `const {` word list `} = body`, with optional white space around
        every token; the group is the comma-separated list. */
    | Destructuring
    /** `update_expression += ', X =`, any letter case. */
    | AppendClause
    /** `UpdateExpression = 'SET X =`, any letter case. */
    | SetAssignment
    /** quote `SET`, white space, a lazily matched run of word characters,
        white space, `=`, `:` or `,`, then `X = :placeholder`; any letter case. */
    | SetClause

  /** One match: the captured groups and the position just after it. */
  datatype Hit = Hit(groups: seq<string>, end: nat)

  function SkipSpace(s: string, i: nat): (j: nat)
    requires i <= |s|
    ensures i <= j <= |s|
    ensures forall t :: i <= t < j ==> IsSpace(s[t])
    ensures j == |s| || !IsSpace(s[j])
  {
    RunFacts(s, i, Space);
    i + Run(s, i, Space)
  }

  function KeyedAccessAt(s: string, i: nat): (r: Option<Hit>)
    requires i <= |s|
    ensures r.Some? ==> i < r.value.end <= |s| && |r.value.groups| == 2
  {
    var getForm := StartsWith(s, i, "body.get(");
    var indexForm := StartsWith(s, i, "body[");
    var a := if getForm then i + 10 else i + 6;
    if (getForm || indexForm) && a <= |s| && IsQuote(s[a - 1]) then
      var n := Run(s, a, Word);
      var close := if getForm then ')' else ']';
      if n > 0 && a + n + 1 < |s| && IsQuote(s[a + n]) && s[a + n + 1] == close then
        var w := s[a..a + n];
        Some(Hit(if getForm then [w, ""] else ["", w], a + n + 2))
      else None
    else None
  }

  function MembershipAt(s: string, i: nat): (r: Option<Hit>)
    requires i <= |s|
    ensures r.Some? ==> i < r.value.end <= |s| && |r.value.groups| == 1
  {
    if i < |s| && IsQuote(s[i]) then
      var n := Run(s, i + 1, Word);
      var c := i + 1 + n;
      if n > 0 && c < |s| && IsQuote(s[c]) then
        var d := SkipSpace(s, c + 1);
        if d > c + 1 && StartsWith(s, d, "in") then
          var e := SkipSpace(s, d + 2);
          if e > d + 2 && StartsWith(s, e, "body") then Some(Hit([s[i + 1..c]], e + 4))
          else None
        else None
      else None
    else None
  }

  /** End of the greedy repetition of (white space, comma, white space, word)
      that starts at `j`. */
  function ListEnd(s: string, j: nat): (e: nat)
    requires j <= |s|
    ensures j <= e <= |s|
    ensures forall t :: j <= t < e ==> IsWordChar(s[t]) || IsSpace(s[t]) || s[t] == ','
    decreases |s| - j
  {
    var p := SkipSpace(s, j);
    if p < |s| && s[p] == ',' then
      var a := SkipSpace(s, p + 1);
      var n := Run(s, a, Word);
      RunFacts(s, a, Word);
      if n > 0 then ListEnd(s, a + n) else j
    else j
  }

  /** The closing part of the destructuring pattern from `e`: `}`, `=` and
      `body`, with optional white space before each; the end of the match. */
  function ClosingAt(s: string, e: nat): (r: Option<nat>)
    requires e <= |s|
    ensures r.Some? ==> e < r.value <= |s|
  {
    var c := SkipSpace(s, e);
    if c < |s| && s[c] == '}' then
      var q := SkipSpace(s, c + 1);
      if q < |s| && s[q] == '=' then
        var b := SkipSpace(s, q + 1);
        if StartsWith(s, b, "body") then Some(b + 4) else None
      else None
    else None
  }

  /** Positions in a destructuring match: `{` at `o`, the binding list
      `[a, e)` and the end of the match. */
  datatype BracedList = BracedList(o: nat, a: nat, e: nat, end: nat)

  /** The destructuring pattern after `const`: white space, `{`, the binding
      list and the closing part. */
  function BracedListAt(s: string, j: nat): (r: Option<BracedList>)
    requires j <= |s|
    ensures r.Some? ==> j <= r.value.o < r.value.a < r.value.e < r.value.end <= |s|
    ensures r.Some? ==> s[r.value.o] == '{' && ClosingAt(s, r.value.e) == Some(r.value.end)
    ensures r.Some? ==> forall t :: j <= t < r.value.o ==> IsSpace(s[t])
    ensures r.Some? ==> forall t :: r.value.o < t < r.value.a ==> IsSpace(s[t])
    ensures r.Some? ==> forall t :: r.value.a <= t < r.value.e ==> IsWordChar(s[t]) || IsSpace(s[t]) || s[t] == ','
  {
    var o := SkipSpace(s, j);
    if o < |s| && s[o] == '{' then
      var a := SkipSpace(s, o + 1);
      var n := Run(s, a, Word);
      if n > 0 then
        var e := ListEnd(s, a + n);
        var close := ClosingAt(s, e);
        if close.Some? then
          ListRegion(s, a);
          Some(BracedList(o, a, e, close.value))
        else None
      else None
    else None
  }

  function DestructuringAt(s: string, i: nat): (r: Option<Hit>)
    requires i <= |s|
    ensures r.Some? ==> i < r.value.end <= |s| && |r.value.groups| == 1
  {
    if StartsWith(s, i, "const") then
      match BracedListAt(s, i + 5)
      case Some(b) => Some(Hit([s[b.a..b.e]], b.end))
      case None => None
    else None
  }

  /** A binding list holds only word characters, white space and commas. */
  lemma ListRegion(s: string, a: nat)
    requires a <= |s|
    ensures forall t :: a <= t < ListEnd(s, a + Run(s, a, Word)) ==>
      IsWordChar(s[t]) || IsSpace(s[t]) || s[t] == ','
  {
    RunFacts(s, a, Word);
  }

  function AppendClauseAt(s: string, i: nat): (r: Option<Hit>)
    requires i <= |s|
    ensures r.Some? ==> i < r.value.end <= |s| && |r.value.groups| == 1
  {
    if StartsWithCI(s, i, "update_expression") then
      var p := SkipSpace(s, i + 17);
      if StartsWith(s, p, "+=") then
        var q := SkipSpace(s, p + 2);
        if q + 1 < |s| && IsQuote(s[q]) && s[q + 1] == ',' then
          var a := SkipSpace(s, q + 2);
          var n := Run(s, a, Word);
          var e := SkipSpace(s, a + n);
          if n > 0 && e < |s| && s[e] == '=' then Some(Hit([s[a..a + n]], e + 1)) else None
        else None
      else None
    else None
  }

  function SetAssignmentAt(s: string, i: nat): (r: Option<Hit>)
    requires i <= |s|
    ensures r.Some? ==> i < r.value.end <= |s| && |r.value.groups| == 1
  {
    if StartsWithCI(s, i, "updateexpression") then
      var p := SkipSpace(s, i + 16);
      if p < |s| && s[p] == '=' then
        var q := SkipSpace(s, p + 1);
        if q < |s| && IsQuote(s[q]) && StartsWithCI(s, q + 1, "set") then
          var a := SkipSpace(s, q + 4);
          var n := Run(s, a, Word);
          var e := SkipSpace(s, a + n);
          if a > q + 4 && n > 0 && e < |s| && s[e] == '=' then Some(Hit([s[a..a + n]], e + 1))
          else None
        else None
      else None
    else None
  }

  /** The tail of the SET-clause pattern at `q`: a word (captured, longest
      run from `q`), white space, `=`, white space, `:`, and a word. */
  function AssignmentAt(s: string, q: nat): (r: Option<Hit>)
    requires q <= |s|
    ensures r.Some? ==> q < r.value.end <= |s| && |r.value.groups| == 1
    ensures r.Some? ==> IsWordChar(s[q])
  {
    var n := Run(s, q, Word);
    var e := SkipSpace(s, q + n);
    if n > 0 && e < |s| && s[e] == '=' then
      var f := SkipSpace(s, e + 1);
      if f < |s| && s[f] == ':' then
        var m := Run(s, f + 1, Word);
        if m > 0 then Some(Hit([s[q..q + n]], f + 1 + m)) else None
      else None
    else None
  }

  /** The lazy group: the first position in `[q, limit]` where the tail
      matches. */
  function FirstAssignment(s: string, q: nat, limit: nat): (r: Option<nat>)
    requires q <= limit + 1 && limit <= |s|
    ensures r.Some? ==> q <= r.value <= limit && AssignmentAt(s, r.value).Some?
    decreases limit + 1 - q
  {
    if q > limit then None
    else if AssignmentAt(s, q).Some? then Some(q)
    else FirstAssignment(s, q + 1, limit)
  }

  /** Where the captured name of a SET-clause match at `i` starts.
      Greedy `\s+` first takes all `w` white-space characters after `SET`
      and the lazy group then tries every end in order; only when all fail
      does `\s+` give one character back, which lets the name start at the
      first non-blank position `b` (possible only when `w >= 2`). */
  function SetClauseName(s: string, i: nat): (r: Option<nat>)
    requires i <= |s|
    ensures r.Some? ==> i + 4 < r.value <= |s| && AssignmentAt(s, r.value).Some?
  {
    if i < |s| && IsQuote(s[i]) && StartsWithCI(s, i + 1, "set") then
      var b := SkipSpace(s, i + 4);
      if b > i + 4 then SetNameFrom(s, i, b) else None
    else None
  }

  /** The name step of `SetClauseName`, once the blanks after `SET` are
      known to end at `b`. */
  function SetNameFrom(s: string, i: nat, b: nat): (r: Option<nat>)
    requires i + 4 < b <= |s|
    ensures r.Some? ==> b <= r.value <= b + Run(s, b, SetBody) && AssignmentAt(s, r.value).Some?
  {
    var limit := b + Run(s, b, SetBody);
    var first := FirstAssignment(s, b + 1, limit);
    if first.Some? then first
    else if b >= i + 6 && AssignmentAt(s, b).Some? then Some(b)
    else None
  }

  function SetClauseAt(s: string, i: nat): (r: Option<Hit>)
    requires i <= |s|
    ensures r.Some? ==> i < r.value.end <= |s| && |r.value.groups| == 1
  {
    match SetClauseName(s, i)
    case Some(q) => AssignmentAt(s, q)
    case None => None
  }

  lemma KeywordChars(s: string, i: nat, lit: string, t: nat)
    requires StartsWithCI(s, i, lit)
    requires i <= t < i + |lit|
    ensures LowerChar(s[t]) == lit[t - i]
  {
    assert Lower(s[i..i + |lit|])[t - i] == LowerChar(s[t]);
  }

  lemma AssignmentNoQuote(s: string, q: nat, t: nat)
    requires q <= |s| && AssignmentAt(s, q).Some?
    requires q <= t < AssignmentAt(s, q).value.end
    ensures !IsQuote(s[t])
  {
    var n := Run(s, q, Word);
    var e := SkipSpace(s, q + n);
    var f := SkipSpace(s, e + 1);
    RunFacts(s, q, Word);
    RunFacts(s, f + 1, Word);
    if t < q + n { assert InClass(s[t], Word); }
    else if t < e { assert IsSpace(s[t]); }
    else if t == e { }
    else if t < f { assert IsSpace(s[t]); }
    else if t == f { }
    else { assert InClass(s[t], Word); }
  }

  /** A keyword matched ignoring case holds no quote, since it has none. */
  lemma KeywordNotQuote(s: string, i: nat, lit: string, t: nat)
    requires StartsWithCI(s, i, lit)
    requires i <= t < i + |lit|
    requires forall k :: 0 <= k < |lit| ==> !IsQuote(lit[k])
    ensures !IsQuote(s[t])
  {
    KeywordChars(s, i, lit, t);
  }

  lemma SetHasNoQuote()
    ensures forall k :: 0 <= k < |"set"| ==> !IsQuote("set"[k])
  {
  }

  lemma RunNotQuote(s: string, b: nat, k: CharClass, t: nat)
    requires b <= |s| && b <= t < b + Run(s, b, k)
    ensures !IsQuote(s[t])
  {
    RunFacts(s, b, k);
  }

  lemma SetClausePrefixNoQuote(s: string, i: nat, t: nat)
    requires i <= |s| && SetClauseName(s, i).Some?
    requires i < t < SetClauseName(s, i).value
    ensures !IsQuote(s[t])
  {
    var b := SkipSpace(s, i + 4);
    var limit := b + Run(s, b, SetBody);
    var first := FirstAssignment(s, b + 1, limit);
    assert StartsWithCI(s, i + 1, "set") && b > i + 4;
    assert SetClauseName(s, i) == SetNameFrom(s, i, b);
    if t < i + 4 {
      SetHasNoQuote();
      KeywordNotQuote(s, i + 1, "set", t);
    } else if t < b {
      RunNotQuote(s, i + 4, Space, t);
    } else {
      RunNotQuote(s, b, SetBody, t);
    }
  }

  /** A SET-clause match holds no quote after its opening one. */
  lemma SetClauseNoQuote(s: string, i: nat, t: nat)
    requires i <= |s| && SetClauseAt(s, i).Some?
    requires i < t < SetClauseAt(s, i).value.end
    ensures !IsQuote(s[t])
  {
    var q := SetClauseName(s, i).value;
    if t < q {
      SetClausePrefixNoQuote(s, i, t);
    } else {
      AssignmentNoQuote(s, q, t);
    }
  }

  /** Number of capture groups: two for the keyed-access alternation, one
      for every other pattern. */
  function GroupCount(p: Pattern): nat
  {
    if p == KeyedAccess then 2 else 1
  }

  function MatchAt(p: Pattern, s: string, i: nat): (r: Option<Hit>)
    requires i <= |s|
    ensures r.Some? ==> i < r.value.end <= |s| && |r.value.groups| == GroupCount(p)
  {
    match p
    case KeyedAccess => KeyedAccessAt(s, i)
    case Membership => MembershipAt(s, i)
    case Destructuring => DestructuringAt(s, i)
    case AppendClause => AppendClauseAt(s, i)
    case SetAssignment => SetAssignmentAt(s, i)
    case SetClause => SetClauseAt(s, i)
  }

  /** A matcher over a string of length `n`: every match it reports at a
      position before `n` ends after that position and within the string. */
  ghost predicate Advancing(m: nat -> Option<Hit>, n: nat)
  {
    forall k: nat :: k < n && m(k).Some? ==> k < m(k).value.end <= n
  }

  /** The scan of `re.findall` with matcher `m` from position `i`: the
      groups of every match found left to right, resuming after each
      match. */
  function Scan(m: nat -> Option<Hit>, n: nat, i: nat): seq<seq<string>>
    requires i <= n && Advancing(m, n)
    decreases n - i
  {
    if i == n then []
    else match m(i)
      case Some(h) => [h.groups] + Scan(m, n, h.end)
      case None => Scan(m, n, i + 1)
  }

  /** `MatchAt` for pattern `p` on `s`, as a matcher. */
  function MatcherOf(p: Pattern, s: string): (m: nat -> Option<Hit>)
    ensures Advancing(m, |s|)
  {
    (k: nat) => if k <= |s| then MatchAt(p, s, k) else None
  }

  /** `re.findall` from position `i`: the groups of every match found by
      scanning left to right and resuming after each match. */
  function FindAll(p: Pattern, s: string, i: nat): (r: seq<seq<string>>)
    requires i <= |s|
    ensures forall g :: g in r ==> |g| == GroupCount(p)
  {
    var m := MatcherOf(p, s);
    forall g | g in Scan(m, |s|, i)
      ensures |g| == GroupCount(p)
    {
      var k := ScanSound(m, |s|, i, g);
    }
    Scan(m, |s|, i)
  }

  /** `re.findall` for a one-group pattern, which yields the captured
      strings themselves rather than tuples. */
  function FindAllStrings(p: Pattern, s: string): (r: seq<string>)
    requires p != KeyedAccess
  {
    var ms := FindAll(p, s, 0);
    seq(|ms|, k requires 0 <= k < |ms| => ms[k][0])
  }

  /** The capture of a match of a one-group pattern at `k`. */
  ghost predicate CapturedAt(p: Pattern, s: string, k: nat, w: string)
    requires p != KeyedAccess
  {
    k < |s| && MatchAt(p, s, k).Some? && MatchAt(p, s, k).value.groups[0] == w
  }

  /** Everything `FindAllStrings` reports is the capture of a match. */
  lemma FindAllStringsSound(p: Pattern, s: string, w: string)
    requires p != KeyedAccess
    requires w in FindAllStrings(p, s)
    ensures exists k :: CapturedAt(p, s, k, w)
  {
    var ms := FindAll(p, s, 0);
    var j :| 0 <= j < |ms| && ms[j][0] == w;
    FindAllSound(p, s, 0, ms[j]);
    var k :| 0 <= k < |s| && MatchAt(p, s, k).Some? && MatchAt(p, s, k).value.groups == ms[j];
    assert CapturedAt(p, s, k, w);
  }

  /** For a pattern whose matches cannot overlap, `FindAllStrings` reports
      the capture of every match. */
  lemma FindAllStringsComplete(p: Pattern, s: string, k: nat, w: string)
    requires p != KeyedAccess && NoOverlap(p, s)
    requires CapturedAt(p, s, k, w)
    ensures w in FindAllStrings(p, s)
  {
    var ms := FindAll(p, s, 0);
    FindAllComplete(p, s, 0, k);
    var j :| 0 <= j < |ms| && ms[j] == MatchAt(p, s, k).value.groups;
    assert FindAllStrings(p, s)[j] == w;
  }

  /** For a pattern whose matches cannot overlap, `FindAllStrings` reports
      exactly the captures of all matches. */
  lemma FindAllStringsExact(p: Pattern, s: string, w: string)
    requires p != KeyedAccess && NoOverlap(p, s)
    ensures w in FindAllStrings(p, s) <==> exists k :: CapturedAt(p, s, k, w)
  {
    if w in FindAllStrings(p, s) {
      FindAllStringsSound(p, s, w);
    }
    if k :| CapturedAt(p, s, k, w) {
      FindAllStringsComplete(p, s, k, w);
    }
  }

  /** Every group list the scan reports comes from a match at or after
      `i`. */
  lemma {:induction false} ScanSound(m: nat -> Option<Hit>, n: nat, i: nat, g: seq<string>) returns (k: nat)
    requires i <= n && Advancing(m, n)
    requires g in Scan(m, n, i)
    ensures i <= k < n && m(k).Some? && m(k).value.groups == g
    decreases n - i
  {
    var h := m(i);
    if h.Some? && g == h.value.groups {
      k := i;
    } else if h.Some? {
      k := ScanSound(m, n, h.value.end, g);
    } else {
      k := ScanSound(m, n, i + 1, g);
    }
  }

  /** Every group list `FindAll` reports comes from a match at or after `i`. */
  lemma FindAllSound(p: Pattern, s: string, i: nat, g: seq<string>)
    requires i <= |s|
    requires g in FindAll(p, s, i)
    ensures exists k :: i <= k < |s| && MatchAt(p, s, k).Some? && MatchAt(p, s, k).value.groups == g
  {
    var k := ScanSound(MatcherOf(p, s), |s|, i, g);
    assert MatcherOf(p, s)(k) == MatchAt(p, s, k);
  }

  /** No match starts strictly inside another match, so resuming after a
      match never skips one. */
  ghost predicate NoOverlap(p: Pattern, s: string)
  {
    forall k, j :: 0 <= k < j <= |s| && MatchAt(p, s, k).Some? && j < MatchAt(p, s, k).value.end
      ==> MatchAt(p, s, j).None?
  }

  /** The same for a matcher. */
  ghost predicate Disjoint(m: nat -> Option<Hit>, n: nat)
  {
    forall k: nat, j: nat :: k < j <= n && m(k).Some? && j < m(k).value.end ==> m(j).None?
  }

  lemma NoOverlapDisjoint(p: Pattern, s: string)
    requires NoOverlap(p, s)
    ensures Disjoint(MatcherOf(p, s), |s|)
  {
    var m := MatcherOf(p, s);
    forall k: nat, j: nat | k < j <= |s| && m(k).Some? && j < m(k).value.end
      ensures m(j).None?
    {
      assert m(k) == MatchAt(p, s, k) && m(j) == MatchAt(p, s, j);
    }
  }

  /** For a matcher whose matches cannot overlap, the scan reports the match
      at every position where one starts. */
  lemma {:induction false} ScanComplete(m: nat -> Option<Hit>, n: nat, i: nat, j: nat)
    requires Advancing(m, n) && Disjoint(m, n)
    requires i <= j < n
    requires m(j).Some?
    ensures m(j).value.groups in Scan(m, n, i)
    decreases j - i
  {
    if i < j {
      var h := m(i);
      if h.Some? {
        assert h.value.end <= j;
        ScanComplete(m, n, h.value.end, j);
      } else {
        ScanComplete(m, n, i + 1, j);
      }
    }
  }

  /** For a pattern whose matches cannot overlap, `FindAll` reports the
      match at every position where one starts. */
  lemma FindAllComplete(p: Pattern, s: string, i: nat, j: nat)
    requires NoOverlap(p, s)
    requires i <= j <= |s|
    requires MatchAt(p, s, j).Some?
    ensures MatchAt(p, s, j).value.groups in FindAll(p, s, i)
  {
    var m := MatcherOf(p, s);
    NoOverlapDisjoint(p, s);
    assert m(j) == MatchAt(p, s, j);
    ScanComplete(m, |s|, i, j);
  }

  // ---------------------------------------------------------------------
  // Which patterns can overlap

  lemma LiteralChar(s: string, i: nat, lit: string, t: nat)
    requires StartsWith(s, i, lit)
    requires i <= t < i + |lit|
    ensures s[t] == lit[t - i]
  {
    assert s[i..i + |lit|][t - i] == s[t];
  }

  /** A keyword of word characters matched ignoring case is made of word
      characters. */
  lemma KeywordWordChar(s: string, i: nat, lit: string, t: nat)
    requires StartsWithCI(s, i, lit) && IsWord(lit)
    requires i <= t < i + |lit|
    ensures IsWordChar(s[t])
  {
    KeywordChars(s, i, lit, t);
  }

  lemma KeywordsAreWords()
    ensures IsWord("update_expression") && IsWord("updateexpression") && IsWord("set")
  {
  }

  lemma SetClauseNoOverlap(s: string)
    ensures NoOverlap(SetClause, s)
  {
    forall k, j | 0 <= k < j <= |s| && MatchAt(SetClause, s, k).Some? && j < MatchAt(SetClause, s, k).value.end
      ensures MatchAt(SetClause, s, j).None?
    {
      SetClauseNoQuote(s, k, j);
    }
  }

  lemma QuoteFreeLiterals()
    ensures forall x :: 0 <= x < |"in"| ==> !IsQuote("in"[x])
    ensures forall x :: 0 <= x < |"body"| ==> !IsQuote("body"[x])
  {
  }

  /** A membership match opens with a quote followed by a word character. */
  lemma MembershipStart(s: string, j: nat)
    requires j <= |s| && MembershipAt(s, j).Some?
    ensures j + 1 < |s| && IsQuote(s[j]) && IsWordChar(s[j + 1])
  {
    assert InClass(s[j + 1], Word);
  }

  /** The layout of a membership match at `k`: quote, word, quote at `c`,
      white space, `in` at `d`, white space, `body` at `e`. */
  lemma MembershipShape(s: string, k: nat) returns (c: nat, d: nat, e: nat)
    requires k <= |s| && MembershipAt(s, k).Some?
    ensures k < c < d && d + 2 < e && e + 4 == MembershipAt(s, k).value.end <= |s|
    ensures forall t :: k < t < c ==> IsWordChar(s[t])
    ensures IsQuote(s[c])
    ensures forall t :: c < t < d ==> IsSpace(s[t])
    ensures forall t :: d + 2 <= t < e ==> IsSpace(s[t])
    ensures StartsWith(s, d, "in") && StartsWith(s, e, "body")
  {
    var n := Run(s, k + 1, Word);
    c := k + 1 + n;
    assert n > 0 && c < |s| && IsQuote(s[c]);
    d := SkipSpace(s, c + 1);
    assert d > c + 1 && StartsWith(s, d, "in");
    e := SkipSpace(s, d + 2);
    assert e > d + 2 && StartsWith(s, e, "body");
    RunFacts(s, k + 1, Word);
  }

  /** Inside a membership match no quote is followed by a word character. */
  lemma MembershipInside(s: string, k: nat, t: nat)
    requires k <= |s| && MembershipAt(s, k).Some?
    requires k < t && t + 1 < MembershipAt(s, k).value.end
    ensures !(IsQuote(s[t]) && IsWordChar(s[t + 1]))
  {
    var c, d, e := MembershipShape(s, k);
    QuoteFreeLiterals();
    if t < c {
    } else if t == c {
    } else if t < d {
    } else if t < d + 2 {
      LiteralChar(s, d, "in", t);
    } else if t < e {
    } else {
      LiteralChar(s, e, "body", t);
    }
  }

  lemma MembershipNoOverlapAt(s: string, k: nat, j: nat)
    requires k < j <= |s| && MembershipAt(s, k).Some? && j < MembershipAt(s, k).value.end
    ensures MembershipAt(s, j).None?
  {
    if MembershipAt(s, j).Some? {
      MembershipStart(s, j);
      if j + 1 < MembershipAt(s, k).value.end {
        MembershipInside(s, k, j);
      } else {
        // the last character of a membership match is the `y` of `body`
        MembershipLast(s, k);
      }
    }
  }

  lemma MembershipLast(s: string, k: nat)
    requires k <= |s| && MembershipAt(s, k).Some?
    ensures s[MembershipAt(s, k).value.end - 1] == 'y'
  {
    var c, d, e := MembershipShape(s, k);
    LiteralChar(s, e, "body", e + 3);
  }

  lemma MembershipNoOverlap(s: string)
    ensures NoOverlap(Membership, s)
  {
    forall k, j | 0 <= k < j <= |s| && MatchAt(Membership, s, k).Some? && j < MatchAt(Membership, s, k).value.end
      ensures MatchAt(Membership, s, j).None?
    {
      MembershipNoOverlapAt(s, k, j);
    }
  }

  lemma KeyedAccessLiterals()
    ensures forall x :: 1 <= x < |"body.get("| ==> "body.get("[x] != 'b'
    ensures forall x :: 1 <= x < |"body["| ==> "body["[x] != 'b'
  {
  }

  /** A keyed-access match opens with `body` followed by `.` or `[`. */
  lemma KeyedAccessStart(s: string, j: nat)
    requires j <= |s| && KeyedAccessAt(s, j).Some?
    ensures j + 5 <= |s| && s[j] == 'b'
    ensures IsWordChar(s[j + 1]) && IsWordChar(s[j + 2]) && IsWordChar(s[j + 3])
    ensures s[j + 4] == '.' || s[j + 4] == '['
  {
    var lit := if StartsWith(s, j, "body.get(") then "body.get(" else "body[";
    LiteralChar(s, j, lit, j);
    LiteralChar(s, j, lit, j + 1);
    LiteralChar(s, j, lit, j + 2);
    LiteralChar(s, j, lit, j + 3);
    LiteralChar(s, j, lit, j + 4);
  }

  /** The layout of a keyed-access match at `k`: the opening literal, a quote
      at `a - 1`, the word `[a, a + n)`, a quote and the closing bracket. */
  lemma KeyedAccessShape(s: string, k: nat) returns (a: nat, n: nat)
    requires k <= |s| && KeyedAccessAt(s, k).Some?
    ensures k + 6 <= a && n > 0 && a + n + 2 == KeyedAccessAt(s, k).value.end <= |s|
    ensures forall t :: k < t < a - 1 ==> s[t] != 'b'
    ensures IsQuote(s[a - 1]) && IsQuote(s[a + n])
    ensures forall t :: a <= t < a + n ==> IsWordChar(s[t])
    ensures s[a + n + 1] == ')' || s[a + n + 1] == ']'
  {
    var getForm := StartsWith(s, k, "body.get(");
    var lit := if getForm then "body.get(" else "body[";
    a := if getForm then k + 10 else k + 6;
    n := Run(s, a, Word);
    RunFacts(s, a, Word);
    KeyedAccessLiterals();
    forall t | k < t < a - 1
      ensures s[t] != 'b'
    {
      LiteralChar(s, k, lit, t);
    }
  }

  lemma KeyedAccessNoOverlapAt(s: string, k: nat, j: nat)
    requires k < j <= |s| && KeyedAccessAt(s, k).Some? && j < KeyedAccessAt(s, k).value.end
    ensures KeyedAccessAt(s, j).None?
  {
    if KeyedAccessAt(s, j).Some? {
      KeyedAccessStart(s, j);
      KeyedAccessInside(s, k, j);
    }
  }

  /** Inside a keyed-access match no `b` opens `body.` or `body[`. */
  lemma KeyedAccessInside(s: string, k: nat, j: nat)
    requires k <= |s| && KeyedAccessAt(s, k).Some?
    requires k < j < KeyedAccessAt(s, k).value.end && j + 4 < |s|
    ensures !(s[j] == 'b' && IsWordChar(s[j + 1]) && IsWordChar(s[j + 2]) && IsWordChar(s[j + 3])
      && (s[j + 4] == '.' || s[j + 4] == '['))
  {
    var a, n := KeyedAccessShape(s, k);
    if j < a {
    } else if j + 4 < a + n {
      assert IsWordChar(s[j + 4]);
    } else if j < a + n {
      assert !IsWordChar(s[a + n]);
    }
  }

  lemma KeyedAccessNoOverlap(s: string)
    ensures NoOverlap(KeyedAccess, s)
  {
    forall k, j | 0 <= k < j <= |s| && MatchAt(KeyedAccess, s, k).Some? && j < MatchAt(KeyedAccess, s, k).value.end
      ensures MatchAt(KeyedAccess, s, j).None?
    {
      KeyedAccessNoOverlapAt(s, k, j);
    }
  }

  lemma DestructuringLiterals()
    ensures forall x :: 1 <= x < |"const"| ==> "const"[x] != 'c'
    ensures forall x :: 0 <= x < |"body"| ==> "body"[x] != 'c' && "body"[x] != '{'
  {
  }

  /** A destructuring match opens with `const`, white space and `{`. */
  lemma DestructuringStart(s: string, j: nat) returns (o: nat)
    requires j <= |s| && DestructuringAt(s, j).Some?
    ensures j + 5 <= o < |s| && s[j] == 'c' && s[o] == '{'
    ensures forall t :: j + 5 <= t < o ==> IsSpace(s[t])
  {
    LiteralChar(s, j, "const", j);
    o := BracedListAt(s, j + 5).value.o;
  }

  /** What the non-overlap argument needs of the closing part: no `c` and
      no `{` in it, and `y` as its last character. */
  lemma ClosingShape(s: string, e: nat) returns (b: nat)
    requires e <= |s| && ClosingAt(s, e).Some?
    ensures e + 2 <= b && b + 4 == ClosingAt(s, e).value
    ensures forall t :: e <= t < b + 4 ==> s[t] != 'c' && s[t] != '{'
    ensures s[b + 3] == 'y'
  {
    var c := SkipSpace(s, e);
    var q := SkipSpace(s, c + 1);
    b := SkipSpace(s, q + 1);
    DestructuringLiterals();
    forall t | e <= t < b + 4
      ensures s[t] != 'c' && s[t] != '{'
    {
      if b <= t { LiteralChar(s, b, "body", t); }
    }
    LiteralChar(s, b, "body", b + 3);
  }

  /** What the non-overlap argument needs of a destructuring match at `k`. */
  lemma DestructuringShape(s: string, k: nat) returns (a: nat, e: nat, b: nat)
    requires k <= |s| && DestructuringAt(s, k).Some?
    ensures k + 5 < a <= e && e + 2 <= b && b + 4 == DestructuringAt(s, k).value.end <= |s|
    ensures forall t :: k < t < a ==> s[t] != 'c'
    ensures forall t :: a <= t < b + 4 ==> s[t] != '{'
    ensures forall t :: e <= t < b + 4 ==> s[t] != 'c'
    ensures s[b + 3] == 'y'
  {
    var parts := BracedListAt(s, k + 5).value;
    a, e := parts.a, parts.e;
    b := ClosingShape(s, e);
    forall t | k < t < a
      ensures s[t] != 'c'
    {
      if t < k + 5 {
        ConstTail(s, k, t);
      } else if t < parts.o {
        assert IsSpace(s[t]);
      } else if parts.o < t {
        assert IsSpace(s[t]);
      }
    }
  }

  lemma ConstTail(s: string, k: nat, t: nat)
    requires StartsWith(s, k, "const") && k < t < k + 5
    ensures s[t] != 'c'
  {
    LiteralChar(s, k, "const", t);
    DestructuringLiterals();
  }

  lemma DestructuringNoOverlapAt(s: string, k: nat, j: nat)
    requires k < j <= |s| && DestructuringAt(s, k).Some? && j < DestructuringAt(s, k).value.end
    ensures DestructuringAt(s, j).None?
  {
    var a, e, b := DestructuringShape(s, k);
    if DestructuringAt(s, j).Some? {
      var o' := DestructuringStart(s, j);
    }
  }

  lemma DestructuringNoOverlap(s: string)
    ensures NoOverlap(Destructuring, s)
  {
    forall k, j | 0 <= k < j <= |s| && MatchAt(Destructuring, s, k).Some? && j < MatchAt(Destructuring, s, k).value.end
      ensures MatchAt(Destructuring, s, j).None?
    {
      DestructuringNoOverlapAt(s, k, j);
    }
  }

  /** An append-clause match opens with the keyword, white space and `+`. */
  lemma AppendClauseStart(s: string, j: nat) returns (p: nat)
    requires j <= |s| && AppendClauseAt(s, j).Some?
    ensures j + 17 <= p < |s| && s[p] == '+'
    ensures forall t :: j <= t < j + 17 ==> IsWordChar(s[t])
    ensures forall t :: j + 17 <= t < p ==> IsSpace(s[t])
    ensures IsWordChar(s[j + 16])
  {
    p := SkipSpace(s, j + 17);
    LiteralChar(s, p, "+=", p);
    KeywordsAreWords();
    forall t | j <= t < j + 17
      ensures IsWordChar(s[t])
    {
      KeywordWordChar(s, j, "update_expression", t);
    }
  }

  /** The layout of an append-clause match at `k`: the keyword, `+=` at
      `p`, a quote and `,` at `q`, the captured word `[a, a + n)` and `=` at
      `e`, with only white space between the tokens. */
  lemma AppendClauseLayout(s: string, k: nat) returns (p: nat, q: nat, a: nat, n: nat, e: nat)
    requires k <= |s| && AppendClauseAt(s, k).Some?
    ensures k + 17 <= p && p + 2 <= q && q + 2 <= a && a + n <= e && e + 1 == AppendClauseAt(s, k).value.end <= |s|
    ensures StartsWithCI(s, k, "update_expression") && StartsWith(s, p, "+=")
    ensures forall t :: k + 17 <= t < p ==> IsSpace(s[t])
    ensures forall t :: p + 2 <= t < q ==> IsSpace(s[t])
    ensures IsQuote(s[q]) && s[q + 1] == ','
    ensures forall t :: q + 2 <= t < a ==> IsSpace(s[t])
    ensures forall t :: a <= t < a + n ==> IsWordChar(s[t])
    ensures forall t :: a + n <= t < e ==> IsSpace(s[t])
    ensures s[e] == '='
  {
    p := SkipSpace(s, k + 17);
    assert StartsWith(s, p, "+=");
    q := SkipSpace(s, p + 2);
    assert q + 1 < |s| && IsQuote(s[q]) && s[q + 1] == ',';
    a, n, e := AssignedWord(s, q + 2);
    assert n > 0 && e < |s| && s[e] == '=';
  }

  /** White space, a word and white space from `i`. */
  lemma AssignedWord(s: string, i: nat) returns (a: nat, n: nat, e: nat)
    requires i <= |s|
    ensures a == SkipSpace(s, i) && n == Run(s, a, Word) && e == SkipSpace(s, a + n)
    ensures i <= a && a + n <= e <= |s|
    ensures forall t :: i <= t < a ==> IsSpace(s[t])
    ensures forall t :: a <= t < a + n ==> IsWordChar(s[t])
    ensures forall t :: a + n <= t < e ==> IsSpace(s[t])
  {
    a := SkipSpace(s, i);
    n := Run(s, a, Word);
    e := SkipSpace(s, a + n);
    RunFacts(s, a, Word);
  }

  /** What the non-overlap argument needs of an append-clause match at `k`:
      white space after the keyword up to the `+=` at `p`, no other `+`,
      and `=` at the end. */
  lemma AppendClauseShape(s: string, k: nat) returns (p: nat, e: nat)
    requires k <= |s| && AppendClauseAt(s, k).Some?
    ensures k + 17 <= p < e && e + 1 == AppendClauseAt(s, k).value.end <= |s|
    ensures forall t :: k + 17 <= t < p ==> IsSpace(s[t])
    ensures forall t :: k <= t <= e && t != p ==> s[t] != '+'
    ensures s[e] == '='
  {
    var q, a, n;
    p, q, a, n, e := AppendClauseLayout(s, k);
    KeywordsAreWords();
    forall t | k <= t <= e && t != p
      ensures s[t] != '+'
    {
      if t < k + 17 { KeywordWordChar(s, k, "update_expression", t); }
      else if t == p + 1 { LiteralChar(s, p, "+=", t); }
    }
  }

  lemma AppendClauseNoOverlapAt(s: string, k: nat, j: nat)
    requires k < j <= |s| && AppendClauseAt(s, k).Some? && j < AppendClauseAt(s, k).value.end
    ensures AppendClauseAt(s, j).None?
  {
    var p, e := AppendClauseShape(s, k);
    if AppendClauseAt(s, j).Some? {
      var p' := AppendClauseStart(s, j);
    }
  }

  lemma AppendClauseNoOverlap(s: string)
    ensures NoOverlap(AppendClause, s)
  {
    forall k, j | 0 <= k < j <= |s| && MatchAt(AppendClause, s, k).Some? && j < MatchAt(AppendClause, s, k).value.end
      ensures MatchAt(AppendClause, s, j).None?
    {
      AppendClauseNoOverlapAt(s, k, j);
    }
  }

  // ---------------------------------------------------------------------
  // What each scanner recognises

  lemma {:induction false} RunExact(s: string, i: nat, k: CharClass, n: nat)
    requires i + n <= |s|
    requires forall t :: i <= t < i + n ==> InClass(s[t], k)
    requires i + n == |s| || !InClass(s[i + n], k)
    ensures Run(s, i, k) == n
    decreases n
  {
    if n > 0 {
      RunExact(s, i + 1, k, n - 1);
    }
  }

  lemma StartsWithConcat(s: string, i: nat, a: string, b: string)
    requires StartsWith(s, i, a + b)
    ensures StartsWith(s, i, a) && StartsWith(s, i + |a|, b)
  {
    assert s[i..i + |a|] == (a + b)[..|a|];
    assert s[i + |a|..i + |a| + |b|] == (a + b)[|a|..];
  }

  /** The word `w` sits at `a` and is followed by the quote `q`. */
  lemma QuotedWord(s: string, a: nat, w: string, q: char)
    requires StartsWith(s, a, w + [q]) && IsWord(w) && IsQuote(q)
    ensures Run(s, a, Word) == |w| && s[a..a + |w|] == w && IsQuote(s[a + |w|])
  {
    StartsWithConcat(s, a, w, [q]);
    forall t | a <= t < a + |w|
      ensures InClass(s[t], Word)
    {
      LiteralChar(s, a, w, t);
    }
    LiteralChar(s, a + |w|, [q], a + |w|);
    RunExact(s, a, Word, |w|);
  }

  /** `body.get(` quote word quote `)` is a keyed-access match. */
  lemma KeyedGetRecognised(s: string, i: nat, q1: char, w: string, q2: char)
    requires IsQuote(q1) && IsQuote(q2) && IsWord(w)
    requires StartsWith(s, i, "body.get(" + [q1] + (w + [q2] + ")"))
    ensures KeyedAccessAt(s, i) == Some(Hit([w, ""], i + |w| + 12))
  {
    StartsWithConcat(s, i, "body.get(" + [q1], w + [q2] + ")");
    StartsWithConcat(s, i, "body.get(", [q1]);
    StartsWithConcat(s, i + 10, w + [q2], ")");
    LiteralChar(s, i + 9, [q1], i + 9);
    LiteralChar(s, i + 10 + |w| + 1, ")", i + 10 + |w| + 1);
    QuotedWord(s, i + 10, w, q2);
  }

  /** `body[` quote word quote `]` is a keyed-access match. */
  lemma KeyedIndexRecognised(s: string, i: nat, q1: char, w: string, q2: char)
    requires IsQuote(q1) && IsQuote(q2) && IsWord(w)
    requires StartsWith(s, i, "body[" + [q1] + (w + [q2] + "]"))
    ensures KeyedAccessAt(s, i) == Some(Hit(["", w], i + |w| + 8))
  {
    StartsWithConcat(s, i, "body[" + [q1], w + [q2] + "]");
    StartsWithConcat(s, i, "body[", [q1]);
    StartsWithConcat(s, i + 6, w + [q2], "]");
    LiteralChar(s, i + 5, [q1], i + 5);
    LiteralChar(s, i, "body[", i + 4);
    LiteralChar(s, i + 6 + |w| + 1, "]", i + 6 + |w| + 1);
    QuotedWord(s, i + 6, w, q2);
    assert !StartsWith(s, i, "body.get(") by {
      if StartsWith(s, i, "body.get(") { LiteralChar(s, i, "body.get(", i + 4); }
    }
    KeyedIndexFromParts(s, i, w);
  }

  lemma KeyedIndexFromParts(s: string, i: nat, w: string)
    requires i + |w| + 8 <= |s| && |w| > 0
    requires StartsWith(s, i, "body[") && !StartsWith(s, i, "body.get(")
    requires IsQuote(s[i + 5]) && Run(s, i + 6, Word) == |w| && s[i + 6..i + 6 + |w|] == w
    requires IsQuote(s[i + 6 + |w|]) && s[i + 7 + |w|] == ']'
    ensures KeyedAccessAt(s, i) == Some(Hit(["", w], i + |w| + 8))
  {
  }

  lemma OneSpace(s: string, i: nat)
    requires i + 1 < |s| && IsSpace(s[i]) && !IsSpace(s[i + 1])
    ensures SkipSpace(s, i) == i + 1
  {
    RunExact(s, i, Space, 1);
  }

  lemma NoSpace(s: string, i: nat)
    requires i < |s| && !IsSpace(s[i])
    ensures SkipSpace(s, i) == i
  {
    RunExact(s, i, Space, 0);
  }

  /** quote word quote ` in body` is a membership match. */
  lemma MembershipRecognised(s: string, i: nat, q1: char, w: string, q2: char)
    requires IsQuote(q1) && IsQuote(q2) && IsWord(w)
    requires StartsWith(s, i, [q1] + (w + [q2]) + " in body")
    ensures MembershipAt(s, i) == Some(Hit([w], i + |w| + 10))
  {
    var c := i + 1 + |w|;
    StartsWithConcat(s, i, [q1] + (w + [q2]), " in body");
    StartsWithConcat(s, i, [q1], w + [q2]);
    LiteralChar(s, i, [q1], i);
    QuotedWord(s, i + 1, w, q2);
    InBodyTail(s, c + 1);
    MembershipFromParts(s, i, w);
  }

  /** ` in body` at `k`: one space, `in`, one space, `body`. */
  lemma InBodyTail(s: string, k: nat)
    requires StartsWith(s, k, " in body")
    ensures SkipSpace(s, k) == k + 1 && StartsWith(s, k + 1, "in")
    ensures SkipSpace(s, k + 3) == k + 4 && StartsWith(s, k + 4, "body")
  {
    StartsWithConcat(s, k, " ", "in body");
    StartsWithConcat(s, k + 1, "in", " body");
    StartsWithConcat(s, k + 3, " ", "body");
    LiteralChar(s, k, " ", k);
    LiteralChar(s, k + 1, "in", k + 1);
    LiteralChar(s, k + 3, " ", k + 3);
    LiteralChar(s, k + 4, "body", k + 4);
    OneSpace(s, k);
    OneSpace(s, k + 3);
  }

  lemma MembershipFromParts(s: string, i: nat, w: string)
    requires i + 1 + |w| + 9 <= |s| && |w| > 0
    requires IsQuote(s[i]) && Run(s, i + 1, Word) == |w| && s[i + 1..i + 1 + |w|] == w
    requires IsQuote(s[i + 1 + |w|])
    requires SkipSpace(s, i + 2 + |w|) == i + 3 + |w| && StartsWith(s, i + 3 + |w|, "in")
    requires SkipSpace(s, i + 5 + |w|) == i + 6 + |w| && StartsWith(s, i + 6 + |w|, "body")
    ensures MembershipAt(s, i) == Some(Hit([w], i + |w| + 10))
  {
  }

  /** `update_expression += ` quote `, X =` (keyword in any letter case) is
      an append-clause match capturing `X`. */
  lemma AppendClauseRecognised(s: string, i: nat, q: char, w: string)
    requires IsQuote(q) && IsWord(w)
    requires StartsWithCI(s, i, "update_expression")
    requires StartsWith(s, i + 17, " += " + [q] + (", " + w + " ="))
    ensures AppendClauseAt(s, i) == Some(Hit([w], i + |w| + 26))
  {
    var j := i + 17;
    AppendClauseChars(s, j, q, w);
    OneSpace(s, j);
    OneSpace(s, j + 3);
    OneSpace(s, j + 6);
    OneSpace(s, j + 7 + |w|);
    RunExact(s, j + 7, Word, |w|);
    AppendClauseFromParts(s, i, w);
  }

  lemma AppendClauseChars(s: string, j: nat, q: char, w: string)
    requires IsWord(w)
    requires StartsWith(s, j, " += " + [q] + (", " + w + " ="))
    ensures j + |w| + 9 <= |s|
    ensures s[j] == ' ' && s[j + 1] == '+' && s[j + 2] == '=' && s[j + 3] == ' ' && s[j + 4] == q
    ensures s[j + 5] == ',' && s[j + 6] == ' '
    ensures s[j + 7..j + 7 + |w|] == w && forall t :: j + 7 <= t < j + 7 + |w| ==> InClass(s[t], Word)
    ensures s[j + 7 + |w|] == ' ' && s[j + 8 + |w|] == '='
  {
    StartsWithConcat(s, j, " += " + [q], ", " + w + " =");
    StartsWithConcat(s, j + 5, ", " + w, " =");
    StartsWithConcat(s, j + 5, ", ", w);
    var head := " += " + [q];
    LiteralChar(s, j, head, j);
    LiteralChar(s, j, head, j + 1);
    LiteralChar(s, j, head, j + 2);
    LiteralChar(s, j, head, j + 3);
    LiteralChar(s, j, head, j + 4);
    LiteralChar(s, j + 5, ", ", j + 5);
    LiteralChar(s, j + 5, ", ", j + 6);
    LiteralChar(s, j + 7 + |w|, " =", j + 7 + |w|);
    LiteralChar(s, j + 7 + |w|, " =", j + 8 + |w|);
    forall t | j + 7 <= t < j + 7 + |w|
      ensures InClass(s[t], Word)
    {
      LiteralChar(s, j + 7, w, t);
    }
  }

  lemma AppendClauseFromParts(s: string, i: nat, w: string)
    requires i + |w| + 26 <= |s| && |w| > 0
    requires StartsWithCI(s, i, "update_expression")
    requires SkipSpace(s, i + 17) == i + 18 && s[i + 18] == '+' && s[i + 19] == '='
    requires SkipSpace(s, i + 20) == i + 21 && IsQuote(s[i + 21]) && s[i + 22] == ','
    requires SkipSpace(s, i + 23) == i + 24 && Run(s, i + 24, Word) == |w|
    requires s[i + 24..i + 24 + |w|] == w
    requires SkipSpace(s, i + 24 + |w|) == i + 25 + |w| && s[i + 25 + |w|] == '='
    ensures AppendClauseAt(s, i) == Some(Hit([w], i + |w| + 26))
  {
    assert StartsWith(s, i + 18, "+=");
  }

  /** quote `SET X = :v` with one blank after `SET` and a name `X` of two
      or more characters: the lazy group takes the first letter of `X`, so
      the capture is `X` without its first character. */
  lemma SetClauseDropsFirstLetter(s: string, i: nat, q: char, w: string, v: string)
    requires IsQuote(q) && IsWord(w) && |w| >= 2 && IsWord(v)
    requires StartsWith(s, i, [q] + "SET " + (w + " = :" + v))
    requires i + 9 + |w| + |v| == |s| || !IsWordChar(s[i + 9 + |w| + |v|])
    ensures SetClauseAt(s, i) == Some(Hit([w[1..]], i + 9 + |w| + |v|))
  {
    SetClauseParts(s, i, q, w, v);
    SetClauseFromParts(s, i, i + 5);
  }

  lemma SetClauseParts(s: string, i: nat, q: char, w: string, v: string)
    requires IsQuote(q) && IsWord(w) && |w| >= 2 && IsWord(v)
    requires StartsWith(s, i, [q] + "SET " + (w + " = :" + v))
    requires i + 9 + |w| + |v| == |s| || !IsWordChar(s[i + 9 + |w| + |v|])
    ensures i < |s| && IsQuote(s[i]) && StartsWithCI(s, i + 1, "set")
    ensures SkipSpace(s, i + 4) == i + 5 && Run(s, i + 5, SetBody) >= 1
    ensures AssignmentAt(s, i + 6) == Some(Hit([w[1..]], i + 9 + |w| + |v|))
  {
    SetClauseChars(s, i, q, w, v);
    OneSpace(s, i + 4);
    SetBodyRun(s, i + 5, |w|);
    SetClauseTail(s, i, q, w, v);
  }

  lemma SetClauseTail(s: string, i: nat, q: char, w: string, v: string)
    requires IsQuote(q) && IsWord(w) && |w| >= 2 && IsWord(v)
    requires StartsWith(s, i, [q] + "SET " + (w + " = :" + v))
    requires i + 9 + |w| + |v| == |s| || !IsWordChar(s[i + 9 + |w| + |v|])
    ensures AssignmentAt(s, i + 6) == Some(Hit([w[1..]], i + 9 + |w| + |v|))
  {
    SetClauseRuns(s, i, q, w, v);
    SetClauseBlanks(s, i, q, w, v);
    SetClauseSigns(s, i, q, w, v);
    SetTailFromParts(s, i, w, v);
  }

  lemma SetTailFromParts(s: string, i: nat, w: string, v: string)
    requires |w| >= 2 && |v| >= 1 && i + 9 + |w| + |v| <= |s|
    requires Run(s, i + 6, Word) == |w| - 1 && s[i + 6..i + 5 + |w|] == w[1..]
    requires Run(s, i + 9 + |w|, Word) == |v|
    requires SkipSpace(s, i + 5 + |w|) == i + 6 + |w| && SkipSpace(s, i + 7 + |w|) == i + 8 + |w|
    requires s[i + 6 + |w|] == '=' && s[i + 8 + |w|] == ':'
    ensures AssignmentAt(s, i + 6) == Some(Hit([w[1..]], i + 9 + |w| + |v|))
  {
    AssignmentFromParts(s, i + 6, |w| - 1, i + 6 + |w|, i + 8 + |w|, |v|);
  }

  lemma SetClauseRuns(s: string, i: nat, q: char, w: string, v: string)
    requires IsQuote(q) && IsWord(w) && |w| >= 2 && IsWord(v)
    requires StartsWith(s, i, [q] + "SET " + (w + " = :" + v))
    requires i + 9 + |w| + |v| == |s| || !IsWordChar(s[i + 9 + |w| + |v|])
    ensures i + 9 + |w| + |v| <= |s|
    ensures Run(s, i + 6, Word) == |w| - 1 && s[i + 6..i + 5 + |w|] == w[1..]
    ensures Run(s, i + 9 + |w|, Word) == |v|
  {
    SetClauseChars(s, i, q, w, v);
    RunExact(s, i + 6, Word, |w| - 1);
    RunExact(s, i + 9 + |w|, Word, |v|);
    assert s[i + 6..i + 5 + |w|] == w[1..];
  }

  lemma SetClauseBlanks(s: string, i: nat, q: char, w: string, v: string)
    requires IsWord(w) && IsWord(v)
    requires StartsWith(s, i, [q] + "SET " + (w + " = :" + v))
    ensures SkipSpace(s, i + 5 + |w|) == i + 6 + |w|
    ensures SkipSpace(s, i + 7 + |w|) == i + 8 + |w|
  {
    SetClauseChars(s, i, q, w, v);
    OneSpace(s, i + 5 + |w|);
    OneSpace(s, i + 7 + |w|);
  }

  lemma SetClauseSigns(s: string, i: nat, q: char, w: string, v: string)
    requires IsWord(w) && IsWord(v)
    requires StartsWith(s, i, [q] + "SET " + (w + " = :" + v))
    ensures i + 8 + |w| < |s| && s[i + 6 + |w|] == '=' && s[i + 8 + |w|] == ':'
  {
    SetClauseChars(s, i, q, w, v);
  }

  lemma AssignmentFromParts(s: string, q: nat, n: nat, e: nat, f: nat, m: nat)
    requires q <= |s| && Run(s, q, Word) == n > 0
    requires SkipSpace(s, q + n) == e < |s| && s[e] == '='
    requires SkipSpace(s, e + 1) == f < |s| && s[f] == ':'
    requires Run(s, f + 1, Word) == m > 0
    ensures AssignmentAt(s, q) == Some(Hit([s[q..q + n]], f + 1 + m))
  {
  }

  lemma SetClauseFromParts(s: string, i: nat, b: nat)
    requires i < |s| && IsQuote(s[i]) && StartsWithCI(s, i + 1, "set")
    requires SkipSpace(s, i + 4) == b > i + 4 && Run(s, b, SetBody) >= 1
    requires AssignmentAt(s, b + 1).Some?
    ensures SetClauseAt(s, i) == AssignmentAt(s, b + 1)
  {
    SetClauseNameFromParts(s, i, b);
  }

  lemma SetClauseNameFromParts(s: string, i: nat, b: nat)
    requires i < |s| && IsQuote(s[i]) && StartsWithCI(s, i + 1, "set")
    requires SkipSpace(s, i + 4) == b > i + 4 && Run(s, b, SetBody) >= 1
    requires AssignmentAt(s, b + 1).Some?
    ensures SetClauseName(s, i) == Some(b + 1)
  {
    FirstAssignmentHere(s, b + 1, b + Run(s, b, SetBody));
  }

  lemma FirstAssignmentHere(s: string, q: nat, limit: nat)
    requires q <= limit <= |s| && AssignmentAt(s, q).Some?
    ensures FirstAssignment(s, q, limit) == Some(q)
  {
  }

  lemma {:induction false} SetBodyRun(s: string, b: nat, n: nat)
    requires b + n <= |s|
    requires forall t :: b <= t < b + n ==> IsWordChar(s[t])
    ensures Run(s, b, SetBody) >= n
    decreases n
  {
    if n > 0 {
      SetBodyRun(s, b + 1, n - 1);
    }
  }

  lemma SetClauseChars(s: string, i: nat, q: char, w: string, v: string)
    requires IsWord(w) && IsWord(v)
    requires StartsWith(s, i, [q] + "SET " + (w + " = :" + v))
    ensures i + 9 + |w| + |v| <= |s|
    ensures s[i] == q && StartsWithCI(s, i + 1, "set") && s[i + 4] == ' '
    ensures s[i + 5..i + 5 + |w|] == w && forall t :: i + 5 <= t < i + 5 + |w| ==> IsWordChar(s[t])
    ensures s[i + 5 + |w|] == ' ' && s[i + 6 + |w|] == '=' && s[i + 7 + |w|] == ' ' && s[i + 8 + |w|] == ':'
    ensures forall t :: i + 9 + |w| <= t < i + 9 + |w| + |v| ==> IsWordChar(s[t])
  {
    var head := [q] + "SET ";
    var j := i + 5;
    StartsWithConcat(s, i, head, w + " = :" + v);
    StartsWithConcat(s, j, w + " = :", v);
    StartsWithConcat(s, j, w, " = :");
    LiteralChar(s, i, head, i);
    LiteralChar(s, i, head, i + 1);
    LiteralChar(s, i, head, i + 2);
    LiteralChar(s, i, head, i + 3);
    LiteralChar(s, i, head, i + 4);
    assert Lower(s[i + 1..i + 4]) == "set";
    LiteralChar(s, j + |w|, " = :", j + |w|);
    LiteralChar(s, j + |w|, " = :", j + |w| + 1);
    LiteralChar(s, j + |w|, " = :", j + |w| + 2);
    LiteralChar(s, j + |w|, " = :", j + |w| + 3);
    forall t | j <= t < j + |w|
      ensures IsWordChar(s[t])
    {
      LiteralChar(s, j, w, t);
    }
    forall t | j + |w| + 4 <= t < j + |w| + 4 + |v|
      ensures IsWordChar(s[t])
    {
      LiteralChar(s, j + |w| + 4, v, t);
    }
  }
}
