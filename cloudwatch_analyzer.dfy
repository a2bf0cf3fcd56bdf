/** The CloudWatch log analyser: the request bodies logged by a handler,
    the presence of each body field, the tally of fixed text patterns over
    the log lines, and the recommendations built from them.

    `json.loads` is not modelled: every operation takes the decoder as a
    parameter `decode`, which yields `None` where `json.loads` raises
    `JSONDecodeError`. */
module CloudwatchAnalyzer {
  import opened Common
  import opened Text
  import opened Json
  import opened FieldNames

  // ---------------------------------------------------------------------
  // parse_log_entry

  /** The first line break at or after `k`, or the end of `s`. */
  function LineEnd(s: string, k: nat): (e: nat)
    requires k <= |s|
    ensures k <= e <= |s|
    ensures forall t :: k <= t < e ==> s[t] != '\n'
    ensures e < |s| ==> s[e] == '\n'
    decreases |s| - k
  {
    if k == |s| || s[k] == '\n' then k else LineEnd(s, k + 1)
  }

  /** The last `}` in `s[a..b]`. */
  function LastClose(s: string, a: nat, b: nat): (r: Option<nat>)
    requires a <= b <= |s|
    ensures r.Some? ==> (a <= r.value < b && s[r.value] == '}'
      && forall t :: r.value < t < b ==> s[t] != '}')
    ensures r.None? ==> forall t :: a <= t < b ==> s[t] != '}'
    decreases b - a
  {
    if a == b then None
    else if s[b - 1] == '}' then Some(b - 1)
    else LastClose(s, a, b - 1)
  }

  /** `s[a..b]` is a match of the regular expression `\{.*\}`: a `{`, then
      anything but a line break, then a `}`. */
  ghost predicate BraceSpan(s: string, a: nat, b: nat)
  {
    a + 2 <= b <= |s| && s[a] == '{' && s[b - 1] == '}'
    && forall t :: a < t < b - 1 ==> s[t] != '\n'
  }

  /** `re.search(r'\{.*\}', s)` from position `i`: the first start that
      can match, with the greedy (longest) end. */
  function BraceSearch(s: string, i: nat): (r: Option<(nat, nat)>)
    requires i <= |s|
    ensures r.Some? ==> i <= r.value.0 && r.value.0 + 2 <= r.value.1 <= |s|
    decreases |s| - i
  {
    if i == |s| then None
    else if s[i] == '{' then
      match LastClose(s, i + 1, LineEnd(s, i + 1))
      case Some(j) => Some((i, j + 1))
      case None => BraceSearch(s, i + 1)
    else BraceSearch(s, i + 1)
  }

  /** `BraceSearch` finds the leftmost match and, at that start, the
      longest one; it finds none exactly when there is none. */
  lemma {:induction false} BraceSearchIsSearch(s: string, i: nat)
    requires i <= |s|
    ensures var r := BraceSearch(s, i);
      (r.Some? ==> (BraceSpan(s, r.value.0, r.value.1)
        && (forall a, b :: i <= a < r.value.0 ==> !BraceSpan(s, a, b))
        && (forall b :: r.value.1 < b ==> !BraceSpan(s, r.value.0, b))))
      && (r.None? ==> forall a, b :: i <= a ==> !BraceSpan(s, a, b))
    decreases |s| - i
  {
    if i < |s| {
      BraceAt(s, i);
      if !(s[i] == '{' && LastClose(s, i + 1, LineEnd(s, i + 1)).Some?) {
        BraceSearchIsSearch(s, i + 1);
        forall a: nat, b: nat | i <= a && BraceSpan(s, a, b) ensures i + 1 <= a {
        }
      }
    }
  }

  /** The matches that start at `i`: none unless `s[i]` is `{` and a `}`
      follows on the same line, and then the longest ends after the last
      such `}`. */
  lemma BraceAt(s: string, i: nat)
    requires i < |s|
    ensures var c := LastClose(s, i + 1, LineEnd(s, i + 1));
      if s[i] == '{' && c.Some? then
        BraceSearch(s, i) == Some((i, c.value + 1)) && BraceSpan(s, i, c.value + 1)
        && forall b :: c.value + 1 < b ==> !BraceSpan(s, i, b)
      else
        BraceSearch(s, i) == BraceSearch(s, i + 1) && forall b :: !BraceSpan(s, i, b)
  {
    var e := LineEnd(s, i + 1);
    var c := LastClose(s, i + 1, e);
    forall b: nat | BraceSpan(s, i, b) ensures b <= e && c.Some? && b <= c.value + 1 {
      assert s[b - 1] == '}';
    }
  }

  /** `parse_log_entry`: the whole line when it starts with `{` once
      stripped and decodes, otherwise the span of the first `\{.*\}`
      match, when it decodes. */
  function ParseLogEntry(line: string, decode: string -> Option<Json>): Option<Json>
  {
    var whole := if StartsWith(Strip(line), 0, "{") then decode(line) else None;
    if whole.Some? then whole
    else match BraceSearch(line, 0)
      case Some((a, b)) => decode(line[a..b])
      case None => None
  }

  /** `parse_log_entry` yields nothing when the line is not whole JSON
      and holds no `{...}` span on one line. */
  lemma ParseWithoutBraces(line: string, decode: string -> Option<Json>)
    requires !(StartsWith(Strip(line), 0, "{") && decode(line).Some?)
    requires forall a, b :: !BraceSpan(line, a, b)
    ensures ParseLogEntry(line, decode).None?
  {
    BraceSearchIsSearch(line, 0);
  }

  /** Otherwise it yields the decoding of the leftmost, longest `{...}`
      span. */
  lemma ParseEmbedded(line: string, decode: string -> Option<Json>, a: nat, b: nat)
    requires !(StartsWith(Strip(line), 0, "{") && decode(line).Some?)
    requires BraceSpan(line, a, b)
    requires forall a': nat, b': nat :: a' < a ==> !BraceSpan(line, a', b')
    requires forall b': nat :: b < b' ==> !BraceSpan(line, a, b')
    ensures ParseLogEntry(line, decode) == decode(line[a..b])
  {
    BraceSearchIsSearch(line, 0);
  }

  // ---------------------------------------------------------------------
  // extract_request_bodies

  /** A logged `body` value as a request body: a string is decoded (and
      dropped when it does not decode), any other value is kept as is. */
  function BodyOf(v: Json, decode: string -> Option<Json>): (r: Option<Json>)
    ensures !v.JStr? ==> r == Some(v)
    ensures v.JStr? ==> r == decode(v.s)
  {
    match v
    case JStr(s) => decode(s)
    case _ => Some(v)
  }

  /** The body found under key `body` of a dict, if any. */
  function BodyUnder(members: seq<(string, Json)>, decode: string -> Option<Json>): (r: seq<Json>)
    ensures |r| <= 1
    ensures r != [] <==> HasKey(members, "body") && BodyOf(Lookup(members, "body").value, decode).Some?
    ensures r != [] ==> r[0] == BodyOf(Lookup(members, "body").value, decode).value
  {
    match Lookup(members, "body")
    case Some(v) => (match BodyOf(v, decode) case Some(b) => [b] case None => [])
    case None => []
  }

  /** The bodies one log line contributes: the top-level `body`, then the
      `body` of an `event` dict. A decoded line is a dict, as `json.loads`
      yields for text that starts with `{`; any other value contributes
      nothing. */
  function EntryBodies(line: string, decode: string -> Option<Json>): (r: seq<Json>)
    ensures |r| <= 2
    ensures ParseLogEntry(line, decode).None? ==> r == []
  {
    match ParseLogEntry(line, decode)
    case Some(JObject(m)) =>
      BodyUnder(m, decode) + (match Lookup(m, "event")
                              case Some(JObject(e)) => BodyUnder(e, decode)
                              case _ => [])
    case _ => []
  }

  /** The bodies of all lines, line by line. */
  function RequestBodies(entries: seq<string>, decode: string -> Option<Json>): seq<Json>
  {
    FlatMap(line => EntryBodies(line, decode), entries)
  }

  /** The body of the loop of `extract_request_bodies`: the bodies one line
      adds. */
  method LineBodies(line: string, decode: string -> Option<Json>) returns (bodies: seq<Json>)
    ensures bodies == EntryBodies(line, decode)
  {
    bodies := [];
    var parsed := ParseLogEntry(line, decode);
    if parsed.Some? && parsed.value.JObject? {
      var m := parsed.value.members;
      if HasKey(m, "body") {
        var body := BodyOf(Lookup(m, "body").value, decode);
        if body.Some? {
          bodies := bodies + [body.value];
        }
      }
      var event := Lookup(m, "event");
      if event.Some? && event.value.JObject? {
        var e := event.value.members;
        if HasKey(e, "body") {
          var body := BodyOf(Lookup(e, "body").value, decode);
          if body.Some? {
            bodies := bodies + [body.value];
          }
        }
      }
    }
  }

  /** `extract_request_bodies`. */
  method ExtractRequestBodies(entries: seq<string>, decode: string -> Option<Json>) returns (bodies: seq<Json>)
    ensures bodies == RequestBodies(entries, decode)
  {
    bodies := [];
    var i := 0;
    while i < |entries|
      invariant i <= |entries|
      invariant bodies == RequestBodies(entries[..i], decode)
    {
      assert entries[..i + 1][..i] == entries[..i];
      var found := LineBodies(entries[i], decode);
      bodies := bodies + found;
      i := i + 1;
    }
    assert entries[..i] == entries;
  }

  /** The bodies of consecutive runs of lines follow each other: each
      line's bodies appear in line order. */
  lemma RequestBodiesAppend(xs: seq<string>, ys: seq<string>, decode: string -> Option<Json>)
    ensures RequestBodies(xs + ys, decode) == RequestBodies(xs, decode) + RequestBodies(ys, decode)
  {
    FlatMapAppend(line => EntryBodies(line, decode), xs, ys);
  }

  /** At most two bodies per line. */
  lemma RequestBodiesBound(entries: seq<string>, decode: string -> Option<Json>)
    ensures |RequestBodies(entries, decode)| <= 2 * |entries|
  {
    FlatMapBound(line => EntryBodies(line, decode), entries, 2);
  }

  // ---------------------------------------------------------------------
  // analyze_field_presence

  /** What is kept per field: how many bodies have it and, for date and
      time fields, up to three sample values. */
  datatype FieldStat = FieldStat(count: nat, sampleValues: seq<Json>)

  /** The `field_stats` dict: its keys in insertion order and its entries. */
  datatype FieldStats = FieldStats(order: seq<string>, stats: map<string, FieldStat>)

  /** `'fecha' in field.lower() or 'hora' in field.lower()`. */
  predicate IsDateOrTime(field: string)
  {
    ContainsCI(field, "fecha") || ContainsCI(field, "hora")
  }

  predicate HasField(body: Json, field: string)
  {
    body.JObject? && HasKey(body.members, field)
  }

  /** The number of bodies that have `field`. */
  function CountBodies(bodies: seq<Json>, field: string): (n: nat)
    ensures n <= |bodies|
  {
    if bodies == [] then 0
    else CountBodies(bodies[..|bodies| - 1], field) + (if HasField(bodies[|bodies| - 1], field) then 1 else 0)
  }

  /** No body counted exactly when none has the field. */
  lemma {:induction false} CountBodiesZero(bodies: seq<Json>, field: string)
    ensures CountBodies(bodies, field) == 0 <==> forall b :: b in bodies ==> !HasField(b, field)
  {
    if bodies != [] {
      var init := bodies[..|bodies| - 1];
      CountBodiesZero(init, field);
      assert forall b :: b in bodies <==> b in init || b == bodies[|bodies| - 1];
    }
  }

  /** The values of `field` in the bodies that have it, in body order. */
  function ValuesOf(bodies: seq<Json>, field: string): (vs: seq<Json>)
    ensures |vs| == CountBodies(bodies, field)
  {
    if bodies == [] then []
    else
      var last := bodies[|bodies| - 1];
      ValuesOf(bodies[..|bodies| - 1], field)
        + (if HasField(last, field) then [Lookup(last.members, field).value] else [])
  }

  /** The first `n` elements (all of them when there are fewer). */
  function Take<T>(xs: seq<T>, n: nat): (r: seq<T>)
    ensures |r| == if |xs| <= n then |xs| else n
    ensures r == xs[..|r|]
  {
    if |xs| <= n then xs else xs[..n]
  }

  /** The entry `analyze_field_presence` records for `field`: the number of
      bodies having it, and for a date or time field the first three of
      its values in body order (none for other fields). */
  function Tally(bodies: seq<Json>, field: string): FieldStat
  {
    FieldStat(CountBodies(bodies, field), if IsDateOrTime(field) then Take(ValuesOf(bodies, field), 3) else [])
  }

  /** The count is the number of bodies having the field; the samples
      are at most three, only for date and time fields, and the first
      values in body order. */
  lemma TallyMeaning(bodies: seq<Json>, field: string)
    ensures var r := Tally(bodies, field);
      r.count == CountBodies(bodies, field)
      && |r.sampleValues| <= 3
      && (r.sampleValues != [] ==> IsDateOrTime(field))
      && (IsDateOrTime(field) ==> |r.sampleValues| == if r.count <= 3 then r.count else 3)
      && r.sampleValues == ValuesOf(bodies, field)[..|r.sampleValues|]
  {
  }

  /** The key names of a body. */
  function KeysOf(body: Json): seq<string>
  {
    if body.JObject? then Keys(body.members) else []
  }

  /** `order` extended by the names of `ks` it does not hold yet. */
  function AddNew(order: seq<string>, ks: seq<string>): (r: seq<string>)
    ensures forall f :: f in r <==> f in order || f in ks
    ensures NoDuplicates(order) ==> NoDuplicates(r)
  {
    if ks == [] then order
    else
      var before := AddNew(order, ks[..|ks| - 1]);
      var k := ks[|ks| - 1];
      assert forall f :: f in ks <==> f in ks[..|ks| - 1] || f == k;
      if k in before then before else before + [k]
  }

  lemma AddNewStep(order: seq<string>, ks: seq<string>, j: nat)
    requires j < |ks|
    ensures AddNew(order, ks[..j + 1])
      == if ks[j] in AddNew(order, ks[..j]) then AddNew(order, ks[..j]) else AddNew(order, ks[..j]) + [ks[j]]
  {
    assert ks[..j + 1][..j] == ks[..j];
  }

  /** The field names in order of first appearance. */
  function FieldOrder(bodies: seq<Json>): (r: seq<string>)
    ensures NoDuplicates(r)
  {
    if bodies == [] then []
    else
      var init := bodies[..|bodies| - 1];
      var last := bodies[|bodies| - 1];
      AddNew(FieldOrder(init), KeysOf(last))
  }

  /** Counting one more body with `field` whose value is `value`: one
      more in the count and, for a date or time field with fewer than
      three samples, the value added to the samples. */
  function Bump(s: FieldStat, field: string, value: Json): FieldStat
  {
    FieldStat(s.count + 1,
      if IsDateOrTime(field) && |s.sampleValues| < 3 then s.sampleValues + [value] else s.sampleValues)
  }

  /** A body with `field` bumps its entry. */
  lemma TallyStep(bodies: seq<Json>, body: Json, field: string)
    requires HasField(body, field)
    ensures Tally(bodies + [body], field) == Bump(Tally(bodies, field), field, Lookup(body.members, field).value)
  {
    assert (bodies + [body])[..|bodies|] == bodies;
    var vs := ValuesOf(bodies, field);
    var v := Lookup(body.members, field).value;
    assert ValuesOf(bodies + [body], field) == vs + [v];
    if |vs| < 3 {
      assert Take(vs + [v], 3) == Take(vs, 3) + [v];
    } else {
      assert (vs + [v])[..3] == vs[..3];
    }
  }

  /** A body without `field` changes nothing for it. */
  lemma TallySkip(bodies: seq<Json>, body: Json, field: string)
    requires !HasField(body, field)
    ensures Tally(bodies + [body], field) == Tally(bodies, field)
  {
    assert (bodies + [body])[..|bodies|] == bodies;
  }

  /** The field order lists exactly the fields some body has. */
  lemma {:induction false} FieldOrderMembers(bodies: seq<Json>, field: string)
    ensures field in FieldOrder(bodies) <==> CountBodies(bodies, field) > 0
  {
    if bodies != [] {
      FieldOrderMembers(bodies[..|bodies| - 1], field);
    }
  }

  lemma FieldOrderSnoc(done: seq<Json>, m: seq<(string, Json)>)
    ensures FieldOrder(done + [JObject(m)]) == AddNew(FieldOrder(done), Keys(m))
  {
    assert (done + [JObject(m)])[..|done|] == done;
  }

  /** One iteration of the inner loop: `field` is entered with a zero
      count if new, then counted and perhaps sampled. */
  method RecordField(order0: seq<string>, stats0: map<string, FieldStat>, field: string, value: Json)
    returns (order: seq<string>, stats: map<string, FieldStat>)
    ensures order == if field in stats0 then order0 else order0 + [field]
    ensures stats == stats0[field := Bump(EntryOr(stats0, field), field, value)]
  {
    order, stats := order0, stats0;
    if field !in stats {
      stats := stats[field := FieldStat(0, [])];
      order := order + [field];
    }
    var s := stats[field];
    var samples := if IsDateOrTime(field) && |s.sampleValues| < 3 then s.sampleValues + [value] else s.sampleValues;
    stats := stats[field := FieldStat(s.count + 1, samples)];
  }

  /** The entry of `field` in `stats`, or a zero entry when it has none. */
  function EntryOr(stats: map<string, FieldStat>, field: string): FieldStat
  {
    if field in stats then stats[field] else FieldStat(0, [])
  }

  /** The entries after the first `j` of the keys `ks` of the body `m`:
      the keys seen are bumped once from their entry in `stats0`, the
      others are as in `stats0`. */
  ghost predicate TalliedUpTo(stats: map<string, FieldStat>, stats0: map<string, FieldStat>,
                              m: seq<(string, Json)>, ks: seq<string>, j: nat)
    requires j <= |ks|
  {
    (forall f :: f in stats <==> f in stats0 || f in ks[..j])
    && forall f :: f in stats ==>
      stats[f] == if f in ks[..j] then Bump(EntryOr(stats0, f), f, GetOr(m, f, JNull)) else stats0[f]
  }

  /** Recording key `j` moves `TalliedUpTo` one key further. */
  lemma TalliedStep(stats1: map<string, FieldStat>, stats: map<string, FieldStat>, stats0: map<string, FieldStat>,
                    m: seq<(string, Json)>, ks: seq<string>, j: nat)
    requires j < |ks| && NoDuplicates(ks)
    requires TalliedUpTo(stats1, stats0, m, ks, j)
    requires stats == stats1[ks[j] := Bump(EntryOr(stats1, ks[j]), ks[j], GetOr(m, ks[j], JNull))]
    ensures TalliedUpTo(stats, stats0, m, ks, j + 1)
  {
    var f := ks[j];
    var b := Bump(EntryOr(stats1, f), f, GetOr(m, f, JNull));
    assert ks[..j + 1] == ks[..j] + [f];
    assert f !in ks[..j];
    assert EntryOr(stats1, f) == EntryOr(stats0, f);
    forall g ensures g in stats <==> g in stats0 || g in ks[..j + 1] {
      assert g in ks[..j + 1] <==> g in ks[..j] || g == f;
    }
    forall g | g in stats
      ensures stats[g] == if g in ks[..j + 1] then Bump(EntryOr(stats0, g), g, GetOr(m, g, JNull)) else stats0[g]
    {
      assert g in ks[..j + 1] <==> g in ks[..j] || g == f;
      if g != f {
        assert stats[g] == stats1[g];
      }
    }
  }

  /** After all keys of `m`, the entries are those of the bodies so far
      followed by `m`. */
  lemma TalliedAll(stats: map<string, FieldStat>, stats0: map<string, FieldStat>, done: seq<Json>, m: seq<(string, Json)>, f: string)
    requires TalliedUpTo(stats, stats0, m, Keys(m), |Keys(m)|)
    requires forall g :: g in stats0 <==> g in FieldOrder(done)
    requires forall g :: g in stats0 ==> stats0[g] == Tally(done, g)
    requires f in stats
    ensures stats[f] == Tally(done + [JObject(m)], f)
  {
    var ks := Keys(m);
    assert ks[..|ks|] == ks;
    if f in ks {
      FieldOrderMembers(done, f);
      TallyStep(done, JObject(m), f);
    } else {
      TallySkip(done, JObject(m), f);
    }
  }

  /** Recording key `j` keeps the inner loop's invariant. */
  lemma KeysStep(order0: seq<string>, order1: seq<string>, order: seq<string>,
                 stats0: map<string, FieldStat>, stats1: map<string, FieldStat>, stats: map<string, FieldStat>,
                 m: seq<(string, Json)>, ks: seq<string>, j: nat)
    requires j < |ks| && NoDuplicates(ks)
    requires order1 == AddNew(order0, ks[..j]) && TalliedUpTo(stats1, stats0, m, ks, j)
    requires forall f :: f in stats1 <==> f in order1
    requires order == if ks[j] in stats1 then order1 else order1 + [ks[j]]
    requires stats == stats1[ks[j] := Bump(EntryOr(stats1, ks[j]), ks[j], GetOr(m, ks[j], JNull))]
    ensures order == AddNew(order0, ks[..j + 1]) && TalliedUpTo(stats, stats0, m, ks, j + 1)
    ensures forall f :: f in stats <==> f in order
  {
    AddNewStep(order0, ks, j);
    TalliedStep(stats1, stats, stats0, m, ks, j);
  }

  /** The inner loop over one body's keys. */
  method TallyKeys(order0: seq<string>, stats0: map<string, FieldStat>, ghost done: seq<Json>, m: seq<(string, Json)>)
    returns (order: seq<string>, stats: map<string, FieldStat>)
    requires order0 == FieldOrder(done)
    requires forall f :: f in stats0 <==> f in order0
    requires forall f :: f in stats0 ==> stats0[f] == Tally(done, f)
    ensures order == FieldOrder(done + [JObject(m)])
    ensures forall f :: f in stats <==> f in order
    ensures forall f :: f in stats ==> stats[f] == Tally(done + [JObject(m)], f)
  {
    var ks := Keys(m);
    order, stats := order0, stats0;
    var j := 0;
    while j < |ks|
      invariant j <= |ks|
      invariant order == AddNew(order0, ks[..j])
      invariant TalliedUpTo(stats, stats0, m, ks, j)
      invariant forall f :: f in stats <==> f in order
    {
      var order1, stats1 := order, stats;
      order, stats := RecordField(order, stats, ks[j], GetOr(m, ks[j], JNull));
      KeysStep(order0, order1, order, stats0, stats1, stats, m, ks, j);
      j := j + 1;
    }
    KeysDone(order0, order, stats0, stats, done, m, j);
  }

  /** After the inner loop, the order and the entries are those of the
      bodies so far followed by `m`. */
  lemma KeysDone(order0: seq<string>, order: seq<string>, stats0: map<string, FieldStat>, stats: map<string, FieldStat>,
                 done: seq<Json>, m: seq<(string, Json)>, j: nat)
    requires order0 == FieldOrder(done)
    requires forall f :: f in stats0 <==> f in order0
    requires forall f :: f in stats0 ==> stats0[f] == Tally(done, f)
    requires j == |Keys(m)|
    requires order == AddNew(order0, Keys(m)[..j]) && TalliedUpTo(stats, stats0, m, Keys(m), j)
    ensures order == FieldOrder(done + [JObject(m)])
    ensures forall f :: f in stats ==> stats[f] == Tally(done + [JObject(m)], f)
  {
    assert Keys(m)[..j] == Keys(m);
    FieldOrderSnoc(done, m);
    forall f | f in stats ensures stats[f] == Tally(done + [JObject(m)], f) {
      TalliedAll(stats, stats0, done, m, f);
    }
  }

  /** `analyze_field_presence`: `None` where Python fails on a body that
      is not a dict (`body.keys()` raises). */
  method AnalyzeFieldPresence(bodies: seq<Json>) returns (r: Option<FieldStats>)
    ensures r.None? <==> exists b :: b in bodies && !b.JObject?
    ensures r.Some? ==> (r.value.order == FieldOrder(bodies)
      && (forall f :: f in r.value.stats <==> f in r.value.order)
      && (forall f :: f in r.value.stats ==> r.value.stats[f] == Tally(bodies, f)))
  {
    var order: seq<string> := [];
    var stats: map<string, FieldStat> := map[];
    var i := 0;
    while i < |bodies|
      invariant i <= |bodies|
      invariant forall k :: 0 <= k < i ==> bodies[k].JObject?
      invariant order == FieldOrder(bodies[..i])
      invariant forall f :: f in stats <==> f in order
      invariant forall f :: f in stats ==> stats[f] == Tally(bodies[..i], f)
    {
      if !bodies[i].JObject? {
        return None;
      }
      assert bodies[..i + 1] == bodies[..i] + [JObject(bodies[i].members)];
      order, stats := TallyKeys(order, stats, bodies[..i], bodies[i].members);
      i := i + 1;
    }
    assert bodies[..i] == bodies;
    r := Some(FieldStats(order, stats));
  }

  // ---------------------------------------------------------------------
  // identify_patterns

  /** The eight tallied patterns, in the order of the `patterns` dict. */
  datatype Pattern =
    | Errors | MissingParameters | SuccessfulUpdates | FechaTurnoPresent
    | HoraTurnoPresent | FechaPresent | HoraPresent | UpdateExpressionLogged

  const ErrorsKey := "errors"
  const MissingParametersKey := "missing_parameters"
  const SuccessfulUpdatesKey := "successful_updates"
  const FechaTurnoKey := "fecha_turno_present"
  const HoraTurnoKey := "hora_turno_present"
  const FechaKey := "fecha_present"
  const HoraKey := "hora_present"
  const UpdateExpressionKey := "update_expression_logged"

  /** The dict key of each pattern. */
  function Name(p: Pattern): string
  {
    match p
    case Errors => ErrorsKey
    case MissingParameters => MissingParametersKey
    case SuccessfulUpdates => SuccessfulUpdatesKey
    case FechaTurnoPresent => FechaTurnoKey
    case HoraTurnoPresent => HoraTurnoKey
    case FechaPresent => FechaKey
    case HoraPresent => HoraKey
    case UpdateExpressionLogged => UpdateExpressionKey
  }

  const PatternKeys: seq<string> := [ErrorsKey, MissingParametersKey, SuccessfulUpdatesKey, FechaTurnoKey,
                                     HoraTurnoKey, FechaKey, HoraKey, UpdateExpressionKey]

  /** Every key is some pattern's name. */
  lemma PatternKeysAreNames(k: string)
    ensures k in PatternKeys <==> exists p :: Name(p) == k
  {
    if k in PatternKeys {
      var i :| 0 <= i < |PatternKeys| && PatternKeys[i] == k;
      var ps := [Errors, MissingParameters, SuccessfulUpdates, FechaTurnoPresent,
                 HoraTurnoPresent, FechaPresent, HoraPresent, UpdateExpressionLogged];
      assert Name(ps[i]) == k;
    }
  }

  const ErrorWord := "error"
  const ExceptionWord := "exception"
  const MissingWord := "missing"
  const ParameterWord := "parameter"
  const SuccessfullyWord := "successfully"
  const SuccessWord := "success"
  const FechaTurnoWord := "fechaturno"
  const HoraTurnoWord := "horaturno"
  const FechaDoubleQuoted := "\"fecha\""
  const FechaSingleQuoted := "'fecha'"
  const HoraDoubleQuoted := "\"hora\""
  const HoraSingleQuoted := "'hora'"
  const UpdateExpressionWord := "updateexpression"
  const UpdateExpressionSnakeWord := "update_expression"

  /** Whether the lower-cased line `low` counts for pattern `p`. */
  predicate Triggered(p: Pattern, low: string)
  {
    match p
    case Errors => Contains(low, ErrorWord) || Contains(low, ExceptionWord)
    case MissingParameters => Contains(low, MissingWord) && Contains(low, ParameterWord)
    case SuccessfulUpdates => Contains(low, SuccessfullyWord) || Contains(low, SuccessWord)
    case FechaTurnoPresent => Contains(low, FechaTurnoWord)
    case HoraTurnoPresent => Contains(low, HoraTurnoWord)
    case FechaPresent => Contains(low, FechaDoubleQuoted) || Contains(low, FechaSingleQuoted)
    case HoraPresent => Contains(low, HoraDoubleQuoted) || Contains(low, HoraSingleQuoted)
    case UpdateExpressionLogged => Contains(low, UpdateExpressionWord) || Contains(low, UpdateExpressionSnakeWord)
  }

  /** The number of lines whose lower-case form triggers `p`. */
  function CountEntries(entries: seq<string>, p: Pattern): (n: nat)
    ensures n <= |entries|
  {
    if entries == [] then 0
    else
      var last := entries[|entries| - 1];
      CountEntries(entries[..|entries| - 1], p) + (if Triggered(p, Lower(last)) then 1 else 0)
  }

  /** A counter is zero exactly when no line triggers its pattern, and
      equals the number of lines exactly when every line does. */
  lemma {:induction false} CountEntriesExtremes(entries: seq<string>, p: Pattern)
    ensures CountEntries(entries, p) == 0 <==> forall k :: 0 <= k < |entries| ==> !Triggered(p, Lower(entries[k]))
    ensures CountEntries(entries, p) == |entries| <==> forall k :: 0 <= k < |entries| ==> Triggered(p, Lower(entries[k]))
  {
    CountEntriesZero(entries, p);
    CountEntriesFull(entries, p);
  }

  lemma {:induction false} CountEntriesZero(entries: seq<string>, p: Pattern)
    ensures CountEntries(entries, p) == 0 <==> forall k :: 0 <= k < |entries| ==> !Triggered(p, Lower(entries[k]))
  {
    if entries != [] {
      var init := entries[..|entries| - 1];
      CountEntriesZero(init, p);
      assert forall k :: 0 <= k < |init| ==> init[k] == entries[k];
    }
  }

  lemma {:induction false} CountEntriesFull(entries: seq<string>, p: Pattern)
    ensures CountEntries(entries, p) == |entries| <==> forall k :: 0 <= k < |entries| ==> Triggered(p, Lower(entries[k]))
  {
    if entries != [] {
      var init := entries[..|entries| - 1];
      CountEntriesFull(init, p);
      assert CountEntries(init, p) <= |init|;
      assert forall k :: 0 <= k < |init| ==> init[k] == entries[k];
    }
  }

  lemma CountEntriesSnoc(entries: seq<string>, i: nat, p: Pattern)
    requires i < |entries|
    ensures CountEntries(entries[..i + 1], p)
      == CountEntries(entries[..i], p) + (if Triggered(p, Lower(entries[i])) then 1 else 0)
  {
    assert entries[..i + 1][..i] == entries[..i];
  }

  /** The pattern keys are distinct, so each update touches one counter. */
  lemma NamesDistinct(p: Pattern, q: Pattern)
    requires p != q
    ensures Name(p) != Name(q)
  {
    assert ErrorsKey[0] == 'e' && MissingParametersKey[0] == 'm' && SuccessfulUpdatesKey[0] == 's';
    assert FechaTurnoKey[0] == 'f' && FechaKey[0] == 'f' && |FechaTurnoKey| != |FechaKey|;
    assert HoraTurnoKey[0] == 'h' && HoraKey[0] == 'h' && |HoraTurnoKey| != |HoraKey|;
    assert UpdateExpressionKey[0] == 'u';
  }

  /** `patterns[name] += 1` when `hit`. */
  function Increment(counts: map<string, nat>, p: Pattern, hit: bool): (r: map<string, nat>)
    requires Name(p) in counts
    ensures r.Keys == counts.Keys
  {
    if hit then counts[Name(p) := counts[Name(p)] + 1] else counts
  }

  /** The eight patterns, in the order of the dict. */
  const PatternOrder: seq<Pattern> := [Errors, MissingParameters, SuccessfulUpdates, FechaTurnoPresent,
                                       HoraTurnoPresent, FechaPresent, HoraPresent, UpdateExpressionLogged]

  /** The checks of `ps` on one line, in order; `hit` says which fire. */
  function TallyOver(counts: map<string, nat>, hit: Pattern -> bool, ps: seq<Pattern>): (r: map<string, nat>)
    requires forall p :: Name(p) in counts
    ensures r.Keys == counts.Keys
  {
    if ps == [] then counts
    else TallyOver(Increment(counts, ps[0], hit(ps[0])), hit, ps[1..])
  }

  /** The eight checks of one line. */
  function TallyLine(counts: map<string, nat>, hit: Pattern -> bool): map<string, nat>
    requires forall p :: Name(p) in counts
  {
    TallyOver(counts, hit, PatternOrder)
  }

  /** One increment moves only its own counter. */
  lemma IncrementAt(counts: map<string, nat>, q: Pattern, b: bool, p: Pattern)
    requires forall x :: Name(x) in counts
    ensures Increment(counts, q, b)[Name(p)] == counts[Name(p)] + (if q == p && b then 1 else 0)
  {
    if q != p {
      NamesDistinct(q, p);
    }
  }

  /** Over distinct checks, each counter moves by one exactly when its
      check is among them and fires. */
  lemma {:induction false} TallyOverCounts(counts: map<string, nat>, hit: Pattern -> bool, ps: seq<Pattern>, p: Pattern)
    requires forall q :: Name(q) in counts
    requires NoDuplicates(ps)
    ensures TallyOver(counts, hit, ps)[Name(p)] == counts[Name(p)] + (if p in ps && hit(p) then 1 else 0)
  {
    if ps != [] {
      var next := Increment(counts, ps[0], hit(ps[0]));
      IncrementAt(counts, ps[0], hit(ps[0]), p);
      assert NoDuplicates(ps[1..]) by {
        forall i, j | 0 <= i < j < |ps[1..]| ensures ps[1..][i] != ps[1..][j] {
          assert ps[1..][i] == ps[i + 1] && ps[1..][j] == ps[j + 1];
        }
      }
      TallyOverCounts(next, hit, ps[1..], p);
      assert p in ps <==> p == ps[0] || p in ps[1..];
      if p == ps[0] {
        assert forall k :: 0 <= k < |ps[1..]| ==> ps[1..][k] == ps[k + 1] != ps[0];
      }
    }
  }

  /** Each counter moves by one exactly when its check fires, and no key
      is added. */
  lemma TallyLineCounts(counts: map<string, nat>, hit: Pattern -> bool, p: Pattern)
    requires forall q :: Name(q) in counts
    ensures TallyLine(counts, hit).Keys == counts.Keys
    ensures TallyLine(counts, hit)[Name(p)] == counts[Name(p)] + (if hit(p) then 1 else 0)
  {
    TallyOverCounts(counts, hit, PatternOrder, p);
    assert p in PatternOrder by {
      match p
      case Errors => assert PatternOrder[0] == p;
      case MissingParameters => assert PatternOrder[1] == p;
      case SuccessfulUpdates => assert PatternOrder[2] == p;
      case FechaTurnoPresent => assert PatternOrder[3] == p;
      case HoraTurnoPresent => assert PatternOrder[4] == p;
      case FechaPresent => assert PatternOrder[5] == p;
      case HoraPresent => assert PatternOrder[6] == p;
      case UpdateExpressionLogged => assert PatternOrder[7] == p;
    }
  }

  /** `identify_patterns`: exactly the eight keys, each counting the lines
      that trigger its pattern. */
  method IdentifyPatterns(entries: seq<string>) returns (counts: map<string, nat>)
    ensures forall k :: k in counts <==> k in PatternKeys
    ensures forall p :: Name(p) in counts && counts[Name(p)] == CountEntries(entries, p)
  {
    counts := map[ErrorsKey := 0, MissingParametersKey := 0, SuccessfulUpdatesKey := 0, FechaTurnoKey := 0,
                  HoraTurnoKey := 0, FechaKey := 0, HoraKey := 0, UpdateExpressionKey := 0];
    var i := 0;
    while i < |entries|
      invariant i <= |entries|
      invariant forall k :: k in counts <==> k in PatternKeys
      invariant forall p :: Name(p) in counts && counts[Name(p)] == CountEntries(entries[..i], p)
    {
      var low := Lower(entries[i]);
      var hit := p => Triggered(p, low);
      var next := TallyLine(counts, hit);
      forall p ensures next[Name(p)] == CountEntries(entries[..i + 1], p) && next.Keys == counts.Keys {
        TallyLineCounts(counts, hit, p);
        CountEntriesSnoc(entries, i, p);
      }
      counts := next;
      i := i + 1;
    }
    assert entries[..i] == entries;
  }

  // ---------------------------------------------------------------------
  // analyze_cloudwatch_logs

  datatype LogAnalysis = LogAnalysis(
    logGroup: string,
    timeRange: string,
    totalEntries: nat,
    errorCount: nat,
    requestBodies: seq<Json>,
    patterns: map<string, nat>,
    recommendations: seq<string>)

  const TimeRange := "last 30 minutes"
  const FoundText := "Se encontraron "
  const ErrorsAdvice := " errores en los logs. Revisar los mensajes de error para identificar problemas."
  const MissingAdvice := " errores de parámetros faltantes. Verificar que el agente esté enviando todos los campos requeridos."
  const NoDateNote := "No se encontraron campos de fecha" + " en los request bodies. Verificar que el agente esté enviando fechaTurno o fecha."
  const NoTimeNote := "No se encontraron campos de hora" + " en los request bodies. Verificar que el agente esté enviando horaTurno o hora."
  const DateFoundText := "Campos de fecha encontrados: "
  const TimeFoundText := "Campos de hora encontrados: "
  const PresentText := ". Presentes en "
  const RequestsText := " requests."
  const NoUpdateLogNote := "No se encontró logging" + " del UpdateExpression. Agregar logging para facilitar debugging."

  /** The note on the fields found for one kind: the list of them and the
      count of the first. */
  function FoundNote(kindText: string, fields: seq<string>, count: nat): string
  {
    kindText + ListRepr(fields) + PresentText + NatToString(count) + RequestsText
  }

  /** The note for a positive number of error lines. */
  function ErrorsNote(n: nat): string
  {
    FoundText + NatToString(n) + ErrorsAdvice
  }

  /** The note for a positive number of missing-parameter lines. */
  function MissingNote(n: nat): string
  {
    FoundText + NatToString(n) + MissingAdvice
  }

  /** The note for date fields (`sub` = "fecha") or time fields
      (`sub` = "hora"): `none` when no field mentions `sub`, otherwise the
      list of those fields, in first-seen order, and the count of the
      first of them (which `VariantsFirst` identifies). */
  function KindNote(none: string, kindText: string, order: seq<string>, stats: map<string, FieldStat>, sub: string): (r: string)
    requires |kindText| > 0
    requires forall f :: f in order ==> f in stats
    ensures Variants(order, sub) == [] ==> r == none
    ensures Variants(order, sub) != [] ==> (Variants(order, sub)[0] in order
      && r == FoundNote(kindText, Variants(order, sub), stats[Variants(order, sub)[0]].count))
    ensures Variants(order, sub) != [] ==> |r| > 0 && r[0] == kindText[0]
  {
    var fields := Variants(order, sub);
    if fields == [] then none
    else
      assert fields[0] in fields;
      FoundNote(kindText, fields, stats[fields[0]].count)
  }

  /** The characters that tell the notes apart. */
  lemma NoteChars(n: nat)
    ensures |NoUpdateLogNote| > 13 && NoUpdateLogNote[0] == 'N' && NoUpdateLogNote[13] == '\U{f3}'
    ensures |NoDateNote| > 28 && NoDateNote[0] == 'N' && NoDateNote[13] == 'a' && NoDateNote[28] == 'f'
    ensures |NoTimeNote| > 28 && NoTimeNote[0] == 'N' && NoTimeNote[13] == 'a' && NoTimeNote[28] == 'h'
    ensures DateFoundText[0] == 'C' && TimeFoundText[0] == 'C'
    ensures var e := ErrorsNote(n); |e| > 0 && e[0] == 'S'
    ensures var m := MissingNote(n); |m| > 0 && m[0] == 'S'
  {
  }

  /** The errors note and the missing-parameters note differ whatever
      their counts: their texts end differently. */
  lemma CountNotesDiffer(n: nat, m: nat)
    ensures ErrorsNote(n) != MissingNote(m)
  {
    assert ErrorsAdvice[|ErrorsAdvice| - 3] == 'a';
    assert MissingAdvice[|MissingAdvice| - 3] == 'o';
    SuffixesDiffer(FoundText + NatToString(n), ErrorsAdvice, FoundText + NatToString(m), MissingAdvice, 2);
  }

  lemma InJoined(x: string, c: seq<string>, d: string, h: string, tail: seq<string>)
    ensures x in c + [d, h] + tail <==> x in c || x == d || x == h || x in tail
  {
    var s := c + [d, h] + tail;
    if x in s {
      var i :| 0 <= i < |s| && s[i] == x;
      if i < |c| { assert c[i] == x; }
      else if i >= |c| + 2 { assert tail[i - |c| - 2] == x; }
    }
    if x in c {
      var i :| 0 <= i < |c| && c[i] == x;
      assert s[i] == x;
    }
    if x in tail {
      var i :| 0 <= i < |tail| && tail[i] == x;
      assert s[|c| + 2 + i] == x;
    }
    assert s[|c|] == d && s[|c| + 1] == h;
  }

  /** The first recommendations: the errors note, then the
      missing-parameters note, each present exactly when its count is
      positive. */
  method CountNotes(errors: nat, missing: nat) returns (recs: seq<string>)
    ensures |recs| == (if errors > 0 then 1 else 0) + (if missing > 0 then 1 else 0)
    ensures ErrorsNote(errors) in recs <==> errors > 0
    ensures MissingNote(missing) in recs <==> missing > 0
    ensures errors > 0 ==> recs[0] == ErrorsNote(errors)
    ensures forall x :: x in recs ==> |x| > 0 && x[0] == 'S'
  {
    NoteChars(errors);
    var e := ErrorsNote(errors);
    NoteChars(missing);
    var m := MissingNote(missing);
    CountNotesDiffer(errors, missing);
    recs := [];
    if errors > 0 {
      recs := recs + [e];
    }
    if missing > 0 {
      recs := recs + [m];
    }
  }

  /** The recommendations of `analyze_cloudwatch_logs`, appended in the
      source's order from the error, missing-parameter and UpdateExpression
      counts and the field presence. */
  method LogRecommendations(errors: nat, missing: nat, updates: nat, order: seq<string>, stats: map<string, FieldStat>)
    returns (recs: seq<string>)
    requires forall f :: f in order ==> f in stats
    ensures |recs| == (if errors > 0 then 1 else 0) + (if missing > 0 then 1 else 0)
      + 2 + (if updates == 0 then 1 else 0)
    ensures ErrorsNote(errors) in recs <==> errors > 0
    ensures MissingNote(missing) in recs <==> missing > 0
    ensures NoUpdateLogNote in recs <==> updates == 0
    ensures NoDateNote in recs <==> Variants(order, "fecha") == []
    ensures NoTimeNote in recs <==> Variants(order, "hora") == []
    ensures var dates := Variants(order, "fecha"); dates != [] ==> (dates[0] in stats
      && FoundNote(DateFoundText, dates, stats[dates[0]].count) in recs)
    ensures var times := Variants(order, "hora"); times != [] ==> (times[0] in stats
      && FoundNote(TimeFoundText, times, stats[times[0]].count) in recs)
  {
    recs := CountNotes(errors, missing);
    ghost var counted := recs;
    var dateNote := KindNote(NoDateNote, DateFoundText, order, stats, "fecha");
    var timeNote := KindNote(NoTimeNote, TimeFoundText, order, stats, "hora");
    recs := recs + [dateNote, timeNote];
    if updates == 0 {
      recs := recs + [NoUpdateLogNote];
    }
    ghost var tail := if updates == 0 then [NoUpdateLogNote] else [];
    assert recs == counted + [dateNote, timeNote] + tail;
    JoinedNotes(counted, dateNote, timeNote, tail, Variants(order, "fecha") == [], Variants(order, "hora") == []);
    NoteChars(errors);
    NoteChars(missing);
    CountedNotesKept(ErrorsNote(errors), counted, dateNote, timeNote, tail);
    CountedNotesKept(MissingNote(missing), counted, dateNote, timeNote, tail);
    InJoined(dateNote, counted, dateNote, timeNote, tail);
    InJoined(timeNote, counted, dateNote, timeNote, tail);
  }

  /** Which of the three fixed notes a list of recommendations holds: the
      leading count notes start with 'S', a found note with 'C'. */
  lemma JoinedNotes(counted: seq<string>, dateNote: string, timeNote: string, tail: seq<string>,
                    noDate: bool, noTime: bool)
    requires forall x :: x in counted ==> |x| > 0 && x[0] == 'S'
    requires noDate ==> dateNote == NoDateNote
    requires !noDate ==> |dateNote| > 0 && dateNote[0] == 'C'
    requires noTime ==> timeNote == NoTimeNote
    requires !noTime ==> |timeNote| > 0 && timeNote[0] == 'C'
    requires tail == [] || tail == [NoUpdateLogNote]
    ensures NoUpdateLogNote in counted + [dateNote, timeNote] + tail <==> tail != []
    ensures NoDateNote in counted + [dateNote, timeNote] + tail <==> noDate
    ensures NoTimeNote in counted + [dateNote, timeNote] + tail <==> noTime
  {
    NoteChars(0);
    forall x | x in counted
      ensures x != NoUpdateLogNote && x != NoDateNote && x != NoTimeNote
    {
      Differ(x, NoUpdateLogNote, 0);
      Differ(x, NoDateNote, 0);
      Differ(x, NoTimeNote, 0);
    }
    if noDate {
      Differ(dateNote, NoUpdateLogNote, 13);
      Differ(dateNote, NoTimeNote, 28);
    } else {
      Differ(dateNote, NoUpdateLogNote, 0);
      Differ(dateNote, NoDateNote, 0);
      Differ(dateNote, NoTimeNote, 0);
    }
    if noTime {
      Differ(timeNote, NoUpdateLogNote, 13);
      Differ(timeNote, NoDateNote, 28);
    } else {
      Differ(timeNote, NoUpdateLogNote, 0);
      Differ(timeNote, NoDateNote, 0);
      Differ(timeNote, NoTimeNote, 0);
    }
    Differ(NoUpdateLogNote, NoDateNote, 13);
    Differ(NoUpdateLogNote, NoTimeNote, 13);
    Differ(NoDateNote, NoTimeNote, 28);
    InJoined(NoUpdateLogNote, counted, dateNote, timeNote, tail);
    InJoined(NoDateNote, counted, dateNote, timeNote, tail);
    InJoined(NoTimeNote, counted, dateNote, timeNote, tail);
  }

  /** A note starting with 'S' is among the joined notes iff it is among
      the leading count notes. */
  lemma CountedNotesKept(x: string, counted: seq<string>, dateNote: string, timeNote: string, tail: seq<string>)
    requires |x| > 0 && x[0] == 'S'
    requires |dateNote| > 0 && dateNote[0] != 'S' && |timeNote| > 0 && timeNote[0] != 'S'
    requires tail == [] || tail == [NoUpdateLogNote]
    ensures x in counted + [dateNote, timeNote] + tail <==> x in counted
  {
    NoteChars(0);
    Differ(x, dateNote, 0);
    Differ(x, timeNote, 0);
    Differ(x, NoUpdateLogNote, 0);
    InJoined(x, counted, dateNote, timeNote, tail);
  }

  /** The recommendations for the log lines `entries` and the request
      bodies `bodies`: the errors and missing-parameters notes with their
      counts, the UpdateExpression note, and for each of dates and times
      either the no-field note or the list of fields with the number of
      bodies holding the first of them. */
  ghost predicate RecommendationsFit(recs: seq<string>, entries: seq<string>, bodies: seq<Json>)
  {
    var order := FieldOrder(bodies);
    var errors := CountEntries(entries, Errors);
    var missing := CountEntries(entries, MissingParameters);
    var dates := Variants(order, "fecha");
    var times := Variants(order, "hora");
    |recs| == (if errors > 0 then 1 else 0) + (if missing > 0 then 1 else 0)
      + 2 + (if CountEntries(entries, UpdateExpressionLogged) == 0 then 1 else 0)
    && (ErrorsNote(errors) in recs <==> errors > 0)
    && (MissingNote(missing) in recs <==> missing > 0)
    && (NoUpdateLogNote in recs <==> CountEntries(entries, UpdateExpressionLogged) == 0)
    && (NoDateNote in recs <==> Mentioning(AsSet(order), "fecha") == {})
    && (NoTimeNote in recs <==> Mentioning(AsSet(order), "hora") == {})
    && (dates != [] ==> FoundNote(DateFoundText, dates, CountBodies(bodies, dates[0])) in recs)
    && (times != [] ==> FoundNote(TimeFoundText, times, CountBodies(bodies, times[0])) in recs)
  }

  /** `analyze_cloudwatch_logs`: `None` where Python fails because some
      request body is not a dict. */
  method AnalyzeCloudwatchLogs(entries: seq<string>, logGroup: string, decode: string -> Option<Json>)
    returns (r: Option<LogAnalysis>)
    ensures r.None? <==> exists b :: b in RequestBodies(entries, decode) && !b.JObject?
    ensures r.Some? ==> var a := r.value;
      a.logGroup == logGroup && a.timeRange == TimeRange
      && a.totalEntries == |entries|
      && a.errorCount == CountEntries(entries, Errors)
      && a.requestBodies == RequestBodies(entries, decode)
      && (forall k :: k in a.patterns <==> k in PatternKeys)
      && (forall p :: Name(p) in a.patterns && a.patterns[Name(p)] == CountEntries(entries, p))
    ensures r.Some? ==>
      RecommendationsFit(r.value.recommendations, entries, RequestBodies(entries, decode))
  {
    var bodies := ExtractRequestBodies(entries, decode);
    var patterns := IdentifyPatterns(entries);
    var presence := AnalyzeFieldPresence(bodies);
    if presence.None? {
      return None;
    }
    var order, stats := presence.value.order, presence.value.stats;
    var recs := PatternRecommendations(entries, patterns, bodies, order, stats);
    r := Some(LogAnalysis(logGroup, TimeRange, |entries|, patterns[ErrorsKey], bodies, patterns, recs));
  }

  /** The recommendations for the pattern counts of `entries` and the fields
      in `order`. */
  method PatternRecommendations(entries: seq<string>, patterns: map<string, nat>, ghost bodies: seq<Json>,
                                order: seq<string>, stats: map<string, FieldStat>)
    returns (recs: seq<string>)
    requires forall p :: Name(p) in patterns && patterns[Name(p)] == CountEntries(entries, p)
    requires order == FieldOrder(bodies)
    requires forall f :: f in stats <==> f in order
    requires forall f :: f in stats ==> stats[f] == Tally(bodies, f)
    ensures RecommendationsFit(recs, entries, bodies)
  {
    assert Name(Errors) == ErrorsKey && Name(MissingParameters) == MissingParametersKey;
    assert Name(UpdateExpressionLogged) == UpdateExpressionKey;
    VariantsOfSet(order, "fecha");
    VariantsOfSet(order, "hora");
    recs := LogRecommendations(patterns[ErrorsKey], patterns[MissingParametersKey],
      patterns[UpdateExpressionKey], order, stats);
  }
}
