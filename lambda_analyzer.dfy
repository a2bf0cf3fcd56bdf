/** The handler-source analyser: which request-body fields a handler reads,
    which fields its DynamoDB update expression writes, the fixed battery of
    diagnostic rules built on those two sets, and the comparison of two
    handlers. */
module LambdaAnalyzer {
  import opened Common
  import opened Text
  import opened Patterns
  import opened FieldNames

  // ---------------------------------------------------------------------
  // Field extraction

  /** `[f for f in match if f]`: the groups of one match that are not empty. */
  function NonEmpty(g: seq<string>): (r: seq<string>)
    ensures forall w :: w in r <==> w in g && w != ""
  {
    if g == [] then []
    else (if g[0] != "" then [g[0]] else []) + NonEmpty(g[1..])
  }

  /** `[c.strip() for c in match.split(',')]`: the bindings of one
      destructuring capture. */
  function Bindings(g: string): (r: seq<string>)
    ensures |r| == |Split(g, ',')|
  {
    var parts := Split(g, ',');
    seq(|parts|, k requires 0 <= k < |parts| => Strip(parts[k]))
  }

  /** Every name the three body-reading idioms capture, in the order
      `extract_processed_fields` collects them before removing duplicates. */
  function ProcessedCaptures(code: string): seq<string>
  {
    FlatMap(NonEmpty, FindAll(KeyedAccess, code, 0))
      + FindAllStrings(Membership, code)
      + FlatMap(Bindings, FindAllStrings(Destructuring, code))
  }

  ghost function ProcessedFieldSet(code: string): set<string>
  {
    AsSet(ProcessedCaptures(code))
  }

  /** Every name the three update-expression idioms capture, in the order
      `extract_update_expression_fields` collects them. */
  function UpdateCaptures(code: string): seq<string>
  {
    FindAllStrings(AppendClause, code)
      + FindAllStrings(SetAssignment, code)
      + FindAllStrings(SetClause, code)
  }

  ghost function UpdateFieldSet(code: string): set<string>
  {
    AsSet(UpdateCaptures(code))
  }

  /** The loop `for match in matches: fields.extend(f(match))`. */
  method ExtendEach<T>(fields: seq<string>, f: T -> seq<string>, matches: seq<T>) returns (r: seq<string>)
    ensures r == fields + FlatMap(f, matches)
  {
    r := fields;
    var i := 0;
    while i < |matches|
      invariant 0 <= i <= |matches|
      invariant r == fields + FlatMap(f, matches[..i])
    {
      assert matches[..i + 1][..i] == matches[..i];
      r := r + f(matches[i]);
      i := i + 1;
    }
    assert matches[..i] == matches;
  }

  /** `extract_processed_fields`: the keyed-access matches, the membership
      captures and the destructuring bindings, then `list(set(fields))`. */
  method ExtractProcessedFields(code: string) returns (fields: seq<string>)
    ensures NoDuplicates(fields)
    ensures AsSet(fields) == ProcessedFieldSet(code)
  {
    var collected := ExtendEach([], NonEmpty, FindAll(KeyedAccess, code, 0));
    collected := collected + FindAllStrings(Membership, code);
    collected := ExtendEach(collected, Bindings, FindAllStrings(Destructuring, code));
    fields := ListOfSet(AsSet(collected));
  }

  /** `extract_update_expression_fields`: the three `findall` results
      appended in turn, then `list(set(fields))`. */
  method ExtractUpdateExpressionFields(code: string) returns (fields: seq<string>)
    ensures NoDuplicates(fields)
    ensures AsSet(fields) == UpdateFieldSet(code)
  {
    var collected: seq<string> := [];
    collected := collected + FindAllStrings(AppendClause, code);
    collected := collected + FindAllStrings(SetAssignment, code);
    collected := collected + FindAllStrings(SetClause, code);
    fields := ListOfSet(AsSet(collected));
  }

  // ---------------------------------------------------------------------
  // What the extracted sets are, in terms of the individual matches

  /** `w` is read from the request body by one of the three idioms: a
      non-empty group of a keyed-access match, the capture of a membership
      test, or one binding of a destructuring match. */
  ghost predicate ReadsField(code: string, w: string)
  {
    (exists k :: KeyedRead(code, k, w))
    || (exists k :: CapturedAt(Membership, code, k, w))
    || (exists k, g :: CapturedAt(Destructuring, code, k, g) && w in Bindings(g))
  }

  /** `w` is a non-empty group of a keyed-access match at `k`. */
  ghost predicate KeyedRead(code: string, k: nat, w: string)
  {
    k < |code| && MatchAt(KeyedAccess, code, k).Some?
    && w in MatchAt(KeyedAccess, code, k).value.groups && w != ""
  }

  lemma AsSetConcat(a: seq<string>, b: seq<string>, w: string)
    ensures w in AsSet(a + b) <==> w in a || w in b
  {
  }

  lemma KeyedPart(code: string, w: string)
    ensures w in FlatMap(NonEmpty, FindAll(KeyedAccess, code, 0)) <==> exists k :: KeyedRead(code, k, w)
  {
    InFlatMap(NonEmpty, FindAll(KeyedAccess, code, 0), w);
    if w in FlatMap(NonEmpty, FindAll(KeyedAccess, code, 0)) {
      KeyedPartSound(code, w);
    }
    if k :| KeyedRead(code, k, w) {
      KeyedPartComplete(code, w, k);
    }
  }

  lemma KeyedPartSound(code: string, w: string)
    requires exists j :: 0 <= j < |FindAll(KeyedAccess, code, 0)| && w in NonEmpty(FindAll(KeyedAccess, code, 0)[j])
    ensures exists k :: KeyedRead(code, k, w)
  {
    var ms := FindAll(KeyedAccess, code, 0);
    var j :| 0 <= j < |ms| && w in NonEmpty(ms[j]);
    FindAllSound(KeyedAccess, code, 0, ms[j]);
    var k :| 0 <= k < |code| && MatchAt(KeyedAccess, code, k).Some?
      && MatchAt(KeyedAccess, code, k).value.groups == ms[j];
    assert KeyedRead(code, k, w);
  }

  lemma KeyedPartComplete(code: string, w: string, k: nat)
    requires KeyedRead(code, k, w)
    ensures exists j :: 0 <= j < |FindAll(KeyedAccess, code, 0)| && w in NonEmpty(FindAll(KeyedAccess, code, 0)[j])
  {
    var ms := FindAll(KeyedAccess, code, 0);
    KeyedAccessNoOverlap(code);
    FindAllComplete(KeyedAccess, code, 0, k);
    var j :| 0 <= j < |ms| && ms[j] == MatchAt(KeyedAccess, code, k).value.groups;
    assert w in NonEmpty(ms[j]);
  }

  lemma DestructuringPart(code: string, w: string)
    ensures w in FlatMap(Bindings, FindAllStrings(Destructuring, code))
      <==> exists k, g :: CapturedAt(Destructuring, code, k, g) && w in Bindings(g)
  {
    var gs := FindAllStrings(Destructuring, code);
    InFlatMap(Bindings, gs, w);
    DestructuringNoOverlap(code);
    if w in FlatMap(Bindings, gs) {
      var j :| 0 <= j < |gs| && w in Bindings(gs[j]);
      FindAllStringsExact(Destructuring, code, gs[j]);
      var k :| CapturedAt(Destructuring, code, k, gs[j]);
    }
    if k, g :| CapturedAt(Destructuring, code, k, g) && w in Bindings(g) {
      FindAllStringsExact(Destructuring, code, g);
      var j :| 0 <= j < |gs| && gs[j] == g;
    }
  }

  /** The processed-field set holds exactly the names the three idioms
      read, and nothing else. */
  lemma ProcessedFieldsExact(code: string, w: string)
    ensures w in ProcessedFieldSet(code) <==> ReadsField(code, w)
  {
    var a := FlatMap(NonEmpty, FindAll(KeyedAccess, code, 0));
    var b := FindAllStrings(Membership, code);
    var c := FlatMap(Bindings, FindAllStrings(Destructuring, code));
    AsSetConcat(a + b, c, w);
    assert w in a + b <==> w in a || w in b;
    KeyedPart(code, w);
    MembershipNoOverlap(code);
    FindAllStringsExact(Membership, code, w);
    DestructuringPart(code, w);
  }

  /** Every update field is the capture of a match of one of the three
      update-expression patterns. */
  lemma UpdateFieldsSound(code: string, w: string)
    requires w in UpdateFieldSet(code)
    ensures (exists k :: CapturedAt(AppendClause, code, k, w))
         || (exists k :: CapturedAt(SetAssignment, code, k, w))
         || (exists k :: CapturedAt(SetClause, code, k, w))
  {
    var a := FindAllStrings(AppendClause, code);
    var b := FindAllStrings(SetAssignment, code);
    var c := FindAllStrings(SetClause, code);
    AsSetConcat(a + b, c, w);
    assert w in a + b <==> w in a || w in b;
    if w in a {
      FindAllStringsSound(AppendClause, code, w);
    } else if w in b {
      FindAllStringsSound(SetAssignment, code, w);
    } else {
      FindAllStringsSound(SetClause, code, w);
    }
  }

  /** Every capture of the append and SET-clause patterns is an update
      field (those matches never overlap, so `findall` misses none). */
  lemma UpdateFieldsComplete(code: string, w: string)
    requires (exists k :: CapturedAt(AppendClause, code, k, w))
          || (exists k :: CapturedAt(SetClause, code, k, w))
    ensures w in UpdateFieldSet(code)
  {
    var a := FindAllStrings(AppendClause, code);
    var b := FindAllStrings(SetAssignment, code);
    var c := FindAllStrings(SetClause, code);
    AsSetConcat(a + b, c, w);
    assert w in a ==> w in a + b;
    AppendClauseNoOverlap(code);
    FindAllStringsExact(AppendClause, code, w);
    SetClauseNoOverlap(code);
    FindAllStringsExact(SetClause, code, w);
  }

  /** `body.get('X')` anywhere in the code makes `X` a processed field,
      whatever precedes `body` (so `request_body.get('X')` counts too). */
  lemma KeyedGetIsProcessed(code: string, i: nat, q1: char, w: string, q2: char)
    requires IsQuote(q1) && IsQuote(q2) && IsWord(w)
    requires StartsWith(code, i, "body.get(" + [q1] + (w + [q2] + ")"))
    ensures w in ProcessedFieldSet(code)
  {
    KeyedGetRecognised(code, i, q1, w, q2);
    assert KeyedRead(code, i, w);
    ProcessedFieldsExact(code, w);
  }

  /** `body['X']` makes `X` a processed field. */
  lemma KeyedIndexIsProcessed(code: string, i: nat, q1: char, w: string, q2: char)
    requires IsQuote(q1) && IsQuote(q2) && IsWord(w)
    requires StartsWith(code, i, "body[" + [q1] + (w + [q2] + "]"))
    ensures w in ProcessedFieldSet(code)
  {
    KeyedIndexRecognised(code, i, q1, w, q2);
    assert KeyedRead(code, i, w);
    ProcessedFieldsExact(code, w);
  }

  /** `'X' in body` makes `X` a processed field. */
  lemma MembershipIsProcessed(code: string, i: nat, q1: char, w: string, q2: char)
    requires IsQuote(q1) && IsQuote(q2) && IsWord(w)
    requires StartsWith(code, i, [q1] + (w + [q2]) + " in body")
    ensures w in ProcessedFieldSet(code)
  {
    MembershipRecognised(code, i, q1, w, q2);
    assert CapturedAt(Membership, code, i, w);
    ProcessedFieldsExact(code, w);
  }

  /** `update_expression += ', X =` makes `X` an update field, whatever the
      letter case of `update_expression`. */
  lemma AppendClauseIsUpdate(code: string, i: nat, q: char, w: string)
    requires IsQuote(q) && IsWord(w)
    requires StartsWithCI(code, i, "update_expression")
    requires StartsWith(code, i + 17, " += " + [q] + (", " + w + " ="))
    ensures w in UpdateFieldSet(code)
  {
    AppendClauseRecognised(code, i, q, w);
    assert CapturedAt(AppendClause, code, i, w);
    UpdateFieldsComplete(code, w);
  }

  /** With one blank after `SET`, the SET-clause pattern reports the name
      without its first letter: `'SET modifiedAt = :m'` yields `odifiedAt`. */
  lemma SetClauseIsTruncated(code: string, i: nat, q: char, w: string, v: string)
    requires IsQuote(q) && IsWord(w) && |w| >= 2 && IsWord(v)
    requires StartsWith(code, i, [q] + "SET " + (w + " = :" + v))
    requires i + 9 + |w| + |v| == |code| || !IsWordChar(code[i + 9 + |w| + |v|])
    ensures w[1..] in UpdateFieldSet(code)
  {
    SetClauseDropsFirstLetter(code, i, q, w, v);
    assert CapturedAt(SetClause, code, i, w[1..]);
    UpdateFieldsComplete(code, w[1..]);
  }

  // ---------------------------------------------------------------------
  // The diagnostic report

  datatype Severity = Critical | Warning | Info

  datatype Category = Code | Configuration | Data

  datatype Finding = Finding(
    severity: Severity,
    category: Category,
    description: string,
    location: string,
    recommendation: string)

  datatype DiagnosticReport = DiagnosticReport(
    lambdaName: string,
    findings: seq<Finding>,
    summary: string,
    requiresCodeChange: bool,
    requiresConfigChange: bool)

  /** The keywords of the logging check's regular expression. */
  const LogKeywords: seq<string> := ["print", "console.log", "logger"]

  /** No line break in `s[a..b]`: `.` in a regular expression does not
      match one. */
  predicate OnOneLine(s: string, a: nat, b: nat)
  {
    forall t | a <= t < b && t < |s| :: s[t] != '\n'
  }

  /** `re.search` of a logging keyword, then `update`, then `expression`,
      on one line and in any letter case. */
  predicate LogsUpdateExpression(code: string)
  {
    exists kw, i, j, k | kw in LogKeywords && 0 <= i <= |code| && i + |kw| <= j <= |code| && j + 6 <= k <= |code| ::
      StartsWithCI(code, i, kw) && StartsWithCI(code, j, "update")
      && StartsWithCI(code, k, "expression") && OnOneLine(code, i, k + 10)
  }

  /** `'print(' in code or 'console.log(' in code or 'logger.' in code`. */
  predicate HasLogging(code: string)
  {
    Contains(code, "print(") || Contains(code, "console.log(") || Contains(code, "logger.")
  }

  /** The six checks of `analyze_lambda_code`, in the order they run. */
  datatype Rule = DateNotUpdated | TimeNotUpdated | SingleDateVariant | SingleTimeVariant | NoLogging | UpdateNotLogged

  function Rank(r: Rule): nat
  {
    match r
    case DateNotUpdated => 0
    case TimeNotUpdated => 1
    case SingleDateVariant => 2
    case SingleTimeVariant => 3
    case NoLogging => 4
    case UpdateNotLogged => 5
  }

  function SeverityOf(r: Rule): Severity
  {
    match r
    case DateNotUpdated => Critical
    case TimeNotUpdated => Critical
    case UpdateNotLogged => Info
    case _ => Warning
  }

  /** What the checks look at: the extracted lists and the code. */
  datatype Facts = Facts(
    dateUpdated: bool,
    timeUpdated: bool,
    dateVariants: seq<string>,
    timeVariants: seq<string>,
    hasLogging: bool,
    logsUpdate: bool)

  function FactsOf(code: string, processed: seq<string>, update: seq<string>): Facts
  {
    Facts(
      Variants(update, "fecha") != [],
      Variants(update, "hora") != [],
      Variants(processed, "fecha"),
      Variants(processed, "hora"),
      HasLogging(code),
      LogsUpdateExpression(code))
  }

  predicate Fires(r: Rule, f: Facts)
  {
    match r
    case DateNotUpdated => !f.dateUpdated
    case TimeNotUpdated => !f.timeUpdated
    case SingleDateVariant => |f.dateVariants| < 2
    case SingleTimeVariant => |f.timeVariants| < 2
    case NoLogging => !f.hasLogging
    case UpdateNotLogged => !f.logsUpdate
  }

  /** Every rule, in the order `analyze_lambda_code` runs the checks. */
  const AllRules: seq<Rule> := [DateNotUpdated, TimeNotUpdated, SingleDateVariant, SingleTimeVariant, NoLogging, UpdateNotLogged]

  /** The rules of `rs` that fire, in the order of `rs`: the checks run one
      after the other and each appends its finding when it fails. */
  function FiredFrom(rs: seq<Rule>, f: Facts): (fired: seq<Rule>)
    requires forall i, j :: 0 <= i < j < |rs| ==> Rank(rs[i]) < Rank(rs[j])
    ensures forall r :: r in fired <==> r in rs && Fires(r, f)
    ensures forall i, j :: 0 <= i < j < |fired| ==> Rank(fired[i]) < Rank(fired[j])
  {
    if rs == [] then []
    else
      var rest := FiredFrom(rs[1..], f);
      assert forall j :: 0 <= j < |rest| ==> Rank(rs[0]) < Rank(rest[j]) by {
        forall j | 0 <= j < |rest| ensures Rank(rs[0]) < Rank(rest[j]) {
          assert rest[j] in rs[1..];
        }
      }
      (if Fires(rs[0], f) then [rs[0]] else []) + rest
  }

  function FiredRules(f: Facts): (rs: seq<Rule>)
  {
    FiredFrom(AllRules, f)
  }

  // The texts of the findings, as `analyze_lambda_code` writes them.
  const DateNotUpdatedText := "Campo fechaTurno no encontrado en UpdateExpression"
  const TimeNotUpdatedText := "Campo horaTurno no encontrado en UpdateExpression"
  const SingleDateText := "Solo se procesa una variante de fecha: "
  const SingleTimeText := "Solo se procesa una variante de hora: "
  const NoLoggingText := "No se encontró logging en el código"
  const UpdateNotLoggedText := "No se registra el UpdateExpression antes de ejecutarlo"

  const UpdateLocation := "UpdateExpression construction"
  const BodyLocation := "Request body processing"
  const HandlerLocation := "Handler function"
  const DynamoLocation := "DynamoDB update operation"

  const DateNotUpdatedAdvice := "Verificar que el código incluya fechaTurno en el UpdateExpression cuando se recibe en el body"
  const TimeNotUpdatedAdvice := "Verificar que el código incluya horaTurno en el UpdateExpression cuando se recibe en el body"
  const SingleDateAdvice := "Considerar aceptar ambos formatos: fecha y fechaTurno para compatibilidad"
  const SingleTimeAdvice := "Considerar aceptar ambos formatos: hora y horaTurno para compatibilidad"
  const NoLoggingAdvice := "Agregar logging para facilitar debugging"
  const UpdateNotLoggedAdvice := "Agregar logging del UpdateExpression y expression_values antes de ejecutar update_item"

  function Description(r: Rule, f: Facts): string
  {
    match r
    case DateNotUpdated => DateNotUpdatedText
    case TimeNotUpdated => TimeNotUpdatedText
    case SingleDateVariant => SingleDateText + ListRepr(f.dateVariants)
    case SingleTimeVariant => SingleTimeText + ListRepr(f.timeVariants)
    case NoLogging => NoLoggingText
    case UpdateNotLogged => UpdateNotLoggedText
  }

  function Location(r: Rule): string
  {
    match r
    case DateNotUpdated => UpdateLocation
    case TimeNotUpdated => UpdateLocation
    case SingleDateVariant => BodyLocation
    case SingleTimeVariant => BodyLocation
    case NoLogging => HandlerLocation
    case UpdateNotLogged => DynamoLocation
  }

  function Recommendation(r: Rule): string
  {
    match r
    case DateNotUpdated => DateNotUpdatedAdvice
    case TimeNotUpdated => TimeNotUpdatedAdvice
    case SingleDateVariant => SingleDateAdvice
    case SingleTimeVariant => SingleTimeAdvice
    case NoLogging => NoLoggingAdvice
    case UpdateNotLogged => UpdateNotLoggedAdvice
  }

  /** The finding a rule appends; only the variant warnings depend on the
      data, through the list they print. */
  function FindingFor(r: Rule, f: Facts): Finding
  {
    Finding(SeverityOf(r), Code, Description(r, f), Location(r), Recommendation(r))
  }

  /** Different rules append different findings. */
  lemma FindingForInjective(r1: Rule, r2: Rule, f: Facts)
    requires FindingFor(r1, f) == FindingFor(r2, f)
    ensures r1 == r2
  {
    if SeverityOf(r1) == Critical {
      CriticalRecommendationsDiffer();
    } else if SeverityOf(r1) == Warning {
      WarningRecommendationsDiffer();
    }
  }

  lemma CriticalRecommendationsDiffer()
    ensures Recommendation(DateNotUpdated) != Recommendation(TimeNotUpdated)
  {
    assert |DateNotUpdatedAdvice| == 93 && |TimeNotUpdatedAdvice| == 92;
  }

  lemma WarningRecommendationsDiffer()
    ensures Recommendation(SingleDateVariant) != Recommendation(SingleTimeVariant)
    ensures Recommendation(SingleDateVariant) != Recommendation(NoLogging)
    ensures Recommendation(SingleTimeVariant) != Recommendation(NoLogging)
  {
    assert |SingleDateAdvice| == 73 && |SingleTimeAdvice| == 71 && |NoLoggingAdvice| == 40;
  }

  function FindingsOf(rules: seq<Rule>, f: Facts): (fs: seq<Finding>)
    ensures |fs| == |rules|
  {
    if rules == [] then [] else [FindingFor(rules[0], f)] + FindingsOf(rules[1..], f)
  }

  /** How many of `rules` have severity `sev`. */
  function CountRules(rules: seq<Rule>, sev: Severity): nat
  {
    if rules == [] then 0
    else (if SeverityOf(rules[0]) == sev then 1 else 0) + CountRules(rules[1..], sev)
  }

  function CountSeverity(fs: seq<Finding>, sev: Severity): (n: nat)
    ensures n <= |fs|
  {
    if fs == [] then 0
    else (if fs[0].severity == sev then 1 else 0) + CountSeverity(fs[1..], sev)
  }

  const FoundPrefix := "Se encontraron "
  const NothingFound := "No se encontraron problemas críticos"

  /** The summary line, from the critical and warning counts. */
  function Summary(critical: nat, warning: nat): string
  {
    if critical > 0 then
      FoundPrefix + NatToString(critical) + " problemas críticos y " + NatToString(warning) + " advertencias"
    else if warning > 0 then
      FoundPrefix + NatToString(warning) + " advertencias"
    else
      NothingFound
  }

  /** `analyze_lambda_code` once both field lists are extracted. */
  function Report(name: string, code: string, processed: seq<string>, update: seq<string>): DiagnosticReport
  {
    var facts := FactsOf(code, processed, update);
    var rules := FiredRules(facts);
    var findings := FindingsOf(rules, facts);
    var critical := CountSeverity(findings, Critical);
    var warning := CountSeverity(findings, Warning);
    DiagnosticReport(name, findings, Summary(critical, warning), critical > 0, false)
  }

  /** The handler's extracted lists are duplicate-free and hold exactly the
      processed and update field sets. */
  ghost predicate Extracted(code: string, processed: seq<string>, update: seq<string>)
  {
    NoDuplicates(processed) && AsSet(processed) == ProcessedFieldSet(code)
    && NoDuplicates(update) && AsSet(update) == UpdateFieldSet(code)
  }

  /** When each rule's check fails, stated on the field sets and the code. */
  ghost predicate Triggers(r: Rule, code: string)
  {
    match r
    case DateNotUpdated => Mentioning(UpdateFieldSet(code), "fecha") == {}
    case TimeNotUpdated => Mentioning(UpdateFieldSet(code), "hora") == {}
    case SingleDateVariant => |Mentioning(ProcessedFieldSet(code), "fecha")| < 2
    case SingleTimeVariant => |Mentioning(ProcessedFieldSet(code), "hora")| < 2
    case NoLogging => !HasLogging(code)
    case UpdateNotLogged => !LogsUpdateExpression(code)
  }

  /** Each check fails exactly when its condition on the field sets holds:
      the date and time criticals when no update field mentions `fecha`
      (resp. `hora`), the variant warnings when fewer than two distinct
      processed fields do. */
  lemma FiresIffTriggers(code: string, processed: seq<string>, update: seq<string>, r: Rule)
    requires Extracted(code, processed, update)
    ensures Fires(r, FactsOf(code, processed, update)) <==> Triggers(r, code)
  {
    VariantsOfSet(update, "fecha");
    VariantsOfSet(update, "hora");
    VariantsOfSet(processed, "fecha");
    VariantsOfSet(processed, "hora");
  }

  lemma {:induction false} InFindingsOf(rules: seq<Rule>, f: Facts, r: Rule)
    ensures FindingFor(r, f) in FindingsOf(rules, f) <==> r in rules
  {
    if rules != [] {
      InFindingsOf(rules[1..], f, r);
      if FindingFor(r, f) == FindingFor(rules[0], f) {
        FindingForInjective(r, rules[0], f);
      }
    }
  }

  lemma {:induction false} CountFindingsOf(rules: seq<Rule>, f: Facts, sev: Severity)
    ensures CountSeverity(FindingsOf(rules, f), sev) == CountRules(rules, sev)
  {
    if rules != [] {
      CountFindingsOf(rules[1..], f, sev);
    }
  }

  /** The report holds a rule's finding exactly when that rule's condition
      holds on the handler. */
  lemma ReportRuleIff(name: string, code: string, processed: seq<string>, update: seq<string>, r: Rule)
    requires Extracted(code, processed, update)
    ensures FindingFor(r, FactsOf(code, processed, update)) in Report(name, code, processed, update).findings
      <==> Triggers(r, code)
  {
    var facts := FactsOf(code, processed, update);
    InFindingsOf(FiredRules(facts), facts, r);
    FiresIffTriggers(code, processed, update, r);
  }

  lemma {:induction false} OrderedFindingsOf(rules: seq<Rule>, f: Facts, i: nat, j: nat, r1: Rule, r2: Rule)
    requires forall a, b :: 0 <= a < b < |rules| ==> Rank(rules[a]) < Rank(rules[b])
    requires i < j < |rules|
    requires FindingsOf(rules, f)[i] == FindingFor(r1, f) && FindingsOf(rules, f)[j] == FindingFor(r2, f)
    ensures Rank(r1) < Rank(r2)
  {
    if i > 0 {
      OrderedFindingsOf(rules[1..], f, i - 1, j - 1, r1, r2);
    } else {
      FindingForInjective(r1, rules[0], f);
      FindingsOfAt(rules[1..], f, j - 1);
      FindingForInjective(r2, rules[j], f);
    }
  }

  lemma {:induction false} FindingsOfAt(rules: seq<Rule>, f: Facts, k: nat)
    requires k < |rules|
    ensures FindingsOf(rules, f)[k] == FindingFor(rules[k], f)
  {
    if k > 0 {
      FindingsOfAt(rules[1..], f, k - 1);
    }
  }

  /** Shape of every report: at most six findings, all about code, in the
      order of the checks; a code change is required exactly when a
      critical finding is present, and a configuration change never. */
  lemma ReportShape(name: string, code: string, processed: seq<string>, update: seq<string>)
    ensures var rep := Report(name, code, processed, update);
      rep.lambdaName == name
      && |rep.findings| <= 6
      && (forall x :: x in rep.findings ==> x.category == Code)
      && (rep.requiresCodeChange <==> exists x :: x in rep.findings && x.severity == Critical)
      && !rep.requiresConfigChange
    ensures var facts := FactsOf(code, processed, update);
      var rep := Report(name, code, processed, update);
      forall i, j, r1, r2 :: 0 <= i < j < |rep.findings|
        && rep.findings[i] == FindingFor(r1, facts) && rep.findings[j] == FindingFor(r2, facts)
        ==> Rank(r1) < Rank(r2)
  {
    var facts := FactsOf(code, processed, update);
    var fs := FindingsOf(FiredRules(facts), facts);
    FindingsShape(facts);
    CountPositive(fs, Critical);
  }

  /** The findings for a set of facts: at most six, all about code, in the
      order of the checks. */
  lemma FindingsShape(facts: Facts)
    ensures var fs := FindingsOf(FiredRules(facts), facts);
      |fs| <= 6
      && (forall x :: x in fs ==> x.category == Code)
      && (forall i, j, r1, r2 ::
            0 <= i < j < |fs| && fs[i] == FindingFor(r1, facts) && fs[j] == FindingFor(r2, facts)
            ==> Rank(r1) < Rank(r2))
  {
    var rules := FiredRules(facts);
    var fs := FindingsOf(rules, facts);
    assert |rules| <= 6 by { RulesBound(rules); }
    forall x | x in fs ensures x.category == Code {
      var k :| 0 <= k < |fs| && fs[k] == x;
      FindingsOfAt(rules, facts, k);
    }
    forall i, j, r1, r2 | 0 <= i < j < |fs|
        && fs[i] == FindingFor(r1, facts) && fs[j] == FindingFor(r2, facts)
      ensures Rank(r1) < Rank(r2)
    {
      OrderedFindingsOf(rules, facts, i, j, r1, r2);
    }
  }

  lemma CountPositive(fs: seq<Finding>, sev: Severity)
    ensures CountSeverity(fs, sev) > 0 <==> exists x :: x in fs && x.severity == sev
  {
    if fs != [] {
      CountPositive(fs[1..], sev);
      if exists x :: x in fs && x.severity == sev {
        var x :| x in fs && x.severity == sev;
        if x != fs[0] { assert x in fs[1..]; }
      }
    }
  }

  /** A list of distinct rules has at most six elements. */
  lemma RulesBound(rules: seq<Rule>)
    requires forall a, b :: 0 <= a < b < |rules| ==> Rank(rules[a]) < Rank(rules[b])
    ensures |rules| <= 6
  {
    if |rules| > 6 {
      RanksGrow(rules, 6);
    }
  }

  lemma {:induction false} RanksGrow(rules: seq<Rule>, k: nat)
    requires forall a, b :: 0 <= a < b < |rules| ==> Rank(rules[a]) < Rank(rules[b])
    requires k < |rules|
    ensures Rank(rules[k]) >= k
  {
    if k > 0 {
      RanksGrow(rules, k - 1);
    }
  }

  /** How many rules of `rs` fire with severity `sev`. */
  function CountFired(rs: seq<Rule>, f: Facts, sev: Severity): nat
  {
    if rs == [] then 0
    else (if Fires(rs[0], f) && SeverityOf(rs[0]) == sev then 1 else 0) + CountFired(rs[1..], f, sev)
  }

  lemma {:induction false} CountFiredFrom(rs: seq<Rule>, f: Facts, sev: Severity)
    requires forall i, j :: 0 <= i < j < |rs| ==> Rank(rs[i]) < Rank(rs[j])
    ensures CountRules(FiredFrom(rs, f), sev) == CountFired(rs, f, sev)
  {
    if rs != [] {
      CountFiredFrom(rs[1..], f, sev);
      var rest := FiredFrom(rs[1..], f);
      if Fires(rs[0], f) {
        assert FiredFrom(rs, f) == [rs[0]] + rest;
        assert ([rs[0]] + rest)[1..] == rest;
      } else {
        assert FiredFrom(rs, f) == rest;
      }
    }
  }

  /** Two of the checks are critical and three are warnings. */
  lemma CountAllRules(f: Facts, sev: Severity)
    ensures CountFired(AllRules, f, sev)
      == (if Fires(DateNotUpdated, f) && sev == Critical then 1 else 0)
         + (if Fires(TimeNotUpdated, f) && sev == Critical then 1 else 0)
         + (if Fires(SingleDateVariant, f) && sev == Warning then 1 else 0)
         + (if Fires(SingleTimeVariant, f) && sev == Warning then 1 else 0)
         + (if Fires(NoLogging, f) && sev == Warning then 1 else 0)
         + (if Fires(UpdateNotLogged, f) && sev == Info then 1 else 0)
  {
    var rs := AllRules;
    var r1 := [TimeNotUpdated, SingleDateVariant, SingleTimeVariant, NoLogging, UpdateNotLogged];
    var r2 := [SingleDateVariant, SingleTimeVariant, NoLogging, UpdateNotLogged];
    var r3 := [SingleTimeVariant, NoLogging, UpdateNotLogged];
    var r4 := [NoLogging, UpdateNotLogged];
    var r5 := [UpdateNotLogged];
    assert rs[1..] == r1 && r1[1..] == r2 && r2[1..] == r3 && r3[1..] == r4 && r4[1..] == r5 && r5[1..] == [];
    assert CountFired(r5, f, sev) == (if Fires(UpdateNotLogged, f) && sev == Info then 1 else 0) + CountFired([], f, sev);
    assert CountFired(r4, f, sev) == (if Fires(NoLogging, f) && sev == Warning then 1 else 0) + CountFired(r5, f, sev);
    assert CountFired(r3, f, sev) == (if Fires(SingleTimeVariant, f) && sev == Warning then 1 else 0) + CountFired(r4, f, sev);
    assert CountFired(r2, f, sev) == (if Fires(SingleDateVariant, f) && sev == Warning then 1 else 0) + CountFired(r3, f, sev);
    assert CountFired(r1, f, sev) == (if Fires(TimeNotUpdated, f) && sev == Critical then 1 else 0) + CountFired(r2, f, sev);
  }

  /** The severity counts of a report, in terms of the checks that fail. */
  lemma ReportCountsFired(name: string, code: string, processed: seq<string>, update: seq<string>, sev: Severity)
    ensures var facts := FactsOf(code, processed, update);
      CountSeverity(Report(name, code, processed, update).findings, sev) == CountFired(AllRules, facts, sev)
  {
    var facts := FactsOf(code, processed, update);
    CountFindingsOf(FiredRules(facts), facts, sev);
    CountFiredFrom(AllRules, facts, sev);
  }

  /** The counts behind the summary: one critical per missing date/time
      update field, one warning per failed variant or logging check; the
      summary reports no problems exactly when both counts are zero, and a
      code change is required exactly when a critical check failed. */
  lemma ReportCounts(name: string, code: string, processed: seq<string>, update: seq<string>)
    requires Extracted(code, processed, update)
    ensures var rep := Report(name, code, processed, update);
      CountSeverity(rep.findings, Critical)
        == (if Triggers(DateNotUpdated, code) then 1 else 0) + (if Triggers(TimeNotUpdated, code) then 1 else 0)
    ensures var rep := Report(name, code, processed, update);
      CountSeverity(rep.findings, Warning)
        == (if Triggers(SingleDateVariant, code) then 1 else 0) + (if Triggers(SingleTimeVariant, code) then 1 else 0)
           + (if Triggers(NoLogging, code) then 1 else 0)
    ensures var rep := Report(name, code, processed, update);
      rep.requiresCodeChange <==> Triggers(DateNotUpdated, code) || Triggers(TimeNotUpdated, code)
    ensures var rep := Report(name, code, processed, update);
      (rep.summary == NothingFound)
        <==> !Triggers(DateNotUpdated, code) && !Triggers(TimeNotUpdated, code)
             && !Triggers(SingleDateVariant, code) && !Triggers(SingleTimeVariant, code) && !Triggers(NoLogging, code)
  {
    var facts := FactsOf(code, processed, update);
    var rep := Report(name, code, processed, update);
    ReportCountsFired(name, code, processed, update, Critical);
    ReportCountsFired(name, code, processed, update, Warning);
    CountAllRules(facts, Critical);
    CountAllRules(facts, Warning);
    forall r ensures Fires(r, facts) <==> Triggers(r, code) {
      FiresIffTriggers(code, processed, update, r);
    }
    SummaryReportsNothing(CountSeverity(rep.findings, Critical), CountSeverity(rep.findings, Warning));
  }

  /** The summary is the no-problem line exactly when both counts are zero. */
  lemma SummaryReportsNothing(critical: nat, warning: nat)
    ensures Summary(critical, warning) == NothingFound <==> critical == 0 && warning == 0
  {
    var rest := Summary(critical, warning)[|FoundPrefix|..];
    if critical > 0 || warning > 0 {
      assert Summary(critical, warning) == FoundPrefix + rest;
      assert Summary(critical, warning)[0] == 'S' != NothingFound[0];
    }
  }

  /** `analyze_lambda_code`: extract both field lists, then apply the six
      checks and summarise. */
  method AnalyzeLambdaCode(name: string, code: string)
    returns (report: DiagnosticReport, ghost processed: seq<string>, ghost update: seq<string>)
    ensures Extracted(code, processed, update)
    ensures report == Report(name, code, processed, update)
    ensures forall r :: FindingFor(r, FactsOf(code, processed, update)) in report.findings <==> Triggers(r, code)
    ensures report.requiresCodeChange <==> Triggers(DateNotUpdated, code) || Triggers(TimeNotUpdated, code)
    ensures !report.requiresConfigChange && |report.findings| <= 6
  {
    var p := ExtractProcessedFields(code);
    var u := ExtractUpdateExpressionFields(code);
    processed, update := p, u;
    report := Report(name, code, p, u);
    forall r ensures FindingFor(r, FactsOf(code, processed, update)) in report.findings <==> Triggers(r, code) {
      ReportRuleIff(name, code, processed, update, r);
    }
    ReportCounts(name, code, processed, update);
    ReportShape(name, code, processed, update);
  }

  // ---------------------------------------------------------------------
  // Comparing two handlers

  datatype FieldComparison = FieldComparison(
    modifyProcessesFecha: seq<string>,
    createProcessesFecha: seq<string>,
    modifyProcessesHora: seq<string>,
    createProcessesHora: seq<string>,
    modifyUpdateFields: seq<string>,
    fechaHandlingDiffers: bool,
    horaHandlingDiffers: bool,
    recommendations: seq<string>)

  const DateHandlingAdvice := "Las lambdas manejan campos de fecha de manera diferente. Considerar estandarizar para aceptar ambos formatos."
  const TimeHandlingAdvice := "Las lambdas manejan campos de hora de manera diferente. Considerar estandarizar para aceptar ambos formatos."

  /** `compare_field_handling` once the three field lists are extracted. */
  function Comparison(modifyFields: seq<string>, createFields: seq<string>, modifyUpdate: seq<string>): FieldComparison
  {
    var mf := Variants(modifyFields, "fecha");
    var cf := Variants(createFields, "fecha");
    var mh := Variants(modifyFields, "hora");
    var ch := Variants(createFields, "hora");
    var fechaDiffers := AsSet(mf) != AsSet(cf);
    var horaDiffers := AsSet(mh) != AsSet(ch);
    FieldComparison(mf, cf, mh, ch, modifyUpdate, fechaDiffers, horaDiffers,
      (if fechaDiffers then [DateHandlingAdvice] else []) + (if horaDiffers then [TimeHandlingAdvice] else []))
  }

  /** The date (time) flag is set exactly when the two handlers' sets of
      date (time) field names differ. */
  lemma ComparisonFlags(modifyCode: string, createCode: string, mf: seq<string>, cf: seq<string>, mu: seq<string>)
    requires AsSet(mf) == ProcessedFieldSet(modifyCode) && AsSet(cf) == ProcessedFieldSet(createCode)
    ensures var c := Comparison(mf, cf, mu);
      (c.fechaHandlingDiffers)
        <==> Mentioning(ProcessedFieldSet(modifyCode), "fecha") != Mentioning(ProcessedFieldSet(createCode), "fecha")
    ensures var c := Comparison(mf, cf, mu);
      (c.horaHandlingDiffers)
        <==> Mentioning(ProcessedFieldSet(modifyCode), "hora") != Mentioning(ProcessedFieldSet(createCode), "hora")
  {
    VariantsAsSet(mf, "fecha");
    VariantsAsSet(cf, "fecha");
    VariantsAsSet(mf, "hora");
    VariantsAsSet(cf, "hora");
  }

  /** One recommendation per raised flag, the date one first. */
  lemma ComparisonAdvice(mf: seq<string>, cf: seq<string>, mu: seq<string>)
    ensures var c := Comparison(mf, cf, mu);
      |c.recommendations| == (if c.fechaHandlingDiffers then 1 else 0) + (if c.horaHandlingDiffers then 1 else 0)
      && (DateHandlingAdvice in c.recommendations <==> c.fechaHandlingDiffers)
      && (TimeHandlingAdvice in c.recommendations <==> c.horaHandlingDiffers)
  {
    assert |DateHandlingAdvice| == 109 && |TimeHandlingAdvice| == 108;
  }

  /** `compare_field_handling`: extract the fields of both handlers and
      compare their date and time names. */
  method CompareFieldHandling(modifyCode: string, createCode: string)
    returns (c: FieldComparison, ghost modifyFields: seq<string>, ghost createFields: seq<string>)
    ensures NoDuplicates(modifyFields) && AsSet(modifyFields) == ProcessedFieldSet(modifyCode)
    ensures NoDuplicates(createFields) && AsSet(createFields) == ProcessedFieldSet(createCode)
    ensures AsSet(c.modifyUpdateFields) == UpdateFieldSet(modifyCode) && NoDuplicates(c.modifyUpdateFields)
    ensures c == Comparison(modifyFields, createFields, c.modifyUpdateFields)
    ensures c.fechaHandlingDiffers
      <==> Mentioning(ProcessedFieldSet(modifyCode), "fecha") != Mentioning(ProcessedFieldSet(createCode), "fecha")
    ensures c.horaHandlingDiffers
      <==> Mentioning(ProcessedFieldSet(modifyCode), "hora") != Mentioning(ProcessedFieldSet(createCode), "hora")
    ensures |c.recommendations| == (if c.fechaHandlingDiffers then 1 else 0) + (if c.horaHandlingDiffers then 1 else 0)
  {
    var mf := ExtractProcessedFields(modifyCode);
    var cf := ExtractProcessedFields(createCode);
    var mu := ExtractUpdateExpressionFields(modifyCode);
    modifyFields, createFields := mf, cf;
    c := Comparison(mf, cf, mu);
    ComparisonFlags(modifyCode, createCode, mf, cf, mu);
    ComparisonAdvice(mf, cf, mu);
  }
}
