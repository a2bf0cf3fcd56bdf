/** `analyze_prompt_date_handling` of `full_system_diagnosis.py`: five checks
    on the text of the agent's prompt, each failed check adding an issue
    and a recommendation (the date-example check adds only a
    recommendation).

    The prompt file is a parameter: `None` when it does not exist. */
module PromptAnalysis {
  import opened Common
  import opened Text

  /** The checks, in the order the source applies them. */
  datatype Check = Section | IsoFormat | Format24h | ExactDates | DateExamples

  datatype PromptReport =
    | NotFound(error: string)
    | Found(
        hasDateHandlingSection: bool,
        mentionsIsoFormat: bool,
        mentions24hFormat: bool,
        mentionsExactDates: bool,
        hasDateExamples: bool,
        issues: seq<string>,
        recommendations: seq<string>)

  const NotFoundText := "Archivo no encontrado: "

  const SectionIssue := "No se encontró sección" + " específica para manejo de fechas"
  const IsoIssue := "No menciona formato ISO" + " para fechas (YYYY-MM-DD)"
  const Format24hIssue := "No menciona formato 24" + " horas para tiempo (HH:MM)"
  const ExactDatesIssue := "No instruye calcular" + " fechas exactas (evitar \"próximo miércoles\")"

  const SectionAdvice := "Agregar sección" + " <date_and_time_handling> con instrucciones específicas"
  const IsoAdvice := "Especificar que las fechas" + " deben estar en formato ISO: YYYY-MM-DD"
  const Format24hAdvice := "Especificar que las horas" + " deben estar en formato 24h: HH:MM"
  const ExactDatesAdvice := "Agregar instrucción:" + " ALWAYS calculate exact dates - NEVER use relative terms"
  const DateExamplesAdvice := "Agregar ejemplos" + " de fechas en formato correcto (2026-02-05)"

  /** `\d{4}-\d{2}-\d{2}` matches at `i`. */
  predicate DateAt(s: string, i: nat)
  {
    i + 10 <= |s|
    && IsDigit(s[i]) && IsDigit(s[i + 1]) && IsDigit(s[i + 2]) && IsDigit(s[i + 3])
    && s[i + 4] == '-' && IsDigit(s[i + 5]) && IsDigit(s[i + 6])
    && s[i + 7] == '-' && IsDigit(s[i + 8]) && IsDigit(s[i + 9])
  }

  /** `re.search(r'\d{4}-\d{2}-\d{2}', content)` finds a match. */
  predicate HasDateExample(content: string)
  {
    exists i :: 0 <= i < |content| && DateAt(content, i)
  }

  /** Whether the prompt passes a check: the section and exact-date checks
      look at the lower-cased text, the format checks at the text as it is. */
  predicate Passes(c: Check, content: string)
  {
    match c
    case Section => ContainsCI(content, "date_and_time_handling") || ContainsCI(content, "date handling")
    case IsoFormat => Contains(content, "YYYY-MM-DD") || Contains(content, "ISO")
    case Format24h => Contains(content, "HH:MM") || Contains(content, "24-hour") || Contains(content, "24 hour")
    case ExactDates => ContainsCI(content, "exact date") || ContainsCI(content, "calculate")
    case DateExamples => HasDateExample(content)
  }

  /** The checks that report an issue when they fail. */
  const IssueChecks := [Section, IsoFormat, Format24h, ExactDates]

  /** Every check, each recommending something when it fails. */
  const AllChecks := IssueChecks + [DateExamples]

  function IssueText(c: Check): string
  {
    match c
    case Section => SectionIssue
    case IsoFormat => IsoIssue
    case Format24h => Format24hIssue
    case ExactDates => ExactDatesIssue
    case DateExamples => ""
  }

  function AdviceText(c: Check): string
  {
    match c
    case Section => SectionAdvice
    case IsoFormat => IsoAdvice
    case Format24h => Format24hAdvice
    case ExactDates => ExactDatesAdvice
    case DateExamples => DateExamplesAdvice
  }

  /** The checks of `checks` that `content` fails, in order. */
  function Failing(content: string, checks: seq<Check>): (r: seq<Check>)
    ensures |r| <= |checks|
  {
    if checks == [] then []
    else
      var last := checks[|checks| - 1];
      Failing(content, checks[..|checks| - 1]) + (if Passes(last, content) then [] else [last])
  }

  function Texts(cs: seq<Check>, text: Check -> string): (r: seq<string>)
    ensures |r| == |cs|
  {
    seq(|cs|, i requires 0 <= i < |cs| => text(cs[i]))
  }

  lemma TextsAppend(a: seq<Check>, b: seq<Check>, text: Check -> string)
    ensures Texts(a + b, text) == Texts(a, text) + Texts(b, text)
  {
    var l, r := Texts(a + b, text), Texts(a, text) + Texts(b, text);
    assert |l| == |r|;
    forall i | 0 <= i < |l|
      ensures l[i] == r[i]
    {
      if i < |a| {
        assert (a + b)[i] == a[i];
      } else {
        assert (a + b)[i] == b[i - |a|];
      }
    }
  }

  /** One more check: its note, if it fails, goes at the end. */
  lemma FailingSnoc(content: string, checks: seq<Check>, c: Check, text: Check -> string)
    ensures Texts(Failing(content, checks + [c]), text)
      == Texts(Failing(content, checks), text) + (if Passes(c, content) then [] else [text(c)])
  {
    var all := checks + [c];
    assert all[..|checks|] == checks && all[|all| - 1] == c;
    var tail := if Passes(c, content) then [] else [c];
    assert Failing(content, all) == Failing(content, checks) + tail;
    TextsAppend(Failing(content, checks), tail, text);
  }

  /** The issues reported for `content`. */
  function IssuesOf(content: string): seq<string>
  {
    Texts(Failing(content, IssueChecks), IssueText)
  }

  /** The recommendations made for `content`. */
  function AdviceOf(content: string): seq<string>
  {
    Texts(Failing(content, AllChecks), AdviceText)
  }

  /** The notes so far are those of the failed checks among `done`. */
  ghost predicate NotesOf(content: string, done: seq<Check>, issues: seq<string>, recs: seq<string>)
  {
    issues == Texts(Failing(content, done), IssueText)
    && recs == Texts(Failing(content, done), AdviceText)
  }

  /** One of the four checks that report an issue: nothing to note when the
      prompt passes it, otherwise its issue and its recommendation appended. */
  method ApplyCheck(content: string, ghost done: seq<Check>, c: Check, passed: bool, issues: seq<string>, recs: seq<string>)
    returns (issues': seq<string>, recs': seq<string>)
    requires passed == Passes(c, content)
    requires NotesOf(content, done, issues, recs)
    ensures NotesOf(content, done + [c], issues', recs')
  {
    FailingSnoc(content, done, c, IssueText);
    FailingSnoc(content, done, c, AdviceText);
    if passed {
      issues', recs' := issues, recs;
    } else {
      issues', recs' := issues + [IssueText(c)], recs + [AdviceText(c)];
    }
  }

  /** The date-example check: nothing to note when the prompt has an
      example, otherwise only its recommendation appended. */
  method ApplyExampleCheck(content: string, ghost done: seq<Check>, examples: bool, recs: seq<string>)
    returns (recs': seq<string>)
    requires examples == Passes(DateExamples, content)
    requires recs == Texts(Failing(content, done), AdviceText)
    ensures recs' == Texts(Failing(content, done + [DateExamples]), AdviceText)
  {
    FailingSnoc(content, done, DateExamples, AdviceText);
    recs' := recs;
    if !examples {
      recs' := recs' + [DateExamplesAdvice];
    }
  }

  /** `analyze_prompt_date_handling`, flag by flag and note by note as the
      source sets them. */
  method AnalyzePromptDateHandling(prompt: Option<string>, promptPath: string) returns (r: PromptReport)
    ensures prompt.None? ==> r == NotFound(NotFoundText + promptPath)
    ensures prompt.Some? ==> var content := prompt.value;
      r.Found?
      && r.hasDateHandlingSection == Passes(Section, content)
      && r.mentionsIsoFormat == Passes(IsoFormat, content)
      && r.mentions24hFormat == Passes(Format24h, content)
      && r.mentionsExactDates == Passes(ExactDates, content)
      && r.hasDateExamples == Passes(DateExamples, content)
      && r.issues == IssuesOf(content)
      && r.recommendations == AdviceOf(content)
  {
    if prompt.None? {
      return NotFound(NotFoundText + promptPath);
    }
    var content := prompt.value;
    var issues: seq<string> := [];
    var recs: seq<string> := [];
    ghost var done: seq<Check> := [];
    assert Failing(content, done) == [];

    var section := Passes(Section, content);
    issues, recs := ApplyCheck(content, done, Section, section, issues, recs);
    done := done + [Section];

    var iso := Passes(IsoFormat, content);
    issues, recs := ApplyCheck(content, done, IsoFormat, iso, issues, recs);
    done := done + [IsoFormat];

    var format24h := Passes(Format24h, content);
    issues, recs := ApplyCheck(content, done, Format24h, format24h, issues, recs);
    done := done + [Format24h];

    var exact := Passes(ExactDates, content);
    issues, recs := ApplyCheck(content, done, ExactDates, exact, issues, recs);
    done := done + [ExactDates];
    assert done == IssueChecks;

    var examples := HasDateExample(content);
    recs := ApplyExampleCheck(content, done, examples, recs);
    done := done + [DateExamples];
    assert done == AllChecks;
    r := Found(section, iso, format24h, exact, examples, issues, recs);
  }

  /** A check is among the failing ones exactly when it is checked and the
      prompt fails it. */
  lemma {:induction false} InFailing(content: string, checks: seq<Check>, c: Check)
    ensures c in Failing(content, checks) <==> c in checks && !Passes(c, content)
    decreases |checks|
  {
    if checks != [] {
      var init := checks[..|checks| - 1];
      InFailing(content, init, c);
      assert checks == init + [checks[|checks| - 1]];
    }
  }

  lemma InTexts(cs: seq<Check>, text: Check -> string, c: Check)
    requires c in cs
    ensures text(c) in Texts(cs, text)
  {
    var i :| 0 <= i < |cs| && cs[i] == c;
    assert Texts(cs, text)[i] == text(c);
  }

  /** The texts of the checks, told apart by one character each. */
  lemma TextsDistinct(c: Check, d: Check)
    requires c != d
    ensures c in IssueChecks && d in IssueChecks ==> IssueText(c) != IssueText(d)
    ensures AdviceText(c) != AdviceText(d)
  {
    if c in IssueChecks && d in IssueChecks {
      IssueTextsDistinct(c, d);
    }
    AdviceTextsDistinct(c, d);
  }

  lemma IssueTextsDistinct(c: Check, d: Check)
    requires c != d && c in IssueChecks && d in IssueChecks
    ensures IssueText(c) != IssueText(d)
  {
    assert SectionIssue[3] == 's' && IsoIssue[3] == 'm' && Format24hIssue[3] == 'm' && ExactDatesIssue[3] == 'i';
    assert IsoIssue[20] == 'I' && Format24hIssue[20] == '2';
    var k := if {c, d} == {IsoFormat, Format24h} then 20 else 3;
    Differ(IssueText(c), IssueText(d), k);
  }

  lemma AdviceTextsDistinct(c: Check, d: Check)
    requires c != d
    ensures AdviceText(c) != AdviceText(d)
  {
    assert SectionAdvice[0] == 'A' && ExactDatesAdvice[0] == 'A' && DateExamplesAdvice[0] == 'A';
    assert IsoAdvice[0] == 'E' && Format24hAdvice[0] == 'E';
    assert SectionAdvice[8] == 's' && ExactDatesAdvice[8] == 'i' && DateExamplesAdvice[8] == 'e';
    assert IsoAdvice[20] == 'f' && Format24hAdvice[20] == 'h';
    var k := if AdviceText(c)[0] != AdviceText(d)[0] then 0
      else if {c, d} == {IsoFormat, Format24h} then 20 else 8;
    Differ(AdviceText(c), AdviceText(d), k);
  }

  /** Text `t` is among those of `cs` exactly when some check of `cs` has
      it. */
  lemma TextsMembers(cs: seq<Check>, text: Check -> string, c: Check)
    requires forall d :: d in cs && d != c ==> text(d) != text(c)
    ensures text(c) in Texts(cs, text) <==> c in cs
  {
    if c in cs {
      InTexts(cs, text, c);
    }
    if text(c) in Texts(cs, text) {
      var i :| 0 <= i < |cs| && Texts(cs, text)[i] == text(c);
      assert cs[i] in cs;
    }
  }

  /** Each of the four issues is reported exactly when its check fails. */
  lemma IssueIff(content: string, c: Check)
    requires c in IssueChecks
    ensures IssueText(c) in IssuesOf(content) <==> !Passes(c, content)
  {
    var failing := Failing(content, IssueChecks);
    forall d | d in failing && d != c
      ensures IssueText(d) != IssueText(c)
    {
      InFailing(content, IssueChecks, d);
      TextsDistinct(d, c);
    }
    TextsMembers(failing, IssueText, c);
    InFailing(content, IssueChecks, c);
  }

  /** Each of the five recommendations is made exactly when its check
      fails. */
  lemma AdviceIff(content: string, c: Check)
    ensures AdviceText(c) in AdviceOf(content) <==> !Passes(c, content)
  {
    var failing := Failing(content, AllChecks);
    forall d | d in failing && d != c
      ensures AdviceText(d) != AdviceText(c)
    {
      TextsDistinct(d, c);
    }
    TextsMembers(failing, AdviceText, c);
    InFailing(content, AllChecks, c);
    assert c in AllChecks by {
      match c
      case Section => assert AllChecks[0] == c;
      case IsoFormat => assert AllChecks[1] == c;
      case Format24h => assert AllChecks[2] == c;
      case ExactDates => assert AllChecks[3] == c;
      case DateExamples => assert AllChecks[4] == c;
    }
  }

  /** At most four issues; one recommendation per issue, and one more when
      the prompt shows no date example; no issue exactly when the first four
      checks pass. */
  lemma ReportCounts(content: string)
    ensures |IssuesOf(content)| <= 4
    ensures |AdviceOf(content)| == |IssuesOf(content)| + (if Passes(DateExamples, content) then 0 else 1)
    ensures IssuesOf(content) == [] <==> forall c :: c in IssueChecks ==> Passes(c, content)
  {
    var tail := if Passes(DateExamples, content) then [] else [DateExamples];
    assert AllChecks[..4] == IssueChecks && AllChecks[4] == DateExamples;
    assert Failing(content, AllChecks) == Failing(content, IssueChecks) + tail;
    forall c | c in IssueChecks
      ensures c in Failing(content, IssueChecks) <==> !Passes(c, content)
    {
      InFailing(content, IssueChecks, c);
    }
    if IssuesOf(content) != [] {
      var c := Failing(content, IssueChecks)[0];
      InFailing(content, IssueChecks, c);
    }
  }
}
