/** The pure rules of the conversational capture screen: per-action validation
    of a parsed candidate, extraction of a `{...}` candidate from a model reply,
    the review-error rule, and the prompts sent to the model. */
module CaptureRules {
  import opened Wrappers
  import opened Seqs
  import opened Text
  import opened JsonModel
  import opened Types

  /** One validation issue, in the order `validate` pushes them. */
  datatype Issue =
    | BadFormat
    | MissingTopic
    | MissingCoreQuestion
    | NotesNotString
    | MissingObservation
    | MissingAnalysis
    | MissingProblem
    | TooFewReframes
    | BadReframe
  {
    /** The text shown for the issue. */
    function Message(): string {
      match this
      case BadFormat => "데이터 형식이 올바르지 않습니다."
      case MissingTopic => "주제(topic)를 입력하세요."
      case MissingCoreQuestion => "핵심 질문(coreQuestion)을 입력하세요."
      case NotesNotString => "메모(notes)는 문자열이어야 합니다."
      case MissingObservation => "관찰/기록(observation)을 입력하세요."
      case MissingAnalysis => "패턴 분석(analysis)을 입력하세요."
      case MissingProblem => "문제(problem)를 입력하세요."
      case TooFewReframes => "재정의(reframes)는 최소 3개 필요합니다."
      case BadReframe => "reframes 항목은 비어있지 않은 문자열이어야 합니다."
    }

    /** Position in the order in which the checks run. */
    function Rank(): nat {
      match this
      case BadFormat => 0
      case MissingTopic => 1
      case MissingCoreQuestion => 2
      case NotesNotString => 3
      case MissingObservation => 4
      case MissingAnalysis => 5
      case MissingProblem => 6
      case TooFewReframes => 7
      case BadReframe => 8
    }
  }

  /** `!data || typeof data !== 'object'`: only arrays and objects pass. */
  predicate BadShape(data: Json) {
    !Truthy(data) || !TypeofObject(data)
  }

  /** `!data[key] || String(data[key]).trim() === ''`. */
  predicate MissingText(data: Json, key: string) {
    var v := Field(data, key);
    !TruthyRead(v) || Trim(ToJsString(v.value)) == []
  }

  /** `data.notes != null && typeof data.notes !== 'string'`. */
  predicate NotesBad(data: Json) {
    var v := Field(data, "notes");
    v.Some? && !v.value.JNull? && !v.value.JStr?
  }

  /** `Array.isArray(data.reframes) ? data.reframes : []`. */
  function ReframeList(data: Json): (r: seq<Json>)
    ensures Field(data, "reframes").Some? && Field(data, "reframes").value.JArr? ==> r == Field(data, "reframes").value.items
    ensures !(Field(data, "reframes").Some? && Field(data, "reframes").value.JArr?) ==> r == []
  {
    match Field(data, "reframes")
    case Some(JArr(items)) => items
    case _ => []
  }

  /** `typeof x === 'string' && x.trim().length > 0`. */
  predicate GoodReframe(x: Json) {
    x.JStr? && |Trim(x.s)| > 0
  }

  predicate AllGood(list: seq<Json>) {
    forall k :: 0 <= k < |list| ==> GoodReframe(list[k])
  }

  /** The issues a check contributes: `[i]` when it fails, nothing otherwise. */
  function When(failed: bool, i: Issue): seq<Issue> {
    if failed then [i] else []
  }

  /** The issues are listed in check order, each at most once. */
  predicate Ordered(r: seq<Issue>) {
    forall k :: 0 < k < |r| ==> r[k - 1].Rank() < r[k].Rank()
  }

  /** The checks of action 1, given which of them fail. */
  function Checks1(topic: bool, coreQuestion: bool, notes: bool): (r: seq<Issue>)
    ensures forall i :: i in r ==> i == MissingTopic || i == MissingCoreQuestion || i == NotesNotString
    ensures MissingTopic in r <==> topic
    ensures MissingCoreQuestion in r <==> coreQuestion
    ensures NotesNotString in r <==> notes
    ensures Ordered(r) && |r| <= 3
  {
    When(topic, MissingTopic) + When(coreQuestion, MissingCoreQuestion) + When(notes, NotesNotString)
  }

  /** The checks of action 2, given which of them fail. */
  function Checks2(observation: bool, analysis: bool): (r: seq<Issue>)
    ensures forall i :: i in r ==> i == MissingObservation || i == MissingAnalysis
    ensures MissingObservation in r <==> observation
    ensures MissingAnalysis in r <==> analysis
    ensures Ordered(r) && |r| <= 2
  {
    When(observation, MissingObservation) + When(analysis, MissingAnalysis)
  }

  /** The checks of action 3, given which of them fail. */
  function Checks3(problem: bool, tooFew: bool, bad: bool): (r: seq<Issue>)
    ensures forall i :: i in r ==> i == MissingProblem || i == TooFewReframes || i == BadReframe
    ensures MissingProblem in r <==> problem
    ensures TooFewReframes in r <==> tooFew
    ensures BadReframe in r <==> bad
    ensures Ordered(r) && |r| <= 3
  {
    When(problem, MissingProblem) + When(tooFew, TooFewReframes) + When(bad, BadReframe)
  }

  /** Which checks fail on data of the right shape, for every action. */
  datatype Failing = Failing(topic: bool, coreQuestion: bool, notes: bool,
                             observation: bool, analysis: bool,
                             problem: bool, tooFew: bool, badReframe: bool)

  function FailingOf(data: Json): Failing {
    var list := ReframeList(data);
    Failing(MissingText(data, "topic"), MissingText(data, "coreQuestion"), NotesBad(data),
            MissingText(data, "observation"), MissingText(data, "analysis"),
            MissingText(data, "problem"), |list| < 3, !AllGood(list))
  }

  /** The checks of `action`, given which of them fail. */
  function Checks(action: ActionId, f: Failing): (r: seq<Issue>)
    ensures BadFormat !in r
    ensures MissingTopic in r <==> action == Action1 && f.topic
    ensures MissingCoreQuestion in r <==> action == Action1 && f.coreQuestion
    ensures NotesNotString in r <==> action == Action1 && f.notes
    ensures MissingObservation in r <==> action == Action2 && f.observation
    ensures MissingAnalysis in r <==> action == Action2 && f.analysis
    ensures MissingProblem in r <==> action == Action3 && f.problem
    ensures TooFewReframes in r <==> action == Action3 && f.tooFew
    ensures BadReframe in r <==> action == Action3 && f.badReframe
    ensures Ordered(r) && |r| <= 3
  {
    match action
    case Action1 => Checks1(f.topic, f.coreQuestion, f.notes)
    case Action2 => Checks2(f.observation, f.analysis)
    case Action3 => Checks3(f.problem, f.tooFew, f.badReframe)
  }

  /** `validate(action, data)`. */
  function Validate(action: ActionId, data: Json): (r: seq<Issue>)
    ensures BadShape(data) ==> r == [BadFormat]
    ensures BadFormat in r <==> BadShape(data)
    ensures MissingTopic in r <==> action == Action1 && !BadShape(data) && MissingText(data, "topic")
    ensures MissingCoreQuestion in r <==> action == Action1 && !BadShape(data) && MissingText(data, "coreQuestion")
    ensures NotesNotString in r <==> action == Action1 && !BadShape(data) && NotesBad(data)
    ensures MissingObservation in r <==> action == Action2 && !BadShape(data) && MissingText(data, "observation")
    ensures MissingAnalysis in r <==> action == Action2 && !BadShape(data) && MissingText(data, "analysis")
    ensures MissingProblem in r <==> action == Action3 && !BadShape(data) && MissingText(data, "problem")
    ensures TooFewReframes in r <==> action == Action3 && !BadShape(data) && |ReframeList(data)| < 3
    ensures BadReframe in r <==> action == Action3 && !BadShape(data) && !AllGood(ReframeList(data))
    ensures Ordered(r)
    ensures |r| <= 3
  {
    if BadShape(data) then [BadFormat] else Checks(action, FailingOf(data))
  }

  /** A list of issues is determined by which issues it contains, once it is
      in check order; so the membership clauses of `Validate` pin it down. */
  lemma {:induction false} OrderedUnique(a: seq<Issue>, b: seq<Issue>)
    requires Ordered(a) && Ordered(b)
    requires forall i :: i in a <==> i in b
    ensures a == b
    decreases |a|
  {
    FirstIn(a);
    FirstIn(b);
    if a != [] && b != [] {
      OrderedMin(a);
      OrderedMin(b);
      RankInjective(a[0], b[0]);
      forall i ensures i in a[1..] <==> i in b[1..] {
        if i in a[1..] {
          OrderedTailAbove(a, i);
          OrderedSplit(b, i);
        }
        if i in b[1..] {
          OrderedTailAbove(b, i);
          OrderedSplit(a, i);
        }
      }
      OrderedUnique(a[1..], b[1..]);
      assert a == [a[0]] + a[1..] && b == [b[0]] + b[1..];
    }
  }

  lemma FirstIn(a: seq<Issue>)
    ensures a != [] ==> a[0] in a
  {
  }

  lemma RankInjective(x: Issue, y: Issue)
    ensures x.Rank() == y.Rank() ==> x == y
  {
  }

  /** In an ordered list the first issue has the least rank. */
  lemma {:induction false} OrderedMin(a: seq<Issue>)
    requires Ordered(a) && a != []
    ensures forall k :: 0 < k < |a| ==> a[0].Rank() < a[k].Rank()
  {
    forall k | 0 < k < |a| ensures a[0].Rank() < a[k].Rank() {
      OrderedChain(a, k);
    }
  }

  lemma {:induction false} OrderedChain(a: seq<Issue>, k: nat)
    requires Ordered(a) && 0 < k < |a|
    ensures a[0].Rank() < a[k].Rank()
    decreases k
  {
    if k > 1 {
      OrderedChain(a, k - 1);
    }
  }

  lemma OrderedTailAbove(a: seq<Issue>, i: Issue)
    requires Ordered(a) && a != [] && i in a[1..]
    ensures a[0].Rank() < i.Rank()
  {
    OrderedMin(a);
    var k :| 0 <= k < |a[1..]| && a[1..][k] == i;
    assert a[k + 1] == i;
  }

  lemma OrderedSplit(a: seq<Issue>, i: Issue)
    requires a != []
    ensures i in a && i != a[0] ==> i in a[1..]
  {
    if i in a && i != a[0] {
      var k :| 0 <= k < |a| && a[k] == i;
      assert a[1..][k - 1] == i;
    }
  }

  /** `validate` is equal to the list described by its contract: the issues
      whose conditions hold, in check order. */
  lemma ValidateIsDetermined(action: ActionId, data: Json, r: seq<Issue>)
    requires Ordered(r)
    requires forall i :: i in r <==> i in Validate(action, data)
    ensures r == Validate(action, data)
  {
    OrderedUnique(r, Validate(action, data));
  }

  /** With two reframes only the count issue is raised; a third reframe clears it. */
  lemma ValidateReframeCount()
    ensures Validate(Action3, ReframeSample([JStr("a"), JStr("b")])) == [TooFewReframes]
    ensures Validate(Action3, ReframeSample([JStr("a"), JStr("b"), JStr("c")])) == []
  {
    SampleChecks([JStr("a"), JStr("b")]);
    SampleChecks([JStr("a"), JStr("b"), JStr("c")]);
  }

  /** `{"problem": "p", "reframes": items}`. */
  function ReframeSample(items: seq<Json>): (d: Json)
    ensures !BadShape(d) && ReframeList(d) == items
  {
    JObj(map["problem" := JStr("p"), "reframes" := JArr(items)])
  }

  lemma SampleChecks(items: seq<Json>)
    requires forall k :: 0 <= k < |items| ==> items[k] in [JStr("a"), JStr("b"), JStr("c")]
    ensures Validate(Action3, ReframeSample(items)) == When(|items| < 3, TooFewReframes)
  {
    SampleProblem(items);
    SampleGood(items);
  }

  lemma SampleProblem(items: seq<Json>)
    ensures !MissingText(ReframeSample(items), "problem")
  {
    var d := ReframeSample(items);
    assert Field(d, "problem") == Some(JStr("p"));
    TrimmedIsFixed("p");
  }

  lemma SampleGood(items: seq<Json>)
    requires forall k :: 0 <= k < |items| ==> items[k] in [JStr("a"), JStr("b"), JStr("c")]
    ensures AllGood(items)
  {
    TrimmedIsFixed("a");
    TrimmedIsFixed("b");
    TrimmedIsFixed("c");
  }

  // ---------------------------------------------------------------------------
  // Candidate extraction from a model reply

  /** `i` is the position of the first `{` of `s`. */
  predicate FirstOpen(s: string, i: int) {
    0 <= i < |s| && s[i] == '{' && forall k :: 0 <= k < i ==> s[k] != '{'
  }

  /** `b` is the block of `s` that starts at its first `{` (index `i`) and ends at its last `}`. */
  predicate Block(s: string, i: int, b: string) {
    && FirstOpen(s, i)
    && |b| >= 2
    && i + |b| <= |s|
    && b == s[i..i + |b|]
    && s[i + |b| - 1] == '}'
    && forall k :: i + |b| <= k < |s| ==> s[k] != '}'
  }

  /** The match of `/\{[\s\S]*\}$/` in a reply: a candidate exists iff the reply
      ends with `}` and contains `{`; it is the suffix from the first `{`. */
  function ExtractTrailing(out: string): (r: Option<string>)
    ensures r.Some? <==> |out| > 0 && out[|out| - 1] == '}' && '{' in out
    ensures r.Some? ==> |r.value| <= |out| && FirstOpen(out, |out| - |r.value|) && r.value == out[|out| - |r.value|..]
  {
    var i := IndexOf(out, '{', 0);
    if |out| > 0 && out[|out| - 1] == '}' && i < |out| then Some(out[i..]) else None
  }

  /** The match of `/\{[\s\S]*\}/` in a reply: a candidate exists iff some `{`
      comes before some `}`; it runs from the first `{` to the last `}`. */
  function ExtractBlock(out: string): (r: Option<string>)
    ensures r.Some? <==> exists i, j :: 0 <= i < j < |out| && out[i] == '{' && out[j] == '}'
    ensures r.Some? ==> Block(out, IndexOf(out, '{', 0), r.value)
  {
    var i := IndexOf(out, '{', 0);
    var j := LastIndexOf(out, '}', |out|);
    if i < j then
      assert Block(out, i, out[i..j + 1]);
      Some(out[i..j + 1])
    else
      assert forall i', j' :: 0 <= i' < j' < |out| && out[i'] == '{' ==> i <= i' && out[j'] != '}';
      None
  }

  /** A reply that yields a trailing candidate yields the same candidate as a block. */
  lemma TrailingIsBlock(out: string)
    requires ExtractTrailing(out).Some?
    ensures ExtractBlock(out) == ExtractTrailing(out)
  {
    var i := IndexOf(out, '{', 0);
    var j := LastIndexOf(out, '}', |out|);
    assert j == |out| - 1;
    assert out[i] == '{' && i != j;
    assert out[i..j + 1] == out[i..];
  }

  /** Extraction is idempotent: a candidate is its own trailing match and its own block. */
  lemma ExtractFixed(out: string)
    requires ExtractBlock(out).Some?
    ensures ExtractBlock(ExtractBlock(out).value) == ExtractBlock(out)
    ensures ExtractTrailing(ExtractBlock(out).value) == ExtractBlock(out)
  {
    var i := IndexOf(out, '{', 0);
    var j := LastIndexOf(out, '}', |out|);
    var b := out[i..j + 1];
    assert ExtractBlock(out) == Some(b);
    assert b[0] == '{' && b[|b| - 1] == '}';
    assert IndexOf(b, '{', 0) == 0;
    assert LastIndexOf(b, '}', |b|) == |b| - 1;
    assert b[0..|b|] == b && b[0..] == b;
  }

  // ---------------------------------------------------------------------------
  // Review errors

  /** An entry of the error list shown under the candidate. */
  datatype ReviewError = ParseError(detail: string) | Schema(issue: Issue) {
    function Message(): string {
      match this
      case ParseError(detail) => "JSON 파싱 오류: " + detail
      case Schema(issue) => issue.Message()
    }
  }

  /** `parseJsonSafe`'s error text: the exception's message, or a fixed text when it has none. */
  function ParseErrorDetail(message: string): (r: string)
    ensures r != []
    ensures message != [] ==> r == message
  {
    if message == [] then "JSON 파싱 실패" else message
  }

  function SchemaError(i: Issue): ReviewError {
    Schema(i)
  }

  /** The validation effect: no errors for an empty candidate, one parse error
      when it does not parse, and otherwise the issues of `validate`, in order. */
  function ReviewErrors(parse: string -> Result<Json, string>, action: ActionId, text: string): (r: seq<ReviewError>)
    ensures text == [] ==> r == []
    ensures text != [] && parse(text).Err? ==> r == [ParseError(ParseErrorDetail(parse(text).error))]
    ensures text != [] && parse(text).Ok? ==>
      |r| == |Validate(action, parse(text).value)|
      && forall k :: 0 <= k < |r| ==> r[k] == Schema(Validate(action, parse(text).value)[k])
  {
    if text == [] then []
    else match parse(text)
      case Err(message) => [ParseError(ParseErrorDetail(message))]
      case Ok(data) => Map(SchemaError, Validate(action, data))
  }

  /** No review errors on a non-empty candidate means it parses to data that
      passes validation, and conversely. */
  lemma NoReviewErrors(parse: string -> Result<Json, string>, action: ActionId, text: string)
    requires text != []
    ensures ReviewErrors(parse, action, text) == [] <==> parse(text).Ok? && Validate(action, parse(text).value) == []
  {
  }

  // ---------------------------------------------------------------------------
  // Prompts

  datatype Role = User | Model

  /** One turn of the conversation. */
  datatype Turn = Turn(role: Role, text: string)

  function SystemPrompt(action: ActionId): string {
    match action
    case Action1 => "너는 지식 아카이브 코치야. 사용자가 오늘 주제와 핵심 질문을 명확히 하고 간단한 메모를 남기도록 1~3질문으로 유도해. 마지막에는 아래 JSON 스키마에 맞춰 채워.\nJSON keys: topic, coreQuestion, notes"
    case Action2 => "너는 가정 운영 코치야. 사용자가 관찰/기록(사실 위주)과 패턴 분석을 남기도록 1~3질문으로 유도해. 마지막에는 아래 JSON 스키마에 맞춰 채워.\nJSON keys: observation, analysis"
    case Action3 => "너는 소셜 벤처 코치야. 사용자가 문제와 3개 이상의 재정의 아이디어를 남기도록 1~3질문으로 유도해. 마지막에는 아래 JSON 스키마에 맞춰 채워.\nJSON keys: problem, reframes[]"
  }

  const GuardrailsHead: string := "규칙:\n1) 이 대화는 "
  const GuardrailsTail: string := " 목적에 맞는 기록을 남기기 위한 것이며, 주제에서 벗어나면 부드럽게 원래 목표로 이끌어라.\n2) 한 번에 한 질문만 해라. 길지 않게.\n3) 충분히 수집되었다고 판단되면 마지막 턴에 JSON만 출력해라."

  /** The rules block; it names the action by its tag. */
  function Guardrails(action: ActionId): (r: string)
    ensures GuardrailsHead + action.Tag() <= r
  {
    GuardrailsHead + action.Tag() + GuardrailsTail
  }

  /** What every prompt starts with. */
  function Preamble(action: ActionId): string {
    SystemPrompt(action) + "\n\n" + Guardrails(action) + "\n\n"
  }

  const FirstQuestion: string := "모델: 첫 질문을 한 문장으로 해라. JSON은 아직 출력하지 마라."
  const HistoryHeader: string := "대화 기록:\n"
  const NextReply: string := "모델: 다음 응답을 해라."

  /** One history line: the speaker's label, a colon and the text. */
  function HistoryLine(t: Turn): string {
    (if t.role == User then "사용자" else "모델") + ": " + t.text
  }

  /** The history block: one line per turn, in order. */
  function History(messages: seq<Turn>): (r: string)
    ensures messages == [] ==> r == []
  {
    Join(Map(HistoryLine, messages), "\n")
  }

  /** The line carrying the user's new text; `${userText ? ... : ''}`. */
  function UserLine(userText: Option<string>): (r: string)
    ensures r != [] <==> userText.Some? && userText.value != []
  {
    if userText.Some? && userText.value != [] then "사용자: " + userText.value + "\n" else ""
  }

  /** `buildPrompt(userText, initial)` over the conversation so far. Every
      prompt opens with the action's preamble; a later prompt then carries
      the whole history and ends by asking for the next reply. */
  function BuildPrompt(action: ActionId, messages: seq<Turn>, userText: Option<string>, initial: bool): (r: string)
    ensures Preamble(action) <= r
    ensures initial ==> r == Preamble(action) + FirstQuestion
    ensures !initial ==> Preamble(action) + HistoryHeader + History(messages) + "\n\n" <= r
    ensures !initial ==> |UserLine(userText) + NextReply| <= |r| && r[|r| - |UserLine(userText) + NextReply|..] == UserLine(userText) + NextReply
  {
    var pre := Preamble(action);
    if initial then
      AppendParts(pre, FirstQuestion);
      pre + FirstQuestion
    else
      var front := pre + HistoryHeader + History(messages) + "\n\n";
      var back := UserLine(userText) + NextReply;
      AppendParts(pre, HistoryHeader);
      AppendParts(pre + HistoryHeader, History(messages));
      AppendParts(pre + HistoryHeader + History(messages), "\n\n");
      AppendParts(front, back);
      front + back
  }

  /** `a` is a prefix of `a + b`, and `b` what follows it. */
  lemma AppendParts(a: string, b: string)
    ensures a <= a + b && (a + b)[|a|..] == b
  {
  }

  /** The opening prompt depends on the action only: no history, no user text. */
  lemma InitialPromptFixed(action: ActionId, m1: seq<Turn>, m2: seq<Turn>, u1: Option<string>, u2: Option<string>)
    ensures BuildPrompt(action, m1, u1, true) == BuildPrompt(action, m2, u2, true)
  {
  }

  /** The constraints line of the auto-fix prompt. */
  function FixConstraints(action: ActionId): string {
    match action
    case Action1 => "필수: topic, coreQuestion. notes는 선택. 문자열만."
    case Action2 => "필수: observation, analysis. 문자열만."
    case Action3 => "필수: problem, reframes 배열(최소 3개, 문자열)."
  }

  /** The hint line: the parse error, or the candidate as re-serialised. */
  function FixHint(c: Codec, text: string): string {
    match c.parse(text)
    case Err(message) => "현재 JSON 파싱 오류: " + ParseErrorDetail(message)
    case Ok(data) => "현재 JSON: " + c.stringify(data, 0)
  }

  const FixHead: string := "다음 액션("
  const FixMiddle: string := ")의 스키마에 맞도록 누락/형식을 보정한 순수 JSON만 출력하세요. 설명 금지, 마크다운 금지, JSON만.\n제약: "

  /** A line appended after `front` keeps `front` as prefix and ends the result. */
  lemma LineAfter(front: string, line: string)
    ensures front <= front + ("\n" + line)
    ensures |line| <= |front + ("\n" + line)|
    ensures (front + ("\n" + line))[|front + ("\n" + line)| - |line|..] == line
  {
    AppendParts(front, "\n" + line);
    AppendParts(front + "\n", line);
    assert front + ("\n" + line) == front + "\n" + line;
  }

  /** The auto-fix prompt: the action's tag, its constraints and the hint. */
  function AutoFixPrompt(c: Codec, action: ActionId, text: string): (r: string)
    ensures FixHead + action.Tag() + FixMiddle + FixConstraints(action) <= r
    ensures |FixHint(c, text)| <= |r| && r[|r| - |FixHint(c, text)|..] == FixHint(c, text)
  {
    var front := FixHead + action.Tag() + FixMiddle + FixConstraints(action);
    var hint := FixHint(c, text);
    LineAfter(front, hint);
    front + ("\n" + hint)
  }
}
