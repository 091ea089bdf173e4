/** The capture screen as a state machine. An event is a user action together
    with the model's reply when the action calls the model. After each event
    React commits, and the two effects of the screen run on the committed
    state: the validation effect recomputes the error list, and the auto-save
    effect saves once the candidate is valid. Commits repeat until nothing
    changes.

    `Mode` selects the auto-save guard. `AsWritten` reads the error list of the
    committed render, which the validation effect of the same commit has not
    updated yet. `Fresh` reads the errors of the current candidate. */
module CaptureMachine {
  import opened Wrappers
  import opened Text
  import opened JsonModel
  import opened Types
  import opened CaptureRules

  datatype Step = Ask | Review

  /** The screen's state variables; `busy` is left out. */
  datatype Capture = Capture(
    messages: seq<Turn>,
    input: string,
    step: Step,
    jsonText: string,
    started: bool,
    errors: seq<ReviewError>,
    autoSave: bool,
    hasAutoSaved: bool)

  /** The state the screen mounts with. */
  function Initial(): Capture {
    Capture([], [], Ask, [], false, [], false, false)
  }

  /** The screen's props that matter here, and the JSON codec. */
  datatype Config = Config(action: ActionId, apiKey: string, codec: Codec)

  /** The outcome of a model call: the reply text, or the thrown error's message. */
  datatype Reply = Answer(text: string) | Failure(message: string)

  datatype Event =
    | Start(reply: Reply)        // the start button
    | Type(text: string)         // editing the message box
    | Send(reply: Reply)         // the send button
    | EditJson(text: string)     // editing the candidate text
    | AutoFix(reply: Reply)      // the auto-fix button
    | Continue                   // back to the conversation
    | Save                       // the save button
    | SetAutoSave(on: bool)      // the auto-save checkbox

  /** What the screen does outside its own state. */
  datatype Effect =
    | Request(prompt: string)            // a model call with this prompt
    | Alert(message: string)             // `alert(...)`
    | Saved(payload: Json, auto: bool)   // `onSave(payload)`; `auto` when the auto-save effect called it

  datatype Outcome = Outcome(state: Capture, effects: seq<Effect>)

  datatype Mode = AsWritten | Fresh

  const ApiKeyAlert: string := "API Key 필요"
  const ReplyFailed: string := "오류가 발생했습니다."
  const ParseAlert: string := "JSON을 해석할 수 없습니다. 대화를 이어가 JSON만 다시 출력해 달라고 해보세요."
  const NoBlockAlert: string := "보정된 JSON을 찾을 수 없습니다. 다시 시도하세요."
  const FixFailed: string := "자동 보정 중 오류"

  /** The text of the model turn a reply adds: a failure shows its message,
      or a fixed text when the message is empty. */
  function ReplyText(reply: Reply): (r: string)
    ensures r != [] || (reply.Answer? && reply.text == [])
    ensures reply.Answer? ==> r == reply.text
    ensures reply.Failure? && reply.message != [] ==> r == reply.message
    ensures reply.Failure? && reply.message == [] ==> r == ReplyFailed
  {
    match reply
    case Answer(text) => text
    case Failure(message) => if message == [] then ReplyFailed else message
  }

  /** `confirmAndSave()`: the parsed candidate is handed to `onSave`, or an alert is shown. */
  function Confirm(cfg: Config, text: string, auto: bool): (r: seq<Effect>)
    ensures |r| == 1 && (r[0].Saved? || r[0].Alert?)
    ensures r[0].Saved? <==> cfg.codec.parse(text).Ok?
    ensures r[0].Saved? ==> r[0].payload == cfg.codec.parse(text).value && r[0].auto == auto
    ensures r[0].Alert? ==> r[0].message == ParseAlert
  {
    match cfg.codec.parse(text)
    case Ok(data) => [Saved(data, auto)]
    case Err(_) => [Alert(ParseAlert)]
  }

  /** The errors of the current candidate. */
  function CurrentErrors(cfg: Config, s: Capture): seq<ReviewError> {
    ReviewErrors(cfg.codec.parse, cfg.action, s.jsonText)
  }

  /** The auto-save condition: in review, auto-save on, not yet fired, a
      non-blank candidate, and no errors. */
  predicate Guard(cfg: Config, mode: Mode, s: Capture) {
    && s.step == Review
    && s.autoSave
    && !s.hasAutoSaved
    && Trim(s.jsonText) != []
    && (match mode
        case AsWritten => s.errors == []
        case Fresh => CurrentErrors(cfg, s) == [])
  }

  /** No effect would change anything: the errors are current and auto-save does not fire. */
  predicate Settled(cfg: Config, mode: Mode, s: Capture) {
    s.errors == CurrentErrors(cfg, s) && !Guard(cfg, mode, s)
  }

  /** The number of payloads the auto-save effect handed to `onSave`. */
  function AutoSaves(effects: seq<Effect>): nat {
    if effects == [] then 0
    else (if effects[0].Saved? && effects[0].auto then 1 else 0) + AutoSaves(effects[1..])
  }

  lemma {:induction false} AutoSavesAppend(a: seq<Effect>, b: seq<Effect>)
    ensures AutoSaves(a + b) == AutoSaves(a) + AutoSaves(b)
  {
    if a != [] {
      assert (a + b)[0] == a[0];
      assert (a + b)[1..] == a[1..] + b;
      AutoSavesAppend(a[1..], b);
    } else {
      assert a + b == b;
    }
  }

  /** Effects without an auto-saved payload count zero. */
  lemma {:induction false} NoAutoSaves(effects: seq<Effect>)
    requires forall k :: 0 <= k < |effects| ==> !(effects[k].Saved? && effects[k].auto)
    ensures AutoSaves(effects) == 0
  {
    if effects != [] {
      NoAutoSaves(effects[1..]);
    }
  }

  /** Every payload handed to `onSave` passes validation. */
  predicate SavesValid(action: ActionId, effects: seq<Effect>) {
    forall k :: 0 <= k < |effects| && effects[k].Saved? ==> Validate(action, effects[k].payload) == []
  }

  lemma SavesValidAppend(action: ActionId, a: seq<Effect>, b: seq<Effect>)
    ensures SavesValid(action, a + b) <==> SavesValid(action, a) && SavesValid(action, b)
  {
    var ab := a + b;
    forall k | 0 <= k < |a| && a[k].Saved? && SavesValid(action, ab)
      ensures Validate(action, a[k].payload) == []
    {
      assert ab[k] == a[k];
    }
    forall k | 0 <= k < |b| && b[k].Saved? && SavesValid(action, ab)
      ensures Validate(action, b[k].payload) == []
    {
      assert ab[|a| + k] == b[k];
    }
    if SavesValid(action, a) && SavesValid(action, b) {
      forall k | 0 <= k < |ab| && ab[k].Saved?
        ensures Validate(action, ab[k].payload) == []
      {
        if k < |a| {
          assert ab[k] == a[k];
        } else {
          assert ab[k] == b[k - |a|];
        }
      }
    }
  }

  /** One commit: both effects read the committed state `s`. The errors
      become those of the candidate and nothing but them and the auto-save
      flag changes. When the guard holds, auto-save hands the parsed candidate
      to `onSave`, or alerts when it does not parse; otherwise nothing
      happens. Under the fresh guard every payload is valid. */
  function Round(cfg: Config, mode: Mode, s: Capture): (r: Outcome)
    ensures r.state.errors == CurrentErrors(cfg, s)
    ensures r.state == s.(errors := r.state.errors, hasAutoSaved := r.state.hasAutoSaved)
    ensures r.state.hasAutoSaved <==> s.hasAutoSaved || Guard(cfg, mode, s)
    ensures s.hasAutoSaved || !Guard(cfg, mode, s) ==> r.effects == []
    ensures Guard(cfg, mode, s) && cfg.codec.parse(s.jsonText).Ok? ==>
      r.effects == [Saved(cfg.codec.parse(s.jsonText).value, true)]
    ensures Guard(cfg, mode, s) && cfg.codec.parse(s.jsonText).Err? ==> r.effects == [Alert(ParseAlert)]
    ensures CommitEffects(r.effects)
    ensures AutoSaves(r.effects) <= (if Guard(cfg, mode, s) then 1 else 0)
    ensures forall k :: 0 <= k < |r.effects| && r.effects[k].Saved? ==>
      cfg.codec.parse(s.jsonText) == Ok(r.effects[k].payload)
    ensures mode == Fresh ==> SavesValid(cfg.action, r.effects)
  {
    var fire := Guard(cfg, mode, s);
    FiredEffects(cfg, mode, s);
    Outcome(s.(errors := CurrentErrors(cfg, s), hasAutoSaved := s.hasAutoSaved || fire),
            if fire then Confirm(cfg, s.jsonText, true) else [])
  }

  /** Commits until the state is settled. Only the error list and the
      auto-save flag change. Auto-save fires whenever the guard holds on
      entry, and when it fires the candidate's payload (or the parse alert)
      is among the effects; it hands over at most one payload, and none once
      it has fired. */
  function Settle(cfg: Config, mode: Mode, s: Capture): (r: Outcome)
    ensures Settled(cfg, mode, r.state)
    ensures r.state == s.(errors := r.state.errors, hasAutoSaved := r.state.hasAutoSaved)
    ensures s.hasAutoSaved ==> r.state.hasAutoSaved
    ensures Guard(cfg, mode, s) ==> r.state.hasAutoSaved
    ensures !s.hasAutoSaved && r.state.hasAutoSaved && cfg.codec.parse(s.jsonText).Ok? ==>
      Saved(cfg.codec.parse(s.jsonText).value, true) in r.effects
    ensures !s.hasAutoSaved && r.state.hasAutoSaved && cfg.codec.parse(s.jsonText).Err? ==>
      Alert(ParseAlert) in r.effects
    ensures Settled(cfg, mode, s) ==> r == Outcome(s, [])
    ensures AutoSaves(r.effects) <= (if s.hasAutoSaved then 0 else 1)
    ensures AutoSaves(r.effects) > 0 ==> r.state.hasAutoSaved
    ensures CommitEffects(r.effects)
    ensures mode == Fresh ==> SavesValid(cfg.action, r.effects)
    decreases (if s.errors == CurrentErrors(cfg, s) then 0 else 1) + (if s.hasAutoSaved then 0 else 1)
  {
    if Settled(cfg, mode, s) then Outcome(s, [])
    else
      var first := Round(cfg, mode, s);
      var rest := Settle(cfg, mode, first.state);
      AutoSavesAppend(first.effects, rest.effects);
      CommitEffectsAppend(first.effects, rest.effects);
      SavesValidAppend(cfg.action, first.effects, rest.effects);
      Outcome(rest.state, first.effects + rest.effects)
  }

  /** An auto-saved payload among the effects counts. */
  lemma {:induction false} AutoSavesIn(effects: seq<Effect>, e: Effect)
    requires e in effects && e.Saved? && e.auto
    ensures AutoSaves(effects) >= 1
  {
    if effects[0] != e {
      assert e in effects[1..];
      AutoSavesIn(effects[1..], e);
    }
  }

  /** Under the fresh guard, commits from a state whose guard holds hand
      exactly one payload to `onSave`: the parsed candidate, which passes
      validation. */
  lemma FreshSettleSaves(cfg: Config, s: Capture)
    requires Guard(cfg, Fresh, s)
    ensures cfg.codec.parse(s.jsonText).Ok?
    ensures Validate(cfg.action, cfg.codec.parse(s.jsonText).value) == []
    ensures Saved(cfg.codec.parse(s.jsonText).value, true) in Settle(cfg, Fresh, s).effects
    ensures AutoSaves(Settle(cfg, Fresh, s).effects) == 1
  {
    NoReviewErrors(cfg.codec.parse, cfg.action, s.jsonText);
    var r := Settle(cfg, Fresh, s);
    AutoSavesIn(r.effects, Saved(cfg.codec.parse(s.jsonText).value, true));
  }

  /** What effects commits hand over: alerts and auto-saved payloads only. */
  predicate CommitEffects(effects: seq<Effect>) {
    forall k :: 0 <= k < |effects| ==> effects[k].Alert? || (effects[k].Saved? && effects[k].auto)
  }

  lemma CommitEffectsAppend(a: seq<Effect>, b: seq<Effect>)
    requires CommitEffects(a) && CommitEffects(b)
    ensures CommitEffects(a + b)
  {
    var ab := a + b;
    forall k | 0 <= k < |ab|
      ensures ab[k].Alert? || (ab[k].Saved? && ab[k].auto)
    {
      if k < |a| {
        assert ab[k] == a[k];
      } else {
        assert ab[k] == b[k - |a|];
      }
    }
  }

  /** What a firing auto-save hands over: one auto-saved payload or an alert,
      and under the fresh guard only a valid payload. */
  lemma FiredEffects(cfg: Config, mode: Mode, s: Capture)
    ensures Guard(cfg, mode, s) ==>
      var e := Confirm(cfg, s.jsonText, true);
      && CommitEffects(e)
      && AutoSaves(e) <= 1
      && (mode == Fresh ==> SavesValid(cfg.action, e))
  {
    if Guard(cfg, mode, s) {
      ConfirmAuto(cfg, s.jsonText);
      if mode == Fresh {
        FreshConfirmValid(cfg, s);
      }
    }
  }

  lemma ConfirmAuto(cfg: Config, text: string)
    ensures CommitEffects(Confirm(cfg, text, true))
    ensures AutoSaves(Confirm(cfg, text, true)) <= 1
  {
    var e := Confirm(cfg, text, true);
    assert |e| == 1;
    assert AutoSaves(e) == (if e[0].Saved? && e[0].auto then 1 else 0) + AutoSaves(e[1..]);
  }

  /** Under the fresh guard the candidate parses to data that validates. */
  lemma FreshConfirmValid(cfg: Config, s: Capture)
    requires Guard(cfg, Fresh, s)
    ensures SavesValid(cfg.action, Confirm(cfg, s.jsonText, true))
  {
    assert CurrentErrors(cfg, s) == [];
    assert s.jsonText != [];
    NoReviewErrors(cfg.codec.parse, cfg.action, s.jsonText);
  }

  /** `startChat()`: the conversation restarts with the reply as its only
      turn, and the one request is the opening prompt, whatever was said
      before. */
  function StartChat(cfg: Config, s: Capture, reply: Reply): (r: Outcome)
    requires cfg.apiKey != []
    ensures r.state.started
    ensures |r.state.messages| == 1 && r.state.messages[0].role == Model
    ensures r.state.messages[0].text == ReplyText(reply)
    ensures r.state == s.(started := r.state.started, messages := r.state.messages)
    ensures r.effects == [Request(BuildPrompt(cfg.action, [], None, true))]
  {
    InitialPromptFixed(cfg.action, s.messages, [], None, None);
    Outcome(s.(started := true, messages := [Turn(Model, ReplyText(reply))]),
            [Request(BuildPrompt(cfg.action, s.messages, None, true))])
  }

  /** `send()` with the key present. */
  function SendMessage(cfg: Config, s: Capture, reply: Reply): (r: Outcome)
    requires cfg.apiKey != []
    ensures Blank(s.input) ==> r == Outcome(s, [])
    ensures !Blank(s.input) ==>
      var candidate := if reply.Answer? then ExtractTrailing(reply.text) else None;
      && r.state.messages == s.messages + [Turn(User, Trim(s.input)), Turn(Model, ReplyText(reply))]
      && r.state.input == []
      && (candidate.Some? ==> r.state.step == Review && r.state.jsonText == candidate.value)
      && (candidate.None? ==> r.state.step == s.step && r.state.jsonText == s.jsonText)
      && r.state == s.(input := r.state.input, messages := r.state.messages, step := r.state.step, jsonText := r.state.jsonText)
      && r.effects == [Request(BuildPrompt(cfg.action, s.messages, Some(Trim(s.input)), false))]
  {
    var text := Trim(s.input);
    if text == [] then Outcome(s, [])
    else
      var talked := s.(input := [], messages := s.messages + [Turn(User, text), Turn(Model, ReplyText(reply))]);
      var next := if reply.Answer? && ExtractTrailing(reply.text).Some?
        then talked.(jsonText := ExtractTrailing(reply.text).value, step := Review)
        else talked;
      Outcome(next, [Request(BuildPrompt(cfg.action, s.messages, Some(text), false))])
  }

  /** `autoFix()` with the key present: the block of the reply replaces the
      candidate; without one, or when the call fails, an alert is shown. */
  function RunAutoFix(cfg: Config, s: Capture, reply: Reply): (r: Outcome)
    requires cfg.apiKey != []
    ensures var block := if reply.Answer? then ExtractBlock(reply.text) else None;
      && (block.Some? ==> r.state == s.(jsonText := block.value) && |r.effects| == 1)
      && (block.None? ==> r.state == s && |r.effects| == 2 && r.effects[1].Alert?)
    ensures r.effects[0] == Request(AutoFixPrompt(cfg.codec, cfg.action, s.jsonText))
    ensures forall k :: 0 <= k < |r.effects| ==> !r.effects[k].Saved?
  {
    var ask := Request(AutoFixPrompt(cfg.codec, cfg.action, s.jsonText));
    match reply
    case Answer(out) =>
      (match ExtractBlock(out)
       case Some(block) => Outcome(s.(jsonText := block), [ask])
       case None => Outcome(s, [ask, Alert(NoBlockAlert)]))
    case Failure(message) => Outcome(s, [ask, Alert(if message == [] then FixFailed else message)])
  }

  /** The save button: enabled only in review with no errors. There it hands
      the parsed candidate to `onSave`, or alerts when it does not parse. */
  function SaveClicked(cfg: Config, s: Capture): (r: seq<Effect>)
    ensures forall k :: 0 <= k < |r| && r[k].Saved? ==>
      && !r[k].auto && s.step == Review && s.errors == []
      && cfg.codec.parse(s.jsonText) == Ok(r[k].payload)
    ensures !(s.step == Review && s.errors == []) ==> r == []
    ensures s.step == Review && s.errors == [] && cfg.codec.parse(s.jsonText).Ok? ==>
      r == [Saved(cfg.codec.parse(s.jsonText).value, false)]
    ensures s.step == Review && s.errors == [] && cfg.codec.parse(s.jsonText).Err? ==>
      r == [Alert(ParseAlert)]
  {
    if s.step == Review && s.errors == [] then Confirm(cfg, s.jsonText, false) else []
  }

  /** The event handlers, before React commits. Only the save button hands a
      payload to `onSave`, and only the checkbox touches the auto-save flag. */
  function Apply(cfg: Config, s: Capture, e: Event): (r: Outcome)
    ensures forall k :: 0 <= k < |r.effects| && r.effects[k].Saved? ==>
      && e == Save && !r.effects[k].auto && s.step == Review && s.errors == []
      && cfg.codec.parse(s.jsonText) == Ok(r.effects[k].payload)
    ensures !e.SetAutoSave? ==> r.state.hasAutoSaved == s.hasAutoSaved
    ensures e.SetAutoSave? ==> r.state.hasAutoSaved == (e.on && s.hasAutoSaved) && r.state.autoSave == e.on
  {
    match e
    case Start(reply) =>
      if cfg.apiKey == [] then Outcome(s, [Alert(ApiKeyAlert)]) else StartChat(cfg, s, reply)
    case Type(text) => Outcome(s.(input := text), [])
    case Send(reply) =>
      if cfg.apiKey == [] then Outcome(s, [Alert(ApiKeyAlert)]) else SendMessage(cfg, s, reply)
    case EditJson(text) => Outcome(s.(jsonText := text), [])
    case AutoFix(reply) =>
      if cfg.apiKey == [] then Outcome(s, [Alert(ApiKeyAlert)]) else RunAutoFix(cfg, s, reply)
    case Continue => Outcome(s.(step := Ask), [])
    case Save => Outcome(s, SaveClicked(cfg, s))
    case SetAutoSave(on) => Outcome(s.(autoSave := on, hasAutoSaved := on && s.hasAutoSaved), [])
  }

  /** One event: the handler, then commits until settled. */
  function StepOf(cfg: Config, mode: Mode, s: Capture, e: Event): (r: Outcome)
    ensures Settled(cfg, mode, r.state)
    ensures e != SetAutoSave(false) ==>
      && (s.hasAutoSaved ==> r.state.hasAutoSaved)
      && AutoSaves(r.effects) <= (if s.hasAutoSaved then 0 else 1)
      && (AutoSaves(r.effects) > 0 ==> r.state.hasAutoSaved)
  {
    var handled := Apply(cfg, s, e);
    var settled := Settle(cfg, mode, handled.state);
    NoAutoSaves(handled.effects);
    AutoSavesAppend(handled.effects, settled.effects);
    Outcome(settled.state, handled.effects + settled.effects)
  }

  /** A sequence of events, from left to right; the effects in order. */
  function Run(cfg: Config, mode: Mode, s: Capture, events: seq<Event>): Outcome
    decreases |events|
  {
    if events == [] then Outcome(s, [])
    else
      var first := StepOf(cfg, mode, s, events[0]);
      var rest := Run(cfg, mode, first.state, events[1..]);
      Outcome(rest.state, first.effects + rest.effects)
  }

  /** Sending a blank message changes nothing. */
  lemma SendBlank(cfg: Config, mode: Mode, s: Capture, reply: Reply)
    requires Settled(cfg, mode, s) && cfg.apiKey != [] && Blank(s.input)
    ensures StepOf(cfg, mode, s, Send(reply)) == Outcome(s, [])
  {
  }

  /** Sending a message clears the box and appends the user turn, then the
      model turn; the prompt is built from the turns before them. The screen
      moves to review, holding the reply's trailing candidate, exactly when
      the reply has one. */
  lemma SendAppends(cfg: Config, mode: Mode, s: Capture, reply: Reply)
    requires cfg.apiKey != [] && !Blank(s.input)
    ensures var r := StepOf(cfg, mode, s, Send(reply));
      var candidate := if reply.Answer? then ExtractTrailing(reply.text) else None;
      && r.state.messages == s.messages + [Turn(User, Trim(s.input)), Turn(Model, ReplyText(reply))]
      && r.state.input == []
      && r.effects[0] == Request(BuildPrompt(cfg.action, s.messages, Some(Trim(s.input)), false))
      && (candidate.Some? ==> r.state.step == Review && r.state.jsonText == candidate.value)
      && (candidate.None? ==> r.state.step == s.step && r.state.jsonText == s.jsonText)
  {
  }

  /** Auto-fix replaces the candidate by the reply's block, and leaves it
      unchanged with an alert when the reply has none or the call fails. */
  lemma AutoFixReplaces(cfg: Config, mode: Mode, s: Capture, reply: Reply)
    requires cfg.apiKey != []
    ensures var r := StepOf(cfg, mode, s, AutoFix(reply));
      var block := if reply.Answer? then ExtractBlock(reply.text) else None;
      && (block.Some? ==> r.state.jsonText == block.value)
      && (block.None? ==> r.state.jsonText == s.jsonText && |r.effects| >= 2 && r.effects[1].Alert?)
      && r.state.messages == s.messages
  {
    var handled := Apply(cfg, s, AutoFix(reply));
    ApplyAutoFix(cfg, s, reply);
    var settled := Settle(cfg, mode, handled.state);
    assert StepOf(cfg, mode, s, AutoFix(reply)) == Outcome(settled.state, handled.effects + settled.effects);
    assert settled.state.jsonText == handled.state.jsonText;
    assert settled.state.messages == handled.state.messages;
    assert |handled.effects| >= 1;
    if |handled.effects| >= 2 {
      assert (handled.effects + settled.effects)[1] == handled.effects[1];
    }
  }

  /** With the key present, the auto-fix button runs `autoFix()`. */
  lemma ApplyAutoFix(cfg: Config, s: Capture, reply: Reply)
    requires cfg.apiKey != []
    ensures Apply(cfg, s, AutoFix(reply)) == RunAutoFix(cfg, s, reply)
  {
  }

  /** Without the API key the model-calling buttons only alert. */
  lemma NoKeyAlerts(cfg: Config, mode: Mode, s: Capture, e: Event)
    requires cfg.apiKey == [] && (e.Start? || e.Send? || e.AutoFix?) && Settled(cfg, mode, s)
    ensures StepOf(cfg, mode, s, e) == Outcome(s, [Alert(ApiKeyAlert)])
  {
  }

  /** Over any run in which the checkbox is never unchecked, the auto-save
      effect hands over at most one payload, and none if it had already fired. */
  lemma {:induction false} AutoSaveAtMostOnce(cfg: Config, mode: Mode, s: Capture, events: seq<Event>)
    requires forall k :: 0 <= k < |events| ==> events[k] != SetAutoSave(false)
    ensures AutoSaves(Run(cfg, mode, s, events).effects) <= (if s.hasAutoSaved then 0 else 1)
    decreases |events|
  {
    if events != [] {
      var first := StepOf(cfg, mode, s, events[0]);
      var rest := Run(cfg, mode, first.state, events[1..]);
      AutoSaveAtMostOnce(cfg, mode, first.state, events[1..]);
      AutoSavesAppend(first.effects, rest.effects);
    }
  }

  /** With the guard reading current errors, everything handed to `onSave`
      passes validation, from any settled state, over any run. The codec
      must reject the empty text, as `JSON.parse('')` does. */
  lemma {:induction false} FreshSavesValid(cfg: Config, s: Capture, events: seq<Event>)
    requires Settled(cfg, Fresh, s)
    requires cfg.codec.parse([]).Err?
    ensures SavesValid(cfg.action, Run(cfg, Fresh, s, events).effects)
    decreases |events|
  {
    if events != [] {
      var handled := Apply(cfg, s, events[0]);
      var settled := Settle(cfg, Fresh, handled.state);
      assert SavesValid(cfg.action, handled.effects) by {
        if s.jsonText != [] {
          NoReviewErrors(cfg.codec.parse, cfg.action, s.jsonText);
        }
      }
      SavesValidAppend(cfg.action, handled.effects, settled.effects);
      var first := StepOf(cfg, Fresh, s, events[0]);
      FreshSavesValid(cfg, first.state, events[1..]);
      SavesValidAppend(cfg.action, first.effects, Run(cfg, Fresh, first.state, events[1..]).effects);
    }
  }

  // ---------------------------------------------------------------------------
  // The stale guard at work

  /** A codec that reads `{}` as the empty object and nothing else. */
  function SampleParse(text: string): Result<Json, string> {
    if text == "{}" then Ok(JObj(map[])) else Err("Unexpected token")
  }

  function SampleStringify(j: Json, indent: nat): string {
    "{}"
  }

  function SampleConfig(): Config {
    Config(Action1, "key", Codec(SampleParse, SampleStringify))
  }

  /** The turns of the sample conversation: the opening question, the typed
      `x` and the reply `{}`. */
  function Talk(): seq<Turn> {
    [Turn(Model, "?"), Turn(User, "x"), Turn(Model, "{}")]
  }

  /** In review with auto-save on and the candidate text cleared. */
  function ClearedReview(): Capture {
    Capture(Talk(), [], Review, [], true, [], true, false)
  }

  /** As written, pasting `{}` into a cleared candidate auto-saves the empty
      object for action 1, though it lacks both required fields; with the
      guard reading current errors nothing is saved. */
  lemma StaleGuardSavesInvalid()
    ensures Settled(SampleConfig(), AsWritten, ClearedReview())
    ensures StepOf(SampleConfig(), AsWritten, ClearedReview(), EditJson("{}")).effects == [Saved(JObj(map[]), true)]
    ensures Validate(Action1, JObj(map[])) == [MissingTopic, MissingCoreQuestion]
    ensures StepOf(SampleConfig(), Fresh, ClearedReview(), EditJson("{}")).effects == []
  {
    EmptyObjectIssues();
    StalePasteSaves();
    FreshPasteSavesNothing();
  }

  /** A handler with no effects of its own, followed by one commit that settles. */
  lemma StepSettlesInOne(cfg: Config, mode: Mode, s: Capture, e: Event, t: Capture)
    requires Apply(cfg, s, e) == Outcome(t, [])
    requires !Settled(cfg, mode, t) && Settled(cfg, mode, Round(cfg, mode, t).state)
    ensures StepOf(cfg, mode, s, e).effects == Round(cfg, mode, t).effects
  {
    var first := Round(cfg, mode, t);
    assert Settle(cfg, mode, t) == Outcome(first.state, first.effects + []);
    assert first.effects + [] == first.effects;
  }

  /** The paste itself only replaces the candidate text. */
  lemma PasteHandled()
    ensures Apply(SampleConfig(), ClearedReview(), EditJson("{}")) == Outcome(ClearedReview().(jsonText := "{}"), [])
  {
  }

  lemma StalePasteSaves()
    ensures StepOf(SampleConfig(), AsWritten, ClearedReview(), EditJson("{}")).effects == [Saved(JObj(map[]), true)]
  {
    PasteHandled();
    StaleRound();
    StepSettlesInOne(SampleConfig(), AsWritten, ClearedReview(), EditJson("{}"), ClearedReview().(jsonText := "{}"));
  }

  /** The one commit after the paste, with the stale guard: it fires and settles. */
  lemma StaleRound()
    ensures var typed := ClearedReview().(jsonText := "{}");
      && !Settled(SampleConfig(), AsWritten, typed)
      && Round(SampleConfig(), AsWritten, typed).effects == [Saved(JObj(map[]), true)]
      && Settled(SampleConfig(), AsWritten, Round(SampleConfig(), AsWritten, typed).state)
  {
    var cfg := SampleConfig();
    var typed := ClearedReview().(jsonText := "{}");
    EmptyObjectIssues();
    PastedState(typed);
    var first := Round(cfg, AsWritten, typed);
    assert first.state.hasAutoSaved;
    assert first.state.errors == CurrentErrors(cfg, first.state) by {
      assert first.state.jsonText == typed.jsonText;
    }
  }

  lemma FreshPasteSavesNothing()
    ensures StepOf(SampleConfig(), Fresh, ClearedReview(), EditJson("{}")).effects == []
  {
    PasteHandled();
    FreshRound();
    StepSettlesInOne(SampleConfig(), Fresh, ClearedReview(), EditJson("{}"), ClearedReview().(jsonText := "{}"));
  }

  /** The one commit after the paste, with the current guard: it only updates the errors. */
  lemma FreshRound()
    ensures var typed := ClearedReview().(jsonText := "{}");
      && !Settled(SampleConfig(), Fresh, typed)
      && Round(SampleConfig(), Fresh, typed).effects == []
      && Settled(SampleConfig(), Fresh, Round(SampleConfig(), Fresh, typed).state)
  {
    var cfg := SampleConfig();
    var typed := ClearedReview().(jsonText := "{}");
    EmptyObjectIssues();
    PastedState(typed);
    var first := Round(cfg, Fresh, typed);
    assert first.state.errors == CurrentErrors(cfg, first.state) by {
      assert first.state.jsonText == typed.jsonText;
    }
    assert first.state.errors != [];
  }

  lemma EmptyObjectIssues()
    ensures Validate(Action1, JObj(map[])) == [MissingTopic, MissingCoreQuestion]
  {
    var d: Json := JObj(map[]);
    assert Field(d, "topic") == None && Field(d, "coreQuestion") == None && Field(d, "notes") == None;
  }

  /** After the paste the stale guard holds and the current one does not. */
  lemma PastedState(typed: Capture)
    requires typed == ClearedReview().(jsonText := "{}")
    requires Validate(Action1, JObj(map[])) == [MissingTopic, MissingCoreQuestion]
    ensures Guard(SampleConfig(), AsWritten, typed)
    ensures CurrentErrors(SampleConfig(), typed) == [Schema(MissingTopic), Schema(MissingCoreQuestion)]
    ensures !Guard(SampleConfig(), Fresh, typed)
    ensures SampleConfig().codec.parse("{}") == Ok(JObj(map[]))
  {
    assert Trim("{}") == "{}" by { TrimmedIsFixed("{}"); }
  }

  /** The cleared-review state is reachable from mount: start the chat, type
      a message, get `{}` back, switch auto-save on, clear the candidate. */
  lemma ClearedReviewReachable()
    ensures Run(SampleConfig(), AsWritten, Initial(),
                [Start(Answer("?")), Type("x"), Send(Answer("{}")), SetAutoSave(true), EditJson([])]).state
            == ClearedReview()
  {
    var cfg := SampleConfig();
    var s1 := Opened().(input := "x");
    var s3 := AfterSend().(autoSave := true);
    var e4: seq<Event> := [EditJson([])];
    var e3: seq<Event> := [SetAutoSave(true)] + e4;
    var e2: seq<Event> := [Send(Answer("{}"))] + e3;
    var e1: seq<Event> := [Type("x")] + e2;
    var e0: seq<Event> := [Start(Answer("?"))] + e1;
    assert e0 == [Start(Answer("?")), Type("x"), Send(Answer("{}")), SetAutoSave(true), EditJson([])];
    var last := ClearedReview();
    assert Run(cfg, AsWritten, s3, e4).state == last by {
      assert e4 == [EditJson([])] + [];
      RunFirst(cfg, AsWritten, s3, EditJson([]), []);
      StepClear();
    }
    assert Run(cfg, AsWritten, AfterSend(), e3).state == last by {
      RunFirst(cfg, AsWritten, AfterSend(), SetAutoSave(true), e4);
      StepAutoSaveOn();
    }
    assert Run(cfg, AsWritten, s1, e2).state == last by {
      RunFirst(cfg, AsWritten, s1, Send(Answer("{}")), e3);
      StepSend();
    }
    assert Run(cfg, AsWritten, Opened(), e1).state == last by {
      RunFirst(cfg, AsWritten, Opened(), Type("x"), e2);
      StepType();
    }
    RunFirst(cfg, AsWritten, Initial(), Start(Answer("?")), e1);
    StepStart();
  }

  /** After the start button: the opening question is the only turn. */
  function Opened(): Capture {
    Initial().(started := true, messages := [Turn(Model, "?")])
  }

  lemma StepStart()
    ensures StepOf(SampleConfig(), AsWritten, Initial(), Start(Answer("?"))).state == Opened()
  {
    assert Apply(SampleConfig(), Initial(), Start(Answer("?"))).state == Opened();
    assert Settled(SampleConfig(), AsWritten, Opened());
    StepIntoSettled(SampleConfig(), AsWritten, Initial(), Start(Answer("?")), Opened());
  }

  lemma StepType()
    ensures StepOf(SampleConfig(), AsWritten, Opened(), Type("x")).state == Opened().(input := "x")
  {
    var typed := Opened().(input := "x");
    assert Apply(SampleConfig(), Opened(), Type("x")).state == typed;
    assert Settled(SampleConfig(), AsWritten, typed);
    StepIntoSettled(SampleConfig(), AsWritten, Opened(), Type("x"), typed);
  }

  /** A run ends where the rest of the run from the first step's state ends. */
  lemma RunFirst(cfg: Config, mode: Mode, s: Capture, e: Event, rest: seq<Event>)
    ensures Run(cfg, mode, s, [e] + rest).state == Run(cfg, mode, StepOf(cfg, mode, s, e).state, rest).state
  {
    assert ([e] + rest)[0] == e && ([e] + rest)[1..] == rest;
  }

  /** In review on the `{}` reply, errors current, auto-save off. */
  function AfterSend(): Capture {
    Capture(Talk(), [], Review, "{}", true,
            [Schema(MissingTopic), Schema(MissingCoreQuestion)], false, false)
  }

  /** Right after the handler of the send, before any commit. */
  function Sent(): Capture {
    Capture(Talk(), [], Review, "{}", true, [], false, false)
  }

  lemma StepSend()
    ensures StepOf(SampleConfig(), AsWritten, Opened().(input := "x"), Send(Answer("{}"))).state == AfterSend()
  {
    HandleSend();
    SettleSent();
  }

  lemma HandleSend()
    ensures Apply(SampleConfig(), Opened().(input := "x"), Send(Answer("{}"))).state == Sent()
  {
    var s := Opened().(input := "x");
    SampleSendInputs();
    ApplySend(SampleConfig(), s, Answer("{}"));
    SendMessageState(SampleConfig(), s, "{}");
    assert s.messages + [Turn(User, "x"), Turn(Model, "{}")] == Sent().messages;
  }

  /** The typed `x` is sent as is, and the reply `{}` is its own candidate. */
  lemma SampleSendInputs()
    ensures Trim("x") == "x" && !Blank("x")
    ensures ExtractTrailing("{}") == Some("{}")
  {
    TrimmedIsFixed("x");
    assert "{}"[1] == '}' && "{}"[0] == '{';
  }

  /** With the key present, the send button runs `send()`. */
  lemma ApplySend(cfg: Config, s: Capture, reply: Reply)
    requires cfg.apiKey != []
    ensures Apply(cfg, s, Send(reply)) == SendMessage(cfg, s, reply)
  {
  }

  /** A send of a non-blank, trimmed input whose reply ends with a candidate. */
  lemma SendMessageState(cfg: Config, s: Capture, out: string)
    requires cfg.apiKey != [] && !Blank(s.input) && Trim(s.input) == s.input
    requires ExtractTrailing(out) == Some(out)
    ensures SendMessage(cfg, s, Answer(out)).state
         == s.(input := [], messages := s.messages + [Turn(User, s.input), Turn(Model, out)], step := Review, jsonText := out)
  {
  }

  lemma SettleSent()
    ensures Settle(SampleConfig(), AsWritten, Sent()).state == AfterSend()
  {
    EmptyObjectIssues();
    PastedState(ClearedReview().(jsonText := "{}"));
    assert CurrentErrors(SampleConfig(), Sent()) == AfterSend().errors;
    assert Round(SampleConfig(), AsWritten, Sent()).state == AfterSend();
    assert Settled(SampleConfig(), AsWritten, AfterSend());
  }

  lemma StepAutoSaveOn()
    ensures StepOf(SampleConfig(), AsWritten, AfterSend(), SetAutoSave(true)).state == AfterSend().(autoSave := true)
  {
    var on := AfterSend().(autoSave := true);
    assert Apply(SampleConfig(), AfterSend(), SetAutoSave(true)).state == on;
    BraceErrors(on);
    assert !Guard(SampleConfig(), AsWritten, on) by { assert on.errors != []; }
    StepIntoSettled(SampleConfig(), AsWritten, AfterSend(), SetAutoSave(true), on);
  }

  /** A candidate of `{}` lacks both fields action 1 requires. */
  lemma BraceErrors(s: Capture)
    requires s.jsonText == "{}"
    ensures CurrentErrors(SampleConfig(), s) == [Schema(MissingTopic), Schema(MissingCoreQuestion)]
  {
    EmptyObjectIssues();
    PastedState(ClearedReview().(jsonText := "{}"));
    assert CurrentErrors(SampleConfig(), s) == CurrentErrors(SampleConfig(), ClearedReview().(jsonText := "{}"));
  }

  /** A handler whose result is already settled commits nothing further. */
  lemma StepIntoSettled(cfg: Config, mode: Mode, s: Capture, e: Event, t: Capture)
    requires Apply(cfg, s, e).state == t && Settled(cfg, mode, t)
    ensures StepOf(cfg, mode, s, e).state == t
  {
  }

  lemma StepClear()
    ensures var s3 := AfterSend().(autoSave := true);
      StepOf(SampleConfig(), AsWritten, s3, EditJson([])).state == s3.(jsonText := [], errors := [])
  {
    var s3 := AfterSend().(autoSave := true);
    var cleared := s3.(jsonText := []);
    assert Round(SampleConfig(), AsWritten, cleared).state == cleared.(errors := []);
  }
}
