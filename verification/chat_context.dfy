/** The record-based chat screen: the user picks a stored session, talks with
    the model about it, and can overwrite one field of the session with the
    latest model reply. The model's reply is an input; `getSessionById` is not
    part of this model, so its answer is a parameter too. */
module ChatContext {
  import opened Wrappers
  import opened Seqs
  import opened Text
  import opened Types
  import opened CaptureRules
  import opened CaptureMachine

  // ---------------------------------------------------------------------------
  // The context text of a session

  /** The first line of a session's context text. */
  function Heading(a: ActionId): (h: string)
    ensures |h| > 7 && h[..7] == "Action" + [a.Tag()[7]]
  {
    match a
    case Action1 => "Action1 기록\n"
    case Action2 => "Action2 기록\n"
    case Action3 => "Action3 기록\n"
  }

  const ReframeGlue: string := "; "

  /** `systemContextOf`: the session as labelled lines; an action-3 session
      lists its reframes joined by `"; "`. */
  function SystemContextOf(s: Session): (r: string)
    ensures Heading(s.Action()) <= r
    ensures s.SessionAction1? ==> |s.notes| <= |r| && r[|r| - |s.notes|..] == s.notes
    ensures s.SessionAction2? ==> |s.analysis| <= |r| && r[|r| - |s.analysis|..] == s.analysis
    ensures s.SessionAction3? ==>
      var listed := Join(s.reframes, ReframeGlue);
      |listed| <= |r| && r[|r| - |listed|..] == listed
  {
    match s
    case SessionAction1(_, _, topic, coreQuestion, notes) =>
      var front := Heading(Action1) + "주제: " + topic + "\n핵심질문: " + coreQuestion + "\n메모: ";
      assert (front + notes)[..|Heading(Action1)|] == Heading(Action1);
      front + notes
    case SessionAction2(_, _, observation, analysis) =>
      var front := Heading(Action2) + "관찰: " + observation + "\n분석: ";
      assert (front + analysis)[..|Heading(Action2)|] == Heading(Action2);
      front + analysis
    case SessionAction3(_, _, problem, reframes) =>
      var front := Heading(Action3) + "문제: " + problem + "\n재정의: ";
      var listed := Join(reframes, ReframeGlue);
      assert (front + listed)[..|Heading(Action3)|] == Heading(Action3);
      front + listed
  }

  // ---------------------------------------------------------------------------
  // The refinement patch

  /** The characters `/\n|;|•/` cuts a reply at. */
  const ReframeSeps: set<char> := {'\n', ';', '•'}

  /** A reply read as a list of reframes: cut at the separators, trimmed, and
      with empty pieces dropped. */
  function SplitReframes(text: string): (r: seq<string>)
    ensures forall i :: 0 <= i < |r| ==> r[i] != [] && Trimmed(r[i]) && Avoids(r[i], ReframeSeps)
  {
    SplitTrimmed(text, ReframeSeps)
  }

  /** Pieces come out in the order they stand in the reply. */
  lemma SplitReframesAt(a: string, c: char, b: string)
    requires c in ReframeSeps
    ensures SplitReframes(a + [c] + b) == SplitReframes(a) + SplitReframes(b)
  {
    SplitTrimmedAtSeparator(a, c, b, ReframeSeps);
  }

  /** The one field a refinement overwrites. */
  datatype Patch =
    | NotesPatch(notes: string)
    | AnalysisPatch(analysis: string)
    | ReframesPatch(reframes: seq<string>)

  /** The patch `applyRefinement` builds from the reply text for a session of
      action `a`. */
  function RefinementPatch(a: ActionId, text: string): (p: Patch)
    ensures p.NotesPatch? <==> a == Action1
    ensures p.AnalysisPatch? <==> a == Action2
    ensures p.ReframesPatch? <==> a == Action3
    ensures p.NotesPatch? ==> p.notes == text
    ensures p.AnalysisPatch? ==> p.analysis == text
    ensures p.ReframesPatch? ==>
      forall i :: 0 <= i < |p.reframes| ==>
        p.reframes[i] != [] && Trimmed(p.reframes[i]) && Avoids(p.reframes[i], ReframeSeps)
  {
    match a
    case Action1 => NotesPatch(text)
    case Action2 => AnalysisPatch(text)
    case Action3 => ReframesPatch(SplitReframes(text))
  }

  /** The context text and the refinement agree on reframes: refining an
      action-3 session with the reframe list its context shows gives back the
      same list, as long as each entry is trimmed, non-empty and free of
      separators. */
  lemma ContextReframesRefine(s: Session)
    requires s.SessionAction3?
    requires forall i :: 0 <= i < |s.reframes| ==>
      s.reframes[i] != [] && Trimmed(s.reframes[i]) && Avoids(s.reframes[i], ReframeSeps)
    ensures var ctx := SystemContextOf(s);
      var listed := Join(s.reframes, ReframeGlue);
      && ctx[|ctx| - |listed|..] == listed
      && RefinementPatch(Action3, listed) == ReframesPatch(s.reframes)
  {
    assert ReframeGlue == [';', ' '];
    SplitTrimmedJoin(s.reframes, ';', ReframeSeps);
  }

  // ---------------------------------------------------------------------------
  // Applying the latest reply

  /** `r` is the text of the most recent model turn of `messages`, if any. */
  predicate LatestModel(messages: seq<Turn>, r: Option<string>) {
    && (r.None? <==> forall i :: 0 <= i < |messages| ==> messages[i].role != Model)
    && (r.Some? ==> exists i :: 0 <= i < |messages| && messages[i] == Turn(Model, r.value) &&
                      forall k :: i < k < |messages| ==> messages[k].role != Model)
  }

  /** The text of the most recent model turn. */
  function LastModelTurn(messages: seq<Turn>): (r: Option<string>)
    ensures LatestModel(messages, r)
    decreases |messages|
  {
    if messages == [] then None
    else if messages[|messages| - 1].role == Model then
      LatestModelLast(messages);
      Some(messages[|messages| - 1].text)
    else
      var r := LastModelTurn(messages[..|messages| - 1]);
      LatestModelStep(messages, r);
      r
  }

  /** A trailing model turn is the latest one. */
  lemma LatestModelLast(messages: seq<Turn>)
    requires messages != [] && messages[|messages| - 1].role == Model
    ensures LatestModel(messages, Some(messages[|messages| - 1].text))
  {
    var i := |messages| - 1;
    assert messages[i] == Turn(Model, messages[i].text);
  }

  /** A trailing user turn leaves the latest model turn where it was. */
  lemma LatestModelStep(messages: seq<Turn>, r: Option<string>)
    requires messages != [] && messages[|messages| - 1].role != Model
    requires LatestModel(messages[..|messages| - 1], r)
    ensures LatestModel(messages, r)
  {
    var front := messages[..|messages| - 1];
    assert forall k :: 0 <= k < |front| ==> front[k] == messages[k];
    if r.Some? {
      var i :| 0 <= i < |front| && front[i] == Turn(Model, r.value) &&
               forall k :: i < k < |front| ==> front[k].role != Model;
      assert messages[i] == Turn(Model, r.value);
      assert forall k :: i < k < |messages| ==> messages[k].role != Model;
    }
  }

  /** A later user turn does not hide the reply before it. */
  lemma LastModelTurnSkipsUser(messages: seq<Turn>, text: string)
    ensures LastModelTurn(messages + [Turn(User, text)]) == LastModelTurn(messages)
  {
    assert (messages + [Turn(User, text)])[..|messages|] == messages;
  }

  /** A new model turn is the one a refinement reads. */
  lemma LastModelTurnIsNewest(messages: seq<Turn>, text: string)
    ensures LastModelTurn(messages + [Turn(Model, text)]) == Some(text)
  {
  }

  datatype Refinement =
    | Skip                             // nothing selected, or the record is gone
    | NoReply                          // no model turn yet
    | Apply(id: string, patch: Patch)  // `updateSessionById(id, patch)`
  {
    /** The alert the outcome shows. */
    function Alert(): Option<string> {
      match this
      case Skip => None
      case NoReply => Some("모델 응답이 없습니다")
      case Apply(_, _) => Some("기록에 반영되었습니다.")
    }
  }

  /** `applyRefinement`. `stored` is what `getSessionById(selected.id)` returns. */
  function ApplyRefinement(selected: Option<Session>, messages: seq<Turn>, stored: Option<Session>): (r: Refinement)
    ensures selected.None? ==> r == Skip
    ensures selected.Some? ==> (r == NoReply <==> forall i :: 0 <= i < |messages| ==> messages[i].role != Model)
    ensures r.Apply? <==> selected.Some? && stored.Some? && exists i :: 0 <= i < |messages| && messages[i].role == Model
    ensures r.Apply? ==> r.id == stored.value.id
    ensures r.Apply? ==> (r.patch.NotesPatch? <==> stored.value.SessionAction1?)
    ensures r.Apply? ==> (r.patch.AnalysisPatch? <==> stored.value.SessionAction2?)
    ensures r.Apply? ==> (r.patch.ReframesPatch? <==> stored.value.SessionAction3?)
  {
    if selected.None? then Skip
    else match LastModelTurn(messages)
      case None => NoReply
      case Some(text) =>
        if stored.None? then Skip
        else Apply(stored.value.id, RefinementPatch(stored.value.Action(), text))
  }

  /** The refinement takes the newest model turn, whatever user turns follow it. */
  lemma RefineUsesLatest(selected: Session, messages: seq<Turn>, text: string,
                         asks: seq<string>, stored: Session)
    ensures ApplyRefinement(Some(selected), messages + [Turn(Model, text)] + Map(UserTurn, asks), Some(stored))
         == Apply(stored.id, RefinementPatch(stored.Action(), text))
  {
    var before := messages + [Turn(Model, text)];
    var asked := Map(UserTurn, asks);
    assert forall i :: 0 <= i < |asked| ==> asked[i].role != Model;
    LastModelTurnIsNewest(messages, text);
    LastModelTurnSkipsUsers(before, asked);
  }

  /** Any run of turns without a model turn leaves the newest model turn as it was. */
  lemma {:induction false} LastModelTurnSkipsUsers(before: seq<Turn>, tail: seq<Turn>)
    requires forall i :: 0 <= i < |tail| ==> tail[i].role != Model
    ensures LastModelTurn(before + tail) == LastModelTurn(before)
    decreases |tail|
  {
    if tail == [] {
      assert before + tail == before;
    } else {
      var first := tail[0];
      assert first == Turn(User, first.text);
      assert before + tail == (before + [first]) + tail[1..];
      LastModelTurnSkipsUser(before, first.text);
      LastModelTurnSkipsUsers(before + [first], tail[1..]);
    }
  }

  function UserTurn(text: string): Turn {
    Turn(User, text)
  }

  // ---------------------------------------------------------------------------
  // Sending a message

  datatype Chat = Chat(messages: seq<Turn>, input: string)

  /** The chat after `send`, the alert it showed and the prompt it sent. */
  datatype SendOutcome = SendOutcome(chat: Chat, alert: Option<string>, prompt: Option<string>)

  const KeyAlert: string := "먼저 API Key를 입력하세요"
  const SelectAlert: string := "먼저 기록을 선택하세요"
  const PromptHead: string := "다음 사용자의 기존 기록을 더 명확하고 간결하게 다듬어 주세요. 필요하면 구조화해서 제안하세요.\n\n[현재 기록]\n"
  const RequestHead: string := "\n\n[사용자 요청]\n"

  /** The prompt: a fixed instruction, the session's context, then the request. */
  function RefinePrompt(s: Session, text: string): (r: string)
    ensures PromptHead + SystemContextOf(s) + RequestHead <= r
    ensures |text| <= |r| && r[|r| - |text|..] == text
  {
    var front := PromptHead + SystemContextOf(s) + RequestHead;
    assert (front + text)[..|front|] == front;
    front + text
  }

  /** `send`: the key check comes first, then a blank input does nothing, then
      a missing selection is refused; otherwise the trimmed input and the
      model's reply (or the failure text) are appended in that order. */
  function Send(apiKey: string, c: Chat, selected: Option<Session>, reply: Reply): (r: SendOutcome)
    ensures apiKey == [] ==> r == SendOutcome(c, Some(KeyAlert), None)
    ensures apiKey != [] && Blank(c.input) ==> r == SendOutcome(c, None, None)
    ensures apiKey != [] && !Blank(c.input) && selected.None? ==> r == SendOutcome(c, Some(SelectAlert), None)
    ensures r.prompt.Some? <==> apiKey != [] && !Blank(c.input) && selected.Some?
    ensures r.prompt.Some? ==>
      && r.alert.None?
      && r.chat.input == []
      && r.chat.messages == c.messages + [Turn(User, Trim(c.input)), Turn(Model, ReplyText(reply))]
      && Trim(c.input) != []
      && r.prompt.value == RefinePrompt(selected.value, Trim(c.input))
  {
    if apiKey == [] then SendOutcome(c, Some(KeyAlert), None)
    else
      var text := Trim(c.input);
      if text == [] then SendOutcome(c, None, None)
      else if selected.None? then SendOutcome(c, Some(SelectAlert), None)
      else
        SendOutcome(Chat(c.messages + [Turn(User, text), Turn(Model, ReplyText(reply))], []),
                    None, Some(RefinePrompt(selected.value, text)))
  }

  /** Sending and then refining writes the reply just received into the record. */
  lemma SendThenRefine(apiKey: string, c: Chat, selected: Session, reply: Reply, stored: Session)
    requires apiKey != [] && !Blank(c.input)
    ensures ApplyRefinement(Some(selected), Send(apiKey, c, Some(selected), reply).chat.messages, Some(stored))
         == Apply(stored.id, RefinementPatch(stored.Action(), ReplyText(reply)))
  {
    var ms := c.messages + [Turn(User, Trim(c.input)), Turn(Model, ReplyText(reply))];
    assert ms == (c.messages + [Turn(User, Trim(c.input))]) + [Turn(Model, ReplyText(reply))];
    LastModelTurnIsNewest(c.messages + [Turn(User, Trim(c.input))], ReplyText(reply));
  }
}
