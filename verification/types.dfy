/** The record types of the app: one session variant per action, and the
    persisted application state. */
module Types {
  import opened Wrappers
  import opened Seqs
  import opened JsonModel

  /** The closed set of action tags. */
  datatype ActionId = Action1 | Action2 | Action3 {

    /** The literal stored in a session's `actionId` field. */
    function Tag(): (t: string)
      ensures |t| == 8 && t[..7] == "action-"
    {
      match this
      case Action1 => "action-1"
      case Action2 => "action-2"
      case Action3 => "action-3"
    }
  }

  /** The action whose tag is `t`, if any. */
  function ActionOfTag(t: string): (r: Option<ActionId>)
    ensures r.Some? ==> r.value.Tag() == t
    ensures forall a: ActionId :: a.Tag() == t ==> r == Some(a)
  {
    if t == "action-1" then Some(Action1)
    else if t == "action-2" then Some(Action2)
    else if t == "action-3" then Some(Action3)
    else None
  }

  /** The fields every session carries. */
  datatype SessionBase = SessionBase(id: string, actionId: ActionId, createdAt: string)

  /** A session is exactly one of three variants; the variant fixes its tag. */
  datatype Session =
    | SessionAction1(id: string, createdAt: string, topic: string, coreQuestion: string, notes: string)
    | SessionAction2(id: string, createdAt: string, observation: string, analysis: string)
    | SessionAction3(id: string, createdAt: string, problem: string, reframes: seq<string>)
  {
    function Action(): ActionId {
      match this
      case SessionAction1(_, _, _, _, _) => Action1
      case SessionAction2(_, _, _, _) => Action2
      case SessionAction3(_, _, _, _) => Action3
    }

    function Base(): (b: SessionBase)
      ensures b.id == id && b.createdAt == createdAt
      ensures b.actionId == Action1 <==> SessionAction1?
      ensures b.actionId == Action2 <==> SessionAction2?
      ensures b.actionId == Action3 <==> SessionAction3?
    {
      SessionBase(id, Action(), createdAt)
    }
  }

  /** The application state: its one field is the session list. */
  datatype AppState = AppState(sessions: seq<Session>)

  /** The object a session is stored as. */
  function Encode(s: Session): (j: Json)
    ensures Truthy(j)
    ensures Field(j, "id") == Some(JStr(s.id))
    ensures Field(j, "actionId") == Some(JStr(s.Action().Tag()))
    ensures Field(j, "createdAt") == Some(JStr(s.createdAt))
  {
    var base := map["id" := JStr(s.id), "actionId" := JStr(s.Action().Tag()), "createdAt" := JStr(s.createdAt)];
    match s
    case SessionAction1(_, _, topic, coreQuestion, notes) =>
      JObj(base["topic" := JStr(topic)]["coreQuestion" := JStr(coreQuestion)]["notes" := JStr(notes)])
    case SessionAction2(_, _, observation, analysis) =>
      JObj(base["observation" := JStr(observation)]["analysis" := JStr(analysis)])
    case SessionAction3(_, _, problem, reframes) =>
      JObj(base["problem" := JStr(problem)]["reframes" := JArr(Map(StringJson, reframes))])
  }

  function StringField(j: Json, key: string): Option<string> {
    match Field(j, key)
    case Some(JStr(s)) => Some(s)
    case _ => None
  }

  function StringItems(items: seq<Json>): (r: Option<seq<string>>)
    ensures r.Some? ==> |r.value| == |items|
    ensures r.Some? ==> forall i :: 0 <= i < |items| ==> items[i] == JStr(r.value[i])
  {
    if items == [] then Some([])
    else if !items[0].JStr? then None
    else match StringItems(items[1..])
      case None => None
      case Some(rest) => Some([items[0].s] + rest)
  }

  /** Reads a stored object back as a typed session, when it has the shape of one. */
  function Decode(j: Json): Option<Session> {
    match (StringField(j, "id"), StringField(j, "actionId"), StringField(j, "createdAt"))
    case (Some(id), Some(tag), Some(createdAt)) =>
      (match ActionOfTag(tag)
       case Some(Action1) =>
         (match (StringField(j, "topic"), StringField(j, "coreQuestion"), StringField(j, "notes"))
          case (Some(t), Some(q), Some(n)) => Some(SessionAction1(id, createdAt, t, q, n))
          case _ => None)
       case Some(Action2) =>
         (match (StringField(j, "observation"), StringField(j, "analysis"))
          case (Some(o), Some(a)) => Some(SessionAction2(id, createdAt, o, a))
          case _ => None)
       case Some(Action3) =>
         (match (StringField(j, "problem"), Field(j, "reframes"))
          case (Some(p), Some(JArr(items))) =>
            (match StringItems(items)
             case Some(rs) => Some(SessionAction3(id, createdAt, p, rs))
             case None => None)
          case _ => None)
       case None => None)
    case _ => None
  }

  /** Storing a session loses nothing: it reads back as itself. */
  lemma DecodeEncode(s: Session)
    ensures Decode(Encode(s)) == Some(s)
  {
    match s
    case SessionAction1(_, _, _, _, _) => DecodeEncode1(s);
    case SessionAction2(_, _, _, _) => DecodeEncode2(s);
    case SessionAction3(_, _, _, _) => DecodeEncode3(s);
  }

  lemma DecodeEncode1(s: Session)
    requires s.SessionAction1?
    ensures Decode(Encode(s)) == Some(s)
  {
    EncodeHeader(s);
    var j := Encode(s);
    assert StringField(j, "topic") == Some(s.topic);
    assert StringField(j, "coreQuestion") == Some(s.coreQuestion);
    assert StringField(j, "notes") == Some(s.notes);
  }

  lemma DecodeEncode2(s: Session)
    requires s.SessionAction2?
    ensures Decode(Encode(s)) == Some(s)
  {
    EncodeHeader(s);
    var j := Encode(s);
    assert StringField(j, "observation") == Some(s.observation);
    assert StringField(j, "analysis") == Some(s.analysis);
  }

  lemma DecodeEncode3(s: Session)
    requires s.SessionAction3?
    ensures Decode(Encode(s)) == Some(s)
  {
    EncodeHeader(s);
    var j := Encode(s);
    assert StringField(j, "problem") == Some(s.problem);
    assert Field(j, "reframes") == Some(JArr(Map(StringJson, s.reframes)));
    StringItemsOfStrings(s.reframes);
  }

  /** The three header fields read back, and the tag names the variant. */
  lemma EncodeHeader(s: Session)
    ensures StringField(Encode(s), "id") == Some(s.id)
    ensures StringField(Encode(s), "actionId") == Some(s.Action().Tag())
    ensures StringField(Encode(s), "createdAt") == Some(s.createdAt)
    ensures ActionOfTag(s.Action().Tag()) == Some(s.Action())
  {
  }

  lemma {:induction false} StringItemsOfStrings(xs: seq<string>)
    ensures StringItems(Map(StringJson, xs)) == Some(xs)
  {
    if xs != [] {
      StringItemsOfStrings(xs[1..]);
      var m := Map(StringJson, xs);
      assert m[0] == JStr(xs[0]);
      assert m[1..] == Map(StringJson, xs[1..]);
      assert [xs[0]] + xs[1..] == xs;
    }
  }

  function EncodeAll(ss: seq<Session>): (r: seq<Json>)
    ensures |r| == |ss|
    ensures forall i :: 0 <= i < |ss| ==> r[i] == Encode(ss[i])
  {
    Map(Encode, ss)
  }

  /** The persisted document `{ sessions: [...] }`. Its entries are raw JSON:
      nothing on the load or import path checks their shape. */
  function StateJson(entries: seq<Json>): Json {
    JObj(map["sessions" := JArr(entries)])
  }
}
