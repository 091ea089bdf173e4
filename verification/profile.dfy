/** The user profile: one JSON object under its own local-storage key,
    normalised field by field when it is loaded, and edited one field at a
    time on the profile screen. */
module Profile {
  import opened Wrappers
  import opened Seqs
  import opened Text
  import opened JsonModel

  /** `UserProfile`; an optional field that is `undefined` is `None`. */
  datatype UserProfile = UserProfile(
    name: string,
    title: Option<string>,
    email: Option<string>,
    website: Option<string>,
    bio: Option<string>,
    expertise: Option<seq<string>>,
    persona: Option<string>,
    goals: Option<string>,
    useInPrompts: Option<bool>)

  /** `{ name: '' }`: what loading falls back to, and the screen's first state. */
  const NameOnly: UserProfile := UserProfile("", None, None, None, None, None, None, None, None)

  /** The text under the profile key; `None` when the key is absent. */
  type Slot = Option<string>

  // ---------------------------------------------------------------------------
  // Loading

  /** `obj.key ? String(obj.key) : undefined`. */
  function TextField(obj: Json, key: string): (r: Option<string>)
    ensures r.Some? <==> TruthyRead(Field(obj, key))
    ensures r.Some? ==> r.value == ToJsString(Field(obj, key).value)
  {
    if TruthyRead(Field(obj, key)) then Some(ToJsString(Field(obj, key).value)) else None
  }

  /** The object literal `loadProfile` builds from a parsed value that is not `null`. */
  function Normalise(obj: Json): (p: UserProfile)
    ensures p.name == if TruthyRead(Field(obj, "name")) then ToJsString(Field(obj, "name").value) else ""
    ensures p.expertise.Some? <==> Field(obj, "expertise").Some? && Field(obj, "expertise").value.JArr?
    ensures p.expertise.Some? ==>
      var items := Field(obj, "expertise").value.items;
      |p.expertise.value| == |items| && forall i :: 0 <= i < |items| ==> p.expertise.value[i] == ToJsString(items[i])
    ensures p.useInPrompts == Some(TruthyRead(Field(obj, "useInPrompts")))
  {
    UserProfile(
      if TruthyRead(Field(obj, "name")) then ToJsString(Field(obj, "name").value) else "",
      TextField(obj, "title"),
      TextField(obj, "email"),
      TextField(obj, "website"),
      TextField(obj, "bio"),
      match Field(obj, "expertise") case Some(JArr(items)) => Some(Map(ToJsString, items)) case _ => None,
      TextField(obj, "persona"),
      TextField(obj, "goals"),
      Some(TruthyRead(Field(obj, "useInPrompts"))))
  }

  /** The cases in which `loadProfile` returns `{ name: '' }`: no text or empty
      text, text that does not parse, or `null`, whose property read throws. */
  predicate FallsBack(c: Codec, slot: Slot) {
    slot.None? || slot.value == [] || c.parse(slot.value).Err? || c.parse(slot.value).value.JNull?
  }

  /** `loadProfile()`. */
  function LoadProfile(c: Codec, slot: Slot): (p: UserProfile)
    ensures FallsBack(c, slot) ==> p == NameOnly
    ensures !FallsBack(c, slot) ==> p == Normalise(c.parse(slot.value).value) && p.useInPrompts.Some?
  {
    if FallsBack(c, slot) then NameOnly else Normalise(c.parse(slot.value).value)
  }

  // ---------------------------------------------------------------------------
  // Saving

  /** Adds a text field when it is defined; `JSON.stringify` leaves out `undefined`. */
  function PutText(m: map<string, Json>, key: string, v: Option<string>): map<string, Json> {
    if v.Some? then m[key := JStr(v.value)] else m
  }

  /** The object `JSON.stringify(p)` writes. */
  function ProfileJson(p: UserProfile): Json {
    var m0 := map["name" := JStr(p.name)];
    var m1 := PutText(PutText(PutText(PutText(m0, "title", p.title), "email", p.email), "website", p.website), "bio", p.bio);
    var m2 := if p.expertise.Some? then m1["expertise" := JArr(Map(StringJson, p.expertise.value))] else m1;
    var m3 := PutText(PutText(m2, "persona", p.persona), "goals", p.goals);
    var m4 := if p.useInPrompts.Some? then m3["useInPrompts" := JBool(p.useInPrompts.value)] else m3;
    JObj(m4)
  }

  /** `saveProfile(p)`: the whole object replaces what was stored. */
  function SaveProfile(c: Codec, p: UserProfile): (r: Slot)
    ensures r.Some?
  {
    Some(c.stringify(ProfileJson(p), 0))
  }

  // ---------------------------------------------------------------------------
  // Normalisation round trips

  /** The shape a loaded profile has after one save: every defined text field
      is non-empty and `useInPrompts` is defined. */
  predicate Normal(p: UserProfile) {
    && (p.title.None? || p.title.value != [])
    && (p.email.None? || p.email.value != [])
    && (p.website.None? || p.website.value != [])
    && (p.bio.None? || p.bio.value != [])
    && (p.persona.None? || p.persona.value != [])
    && (p.goals.None? || p.goals.value != [])
    && p.useInPrompts.Some?
  }

  /** How `JSON.stringify` writes a field's value; `undefined` is left out. */
  function Stored(v: Value): Option<Json> {
    match v
    case Missing => None
    case Text(t) => Some(JStr(t))
    case Texts(ts) => Some(JArr(Map(StringJson, ts)))
    case Flag(b) => Some(JBool(b))
  }

  /** Every field of the profile is written under its own name, and only the
      defined ones. */
  lemma ProfileJsonField(p: UserProfile, k: Key)
    ensures Field(ProfileJson(p), KeyName(k)) == Stored(Get(p, k))
  {
    match k
    case Name => NameWritten(p);
    case Title => TitleWritten(p);
    case Email => EmailWritten(p);
    case Website => WebsiteWritten(p);
    case Bio => BioWritten(p);
    case Expertise => ExpertiseWritten(p);
    case Persona => PersonaWritten(p);
    case Goals => GoalsWritten(p);
    case UseInPrompts => UseInPromptsWritten(p);
  }

  lemma NameWritten(p: UserProfile)
    ensures Field(ProfileJson(p), "name") == Some(JStr(p.name))
  {}
  lemma TitleWritten(p: UserProfile)
    ensures Field(ProfileJson(p), "title") == Stored(OfText(p.title))
  {}
  lemma EmailWritten(p: UserProfile)
    ensures Field(ProfileJson(p), "email") == Stored(OfText(p.email))
  {}
  lemma WebsiteWritten(p: UserProfile)
    ensures Field(ProfileJson(p), "website") == Stored(OfText(p.website))
  {}
  lemma BioWritten(p: UserProfile)
    ensures Field(ProfileJson(p), "bio") == Stored(OfText(p.bio))
  {}
  lemma ExpertiseWritten(p: UserProfile)
    ensures Field(ProfileJson(p), "expertise") == Stored(Get(p, Expertise))
  {}
  lemma PersonaWritten(p: UserProfile)
    ensures Field(ProfileJson(p), "persona") == Stored(OfText(p.persona))
  {}
  lemma GoalsWritten(p: UserProfile)
    ensures Field(ProfileJson(p), "goals") == Stored(OfText(p.goals))
  {}
  lemma UseInPromptsWritten(p: UserProfile)
    ensures Field(ProfileJson(p), "useInPrompts") == Stored(Get(p, UseInPrompts))
  {}

  lemma {:induction false} StringsReadBack(xs: seq<string>)
    ensures Map(ToJsString, Map(StringJson, xs)) == xs
  {
    var r := Map(ToJsString, Map(StringJson, xs));
    assert forall i :: 0 <= i < |xs| ==> r[i] == ToJsString(JStr(xs[i]));
  }

  /** What loading makes of a saved profile, field by field. */
  lemma LoadSaved(c: Codec, p: UserProfile)
    requires Faithful(c)
    ensures LoadProfile(c, SaveProfile(c, p)) == Resaved(p)
  {
    var j := ProfileJson(p);
    assert c.parse(c.stringify(j, 0)) == Ok(j) && c.stringify(j, 0) != [];
    NormaliseStored(p);
  }

  /** The profile a save and a load make of `p`: empty text fields are
      dropped and `useInPrompts` becomes a boolean. */
  function Resaved(p: UserProfile): UserProfile {
    p.(title := NonEmptyText(p.title), email := NonEmptyText(p.email),
       website := NonEmptyText(p.website), bio := NonEmptyText(p.bio),
       persona := NonEmptyText(p.persona), goals := NonEmptyText(p.goals),
       useInPrompts := Some(p.useInPrompts.Some? && p.useInPrompts.value))
  }

  function NonEmptyText(v: Option<string>): Option<string> {
    if v.Some? && v.value != [] then v else None
  }

  lemma NormaliseStored(p: UserProfile)
    ensures Normalise(ProfileJson(p)) == Resaved(p)
  {
    forall k: Key ensures Field(ProfileJson(p), KeyName(k)) == Stored(Get(p, k)) {
      ProfileJsonField(p, k);
    }
    NormaliseOf(ProfileJson(p), p);
  }

  /** Normalising any object whose fields are those `JSON.stringify` writes for `p`. */
  lemma NormaliseOf(j: Json, p: UserProfile)
    requires forall k: Key :: Field(j, KeyName(k)) == Stored(Get(p, k))
    ensures Normalise(j) == Resaved(p)
  {
    var q := Normalise(j);
    NormaliseName(j, p);
    NormaliseTexts(j, p);
    NormaliseExpertise(j, p);
    assert Field(j, KeyName(UseInPrompts)) == Stored(Get(p, UseInPrompts));
    assert q.useInPrompts == Resaved(p).useInPrompts;
  }

  lemma NormaliseName(j: Json, p: UserProfile)
    requires forall k: Key :: Field(j, KeyName(k)) == Stored(Get(p, k))
    ensures Normalise(j).name == p.name
  {
    assert Field(j, KeyName(Name)) == Stored(Get(p, Name));
  }

  lemma NormaliseTexts(j: Json, p: UserProfile)
    requires forall k: Key :: Field(j, KeyName(k)) == Stored(Get(p, k))
    ensures var q := Normalise(j);
      && q.title == NonEmptyText(p.title) && q.email == NonEmptyText(p.email)
      && q.website == NonEmptyText(p.website) && q.bio == NonEmptyText(p.bio)
      && q.persona == NonEmptyText(p.persona) && q.goals == NonEmptyText(p.goals)
  {
    ReadText(j, p, Title);
    ReadText(j, p, Email);
    ReadText(j, p, Website);
    ReadText(j, p, Bio);
    ReadText(j, p, Persona);
    ReadText(j, p, Goals);
  }

  lemma NormaliseExpertise(j: Json, p: UserProfile)
    requires forall k: Key :: Field(j, KeyName(k)) == Stored(Get(p, k))
    ensures Normalise(j).expertise == p.expertise
  {
    assert Field(j, KeyName(Expertise)) == Stored(Get(p, Expertise));
    if p.expertise.Some? {
      StringsReadBack(p.expertise.value);
    }
  }

  lemma ReadText(j: Json, p: UserProfile, k: Key)
    requires k in {Title, Email, Website, Bio, Persona, Goals}
    requires Field(j, KeyName(k)) == Stored(Get(p, k))
    ensures TextField(j, KeyName(k)) == NonEmptyText(AsText(Get(p, k)))
  {
  }

  /** A normal profile survives a save and a load unchanged. */
  lemma LoadSaveNormal(c: Codec, p: UserProfile)
    requires Faithful(c)
    requires Normal(p)
    ensures LoadProfile(c, SaveProfile(c, p)) == p
  {
    LoadSaved(c, p);
  }

  /** Whatever was saved loads back normal. */
  lemma SavedLoadsNormal(c: Codec, p: UserProfile)
    requires Faithful(c)
    ensures Normal(LoadProfile(c, SaveProfile(c, p)))
  {
    LoadSaved(c, p);
  }

  /** From the second save on, saving a loaded profile and loading again
      returns the same profile. */
  lemma SecondRoundStable(c: Codec, slot: Slot)
    requires Faithful(c)
    ensures var once := LoadProfile(c, SaveProfile(c, LoadProfile(c, slot)));
      LoadProfile(c, SaveProfile(c, once)) == once
  {
    var once := LoadProfile(c, SaveProfile(c, LoadProfile(c, slot)));
    SavedLoadsNormal(c, LoadProfile(c, slot));
    LoadSaveNormal(c, once);
  }

  /** The first round is not always stable: the fallback `{ name: '' }` comes
      back with `useInPrompts` set to `false`. */
  lemma FirstRoundMayDiffer(c: Codec)
    requires Faithful(c)
    ensures LoadProfile(c, None) == NameOnly
    ensures LoadProfile(c, SaveProfile(c, LoadProfile(c, None))) == NameOnly.(useInPrompts := Some(false))
  {
    LoadSaved(c, NameOnly);
  }

  // ---------------------------------------------------------------------------
  // Editing

  datatype Key = Name | Title | Email | Website | Bio | Expertise | Persona | Goals | UseInPrompts

  /** The property name of a field. */
  function KeyName(k: Key): string {
    match k
    case Name => "name"
    case Title => "title"
    case Email => "email"
    case Website => "website"
    case Bio => "bio"
    case Expertise => "expertise"
    case Persona => "persona"
    case Goals => "goals"
    case UseInPrompts => "useInPrompts"
  }

  /** A field's value; `Missing` is `undefined`. */
  datatype Value = Missing | Text(text: string) | Texts(texts: seq<string>) | Flag(flag: bool)

  function OfText(v: Option<string>): Value {
    if v.Some? then Text(v.value) else Missing
  }

  function AsText(v: Value): Option<string> {
    if v.Text? then Some(v.text) else None
  }

  /** `p[key]`. */
  function Get(p: UserProfile, k: Key): Value {
    match k
    case Name => Text(p.name)
    case Title => OfText(p.title)
    case Email => OfText(p.email)
    case Website => OfText(p.website)
    case Bio => OfText(p.bio)
    case Expertise => if p.expertise.Some? then Texts(p.expertise.value) else Missing
    case Persona => OfText(p.persona)
    case Goals => OfText(p.goals)
    case UseInPrompts => if p.useInPrompts.Some? then Flag(p.useInPrompts.value) else Missing
  }

  /** `UserProfile[K]`: the values the type checker lets `update(k, v)` take. */
  predicate Fits(k: Key, v: Value) {
    match k
    case Name => v.Text?
    case Expertise => v.Texts? || v.Missing?
    case UseInPrompts => v.Flag? || v.Missing?
    case _ => v.Text? || v.Missing?
  }

  /** `update(k, v)`: `{ ...prev, [k]: v }`. */
  function Update(p: UserProfile, k: Key, v: Value): (r: UserProfile)
    requires Fits(k, v)
    ensures Get(r, k) == v
    ensures forall k' :: k' != k ==> Get(r, k') == Get(p, k')
  {
    match k
    case Name => p.(name := v.text)
    case Title => p.(title := AsText(v))
    case Email => p.(email := AsText(v))
    case Website => p.(website := AsText(v))
    case Bio => p.(bio := AsText(v))
    case Expertise => p.(expertise := if v.Texts? then Some(v.texts) else None)
    case Persona => p.(persona := AsText(v))
    case Goals => p.(goals := AsText(v))
    case UseInPrompts => p.(useInPrompts := if v.Flag? then Some(v.flag) else None)
  }

  /** A profile is determined by its fields. */
  lemma GetDetermines(p: UserProfile, q: UserProfile)
    requires forall k :: Get(p, k) == Get(q, k)
    ensures p == q
  {
    assert Get(p, Name) == Get(q, Name);
    assert Get(p, Title) == Get(q, Title);
    assert Get(p, Email) == Get(q, Email);
    assert Get(p, Website) == Get(q, Website);
    assert Get(p, Bio) == Get(q, Bio);
    assert Get(p, Expertise) == Get(q, Expertise);
    assert Get(p, Persona) == Get(q, Persona);
    assert Get(p, Goals) == Get(q, Goals);
    assert Get(p, UseInPrompts) == Get(q, UseInPrompts);
  }

  /** Edits of two different fields commute. */
  lemma UpdatesCommute(p: UserProfile, k: Key, v: Value, k': Key, v': Value)
    requires k != k' && Fits(k, v) && Fits(k', v')
    ensures Update(Update(p, k, v), k', v') == Update(Update(p, k', v'), k, v)
  {
    GetDetermines(Update(Update(p, k, v), k', v'), Update(Update(p, k', v'), k, v));
  }

  /** Writing a field's own value back changes nothing. */
  lemma UpdateSame(p: UserProfile, k: Key)
    ensures Fits(k, Get(p, k)) && Update(p, k, Get(p, k)) == p
  {
    GetDetermines(Update(p, k, Get(p, k)), p);
  }

  // ---------------------------------------------------------------------------
  // The expertise input

  /** `value.split(',').map(s => s.trim()).filter(Boolean)`. */
  function ParseExpertise(text: string): (r: seq<string>)
    ensures forall i :: 0 <= i < |r| ==> r[i] != [] && Trimmed(r[i]) && Avoids(r[i], {','})
  {
    SplitTrimmed(text, {','})
  }

  /** `(p.expertise || []).join(', ')`. */
  function ShowExpertise(p: UserProfile): string {
    Join(p.expertise.GetOr([]), ", ")
  }

  /** Reading back the shown list gives the list, when its entries are
      trimmed, non-empty and free of commas. */
  lemma ExpertiseRoundTrip(xs: seq<string>)
    requires forall i :: 0 <= i < |xs| ==> xs[i] != [] && Trimmed(xs[i]) && Avoids(xs[i], {','})
    ensures ParseExpertise(Join(xs, ", ")) == xs
  {
    var seps: set<char> := {','};
    assert ',' in seps && ' ' !in seps;
    SplitTrimmedJoin(xs, ',', seps);
    assert ", " == [',', ' '];
  }

  /** Typing the shown text back into the input leaves the profile as it is. */
  lemma ExpertiseEditStable(p: UserProfile)
    requires p.expertise.Some?
    requires forall i :: 0 <= i < |p.expertise.value| ==>
      p.expertise.value[i] != [] && Trimmed(p.expertise.value[i]) && Avoids(p.expertise.value[i], {','})
    ensures Update(p, Expertise, Texts(ParseExpertise(ShowExpertise(p)))) == p
  {
    ExpertiseRoundTrip(p.expertise.value);
  }
}
