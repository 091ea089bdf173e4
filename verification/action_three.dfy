/** The action-3 form: a problem and a growing list of reframe fields. Submit
    stores the non-blank reframes as a new session at the front of the store. */
module ActionThree {
  import opened Wrappers
  import opened Seqs
  import opened Text
  import opened JsonModel
  import opened Types
  import opened Storage

  datatype Form = Form(problem: string, reframes: seq<string>)

  /** The form the screen starts with and returns to after a submit. */
  const EmptyForm: Form := Form("", ["", "", ""])

  /** `updateReframe(idx, value)`: the field at `idx` takes `value`; an index
      outside the list changes nothing. */
  function UpdateReframe(xs: seq<string>, idx: int, value: string): (r: seq<string>)
    ensures |r| == |xs|
    ensures 0 <= idx < |xs| ==> r[idx] == value
    ensures forall i :: 0 <= i < |xs| && i != idx ==> r[i] == xs[i]
    ensures !(0 <= idx < |xs|) ==> r == xs
  {
    if 0 <= idx < |xs| then xs[idx := value] else xs
  }

  /** Writing a field twice keeps only the second value. */
  lemma UpdateReframeTwice(xs: seq<string>, idx: int, v: string, w: string)
    ensures UpdateReframe(UpdateReframe(xs, idx, v), idx, w) == UpdateReframe(xs, idx, w)
  {
  }

  /** Writing back the value a field already holds changes nothing. */
  lemma UpdateReframeSame(xs: seq<string>, idx: nat)
    requires idx < |xs|
    ensures UpdateReframe(xs, idx, xs[idx]) == xs
  {
  }

  /** `addReframe()`: one more empty field at the end. */
  function AddReframe(xs: seq<string>): (r: seq<string>)
    ensures |r| == |xs| + 1 && r[..|xs|] == xs && r[|xs|] == ""
  {
    xs + [""]
  }

  /** `r.trim().length > 0`. */
  function Filled(x: string): bool {
    Trim(x) != []
  }

  /** The reframes a submit stores: the non-blank fields, in order, as typed. */
  function SubmittedReframes(xs: seq<string>): (r: seq<string>)
    ensures |r| <= |xs|
    ensures forall i :: 0 <= i < |r| ==> !Blank(r[i]) && r[i] in xs
    ensures forall i :: 0 <= i < |xs| && !Blank(xs[i]) ==> xs[i] in r
  {
    var r := Filter(Filled, xs);
    assert forall i :: 0 <= i < |xs| && !Blank(xs[i]) ==> Filled(xs[i]);
    r
  }

  /** Fields are submitted in the order they stand in the form. */
  lemma SubmittedAppend(xs: seq<string>, ys: seq<string>)
    ensures SubmittedReframes(xs + ys) == SubmittedReframes(xs) + SubmittedReframes(ys)
  {
    FilterAppend(Filled, xs, ys);
  }

  /** An added field left empty is not submitted. */
  lemma SubmittedIgnoresAdded(xs: seq<string>)
    ensures SubmittedReframes(AddReframe(xs)) == SubmittedReframes(xs)
  {
    SubmittedAppend(xs, [""]);
    assert Filter(Filled, [""]) == [];
  }

  /** A filled field is stored as typed, surrounding spaces included. */
  lemma SubmittedKeepsFilled(xs: seq<string>)
    requires forall i :: 0 <= i < |xs| ==> !Blank(xs[i])
    ensures SubmittedReframes(xs) == xs
  {
    FilterAll(Filled, xs);
  }

  /** No minimum count is enforced: one filled field out of three is stored alone. */
  lemma SubmittedMayBeShort(x: string)
    requires !Blank(x)
    ensures SubmittedReframes([x, "", ""]) == [x]
  {
    assert [x, "", ""] == [x] + ["", ""];
    SubmittedAppend([x], ["", ""]);
    assert Filter(Filled, ["", ""]) == [];
    SubmittedKeepsFilled([x]);
  }

  /** The session a submit creates; `id` and `createdAt` come from outside. */
  function SubmittedSession(form: Form, id: string, createdAt: string): Session {
    SessionAction3(id, createdAt, form.problem, SubmittedReframes(form.reframes))
  }

  datatype Submitted = Submitted(slot: Slot, form: Form)

  /** `handleSubmit`, behind the form's own check: the problem field is
      `required`, so with it empty the browser never submits and nothing
      changes. Otherwise the session is stored in front of the others and the
      form is reset. */
  function Submit(c: Codec, slot: Slot, form: Form, id: string, createdAt: string): (r: Submitted)
    ensures form.problem == [] ==> r == Submitted(slot, form)
    ensures form.problem != [] ==> r.form == EmptyForm
    ensures form.problem != [] && Faithful(c) ==>
      LoadState(c, r.slot) == [Encode(SubmittedSession(form, id, createdAt))] + LoadState(c, slot)
  {
    if form.problem == [] then Submitted(slot, form)
    else
      var session := SubmittedSession(form, id, createdAt);
      StoredFirst(c, slot, session);
      Submitted(AddSession(c, slot, session), EmptyForm)
  }

  lemma StoredFirst(c: Codec, slot: Slot, s: Session)
    ensures Faithful(c) ==> LoadState(c, AddSession(c, slot, s)) == [Encode(s)] + LoadState(c, slot)
  {
    if Faithful(c) {
      AddSessionPrepends(c, slot, s);
    }
  }

  /** With the problem left empty, submitting stores nothing and keeps the form. */
  lemma SubmitNeedsProblem(c: Codec, slot: Slot, form: Form, id: string, createdAt: string)
    requires form.problem == []
    ensures LoadState(c, Submit(c, slot, form, id, createdAt).slot) == LoadState(c, slot)
    ensures Submit(c, slot, form, id, createdAt).form == form
  {
  }

  /** After a submit the new session heads the store, ahead of everything
      that was there, and reads back with the form's problem and filled
      reframes. */
  lemma SubmitPrepends(c: Codec, slot: Slot, form: Form, id: string, createdAt: string)
    requires Faithful(c) && form.problem != []
    ensures var after := LoadState(c, Submit(c, slot, form, id, createdAt).slot);
      && after == [Encode(SubmittedSession(form, id, createdAt))] + LoadState(c, slot)
      && Decode(after[0]) == Some(SessionAction3(id, createdAt, form.problem, SubmittedReframes(form.reframes)))
  {
    DecodeEncode(SubmittedSession(form, id, createdAt));
  }

  /** `getSessions('action-3').slice(0, 3)`. */
  function Recent(c: Codec, slot: Slot): (r: Result<seq<Json>, StoreError>)
    ensures r.Err? <==> JNull in LoadState(c, slot)
    ensures r.Ok? ==> r.value <= OfAction(LoadState(c, slot), Action3)
    ensures r.Ok? ==> |r.value| == if |OfAction(LoadState(c, slot), Action3)| < 3 then |OfAction(LoadState(c, slot), Action3)| else 3
  {
    match GetSessions(c, slot, Some(Action3))
    case Ok(all) => Ok(Take(all, 3))
    case Err(e) => Err(e)
  }

  /** On a store of typed sessions, the recent list is the first three
      action-3 sessions in store order. */
  lemma RecentTyped(c: Codec, slot: Slot, ss: seq<Session>)
    requires LoadState(c, slot) == EncodeAll(ss)
    ensures Recent(c, slot) == Ok(Take(EncodeAll(SessionsOfAction(ss, Action3)), 3))
  {
    GetSessionsTyped(c, slot, ss, Action3);
  }

  /** A session just submitted heads the recent list, followed by the two
      newest action-3 sessions that were there before. */
  lemma SubmitShowsFirst(c: Codec, slot: Slot, ss: seq<Session>, form: Form, id: string, createdAt: string)
    requires Faithful(c) && form.problem != []
    requires LoadState(c, slot) == EncodeAll(ss)
    ensures Recent(c, Submit(c, slot, form, id, createdAt).slot)
         == Ok([Encode(SubmittedSession(form, id, createdAt))] + Take(EncodeAll(SessionsOfAction(ss, Action3)), 2))
  {
    var s := SubmittedSession(form, id, createdAt);
    var after := Submit(c, slot, form, id, createdAt).slot;
    EncodeAllCons(s, ss);
    RecentTyped(c, after, [s] + ss);
    SessionsOfActionCons(s, ss);
    EncodeAllCons(s, SessionsOfAction(ss, Action3));
    TakeCons(Encode(s), EncodeAll(SessionsOfAction(ss, Action3)), 2);
  }

  lemma TakeCons<T>(x: T, xs: seq<T>, n: nat)
    ensures Take([x] + xs, n + 1) == [x] + Take(xs, n)
  {
    if |xs| > n {
      assert ([x] + xs)[..n + 1] == [x] + xs[..n];
    }
  }

  lemma EncodeAllCons(s: Session, ss: seq<Session>)
    ensures EncodeAll([s] + ss) == [Encode(s)] + EncodeAll(ss)
  {
  }

  lemma SessionsOfActionCons(s: Session, ss: seq<Session>)
    requires s.SessionAction3?
    ensures SessionsOfAction([s] + ss, Action3) == [s] + SessionsOfAction(ss, Action3)
  {
    assert ([s] + ss)[1..] == ss;
  }
}
