/** The compose screen: the user ticks stored sessions and inserts a block of
    references to them into the draft. */
module Compose {
  import opened Seqs
  import opened Text
  import opened Types

  // ---------------------------------------------------------------------------
  // Selection

  /** The test `x !== id`. */
  function Other(id: string): string -> bool {
    x => x != id
  }

  /** `toggle`: an id not yet selected is appended; a selected one is removed
      wherever it occurs. */
  function Toggle(ids: seq<string>, id: string): (r: seq<string>)
    ensures id !in ids ==> r == ids + [id]
    ensures id in ids ==> id !in r && |r| < |ids|
    ensures id in ids ==> forall x :: x != id ==> (x in r <==> x in ids)
  {
    if id in ids then
      var r := Filter(Other(id), ids);
      assert forall k :: 0 <= k < |ids| && ids[k] != id ==> Other(id)(ids[k]);
      assert |r| < |ids| by {
        var k :| 0 <= k < |ids| && ids[k] == id;
        FilterDrops(Other(id), ids, k);
      }
      r
    else ids + [id]
  }

  /** Filtering away an element that occurs shortens the sequence. */
  lemma {:induction false} FilterDrops<T>(p: T -> bool, xs: seq<T>, k: nat)
    requires k < |xs| && !p(xs[k])
    ensures |Filter(p, xs)| < |xs|
  {
    if k > 0 {
      FilterDrops(p, xs[1..], k - 1);
    }
  }

  /** Toggling an id on and off again restores the selection. */
  lemma ToggleTwice(ids: seq<string>, id: string)
    requires id !in ids
    ensures Toggle(Toggle(ids, id), id) == ids
  {
    assert id in ids + [id];
    FilterAppend(Other(id), ids, [id]);
    FilterAll(Other(id), ids);
    assert Filter(Other(id), [id]) == [];
  }

  /** Toggling keeps a selection free of repetitions. */
  lemma ToggleNoDup(ids: seq<string>, id: string)
    requires NoDup(ids)
    ensures NoDup(Toggle(ids, id))
  {
    if id in ids {
      FilterNoDup(Other(id), ids);
    } else {
      var r := ids + [id];
      forall i, j | 0 <= i < j < |r| ensures r[i] != r[j] {
        if j == |ids| {
          assert r[i] == ids[i];
        }
      }
    }
  }

  // ---------------------------------------------------------------------------
  // References

  /** One line pair per session; an action-3 session lists its reframes
      joined by `" • "`. */
  function ReferenceOf(s: Session): (r: string)
    ensures |r| > 7 && r[..7] == "- [A" + [s.Action().Tag()[7]] + "] "
    ensures s.SessionAction1? ==> |s.notes| <= |r| && r[|r| - |s.notes|..] == s.notes
    ensures s.SessionAction2? ==> |s.analysis| <= |r| && r[|r| - |s.analysis|..] == s.analysis
    ensures s.SessionAction3? ==>
      var listed := Join(s.reframes, " • ");
      |listed| <= |r| && r[|r| - |listed|..] == listed
  {
    match s
    case SessionAction1(_, _, topic, coreQuestion, notes) =>
      var front := "- [A1] " + topic + ": " + coreQuestion + "\n  ";
      assert (front + notes)[..7] == "- [A1] ";
      front + notes
    case SessionAction2(_, _, observation, analysis) =>
      var front := "- [A2] " + observation + "\n  분석: ";
      assert (front + analysis)[..7] == "- [A2] ";
      front + analysis
    case SessionAction3(_, _, problem, reframes) =>
      var front := "- [A3] " + problem + "\n  재정의: ";
      var listed := Join(reframes, " • ");
      assert (front + listed)[..7] == "- [A3] ";
      front + listed
  }

  /** The test `selectedIds.includes(s.id)`. */
  function Picked(ids: seq<string>): Session -> bool {
    (s: Session) => s.id in ids
  }

  /** The selected sessions, in store order. */
  function Selected(sessions: seq<Session>, ids: seq<string>): (r: seq<Session>)
    ensures |r| <= |sessions|
    ensures forall s :: s in r <==> s in sessions && s.id in ids
  {
    var r := Filter(Picked(ids), sessions);
    assert forall s :: s in sessions && s.id in ids ==> s in r by {
      forall s | s in sessions && s.id in ids ensures s in r {
        var k :| 0 <= k < |sessions| && sessions[k] == s;
        assert Picked(ids)(sessions[k]);
      }
    }
    r
  }

  /** Store order decides: the sessions of a longer store come after those of
      its front part. */
  lemma SelectedAppend(a: seq<Session>, b: seq<Session>, ids: seq<string>)
    ensures Selected(a + b, ids) == Selected(a, ids) + Selected(b, ids)
  {
    FilterAppend(Picked(ids), a, b);
  }

  /** Only which ids are selected matters, not the order or repetition in
      which they were ticked. */
  lemma SelectedIgnoresOrder(sessions: seq<Session>, ids: seq<string>, ids': seq<string>)
    requires forall x :: x in ids <==> x in ids'
    ensures Selected(sessions, ids) == Selected(sessions, ids')
  {
    FilterAgree(Picked(ids), Picked(ids'), sessions);
  }

  /** The reference block: one entry per selected session, joined by newlines. */
  function References(sessions: seq<Session>, ids: seq<string>): string {
    Join(Map(ReferenceOf, Selected(sessions, ids)), "\n")
  }

  /** `injectReferences`: the block goes after the draft, separated by a
      blank line when the draft is not empty. */
  function InjectReferences(content: string, sessions: seq<Session>, ids: seq<string>): (r: string)
    ensures content <= r
    ensures var refs := References(sessions, ids);
      |refs| <= |r| && r[|r| - |refs|..] == refs
    ensures content == [] ==> r == References(sessions, ids)
    ensures content != [] ==> content + "\n\n" <= r
  {
    var refs := References(sessions, ids);
    var glue := if content == [] then "" else "\n\n";
    assert (content + glue + refs)[..|content|] == content;
    assert (content + glue + refs)[..|content| + |glue|] == content + glue;
    content + glue + refs
  }

  /** Ticking the same sessions in another order inserts the same text. */
  lemma InjectIgnoresOrder(content: string, sessions: seq<Session>, ids: seq<string>, ids': seq<string>)
    requires forall x :: x in ids <==> x in ids'
    ensures InjectReferences(content, sessions, ids) == InjectReferences(content, sessions, ids')
  {
    SelectedIgnoresOrder(sessions, ids, ids');
  }

  /** With one session selected the block is exactly its reference. */
  lemma InjectSingle(content: string, s: Session)
    ensures InjectReferences(content, [s], [s.id])
         == content + (if content == [] then "" else "\n\n") + ReferenceOf(s)
  {
    assert Picked([s.id])(s);
    assert Selected([s], [s.id]) == [s];
    assert Map(ReferenceOf, [s]) == [ReferenceOf(s)];
  }
}
