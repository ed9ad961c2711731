/** The identity-management screen: add a trimmed draft at the end, delete by
    position. Both hand a new list to the update callback; the component's
    only state is the draft text. */
module BeingManagement {
  import opened Wrappers
  import opened Seqs
  import opened JsText

  /** What one press of the add button does: the list handed to
      `onUpdateIdentities` (None when the callback is not called) and the
      draft afterwards. */
  datatype AddOutcome = AddOutcome(emitted: Option<seq<string>>, draft: string)

  /** The add button is rendered disabled exactly when the draft is blank. */
  predicate AddDisabled(draft: string) {
    !Truthy(Trim(draft))
  }

  /** `handleAdd`: a blank draft changes nothing; otherwise the trimmed draft
      is appended, even when the list already holds it, and the draft is
      cleared. */
  function HandleAdd(ids: seq<string>, draft: string): (r: AddOutcome)
    ensures r.emitted.None? <==> Blank(draft)
    ensures r.emitted.None? ==> r.draft == draft
    ensures r.emitted.Some? ==>
      && r.draft == ""
      && |r.emitted.value| == |ids| + 1
      && r.emitted.value[..|ids|] == ids
      && r.emitted.value[|ids|] == Trim(draft)
  {
    var t := Trim(draft);
    if Truthy(t) then AddOutcome(Some(ids + [t]), "") else AddOutcome(None, draft)
  }

  /** The callback is skipped under exactly the condition that disables the
      button, so the guard inside `handleAdd` never changes what a click
      does. */
  lemma AddGuardMatchesButton(ids: seq<string>, draft: string)
    ensures HandleAdd(ids, draft).emitted.None? <==> AddDisabled(draft)
  {
  }

  /** Unlike the admin console's custom add, a draft that is already in the
      list is appended again, so the list gains a second copy. */
  lemma AddKeepsDuplicates(ids: seq<string>, draft: string)
    requires !Blank(draft) && Trim(draft) in ids
    ensures HandleAdd(ids, draft).emitted.Some?
    ensures multiset(HandleAdd(ids, draft).emitted.value)[Trim(draft)] == multiset(ids)[Trim(draft)] + 1
    ensures !NoDuplicates(HandleAdd(ids, draft).emitted.value)
  {
    var t := Trim(draft);
    var v := HandleAdd(ids, draft).emitted.value;
    assert v == ids + [t];
    var i :| 0 <= i < |ids| && ids[i] == t;
    assert v[i] == v[|ids|];
  }

  /** `handleDelete(index)`: `splice(index, 1)` on a copy of the list. An index
      inside the list removes exactly that element; an index at or past the
      end leaves the list as it was; a negative index counts from the end. */
  function HandleDelete(ids: seq<string>, index: int): (r: seq<string>)
    ensures 0 <= index < |ids| ==>
      && |r| == |ids| - 1
      && r[..index] == ids[..index]
      && r[index..] == ids[index + 1..]
    ensures index >= |ids| || |ids| == 0 ==> r == ids
    ensures -|ids| <= index < 0 ==>
      && |r| == |ids| - 1
      && r[..|ids| + index] == ids[..|ids| + index]
      && r[|ids| + index..] == ids[|ids| + index + 1..]
    ensures index < -|ids| && |ids| > 0 ==> r == ids[1..]
  {
    SpliceOne(ids, index)
  }

  /** The delete buttons pass the index they were rendered at, so every
      delete the screen can issue removes one element and keeps the others
      in order. */
  lemma DeleteFromRenderedIndex(ids: seq<string>, index: nat)
    requires index < |ids|
    ensures IsSubsequence(HandleDelete(ids, index), ids)
    ensures multiset(HandleDelete(ids, index)) == multiset(ids) - multiset{ids[index]}
  {
    var r := HandleDelete(ids, index);
    assert r == r[..index] + r[index..];
    PrefixSkipIsSubsequence(ids, index);
    SplitAt(ids, index);
  }

  /** A concrete case: deleting index 1 of the four seed identities drops
      the second one. */
  lemma DeleteSecondSeedIdentity()
    ensures HandleDelete(["מנצח", "אנרגטי", "שלו", "ממוקד"], 1) == ["מנצח", "שלו", "ממוקד"]
  {
    var ids := ["מנצח", "אנרגטי", "שלו", "ממוקד"];
    var r := HandleDelete(ids, 1);
    assert r[..1] == ids[..1];
    assert r[1..] == ids[2..];
    assert r == r[..1] + r[1..];
  }
}
