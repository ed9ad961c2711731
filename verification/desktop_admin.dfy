/** The admin console's edits of the record. Each handler builds a new record
    and hands it to `onUpdate`, which replaces the record wholesale; the
    console's own state is only its draft inputs, the search query and the
    active tab. */
module DesktopAdmin {
  import opened Wrappers
  import opened Seqs
  import opened JsText
  import opened Types

  /** What one handler call does: the record handed to `onUpdate` (None when
      it is not called) and whether the handler resets its draft input. */
  datatype AdminOutcome = AdminOutcome(update: Option<AppData>, clearsDraft: bool)

  /** `i => i !== x` */
  function Differs(x: string): string -> bool {
    y => y != x
  }

  /** `c => c.id !== id` */
  function HasOtherId(id: string): Challenge -> bool {
    (c: Challenge) => c.id != id
  }

  /** `i => i.includes(query)` */
  function Matches(query: string): string -> bool {
    w => Includes(w, query)
  }

  // ---------------------------------------------------------------------
  // Identities

  /** `toggleIdentity(x)`: an absent identity is appended at the end; a
      present one is removed together with every duplicate of it, keeping
      the others in order. Only `identities` changes. */
  function ToggleIdentity(d: AppData, x: string): (r: AppData)
    ensures r.(identities := d.identities) == d
    ensures x !in d.identities ==>
      && |r.identities| == |d.identities| + 1
      && r.identities[..|d.identities|] == d.identities
      && r.identities[|d.identities|] == x
    ensures x in d.identities ==>
      && x !in r.identities
      && IsSubsequence(r.identities, d.identities)
      && forall y :: y != x ==> multiset(r.identities)[y] == multiset(d.identities)[y]
  {
    if x in d.identities then
      FilterIsSubsequence(d.identities, Differs(x));
      FilterCountAll(d.identities, Differs(x));
      d.(identities := Filter(d.identities, Differs(x)))
    else
      d.(identities := d.identities + [x])
  }

  /** Toggling an identity that is not selected, and then toggling it again,
      restores the original list. */
  lemma {:induction false} ToggleAbsentTwice(d: AppData, x: string)
    requires x !in d.identities
    ensures ToggleIdentity(ToggleIdentity(d, x), x) == d
  {
    var ids := d.identities;
    FilterAppend(ids, [x], Differs(x));
    FilterKeepsAll(ids, Differs(x));
    assert Filter([x], Differs(x)) == [];
  }

  /** The converse fails: toggling a selected identity twice moves it to the
      end of the list. */
  lemma TogglePresentTwiceReorders(d: AppData)
    requires d.identities == ["a", "b"]
    ensures ToggleIdentity(ToggleIdentity(d, "a"), "a").identities == ["b", "a"]
    ensures ToggleIdentity(ToggleIdentity(d, "a"), "a") != d
  {
    assert Filter(["a", "b"], Differs("a")) == ["b"] by {
      assert ["a", "b"][1..] == ["b"];
      assert ["b"][1..] == [];
    }
  }

  /** `addCustomIdentity`: a blank draft, or one whose trimmed text is
      already selected, does nothing. Otherwise the trimmed draft is appended
      and the draft is cleared. */
  function AddCustomIdentity(d: AppData, draft: string): (r: AdminOutcome)
    ensures r.update.None? <==> Blank(draft) || Trim(draft) in d.identities
    ensures r.clearsDraft <==> r.update.Some?
    ensures r.update.Some? ==>
      var n := r.update.value;
      && n.(identities := d.identities) == d
      && |n.identities| == |d.identities| + 1
      && n.identities[..|d.identities|] == d.identities
      && n.identities[|d.identities|] == Trim(draft)
  {
    var t := Trim(draft);
    if Truthy(t) && t !in d.identities then
      AdminOutcome(Some(d.(identities := d.identities + [t])), true)
    else
      AdminOutcome(None, false)
  }

  /** The custom add never introduces a duplicate identity. */
  lemma AddCustomKeepsDistinct(d: AppData, draft: string)
    requires NoDuplicates(d.identities)
    ensures AddCustomIdentity(d, draft).update.Some? ==>
      NoDuplicates(AddCustomIdentity(d, draft).update.value.identities)
  {
  }

  /** `identities.includes(x) ? remove : append`, as seen from the chip
      list: deleting a chip removes every copy of its label. */
  lemma ChipDeleteRemovesAllCopies(d: AppData, i: nat)
    requires i < |d.identities|
    ensures forall j :: 0 <= j < |ToggleIdentity(d, d.identities[i]).identities| ==>
      ToggleIdentity(d, d.identities[i]).identities[j] != d.identities[i]
  {
  }

  /** The pool search at the head of the identity pool: the pool entries that
      contain `query` as a case-sensitive substring, in pool order, each as
      often as it occurs in the pool. An empty query lists the whole pool. */
  function PoolSearch(pool: seq<string>, query: string): (r: seq<string>)
    ensures IsSubsequence(r, pool)
    ensures forall w :: multiset(r)[w] == if Includes(w, query) then multiset(pool)[w] else 0
    ensures query == "" ==> r == pool
  {
    FilterIsSubsequence(pool, Matches(query));
    FilterCountAll(pool, Matches(query));
    if query == "" then
      assert forall i :: 0 <= i < |pool| ==> Matches(query)(pool[i]) by {
        forall i | 0 <= i < |pool| {
          IncludesEmpty(pool[i]);
        }
      }
      FilterKeepsAll(pool, Matches(query));
      Filter(pool, Matches(query))
    else
      Filter(pool, Matches(query))
  }

  // ---------------------------------------------------------------------
  // Challenges and recovery strategies

  /** The list edit shared by `addChallenge` and `addRecovery`: a text that
      trims to empty adds nothing; any other text is appended, untrimmed,
      as one entry carrying the caller's id. */
  function AppendEntry(list: seq<Challenge>, text: string, id: string): (r: Option<seq<Challenge>>)
    ensures r.None? <==> Blank(text)
    ensures r.Some? ==>
      && |r.value| == |list| + 1
      && r.value[..|list|] == list
      && r.value[|list|] == Challenge(id, text)
  {
    if Truthy(Trim(text)) then Some(list + [Challenge(id, text)]) else None
  }

  /** `addChallenge(text)` with `id` standing for `Date.now().toString()`.
      Only `challenges` changes; the draft input is reset whenever something
      is added. */
  function AddChallenge(d: AppData, text: string, id: string): (r: AdminOutcome)
    ensures r.update.None? <==> Blank(text)
    ensures r.clearsDraft <==> r.update.Some?
    ensures r.update.Some? ==>
      && r.update.value.(challenges := d.challenges) == d
      && Some(r.update.value.challenges) == AppendEntry(d.challenges, text, id)
  {
    match AppendEntry(d.challenges, text, id)
    case Some(cs) => AdminOutcome(Some(d.(challenges := cs)), true)
    case None => AdminOutcome(None, false)
  }

  /** `addRecovery(text)`: `addChallenge` on `recoveryStrategies`. */
  function AddRecovery(d: AppData, text: string, id: string): (r: AdminOutcome)
    ensures r.update.None? <==> Blank(text)
    ensures r.clearsDraft <==> r.update.Some?
    ensures r.update.Some? ==>
      && r.update.value.(recoveryStrategies := d.recoveryStrategies) == d
      && Some(r.update.value.recoveryStrategies) == AppendEntry(d.recoveryStrategies, text, id)
  {
    match AppendEntry(d.recoveryStrategies, text, id)
    case Some(rs) => AdminOutcome(Some(d.(recoveryStrategies := rs)), true)
    case None => AdminOutcome(None, false)
  }

  /** The list edit shared by `removeChallenge` and `removeRecovery`: every
      entry carrying `id` goes (two entries created in the same millisecond
      go together), the others stay in order, and an unknown id changes
      nothing. */
  function RemoveById(list: seq<Challenge>, id: string): (r: seq<Challenge>)
    ensures forall i :: 0 <= i < |r| ==> r[i].id != id
    ensures forall c: Challenge :: c.id != id ==> multiset(r)[c] == multiset(list)[c]
    ensures IsSubsequence(r, list)
    ensures (forall i :: 0 <= i < |list| ==> list[i].id != id) ==> r == list
  {
    FilterIsSubsequence(list, HasOtherId(id));
    FilterCountAll(list, HasOtherId(id));
    if forall i :: 0 <= i < |list| ==> list[i].id != id then
      FilterKeepsAll(list, HasOtherId(id));
      Filter(list, HasOtherId(id))
    else
      Filter(list, HasOtherId(id))
  }

  /** Two concrete cases, with the id drawn from a clock reading as
      `Date.now().toString()` does: a whitespace-only text
      adds nothing, and a real one adds exactly one entry, carrying its text
      and a non-empty id. */
  lemma AddChallengeScenarios(d: AppData, now: nat)
    ensures AddChallenge(d, "  ", NatToString(now)).update.None?
    ensures var r := AddChallenge(d, "לחץ", NatToString(now)).update;
      && r.Some?
      && |r.value.challenges| == |d.challenges| + 1
      && r.value.challenges[|d.challenges|].text == "לחץ"
      && r.value.challenges[|d.challenges|].id != ""
  {
    assert AllWhitespace("  ") by {
      assert IsWhitespace("  "[0]) && IsWhitespace("  "[1]);
    }
    assert !AllWhitespace("לחץ") by {
      assert !IsWhitespace("לחץ"[0]);
    }
  }

  /** `removeChallenge(id)`: only `challenges` changes. */
  function RemoveChallenge(d: AppData, id: string): (r: AppData)
    ensures r.(challenges := d.challenges) == d
    ensures r.challenges == RemoveById(d.challenges, id)
  {
    d.(challenges := RemoveById(d.challenges, id))
  }

  /** `removeRecovery(id)`: only `recoveryStrategies` changes. */
  function RemoveRecovery(d: AppData, id: string): (r: AppData)
    ensures r.(recoveryStrategies := d.recoveryStrategies) == d
    ensures r.recoveryStrategies == RemoveById(d.recoveryStrategies, id)
  {
    d.(recoveryStrategies := RemoveById(d.recoveryStrategies, id))
  }

  /** Adding an entry and removing its id again restores the list when the id
      was fresh. */
  lemma {:induction false} RemoveUndoesAppend(list: seq<Challenge>, text: string, id: string)
    requires !Blank(text)
    requires forall i :: 0 <= i < |list| ==> list[i].id != id
    ensures RemoveById(AppendEntry(list, text, id).value, id) == list
  {
    var added := AppendEntry(list, text, id).value;
    assert added == list + [Challenge(id, text)];
    FilterAppend(list, [Challenge(id, text)], HasOtherId(id));
    FilterKeepsAll(list, HasOtherId(id));
    assert Filter([Challenge(id, text)], HasOtherId(id)) == [];
  }

  // ---------------------------------------------------------------------
  // Key achievement, key task, summary

  /** The three keys the key-achievement inputs pass to
      `handleUpdateKeyAchievement`. */
  datatype AchievementField = Title | TargetDate | Description

  function AchievementValue(k: KeyAchievement, f: AchievementField): string {
    match f
    case Title => k.title
    case TargetDate => k.targetDate
    case Description => k.description
  }

  /** `handleUpdateKeyAchievement(field, value)`: the named sub-field takes
      the value; the sibling sub-fields and every other record field keep
      theirs. */
  function UpdateKeyAchievement(d: AppData, f: AchievementField, value: string): (r: AppData)
    ensures r.(keyAchievement := d.keyAchievement) == d
    ensures AchievementValue(r.keyAchievement, f) == value
    ensures forall g :: g != f ==> AchievementValue(r.keyAchievement, g) == AchievementValue(d.keyAchievement, g)
  {
    var k := d.keyAchievement;
    match f
    case Title => d.(keyAchievement := k.(title := value))
    case TargetDate => d.(keyAchievement := k.(targetDate := value))
    case Description => d.(keyAchievement := k.(description := value))
  }

  /** `handleUpdateKeyTask(value)`: the task title changes; its completion
      flag and the rest of the record do not. */
  function UpdateKeyTask(d: AppData, value: string): (r: AppData)
    ensures r.(keyTask := d.keyTask) == d
    ensures r.keyTask.title == value
    ensures r.keyTask.isCompleted == d.keyTask.isCompleted
  {
    d.(keyTask := d.keyTask.(title := value))
  }

  /** The summary text area's change handler: only `processSummary`
      changes. */
  function UpdateSummary(d: AppData, value: string): (r: AppData)
    ensures r.(processSummary := d.processSummary) == d
    ensures r.processSummary == value
  {
    d.(processSummary := value)
  }
}
