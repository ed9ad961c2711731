/** The dashboard's local state: the selected identity, the one expanded
    action-area card, the slider values and the checklist ticks. */
module Dashboard {
  import opened Wrappers
  import opened JsText

  /** `identities[0] || ""`: the first identity, or the empty string for an
      empty list (and for a first identity that is itself empty). */
  function InitialSelection(ids: seq<string>): (r: string)
    ensures |ids| == 0 ==> r == ""
    ensures |ids| > 0 ==> r == ids[0]
  {
    if |ids| > 0 && Truthy(ids[0]) then ids[0] else ""
  }

  /** The identity-sync effect: when the selection is empty, or is not in a
      non-empty list, it is reset to the initial selection; otherwise it is
      left alone. */
  function Resync(ids: seq<string>, selected: string): (r: string)
    ensures |ids| > 0 ==> r in ids
    ensures |ids| == 0 && selected != "" ==> r == selected
    ensures |ids| == 0 && selected == "" ==> r == ""
    ensures selected in ids && selected != "" ==> r == selected
    ensures |ids| > 0 && (selected !in ids || selected == "") ==> r == ids[0]
  {
    if (selected !in ids && |ids| > 0) || !Truthy(selected) then InitialSelection(ids) else selected
  }

  /** One run of the effect reaches its fixed point: running it again on its
      own result changes nothing, so the effect never re-fires in a loop. */
  lemma ResyncIdempotent(ids: seq<string>, selected: string)
    ensures Resync(ids, Resync(ids, selected)) == Resync(ids, selected)
  {
  }

  /** The initial selection is already in sync: the effect leaves it alone
      on the first render. */
  lemma InitialSelectionInSync(ids: seq<string>)
    ensures Resync(ids, InitialSelection(ids)) == InitialSelection(ids)
  {
  }

  /** With no identities the sync keeps a stale non-empty selection. */
  lemma ResyncKeepsStaleWhenEmpty(selected: string)
    requires selected != ""
    ensures Resync([], selected) == selected
  {
  }

  // ---------------------------------------------------------------------
  // Checklist and sliders

  /** The truthiness of `checkedItems[key]`; an unset key reads as false. */
  predicate IsChecked(checked: map<string, bool>, key: string) {
    key in checked && checked[key]
  }

  /** `toggleItem(key)`: the key's tick flips, treating an unset key as
      unticked; no other key changes. */
  function ToggleItem(checked: map<string, bool>, key: string): (r: map<string, bool>)
    ensures IsChecked(r, key) <==> !IsChecked(checked, key)
    ensures key in r
    ensures forall k :: k != key ==> (k in r <==> k in checked)
    ensures forall k :: k != key && k in checked ==> r[k] == checked[k]
  {
    checked[key := !IsChecked(checked, key)]
  }

  /** Two toggles of the same key restore its tick. */
  lemma ToggleItemTwice(checked: map<string, bool>, key: string, other: string)
    ensures IsChecked(ToggleItem(ToggleItem(checked, key), key), other) == IsChecked(checked, other)
  {
  }

  /** `sliderValues[id] || 0`: an unset area reads as 0. */
  function SliderValue(values: map<string, int>, id: string): int {
    if id in values then values[id] else 0
  }

  /** `handleSliderChange(id, v)`: the area reads `v` afterwards and every
      other area reads what it read before. */
  function SetSlider(values: map<string, int>, id: string, v: int): (r: map<string, int>)
    ensures SliderValue(r, id) == v
    ensures forall k :: k != id ==> SliderValue(r, k) == SliderValue(values, k)
    ensures forall k :: k != id ==> (k in r <==> k in values)
  {
    values[id := v]
  }

  // ---------------------------------------------------------------------
  // Expanded card

  /** The id of the expanded card, if one is expanded (`string | null`). */
  type Expanded = Option<string>

  predicate IsExpanded(e: Expanded, id: string) {
    e == Some(id)
  }

  /** A card click: the clicked card collapses if it was expanded, and
      otherwise becomes the only expanded card. */
  function ClickCard(e: Expanded, id: string): (r: Expanded)
    ensures IsExpanded(r, id) <==> !IsExpanded(e, id)
    ensures forall other :: other != id ==> !IsExpanded(r, other)
  {
    if e == Some(id) then None else Some(id)
  }

  /** The expanded card after a run of clicks, starting from `e`. */
  function RunClicks(e: Expanded, clicks: seq<string>): Expanded
    decreases |clicks|
  {
    if |clicks| == 0 then e else RunClicks(ClickCard(e, clicks[0]), clicks[1..])
  }

  /** After any non-empty run of clicks, either no card is expanded or the
      expanded one is the card clicked last: an earlier card never stays
      open once another is clicked. */
  lemma {:induction false} ExpandedIsLastClicked(e: Expanded, clicks: seq<string>)
    requires |clicks| > 0
    ensures RunClicks(e, clicks) == None || RunClicks(e, clicks) == Some(clicks[|clicks| - 1])
    decreases |clicks|
  {
    if |clicks| > 1 {
      ExpandedIsLastClicked(ClickCard(e, clicks[0]), clicks[1..]);
    }
  }

  /** Clicking the same card twice in a row undoes the first click when no
      card or that card was open; when another card was open, both end up
      closed. */
  lemma {:induction false} ClickTwice(e: Expanded, id: string)
    ensures e == None || e == Some(id) ==> RunClicks(e, [id, id]) == e
    ensures e != None && e != Some(id) ==> RunClicks(e, [id, id]) == None
  {
    var once := ClickCard(e, id);
    assert [id, id][1..] == [id];
    assert [id][1..] == [];
    assert RunClicks(once, []) == once;
    assert RunClicks(e, [id, id]) == RunClicks(once, [id]) == ClickCard(once, id);
  }
}
