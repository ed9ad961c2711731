/** The single-field editor: it copies the field's value into a local draft
    when it opens, lets the user edit the draft, and hands the draft to
    `onSave` only when the save button is pressed. */
module SimplePage {

  /** The three input kinds the page can render. */
  datatype InputKind = TextArea | TextLine | TimeOfDay

  /** The page's props that matter here and its one piece of state. */
  datatype Page = Page(kind: InputKind, value: string, currentValue: string)

  /** User actions on the page. `Edit` is the change handler of whichever
      input the kind renders. */
  datatype PageEvent = Edit(text: string) | SaveClicked | BackClicked

  /** The callback an action invokes. */
  datatype PageCallback = NoCallback | OnSave(saved: string) | OnBack

  /** `useState(value)`: the draft starts as the field's current value. */
  function Open(kind: InputKind, value: string): (p: Page)
    ensures p.currentValue == value && p.value == value && p.kind == kind
  {
    Page(kind, value, value)
  }

  /** One action: edits replace the draft and call nothing; save passes the
      draft unchanged to `onSave`; back calls `onBack` and not `onSave`. */
  function Step(p: Page, e: PageEvent): (r: (Page, PageCallback))
    ensures e.Edit? ==> r.1 == NoCallback && r.0.currentValue == e.text && r.0.(currentValue := p.currentValue) == p
    ensures !e.Edit? ==> r.0 == p
    ensures r.1.OnSave? <==> e.SaveClicked?
    ensures r.1.OnSave? ==> r.1.saved == p.currentValue
    ensures r.1.OnBack? <==> e.BackClicked?
  {
    match e
    case Edit(text) => (p.(currentValue := text), NoCallback)
    case SaveClicked => (p, OnSave(p.currentValue))
    case BackClicked => (p, OnBack)
  }

  /** The page after a run of edits. */
  function RunEdits(p: Page, texts: seq<string>): (r: Page)
    ensures r.kind == p.kind && r.value == p.value
    ensures |texts| > 0 ==> r.currentValue == texts[|texts| - 1]
    ensures |texts| == 0 ==> r == p
    decreases |texts|
  {
    if |texts| == 0 then p else RunEdits(Step(p, Edit(texts[0])).0, texts[1..])
  }

  /** No edit invokes a callback, whatever the input kind. */
  lemma EditsCallNothing(p: Page, text: string)
    ensures Step(p, Edit(text)).1 == NoCallback
  {
  }

  /** Saving after a run of edits hands the last edit to `onSave`. */
  lemma {:induction false} SaveAfterEdits(kind: InputKind, value: string, texts: seq<string>)
    ensures Step(RunEdits(Open(kind, value), texts), SaveClicked).1 ==
      OnSave(if |texts| == 0 then value else texts[|texts| - 1])
  {
  }
}
