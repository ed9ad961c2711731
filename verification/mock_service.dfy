/** The mock data provider: the raw seed tables, and the pure construction of
    the sorted action areas and of the application record from them. The
    simulated latency is not modelled. */
module MockService {
  import opened Wrappers
  import opened Seqs
  import opened JsText
  import opened Types

  // ---------------------------------------------------------------------
  // Raw seed shapes

  datatype BaseAction = BaseAction(
    objectId: string,
    name: string,
    questions: seq<string>,
    itemsEx: Option<seq<ChecklistItem>>,
    order: int,
    isTarget: bool,
    sliderMin: int,
    sliderMax: int,
    sliderStep: int)

  datatype RawActionArea = RawActionArea(objectId: string, baseAction: BaseAction)

  /** The first (and only) result of the direction table. The optional lists
      and target are read through `|| []` and `|| default`. */
  datatype RawDirection = RawDirection(
    objectId: string,
    energies: Option<seq<string>>,
    blockers: Option<seq<string>>,
    releasers: Option<seq<string>>,
    ready: bool,
    reqTarget: Option<string>)

  /** The methodology pools. */
  datatype RawAreaData = RawAreaData(challenges: seq<string>, assists: seq<string>, intents: seq<string>)

  // ---------------------------------------------------------------------
  // Action areas

  /** The mapping callback: the area keeps the outer `objectId` and copies
      every other field from its base action. */
  function ToActionArea(item: RawActionArea): (a: ActionArea)
    ensures a.objectId == item.objectId
    ensures a.name == item.baseAction.name && a.order == item.baseAction.order
    ensures a.isTarget == item.baseAction.isTarget
    ensures a.sliderMin == item.baseAction.sliderMin && a.sliderMax == item.baseAction.sliderMax
    ensures a.sliderStep == item.baseAction.sliderStep
    ensures a.questions == item.baseAction.questions && a.itemsEx == item.baseAction.itemsEx
  {
    var b := item.baseAction;
    ActionArea(item.objectId, b.name, b.order, b.isTarget, b.sliderMin, b.sliderMax, b.sliderStep, b.questions, b.itemsEx)
  }

  function MapAreas(items: seq<RawActionArea>): (r: seq<ActionArea>)
    ensures |r| == |items|
    ensures forall i :: 0 <= i < |r| ==> r[i] == ToActionArea(items[i])
  {
    seq(|items|, i requires 0 <= i < |items| => ToActionArea(items[i]))
  }

  predicate SortedByOrder(s: seq<ActionArea>) {
    forall i, j :: 0 <= i < j < |s| ==> s[i].order <= s[j].order
  }

  /** Places `x` before the first area of larger or equal order. */
  function InsertByOrder(x: ActionArea, s: seq<ActionArea>): (r: seq<ActionArea>)
    requires SortedByOrder(s)
    ensures SortedByOrder(r)
    ensures multiset(r) == multiset(s) + multiset{x}
    ensures |r| == |s| + 1
    ensures r[0] == x || (|s| > 0 && r[0] == s[0])
  {
    if |s| == 0 || x.order <= s[0].order then [x] + s
    else
      var rest := InsertByOrder(x, s[1..]);
      assert s == [s[0]] + s[1..];
      assert s[0].order <= rest[0].order;
      [s[0]] + rest
  }

  /** `sort((a, b) => a.order - b.order)`: a stable sort by `order`. */
  function SortByOrder(s: seq<ActionArea>): (r: seq<ActionArea>)
    ensures SortedByOrder(r)
    ensures multiset(r) == multiset(s)
    ensures |r| == |s|
  {
    if |s| == 0 then []
    else
      assert s == [s[0]] + s[1..];
      InsertByOrder(s[0], SortByOrder(s[1..]))
  }

  /** `a => a.order === k` */
  function HasOrder(k: int): ActionArea -> bool {
    (a: ActionArea) => a.order == k
  }

  /** Inserting into a sorted list keeps `x` ahead of every area with the
      same order. */
  lemma {:induction false} InsertStable(x: ActionArea, s: seq<ActionArea>, k: int)
    requires SortedByOrder(s)
    ensures Filter(InsertByOrder(x, s), HasOrder(k)) == Filter([x] + s, HasOrder(k))
    decreases |s|
  {
    if |s| > 0 && x.order > s[0].order {
      var y, t := s[0], s[1..];
      assert s == [y] + t;
      InsertStable(x, t, k);
      SwapUnkeptPair(x, y, t, InsertByOrder(x, t), HasOrder(k));
    }
  }

  /** The sort is stable: areas of equal order keep their relative order. */
  lemma {:induction false} SortStable(s: seq<ActionArea>, k: int)
    ensures Filter(SortByOrder(s), HasOrder(k)) == Filter(s, HasOrder(k))
    decreases |s|
  {
    if |s| > 0 {
      SortStable(s[1..], k);
      InsertStable(s[0], SortByOrder(s[1..]), k);
      FilterAppend([s[0]], SortByOrder(s[1..]), HasOrder(k));
      FilterAppend([s[0]], s[1..], HasOrder(k));
      assert s == [s[0]] + s[1..];
    }
  }

  /** `getActionAreas`: the mapped seed areas, sorted by order. */
  function GetActionAreas(items: seq<RawActionArea>): (r: seq<ActionArea>)
    ensures SortedByOrder(r)
    ensures multiset(r) == multiset(MapAreas(items))
    ensures |r| == |items|
  {
    SortByOrder(MapAreas(items))
  }

  /** The object ids of a list of areas, in order. */
  function Ids(s: seq<ActionArea>): (r: seq<string>)
    ensures |r| == |s|
    ensures forall i :: 0 <= i < |s| ==> r[i] == s[i].objectId
  {
    if |s| == 0 then [] else [s[0].objectId] + Ids(s[1..])
  }

  lemma IdsCons(x: ActionArea, s: seq<ActionArea>)
    ensures Ids([x] + s) == [x.objectId] + Ids(s)
  {
    assert ([x] + s)[1..] == s;
  }

  lemma {:induction false} IdsOfInsert(x: ActionArea, s: seq<ActionArea>)
    requires SortedByOrder(s)
    ensures multiset(Ids(InsertByOrder(x, s))) == multiset(Ids(s)) + multiset{x.objectId}
    decreases |s|
  {
    if |s| > 0 && x.order > s[0].order {
      var y, t := s[0], s[1..];
      var rest := InsertByOrder(x, t);
      assert s == [y] + t;
      assert InsertByOrder(x, s) == [y] + rest;
      IdsOfInsert(x, t);
      IdsCons(y, rest);
      IdsCons(y, t);
      var mr, mt := multiset(Ids(rest)), multiset(Ids(t));
      assert mr == mt + multiset{x.objectId};
      assert multiset(Ids([y] + rest)) == multiset{y.objectId} + mr;
      assert multiset(Ids(s)) == multiset{y.objectId} + mt;
    } else {
      assert InsertByOrder(x, s) == [x] + s;
      IdsCons(x, s);
    }
  }

  lemma {:induction false} IdsOfSort(s: seq<ActionArea>)
    ensures multiset(Ids(SortByOrder(s))) == multiset(Ids(s))
    decreases |s|
  {
    if |s| > 0 {
      IdsOfSort(s[1..]);
      IdsOfInsert(s[0], SortByOrder(s[1..]));
    }
  }

  /** The outer object ids of the raw areas, in order. */
  function RawIds(items: seq<RawActionArea>): (r: seq<string>)
    ensures |r| == |items|
    ensures forall i :: 0 <= i < |items| ==> r[i] == items[i].objectId
  {
    seq(|items|, i requires 0 <= i < |items| => items[i].objectId)
  }

  /** Sorting neither loses nor duplicates an area: each raw object id occurs
      in the result exactly as often as among the raw areas. */
  lemma SortKeepsObjectIds(items: seq<RawActionArea>)
    ensures multiset(Ids(GetActionAreas(items))) == multiset(RawIds(items))
  {
    IdsOfSort(MapAreas(items));
    var a, b := Ids(MapAreas(items)), RawIds(items);
    assert |a| == |b|;
    assert forall i :: 0 <= i < |a| ==> a[i] == b[i];
    assert a == b;
  }

  // ---------------------------------------------------------------------
  // The application record

  /** Entries whose ids are their indexes: `texts.map((t, i) => ({ id:
      i.toString(), text: t }))`. */
  function IndexedEntries(texts: seq<string>): (r: seq<Challenge>)
    ensures |r| == |texts|
    ensures forall i :: 0 <= i < |r| ==> r[i].text == texts[i] && r[i].id == NatToString(i)
  {
    seq(|texts|, i requires 0 <= i < |texts| => Challenge(NatToString(i), texts[i]))
  }

  /** Index-derived ids are distinct within a list. */
  lemma IndexedIdsDistinct(texts: seq<string>, i: nat, j: nat)
    requires i < j < |texts|
    ensures IndexedEntries(texts)[i].id != IndexedEntries(texts)[j].id
  {
    if NatToString(i) == NatToString(j) {
      NatToStringInjective(i, j);
    }
  }

  const DefaultAchievementTitle: string := "הגדרת הישג מפתח"

  /** `getAppData` from the seed tables; `stats` stands for the dashboard
      statistics, which are drawn from the clock and a random source. */
  function GetAppData(direction: RawDirection, items: seq<RawActionArea>, pools: RawAreaData, stats: DashboardStats): (r: AppData)
    ensures r.identities == direction.energies.GetOr([])
    ensures r.actionAreas == GetActionAreas(items)
    ensures r.challenges == IndexedEntries(direction.blockers.GetOr([]))
    ensures r.recoveryStrategies == IndexedEntries(direction.releasers.GetOr([]))
    ensures r.keyAchievement.title ==
      if direction.reqTarget.Some? && Truthy(direction.reqTarget.value) then direction.reqTarget.value
      else DefaultAchievementTitle
    ensures r.keyAchievement.targetDate == "2026-03-01"
    ensures r.keyAchievement.description == "הישג זה מבוסס על בחירת הכיוון שלך לתקופה זו."
    ensures r.keyTask == KeyTask("ביצוע שיחת המכירה החשובה", false)
    ensures r.processSummary == "" && r.dailyWriting == "" && r.personalRequest == ""
    ensures r.nextPracticeTime == "20:00"
    ensures r.dashboardStats == stats
    ensures r.poolIdentities == pools.intents && r.poolChallenges == pools.challenges
    ensures r.poolRecoveryStrategies == pools.assists
  {
    AppData(
      identities := direction.energies.GetOr([]),
      actionAreas := SortByOrder(MapAreas(items)),
      challenges := IndexedEntries(direction.blockers.GetOr([])),
      recoveryStrategies := IndexedEntries(direction.releasers.GetOr([])),
      keyAchievement := KeyAchievement(
        title := match direction.reqTarget
          case Some(t) => if Truthy(t) then t else DefaultAchievementTitle
          case None => DefaultAchievementTitle,
        targetDate := "2026-03-01",
        description := "הישג זה מבוסס על בחירת הכיוון שלך לתקופה זו."),
      keyTask := KeyTask(title := "ביצוע שיחת המכירה החשובה", isCompleted := false),
      processSummary := "",
      dailyWriting := "",
      personalRequest := "",
      nextPracticeTime := "20:00",
      poolIdentities := pools.intents,
      poolChallenges := pools.challenges,
      poolRecoveryStrategies := pools.assists,
      dashboardStats := stats)
  }

  /** Challenge and recovery ids in the fetched record are unique within each
      list. */
  lemma FetchedIdsDistinct(direction: RawDirection, items: seq<RawActionArea>, pools: RawAreaData, stats: DashboardStats, i: nat, j: nat)
    ensures var d := GetAppData(direction, items, pools, stats);
      && (i < j < |d.challenges| ==> d.challenges[i].id != d.challenges[j].id)
      && (i < j < |d.recoveryStrategies| ==> d.recoveryStrategies[i].id != d.recoveryStrategies[j].id)
  {
    if i < j < |direction.blockers.GetOr([])| {
      IndexedIdsDistinct(direction.blockers.GetOr([]), i, j);
    }
    if i < j < |direction.releasers.GetOr([])| {
      IndexedIdsDistinct(direction.releasers.GetOr([]), i, j);
    }
  }

  // ---------------------------------------------------------------------
  // Seed tables

  const SeedDirection: RawDirection := RawDirection(
    objectId := "rywJ05nGYJ",
    energies := Some(["מנצח", "אנרגטי", "שלו", "ממוקד"]),
    blockers := Some(["אחווה תחושה שאין לי מה לתת", "לא יהיה אתגר שהזיז אותי"]),
    releasers := Some(["אקח מס' נשימות עמוקות", "לא אקח דברים באופן אישי"]),
    ready := true,
    reqTarget := Some("סיום פיתוח האפליקציה בגרסת VIP"))

  /** From the seed direction: the identities are the four seed energies,
      the key achievement's title is the seed target, and there are two
      challenges, whatever the areas, pools and statistics. */
  lemma SeedRecord(items: seq<RawActionArea>, pools: RawAreaData, stats: DashboardStats)
    ensures GetAppData(SeedDirection, items, pools, stats).identities == ["מנצח", "אנרגטי", "שלו", "ממוקד"]
    ensures GetAppData(SeedDirection, items, pools, stats).keyAchievement.title == "סיום פיתוח האפליקציה בגרסת VIP"
    ensures |GetAppData(SeedDirection, items, pools, stats).challenges| == 2
  {
  }
}
