/** The application record and its parts, as declared in types.ts. */
module Types {
  import opened Wrappers

  /** One named sub-item of an action area's checklist. */
  datatype ChecklistItem = ChecklistItem(name: string, disabled: bool)

  /** A trackable daily activity. `isTarget` distinguishes goal setting
      (true) from tracking (false); the slider bounds are minutes. */
  datatype ActionArea = ActionArea(
    objectId: string,
    name: string,
    order: int,
    isTarget: bool,
    sliderMin: int,
    sliderMax: int,
    sliderStep: int,
    questions: seq<string>,
    itemsEx: Option<seq<ChecklistItem>>)

  /** A challenge the user expects to meet. */
  datatype Challenge = Challenge(id: string, text: string)

  /** A recovery strategy has the same shape as a challenge; TypeScript's
      structural typing makes the two interchangeable. */
  type RecoveryStrategy = Challenge

  datatype KeyAchievement = KeyAchievement(title: string, targetDate: string, description: string)

  datatype KeyTask = KeyTask(title: string, isCompleted: bool)

  datatype DailyStat = DailyStat(date: string, score: int, tasksCompleted: int)

  datatype IdentityStat = IdentityStat(name: string, count: int, color: string)

  datatype CategoryStat = CategoryStat(name: string, value: int)

  /** `score: number | string`. */
  datatype LogScore = NumberScore(n: int) | TextScore(s: string)

  datatype RecentLog = RecentLog(id: string, date: string, time: string, action: string, category: string, score: LogScore)

  datatype DashboardStats = DashboardStats(
    dailyHistory: seq<DailyStat>,
    identityUsage: seq<IdentityStat>,
    categoryPerformance: seq<CategoryStat>,
    recentLogs: seq<RecentLog>)

  /** The single record the root component owns. */
  datatype AppData = AppData(
    identities: seq<string>,
    actionAreas: seq<ActionArea>,
    challenges: seq<Challenge>,
    recoveryStrategies: seq<RecoveryStrategy>,
    keyAchievement: KeyAchievement,
    keyTask: KeyTask,
    processSummary: string,
    dailyWriting: string,
    personalRequest: string,
    nextPracticeTime: string,
    poolIdentities: seq<string>,
    poolChallenges: seq<string>,
    poolRecoveryStrategies: seq<string>,
    dashboardStats: DashboardStats)
}
