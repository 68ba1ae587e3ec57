/** The background worker's store transitions: install defaults, the daily reset, the
    update migration, and the message handlers for usage statistics, usage increments,
    resets and the Pro upgrade. Every handler reads the store, writes a set of keys, and
    answers; the clock is a parameter (`today` for `toDateString()`, `now` for
    `toISOString()`). */
module Background {
  import opened Wrappers
  import opened Storage

  /** `Math.max(0, 5 - used)`. */
  function RemainingFree(used: int): (r: int)
    ensures r >= 0 && (used >= 0 ==> r <= FreeDailyLimit)
    ensures r == 0 <==> used >= FreeDailyLimit
    ensures r > 0 ==> used + r == FreeDailyLimit
  {
    if FreeDailyLimit - used > 0 then FreeDailyLimit - used else 0
  }

  // ---------------------------------------------------------------------------
  // Lifecycle
  // ---------------------------------------------------------------------------

  datatype InstallReason = Install | Update | OtherReason

  /** The keys written on a fresh install. */
  function InstallKeys(today: Day, now: string): Store
  {
    Store(Some(0), Some(today), Some(false), Some("light"), Some(0), Some(now), None, None)
  }

  /** `onInstalled`: defaults on install, the migration on update, nothing otherwise. */
  function OnInstalled(s: Store, reason: InstallReason, today: Day, now: string): Store
  {
    match reason
    case Install => Merge(s, InstallKeys(today, now))
    case Update => HandleExtensionUpdate(s, now)
    case OtherReason => s
  }

  /** After an install, usage is zero for today, the user is not Pro, the theme is light
      and the lifetime total is zero; a Pro plan stored earlier is not removed. */
  lemma {:induction false} InstallDefaults(s: Store, today: Day, now: string)
    ensures var r := OnInstalled(s, Install, today, now);
            r.Usage() == 0 && r.Current(today) && !r.Pro() && r.theme == Some("light")
            && r.Total() == 0 && r.installDate == Some(now)
            && r.proPlan == s.proPlan && r.proUpgradeDate == s.proUpgradeDate
  {
  }

  /** `resetDailyUsage`: zero usage for today; no other key changes. */
  function ResetDailyUsage(s: Store, today: Day): Store
  {
    Merge(s, ResetKeys(today))
  }

  lemma {:induction false} ResetOnlyTouchesUsage(s: Store, today: Day)
    ensures var r := ResetDailyUsage(s, today);
            r.dailyUsage == Some(0) && r.Current(today)
            && r.(dailyUsage := s.dailyUsage, lastUsageDate := s.lastUsageDate) == s
  {
  }

  /** `checkAndResetDailyUsage`: reset only when the stored day is not today (a missing
      day counts as not today). */
  function CheckAndResetDailyUsage(s: Store, today: Day): Store
  {
    if !s.Current(today) then ResetDailyUsage(s, today) else s
  }

  /** The check always leaves today's record, and keeps the count of a current one. */
  lemma {:induction false} CheckAndResetLeavesToday(s: Store, today: Day)
    ensures CheckAndResetDailyUsage(s, today).Current(today)
    ensures s.Current(today) ==> CheckAndResetDailyUsage(s, today) == s
    ensures !s.Current(today) ==> CheckAndResetDailyUsage(s, today).Usage() == 0
    ensures CheckAndResetDailyUsage(CheckAndResetDailyUsage(s, today), today) == CheckAndResetDailyUsage(s, today)
  {
  }

  /** The keys the update migration writes: each one only when it is missing. A missing
      lifetime total is seeded from the daily count. */
  function MigrationKeys(s: Store, now: string): Store
  {
    EmptyStore.(
      totalPromptsGenerated := if s.totalPromptsGenerated.None? then Some(s.Usage()) else None,
      theme := if s.theme.None? then Some("light") else None,
      installDate := if s.installDate.None? then Some(now) else None)
  }

  /** `handleExtensionUpdate`. */
  function HandleExtensionUpdate(s: Store, now: string): Store
  {
    Merge(s, MigrationKeys(s, now))
  }

  /** The migration fills exactly the missing keys and never overwrites a stored one. */
  lemma {:induction false} MigrationOnlyFills(s: Store, now: string)
    ensures var r := HandleExtensionUpdate(s, now);
            (s.totalPromptsGenerated.Some? ==> r.totalPromptsGenerated == s.totalPromptsGenerated)
            && (s.totalPromptsGenerated.None? ==> r.totalPromptsGenerated == Some(s.Usage()))
            && (s.theme.Some? ==> r.theme == s.theme)
            && (s.theme.None? ==> r.theme == Some("light"))
            && (s.installDate.Some? ==> r.installDate == s.installDate)
            && (s.installDate.None? ==> r.installDate == Some(now))
            && r.(totalPromptsGenerated := s.totalPromptsGenerated, theme := s.theme, installDate := s.installDate) == s
  {
  }

  /** Running the migration again changes nothing. */
  lemma {:induction false} MigrationIdempotent(s: Store, now: string, later: string)
    ensures HandleExtensionUpdate(HandleExtensionUpdate(s, now), later) == HandleExtensionUpdate(s, now)
  {
  }

  // ---------------------------------------------------------------------------
  // Messages
  // ---------------------------------------------------------------------------

  /** The `data` of an upgrade message: its `plan` may be missing. */
  datatype UpgradeData = UpgradeData(plan: Option<string>)

  /** A message: its `type` text, and the `data` an upgrade message carries (missing
      for other messages, or when the sender left it out). */
  datatype Message = Message(kind: string, data: Option<UpgradeData>)

  /** What the worker answers. */
  datatype Reply =
    | StatsReply(dailyUsage: int, isPro: bool, totalPromptsGenerated: int, remainingFreeUsage: int)
    | IncrementReply(dailyUsage: int, totalPromptsGenerated: int, remainingFreeUsage: int)
    | ResetReply
    | UpgradeReply(plan: string)
    | HandlerFailed          // `{success: false, error}`
    | UnknownMessageType     // `{error: 'Unknown message type'}`

  /** `handleGetUsageStats`: a stale day is reset first, and the reply reports the
      usage after the reset. */
  function HandleGetUsageStats(s: Store, today: Day): (Store, Reply)
  {
    var r := CheckAndResetDailyUsage(s, today);
    (r, StatsReply(r.Usage(), r.Pro(), r.Total(), RemainingFree(r.Usage())))
  }

  /** On a new day the statistics report zero uses and the full free allowance; the
      remaining allowance never exceeds the limit while the stored count is not
      negative. */
  lemma {:induction false} StatsAfterNewDay(s: Store, today: Day)
    requires !s.Current(today)
    ensures HandleGetUsageStats(s, today).1.dailyUsage == 0
    ensures HandleGetUsageStats(s, today).1.remainingFreeUsage == FreeDailyLimit
    ensures HandleGetUsageStats(s, today).0 == ResetDailyUsage(s, today)
  {
  }

  lemma {:induction false} StatsRemainingInRange(s: Store, today: Day)
    requires s.Usage() >= 0
    ensures 0 <= HandleGetUsageStats(s, today).1.remainingFreeUsage <= FreeDailyLimit
  {
  }

  /** `handleIncrementUsage`: both counters go up by one and the day is set to today.
      A stale day's count is NOT zeroed first: the increment continues yesterday's
      count. */
  function HandleIncrementUsage(s: Store, today: Day): (Store, Reply)
  {
    var daily := s.Usage() + 1;
    var total := s.Total() + 1;
    var r := Merge(s, EmptyStore.(dailyUsage := Some(daily), totalPromptsGenerated := Some(total), lastUsageDate := Some(today)));
    (r, IncrementReply(daily, total, if s.Pro() then -1 else RemainingFree(daily)))
  }

  lemma {:induction false} IncrementCounts(s: Store, today: Day)
    ensures var (r, reply) := HandleIncrementUsage(s, today);
            r.Usage() == s.Usage() + 1 && r.Total() == s.Total() + 1 && r.Current(today)
            && r.(dailyUsage := s.dailyUsage, totalPromptsGenerated := s.totalPromptsGenerated, lastUsageDate := s.lastUsageDate) == s
            && reply.dailyUsage == r.Usage() && reply.totalPromptsGenerated == r.Total()
  {
  }

  /** A Pro user's reply reports -1 remaining; a free user's the allowance left after
      this use, never negative. */
  lemma {:induction false} IncrementRemaining(s: Store, today: Day)
    ensures s.Pro() ==> HandleIncrementUsage(s, today).1.remainingFreeUsage == -1
    ensures !s.Pro() ==> HandleIncrementUsage(s, today).1.remainingFreeUsage
                         == RemainingFree(s.Usage() + 1)
    ensures !s.Pro() ==> HandleIncrementUsage(s, today).1.remainingFreeUsage >= 0
  {
  }

  /** Incrementing on a new day without a reset first carries the old count over. */
  lemma {:induction false} IncrementKeepsStaleCount(today: Day, yesterday: Day)
    requires today != yesterday
    ensures var s := EmptyStore.(dailyUsage := Some(5), lastUsageDate := Some(yesterday));
            HandleIncrementUsage(s, today).0.Usage() == 6
            && HandleIncrementUsage(s, today).0.Current(today)
  {
  }

  /** `data.plan || 'monthly'`: a missing or empty plan means monthly. */
  function PlanOf(data: UpgradeData): (plan: string)
    ensures plan != ""
  {
    match data.plan
    case Some(p) => if p != "" then p else "monthly"
    case None => "monthly"
  }

  /** `handleUpgradeToPro`. Reading `plan` of missing data throws inside the handler,
      which answers with a failure and writes nothing. */
  function HandleUpgradeToPro(s: Store, data: Option<UpgradeData>, now: string): (Store, Reply)
  {
    match data
    case None => (s, HandlerFailed)
    case Some(d) =>
      (Merge(s, EmptyStore.(isPro := Some(true), proUpgradeDate := Some(now), proPlan := Some(PlanOf(d)))),
       UpgradeReply(PlanOf(d)))
  }

  /** The upgrade makes the user Pro with the requested plan (monthly by default), and
      the reply names the plan that was stored. */
  lemma {:induction false} UpgradeStoresPlan(s: Store, d: UpgradeData, now: string)
    ensures var (r, reply) := HandleUpgradeToPro(s, Some(d), now);
            r.Pro() && r.proPlan == Some(reply.plan) && reply.plan != ""
            && (d.plan.None? || d.plan == Some("") ==> reply.plan == "monthly")
            && (d.plan.Some? && d.plan.value != "" ==> reply.plan == d.plan.value)
            && r.Usage() == s.Usage() && r.Total() == s.Total() && r.lastUsageDate == s.lastUsageDate
  {
  }

  /** `onMessage`: the four known message types go to their handlers; anything else is
      answered with the unknown-type error and changes nothing. */
  function Dispatch(s: Store, m: Message, today: Day, now: string): (Store, Reply)
  {
    if m.kind == "getUsageStats" then HandleGetUsageStats(s, today)
    else if m.kind == "incrementUsage" then HandleIncrementUsage(s, today)
    else if m.kind == "resetUsage" then (ResetDailyUsage(s, today), ResetReply)
    else if m.kind == "upgradeToPro" then HandleUpgradeToPro(s, m.data, now)
    else (s, UnknownMessageType)
  }

  /** Exactly the four known types reach a handler. */
  lemma {:induction false} DispatchUnknown(s: Store, m: Message, today: Day, now: string)
    ensures Dispatch(s, m, today, now).1 == UnknownMessageType
            <==> m.kind !in {"getUsageStats", "incrementUsage", "resetUsage", "upgradeToPro"}
    ensures Dispatch(s, m, today, now).1 == UnknownMessageType ==> Dispatch(s, m, today, now).0 == s
  {
  }
}
