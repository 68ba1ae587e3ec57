/** The extension's local key-value store as a record of optional fields: a missing key
    is `None`. Writing a set of keys (`chrome.storage.local.set`) merges them into the
    store, so keys that are not written keep their values. */
module Storage {
  import opened Wrappers

  /** A calendar day, as the `toDateString()` text it is stored as; days are only ever
      compared for equality. */
  datatype Day = Day(text: string)

  /** The keys the quota logic reads and writes. Timestamps (`installDate`,
      `proUpgradeDate`) are ISO texts passed in by the caller. */
  datatype Store = Store(
    dailyUsage: Option<int>,
    lastUsageDate: Option<Day>,
    isPro: Option<bool>,
    theme: Option<string>,
    totalPromptsGenerated: Option<int>,
    installDate: Option<string>,
    proUpgradeDate: Option<string>,
    proPlan: Option<string>)
  {
    /** `dailyUsage || 0`. */
    function Usage(): int
    {
      dailyUsage.GetOr(0)
    }

    /** `totalPromptsGenerated || 0`. */
    function Total(): int
    {
      totalPromptsGenerated.GetOr(0)
    }

    /** `isPro || false`: only a stored `true` makes a Pro user. */
    predicate Pro()
    {
      isPro == Some(true)
    }

    /** The stored usage belongs to `today`. */
    predicate Current(today: Day)
    {
      lastUsageDate == Some(today)
    }
  }

  /** Uses per day for a free user, checked by the popup's gate and reported by the
      worker. */
  const FreeDailyLimit := 5

  /** The store with no keys at all. */
  const EmptyStore := Store(None, None, None, None, None, None, None, None)

  /** The newer value if the key is written, the stored one otherwise. */
  function Pick<T>(stored: Option<T>, written: Option<T>): (r: Option<T>)
    ensures written.Some? ==> r == written
    ensures written.None? ==> r == stored
  {
    if written.Some? then written else stored
  }

  /** `chrome.storage.local.set(keys)`: every key present in `keys` is written, every
      other key keeps its value. */
  function Merge(s: Store, keys: Store): Store
  {
    Store(
      Pick(s.dailyUsage, keys.dailyUsage),
      Pick(s.lastUsageDate, keys.lastUsageDate),
      Pick(s.isPro, keys.isPro),
      Pick(s.theme, keys.theme),
      Pick(s.totalPromptsGenerated, keys.totalPromptsGenerated),
      Pick(s.installDate, keys.installDate),
      Pick(s.proUpgradeDate, keys.proUpgradeDate),
      Pick(s.proPlan, keys.proPlan))
  }

  /** Writing nothing changes nothing, and writing the same keys twice is writing them
      once. */
  lemma {:induction false} MergeLaws(s: Store, keys: Store)
    ensures Merge(s, EmptyStore) == s
    ensures Merge(Merge(s, keys), keys) == Merge(s, keys)
  {
  }

  /** Two writes in a row are one write of both, the later one winning. */
  lemma {:induction false} MergeTwice(s: Store, first: Store, second: Store)
    ensures Merge(Merge(s, first), second) == Merge(s, Merge(first, second))
  {
  }

  /** The keys `{dailyUsage: 0, lastUsageDate: today}`, which both the daily reset and
      the popup's new-day check write. */
  function ResetKeys(today: Day): Store
  {
    EmptyStore.(dailyUsage := Some(0), lastUsageDate := Some(today))
  }
}
