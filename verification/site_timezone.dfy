/** The "day before" test of the loop as the plugin writes it, with the site's
    UTC offset made explicit.

    Day numbers count days since the Unix epoch; a post's day is the date
    that `wp_date` renders for it in the site's zone (its local time shifted
    by the site's offset, see `StreakSpec`). PHP itself runs in UTC, so `strtotime` reads the previous post's rendered date as midnight UTC of
    that date, `'-1 day'` subtracts one day of seconds, and `wp_date` renders
    the resulting instant in the site's zone again. */
module SiteTimezone {
  import opened StreakSpec

  const SecondsPerDay: int := 86400

  /** A site's offset from UTC in seconds, less than a day either way. */
  predicate ValidOffset(offset: int) {
    -SecondsPerDay < offset < SecondsPerDay
  }

  /** The date that the test compares against: midnight UTC of day `d`, one
      day earlier, rendered at UTC offset `offset`. It is `d - 1` at UTC and
      east of it, but `d - 2` west of it. */
  function WrittenDayBefore(offset: int, d: int): (r: int)
    requires ValidOffset(offset)
    ensures offset >= 0 ==> r == d - 1
    ensures offset < 0 ==> r == d - 2
  {
    var q := ((d - 1) * SecondsPerDay + offset) / SecondsPerDay;
    var m := ((d - 1) * SecondsPerDay + offset) % SecondsPerDay;
    assert q * SecondsPerDay + m == (d - 1) * SecondsPerDay + offset;
    assert (q - (d - 1)) * SecondsPerDay == offset - m;
    q
  }

  /** How many days back the test as written looks at UTC offset `offset`. */
  function WrittenStep(offset: int): (step: int)
    requires ValidOffset(offset)
    ensures forall d :: WrittenDayBefore(offset, d) == d - step
  {
    if offset >= 0 then 1 else 2
  }

  /** `k` is the length of the leading run of `days` in which each post lies
      `step` days before its predecessor, and (if any post is left) the pair
      `(k - 1, k)` is the first one that does not. */
  predicate IsStepRunLength(days: seq<int>, k: int, step: int) {
    1 <= k <= |days| &&
    (forall i :: 0 < i < k ==> days[i] == days[i - 1] - step) &&
    (k < |days| ==> days[k] != days[k - 1] - step)
  }

  /** At most one length satisfies `IsStepRunLength` for a given step. */
  lemma StepRunLengthUnique(days: seq<int>, step: int, j: int, k: int)
    requires IsStepRunLength(days, j, step) && IsStepRunLength(days, k, step)
    ensures j == k
  {
  }

  /** The run the loop counts at UTC offset `offset`, as written: the leading
      run in which each post lies `WrittenStep(offset)` days before its
      predecessor. */
  function WrittenRun(offset: int, days: seq<int>): (r: nat)
    requires ValidOffset(offset) && days != []
    ensures IsStepRunLength(days, r, WrittenStep(offset))
  {
    if |days| == 1 || days[1] != WrittenDayBefore(offset, days[0]) then 1
    else 1 + WrittenRun(offset, days[1..])
  }

  /** The streak the plugin reports for a fetched batch at UTC offset
      `offset`, as written. */
  function WrittenStreak(offset: int, posts: seq<int>, today: int): (r: nat)
    requires ValidOffset(offset)
    ensures r == 0 <==> !StartsCurrent(posts, today)
    ensures r > 0 ==> IsStepRunLength(posts, r, WrittenStep(offset))
    ensures r <= |posts|
  {
    if !StartsCurrent(posts, today) then 0 else WrittenRun(offset, posts)
  }

  /** The streak the plugin reports for an author whose posts, newest first,
      are `history`, at UTC offset `offset`: that of the first `Batch`. */
  function WrittenCurrentStreak(offset: int, history: seq<int>, today: int): (r: nat)
    requires ValidOffset(offset)
    ensures r <= Batch && r <= |history|
    ensures r == 0 <==> !StartsCurrent(history, today)
    ensures r > 0 ==> IsStepRunLength(Query(history, Batch), r, WrittenStep(offset))
  {
    WrittenStreak(offset, Query(history, Batch), today)
  }

  /** At UTC and east of it the test as written is the model's `d - 1`, so
      the plugin's streak is `StreakOf`. */
  lemma WrittenRunAtOrEastOfUtc(offset: int, days: seq<int>)
    requires ValidOffset(offset) && offset >= 0 && days != []
    ensures WrittenRun(offset, days) == ConsecutiveRun(days)
  {
  }

  /** So at UTC and east of it the streak the plugin reports is the
      model's `CurrentStreak`. */
  lemma WrittenStreakAtOrEastOfUtc(offset: int, history: seq<int>, today: int)
    requires ValidOffset(offset) && offset >= 0
    ensures WrittenCurrentStreak(offset, history, today) == CurrentStreak(history, today)
  {
  }

  /** West of UTC the test as written compares each post against two days
      before its predecessor: every pair that does step back two days is
      counted. */
  lemma WrittenRunWestOfUtc(offset: int, days: seq<int>)
    requires ValidOffset(offset) && offset < 0 && days != []
    requires forall i :: 0 < i < |days| ==> days[i] == days[i - 1] - 2
    ensures WrittenRun(offset, days) == |days|
  {
  }

  /** On a site five hours west of UTC, posts today and yesterday give a
      streak of 1 instead of 2, while posts today and two days ago (a missed
      day) give 2 instead of 1. */
  lemma WestOfUtcExample(today: int)
    ensures WrittenStreak(-5 * 3600, [today, today - 1], today) == 1
    ensures StreakOf([today, today - 1], today) == 2
    ensures WrittenStreak(-5 * 3600, [today, today - 2], today) == 2
    ensures StreakOf([today, today - 2], today) == 1
  {
  }
}
