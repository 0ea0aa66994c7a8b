# WP Habit Streak — streak calculation

A model of how the WordPress plugin *WP Habit Streak* computes the "Streak: N"
shown in the admin bar: `WP_Habit_Streak::calculate_streak` reads the current
author's published posts, newest first, and counts how many of them, starting
with the newest, are dated on consecutive calendar days; a second post dated
the same day as its predecessor ends the count. The newest post
must be from today or yesterday, otherwise the streak is 0.

Calendar days are integers: a post is the day number of the date `wp_date`
renders for it (lines 85 and 104), which is its local publication time shifted
by the site's UTC offset (see "## Left out"). "The day before" day `d` is
`d - 1` (which is what the plugin computes on sites at UTC or east of it; see
"## Findings"), and today is a parameter. The database
query is the function `Query`, which keeps the first 100 posts (`LIMIT 100`).

Files:

- `streak_spec.dfy` (module `StreakSpec`): the pure specification. `Query`,
  the recursive `ConsecutiveRun`, `StreakOf` for a fetched batch, and
  `CurrentStreak` for a whole history. `IsRunLength` characterises the run
  without recursion, and `RunLengthUnique` shows the characterisation picks
  exactly one length.
- `habit_streak.dfy` (module `HabitStreak`): `CalculateStreak`, a method with
  the source's shape. It makes the query, checks for an empty result, then
  checks for today or yesterday. A `for` loop skips the first post, returns
  early at the first pair that is not one day apart, and otherwise counts up.
  Its contract ties the result to `CurrentStreak`.
- `streak_properties.dfy` (module `StreakProperties`): lemmas about the
  specification. They cover both directions of the characterisation, the
  counted days, same-day posts, the stop reason, and the irrelevance of later
  posts. They also cover the cap at one batch and a few concrete histories.
- `site_timezone.dfy` (module `SiteTimezone`): the "day before" test of the
  loop as written, with the site's UTC offset as a parameter, and how it
  differs from `d - 1` west of UTC (see "## Findings").

Notes on the behaviour:

- A second post on the same calendar day ends the count. Posts from today,
  today, today and yesterday give 1 (`SameDayExample`).
- Only one query of 100 posts is made, so the streak never exceeds 100
  (`LongStreakCappedAtBatch`).
- A failed query gives 0, as an empty one does.

## Model

| member | source | states |
|---|---|---|
| StreakSpec.Query | wp-habit-streak.php:67-78 | the rows fetched are the newest posts of the history, at most the batch size and all of them when there are fewer |
| StreakSpec.ConsecutiveRun | wp-habit-streak.php:93-115 | the count of a non-empty list is a run length: at least 1, at most the list's length, every counted post one day before its predecessor, and the post after the run (if any) not |
| StreakSpec.RunLengthUnique | wp-habit-streak.php:94-113 | at most one length satisfies the run-length characterisation, so it determines the count |
| StreakSpec.StreakOf | wp-habit-streak.php:80-115 | the result is 0 exactly when there are no posts or the newest is neither today nor yesterday; otherwise it is the leading run length, never more than the number of posts |
| StreakSpec.CurrentStreak | wp-habit-streak.php:64-116 | the streak of a history never exceeds the batch size of 100 nor the number of posts, and is 0 exactly when the history is empty or its newest post is dated neither today nor yesterday (older, or dated tomorrow) |
| HabitStreak.CalculateStreak | wp-habit-streak.php:64-116 | the loop with its early return computes `CurrentStreak`, at most 100, and 0 exactly when the newest post is missing or dated neither today nor yesterday |
| StreakProperties.StreakCharacterised | wp-habit-streak.php:80-115 | the streak equals `k` if and only if either the first check fails and `k` is 0, or it passes and `k` is the run length of the fetched batch |
| StreakProperties.CountedDaysStepBack | wp-habit-streak.php:101-112 | the i-th counted post lies exactly i days before the newest post |
| StreakProperties.SameDayEndsRun | wp-habit-streak.php:101-108 | a post on the same day as its predecessor at position i stops the count at i or earlier |
| StreakProperties.StopIsDuplicateOrGap | wp-habit-streak.php:74-108 | for posts newest first, the post that stops the count is on the same day as its predecessor or at least two days before it |
| StreakProperties.SharedPrefixSameRun | wp-habit-streak.php:107-108 | a run that stops early is also the run of any list sharing the posts up to the stopping one |
| StreakProperties.LaterPostsIrrelevant | wp-habit-streak.php:107-108 | posts after the first non-consecutive pair do not change the count |
| StreakProperties.LaterPostsKeepStreak | wp-habit-streak.php:80-115 | two post lists that agree up to and including the post that stops the count of the first give the same streak |
| StreakProperties.AllConsecutiveIsWholeRun | wp-habit-streak.php:93-115 | when every neighbouring pair is one day apart the count is the length of the list |
| StreakProperties.WholeBatchCounts | wp-habit-streak.php:88-115 | a batch starting today or yesterday whose neighbouring pairs are all one day apart counts every post |
| StreakProperties.QueryKeepsOrder | wp-habit-streak.php:74-76 | the fetched rows keep the newest-first order |
| StreakProperties.LongStreakCappedAtBatch | wp-habit-streak.php:67-115 | posts on each of the last n days ending today give a streak of n when n is at most 100, and 100 otherwise |
| StreakProperties.SameDayExample | wp-habit-streak.php:101-108 | posts on today, today, today and yesterday give a streak of 1 |
| StreakProperties.GapExample | wp-habit-streak.php:94-113 | posts on today, yesterday, two and four days ago give a streak of 3 |
| StreakProperties.SinglePostExamples | wp-habit-streak.php:84-93 | a single post from yesterday gives 1; one from two days ago gives 0 |
| StreakProperties.DatedTomorrowExample | wp-habit-streak.php:84-90 | a newest post dated tomorrow fails the today-or-yesterday check and gives 0 |
| SiteTimezone.WrittenDayBefore | wp-habit-streak.php:107 | the date the test compares against is one day before the previous post's date at UTC offsets of zero or more, and two days before at negative offsets |
| SiteTimezone.WrittenStep | wp-habit-streak.php:107 | the number of days the test as written looks back: for every day `d`, the date the test compares against is `d` minus this step |
| SiteTimezone.StepRunLengthUnique | wp-habit-streak.php:94-113 | for a given step at most one length satisfies the step-run characterisation, so it determines the count as written |
| SiteTimezone.WrittenRun | wp-habit-streak.php:93-115 | the count with the test as written is the step-run length for the offset's step: at least 1, at most the number of posts, every counted post that many days before its predecessor, and the stopping post not |
| SiteTimezone.WrittenStreak | wp-habit-streak.php:80-115 | the streak of a batch with the test as written is 0 exactly when there are no posts or the newest is neither today nor yesterday, otherwise the step-run length for the offset's step, never more than the number of posts |
| SiteTimezone.WrittenCurrentStreak | wp-habit-streak.php:64-116 | the streak the plugin reports for a whole history is at most 100 and the history's length, 0 exactly when the newest post is missing or neither today nor yesterday, otherwise the step-run length of the first 100 posts |
| SiteTimezone.WrittenStreakAtOrEastOfUtc | wp-habit-streak.php:64-116 | at UTC offsets of zero or more the streak the plugin reports equals `CurrentStreak` |
| SiteTimezone.WrittenRunAtOrEastOfUtc | wp-habit-streak.php:101-112 | at UTC offsets of zero or more the count as written equals `ConsecutiveRun` |
| SiteTimezone.WrittenRunWestOfUtc | wp-habit-streak.php:101-112 | at negative UTC offsets posts that step back two days at a time are all counted |
| SiteTimezone.WestOfUtcExample | wp-habit-streak.php:101-108 | five hours west of UTC, posts today and yesterday give 1 instead of 2, and posts today and two days ago give 2 instead of 1 |

## Left out

- The SQL query through `$wpdb->prepare`/`get_results` (wp-habit-streak.php:72-78) is database I/O. It is replaced by the history as an input sequence; the `ORDER BY post_date DESC` order is the `NewestFirst` hypothesis of the lemmas that need it. The method computes the same value on any sequence. A query that fails (returns null) behaves like an empty one and is not modelled separately.
- `wp_date`, `strtotime` and the site time zone (wp-habit-streak.php:85-107) are library calls over the clock and the time zone. Days are integer day numbers: a post's day is the date `wp_date` renders for it (lines 85 and 104), and today is a parameter. The model does not capture the two separate clock readings for today and yesterday, nor daylight-saving changes.
- The conversion from a post's time to its day number is not modelled. `post_date` is site-local, but `strtotime` reads it as UTC (PHP runs in UTC) and `wp_date` adds the site's offset again. So a post's day number is the date of its local time plus the offset, not always the day it was published. East of UTC a post in the last hours of a day is dated the next day, and if it is the newest post the today-or-yesterday check fails and the streak is 0 (`DatedTomorrowExample`). West of UTC a post in the first hours of a day is dated the day before.
- `ConsecutiveRun`, `StreakOf`, `CurrentStreak` and `CalculateStreak` take "the day before" as `d - 1`. The test at line 107 gives `d - 1` only on sites at UTC or east of it; west of UTC it gives `d - 2` (`SiteTimezone.WrittenDayBefore`). For such sites these members, and the lemmas `WholeBatchCounts`, `LongStreakCappedAtBatch` and `GapExample`, describe the intended streak, not the one the plugin reports; `SiteTimezone.WrittenCurrentStreak` is the reported one, and `SiteTimezone.WrittenStreakAtOrEastOfUtc` shows the two agree at UTC and east of it.
- The constructor's capability check, `add_streak_menu`, `get_streak` and the `plugins_loaded` bootstrap (wp-habit-streak.php:23-56, 125-128) are WordPress hooks and UI over global state.
- src/index.js (an editor panel that renders text) and bin/webpack.config.js (build configuration) are not part of this model.

## Findings

| source | as written | input that shows it | evidently intended | confidence | as-written member | corrected member |
|---|---|---|---|---|---|---|
| wp-habit-streak.php:107 | the previous post's site-local date is read as midnight UTC, moved back one day and rendered in the site zone, which west of UTC is two days before that date | a site at UTC-5 with posts today and yesterday: the streak is 1, and with posts today and two days ago it is 2 | the calendar day before the previous post's day, so that daily posts give 2 and a missed day gives 1 | not executed | SiteTimezone.WestOfUtcExample | StreakSpec.ConsecutiveRun |
