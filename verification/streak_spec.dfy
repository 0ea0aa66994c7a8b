/** Pure specification of the plugin's streak calculation.

    A post is represented by an integer day number: the date that `wp_date`
    renders in the site's zone for the instant `strtotime` reads from the
    post's site-local `post_date`. PHP runs in UTC, so that date is the
    publication date of the post's local time plus the site's UTC offset,
    which is not always the day it was published on. "The day before" day
    `d` is `d - 1`. The posts of one author arrive newest first. */
module StreakSpec {

  /** Number of posts read by the single database query (`$batch`). */
  const Batch: nat := 100

  /** Newest first, as `ORDER BY post_date DESC` delivers them. */
  predicate NewestFirst(days: seq<int>) {
    forall i, j :: 0 <= i < j < |days| ==> days[j] <= days[i]
  }

  /** Each post's day is exactly one day before the previous post's day. */
  predicate AllConsecutive(days: seq<int>) {
    forall i :: 0 < i < |days| ==> days[i] == days[i - 1] - 1
  }

  /** `k` is the length of the leading run of `days`: the first `k` posts
      step back one day at a time, and (if any post is left) the pair
      `(k - 1, k)` is the first one that does not. */
  predicate IsRunLength(days: seq<int>, k: int) {
    1 <= k <= |days| &&
    AllConsecutive(days[..k]) &&
    (k < |days| ==> days[k] != days[k - 1] - 1)
  }

  /** At most one length satisfies `IsRunLength`, so it defines the run. */
  lemma RunLengthUnique(days: seq<int>, j: int, k: int)
    requires IsRunLength(days, j) && IsRunLength(days, k)
    ensures j == k
  {
  }

  /** The database query: the author's posts, newest first, cut off after
      `limit` rows (`LIMIT %d`). */
  function Query(history: seq<int>, limit: nat): (rows: seq<int>)
    ensures |rows| <= limit && |rows| <= |history|
    ensures |rows| == limit || |rows| == |history|
    ensures rows == history[..|rows|]
  {
    if |history| <= limit then history else history[..limit]
  }

  /** Length of the leading run of consecutive days of a non-empty list of
      posts: one for the first post, one more for every following post that
      lies exactly one day before its predecessor, up to the first that
      does not. */
  function ConsecutiveRun(days: seq<int>): (r: nat)
    requires days != []
    ensures IsRunLength(days, r)
  {
    if |days| == 1 || days[1] != days[0] - 1 then 1
    else
      var rest := ConsecutiveRun(days[1..]);
      assert days[1..][..rest] == days[1..rest + 1];
      assert forall i :: 1 < i < rest + 1 ==> days[i] == days[1..][..rest][i - 1];
      1 + rest
  }

  /** Whether the newest post's day is today or yesterday. */
  predicate StartsCurrent(posts: seq<int>, today: int) {
    posts != [] && (posts[0] == today || posts[0] == today - 1)
  }

  /** The streak of the fetched posts: zero when there are none or when the
      newest one is dated neither today nor yesterday, the leading run
      otherwise. */
  function StreakOf(posts: seq<int>, today: int): (r: nat)
    ensures r == 0 <==> !StartsCurrent(posts, today)
    ensures r > 0 ==> IsRunLength(posts, r)
    ensures r <= |posts|
  {
    if posts == [] then 0
    else if posts[0] != today - 1 && posts[0] != today then 0
    else ConsecutiveRun(posts)
  }

  /** What `calculate_streak` returns for an author whose published posts,
      newest first, are `history`: the streak of the first `Batch` of them. */
  function CurrentStreak(history: seq<int>, today: int): (r: nat)
    ensures r <= Batch && r <= |history|
    ensures r == 0 <==> !StartsCurrent(history, today)
  {
    StreakOf(Query(history, Batch), today)
  }
}
