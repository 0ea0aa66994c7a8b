/** The plugin's `calculate_streak`: one query, the today/yesterday check and
    the loop that walks the posts until two neighbours are not on
    consecutive days. */
module HabitStreak {
  import opened StreakSpec

  /** The streak of the author whose published posts, newest first, are
      `history`, on calendar day `today`. */
  method CalculateStreak(history: seq<int>, today: int) returns (streak: nat)
    ensures streak == CurrentStreak(history, today)
    ensures streak <= Batch
    ensures streak == 0 <==> !StartsCurrent(history, today)
  {
    var posts := Query(history, Batch);
    if posts == [] {
      return 0;
    }
    var firstPostDate := posts[0];
    if today - 1 != firstPostDate && today != firstPostDate {
      return 0;
    }
    streak := 1;
    for key := 0 to |posts|
      invariant streak == if key == 0 then 1 else key
      invariant AllConsecutive(posts[..key])
    {
      if key == 0 {
        continue;
      }
      var previousPostDate := posts[key - 1];
      var currentPostDate := posts[key];
      if previousPostDate - 1 != currentPostDate {
        RunLengthUnique(posts, streak, ConsecutiveRun(posts));
        return streak;
      }
      streak := streak + 1;
    }
    assert posts[..|posts|] == posts;
    RunLengthUnique(posts, streak, ConsecutiveRun(posts));
  }
}
