/** Properties of the streak calculation that relate several inputs or
    characterise its result. */
module StreakProperties {
  import opened StreakSpec

  /** The streak is zero exactly when the newest post is missing or dated
      neither today nor yesterday; otherwise it is the unique leading-run length of the
      fetched batch. Both directions. */
  lemma StreakCharacterised(history: seq<int>, today: int, k: int)
    ensures CurrentStreak(history, today) == k <==>
      (!StartsCurrent(history, today) && k == 0) ||
      (StartsCurrent(history, today) && IsRunLength(Query(history, Batch), k))
  {
  }

  /** Every counted post lies exactly `i` days before the newest one, so the
      streak covers the days `days[0], days[0] - 1, ..., days[0] - r + 1`. */
  lemma {:induction false} CountedDaysStepBack(days: seq<int>)
    requires days != []
    ensures forall i :: 0 <= i < ConsecutiveRun(days) ==> days[i] == days[0] - i
  {
    var r := ConsecutiveRun(days);
    var i := 0;
    while i < r
      invariant 0 <= i <= r
      invariant forall j :: 0 <= j < i ==> days[j] == days[0] - j
    {
      if i > 0 {
        assert days[..r][i] == days[i] && days[..r][i - 1] == days[i - 1];
      }
      i := i + 1;
    }
  }

  /** A second post on the same calendar day is not "the day before", so
      the count stops at it. */
  lemma SameDayEndsRun(days: seq<int>, i: int)
    requires 0 < i < |days| && days[i] == days[i - 1]
    ensures ConsecutiveRun(days) <= i
  {
  }

  /** For posts newest first, the count stops either at a second post on
      the same day as its predecessor or at a gap of two or more days. */
  lemma StopIsDuplicateOrGap(days: seq<int>)
    requires days != [] && NewestFirst(days)
    ensures var r := ConsecutiveRun(days);
      r < |days| ==> days[r] == days[r - 1] || days[r] <= days[r - 1] - 2
  {
  }

  /** A run that stops before the end of `days` is also a run of any list
      that agrees with `days` up to and including the post that stops it. */
  lemma SharedPrefixSameRun(days: seq<int>, other: seq<int>, r: int)
    requires IsRunLength(days, r) && r < |days| && r < |other|
    requires other[..r + 1] == days[..r + 1]
    ensures IsRunLength(other, r)
  {
    var prefix := days[..r + 1];
    assert other[..r] == prefix[..r] == days[..r];
    assert other[r] == prefix[r] == days[r];
    assert other[r - 1] == prefix[r - 1] == days[r - 1];
  }

  /** Posts after the first pair that is not on consecutive days do not
      affect the run: any list sharing that prefix has the same run. */
  lemma LaterPostsIrrelevant(days: seq<int>, other: seq<int>, r: nat)
    requires days != [] && r == ConsecutiveRun(days) && r < |days|
    requires r < |other| && other[..r + 1] == days[..r + 1]
    ensures ConsecutiveRun(other) == r
  {
    SharedPrefixSameRun(days, other, r);
    RunLengthUnique(other, r, ConsecutiveRun(other));
  }

  /** The same at the level of the returned streak: two post lists that
      agree up to and including the post that stops the count of the first
      give the same streak. */
  lemma LaterPostsKeepStreak(posts: seq<int>, other: seq<int>, today: int, k: nat)
    requires posts != [] && k == StreakOf(posts, today) && k < |posts|
    requires k < |other| && other[..k + 1] == posts[..k + 1]
    ensures StreakOf(other, today) == k
  {
    assert other[0] == other[..k + 1][0] == posts[0];
    if k > 0 {
      LaterPostsIrrelevant(posts, other, k);
    }
  }

  /** When every neighbouring pair is one day apart, the whole list is the
      run. */
  lemma AllConsecutiveIsWholeRun(days: seq<int>)
    requires days != [] && AllConsecutive(days)
    ensures ConsecutiveRun(days) == |days|
  {
  }

  /** The whole fetched batch counts when it starts today or yesterday and
      every neighbouring pair is one day apart. */
  lemma WholeBatchCounts(posts: seq<int>, today: int)
    requires StartsCurrent(posts, today) && AllConsecutive(posts)
    ensures StreakOf(posts, today) == |posts|
  {
  }

  /** The query keeps the order of the history. */
  lemma QueryKeepsOrder(history: seq<int>, limit: nat)
    requires NewestFirst(history)
    ensures NewestFirst(Query(history, limit))
  {
  }

  /** There is only one batch: an author who posted on each of the last `n`
      days, ending today, gets a streak of `n` only up to `Batch`. */
  lemma LongStreakCappedAtBatch(history: seq<int>, today: int)
    requires forall i :: 0 <= i < |history| ==> history[i] == today - i
    ensures CurrentStreak(history, today) == if |history| <= Batch then |history| else Batch
  {
  }

  /** Posts on today, today, today and yesterday: the second post of today
      ends the count, so the streak is 1, not 2. */
  lemma SameDayExample(today: int)
    ensures CurrentStreak([today, today, today, today - 1], today) == 1
  {
  }

  /** Posts on today, yesterday, two days ago and four days ago: the gap
      ends the count at 3. */
  lemma GapExample(today: int)
    ensures CurrentStreak([today, today - 1, today - 2, today - 4], today) == 3
  {
    var days := [today, today - 1, today - 2, today - 4];
    assert IsRunLength(days, 3) by {
      assert days[..3] == [today, today - 1, today - 2];
    }
    RunLengthUnique(days, 3, ConsecutiveRun(days));
  }

  /** A single post from yesterday gives a streak of 1; one from two days
      ago gives 0. */
  lemma SinglePostExamples(today: int)
    ensures CurrentStreak([today - 1], today) == 1
    ensures CurrentStreak([today - 2], today) == 0
  {
  }

  /** A newest post dated tomorrow (a late post on a site east of UTC, see
      `StreakSpec`) is neither today nor yesterday, so the streak is 0. */
  lemma DatedTomorrowExample(today: int)
    ensures CurrentStreak([today + 1, today, today - 1], today) == 0
  {
  }
}
