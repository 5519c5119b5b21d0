/**
 * "Assigned … ago" labels and the delay until the next one
 * (apps/frontend/lib/todo-utils.ts:5-8, 44-69, 85-100).
 *
 * Times are milliseconds; `None` is a time that cannot be read.
 */
module TodoLabels {
  import opened Wrappers

  const ONE_MINUTE_MS := 60 * 1000
  const ONE_HOUR_MS := 60 * 60 * 1000
  const ONE_DAY_MS := 24 * ONE_HOUR_MS
  const ONE_WEEK_MS := 7 * ONE_DAY_MS
  const BUFFER_MS := 1000

  /** A label without its wording; a date label only depends on the assignment time. */
  datatype Label =
    | UnknownTime
    | JustNow
    | MinutesAgo(minutes: int)
    | HoursAgo(hours: int)
    | Yesterday
    | DaysAgo(days: int)
    | OnDate(since: int)

  function Age(since: int, now: int): (age: int)
    ensures age >= 0
  {
    if now - since > 0 then now - since else 0
  }

  function FormatAssignedAtLabel(assignedAt: Option<int>, now: int): Label {
    match assignedAt
    case None => UnknownTime
    case Some(since) =>
      var age := Age(since, now);
      var days := age / ONE_DAY_MS;
      if age < ONE_MINUTE_MS then JustNow
      else if days == 0 then
        var hours := age / ONE_HOUR_MS;
        if hours > 0 then HoursAgo(hours) else MinutesAgo(age / ONE_MINUTE_MS)
      else if days == 1 then Yesterday
      else if days < 7 then DaysAgo(days)
      else OnDate(since)
  }

  function Interval(age: int): int {
    if age < ONE_HOUR_MS then ONE_MINUTE_MS
    else if age < ONE_DAY_MS then ONE_HOUR_MS
    else ONE_DAY_MS
  }

  function AssignedAtRefreshDelay(assignedAt: Option<int>, now: int): (delay: Option<int>)
    ensures delay.Some? ==> delay.value > BUFFER_MS
  {
    match assignedAt
    case None => None
    case Some(since) =>
      var age := Age(since, now);
      if age >= ONE_WEEK_MS then None
      else Some(Interval(age) - age % Interval(age) + BUFFER_MS)
  }

  // ----- The labels in order -----

  /** How many label changes are still to come at an age. */
  function Rank(age: int): (rank: int)
    requires age >= 0
    ensures 0 <= rank <= 89 && (rank == 0 <==> age >= ONE_WEEK_MS)
  {
    if age >= ONE_WEEK_MS then 0
    else if age >= ONE_DAY_MS then 7 - age / ONE_DAY_MS
    else if age >= ONE_HOUR_MS then 30 - age / ONE_HOUR_MS
    else 89 - age / ONE_MINUTE_MS
  }

  function LabelAt(since: int, now: int): Label {
    FormatAssignedAtLabel(Some(since), now)
  }

  /** Two moments show the same label exactly if the same changes are still to come. */
  lemma SameLabelIff(since: int, s: int, t: int)
    ensures LabelAt(since, s) == LabelAt(since, t) <==> Rank(Age(since, s)) == Rank(Age(since, t))
  {
    LabelByRank(since, s);
    LabelByRank(since, t);
  }

  lemma LabelByRank(since: int, t: int)
    ensures var rank := Rank(Age(since, t));
            LabelAt(since, t) == if rank == 0 then OnDate(since)
                                    else if rank < 6 then DaysAgo(7 - rank)
                                    else if rank == 6 then Yesterday
                                    else if rank < 30 then HoursAgo(30 - rank)
                                    else if rank < 89 then MinutesAgo(89 - rank)
                                    else JustNow
  {
    var age := Age(since, t);
    if age < ONE_DAY_MS {
      assert age / ONE_DAY_MS == 0;
    } else if age < ONE_WEEK_MS {
      assert 1 <= age / ONE_DAY_MS <= 6;
    } else {
      assert age / ONE_DAY_MS >= 7;
    }
  }

  /** The labels by age in milliseconds: minutes below an hour, hours below a day, days below a week, then the date. */
  lemma LabelTimes(since: int, now: int)
    ensures var age, shown := now - since, LabelAt(since, now);
            && (age < 60_000 ==> shown == JustNow)
            && (forall n :: 1 <= n <= 59 && n * 60_000 <= age < (n + 1) * 60_000 ==> shown == MinutesAgo(n))
            && (forall n :: 1 <= n <= 23 && n * 3_600_000 <= age < (n + 1) * 3_600_000 ==> shown == HoursAgo(n))
            && (86_400_000 <= age < 172_800_000 ==> shown == Yesterday)
            && (forall n :: 2 <= n <= 6 && n * 86_400_000 <= age < (n + 1) * 86_400_000 ==> shown == DaysAgo(n))
            && (604_800_000 <= age ==> shown == OnDate(since))
  {
    var age := now - since;
    LabelByRank(since, now);
    forall n | 1 <= n <= 59 && n * 60_000 <= age < (n + 1) * 60_000 ensures age / 60_000 == n {}
    forall n | 1 <= n <= 23 && n * 3_600_000 <= age < (n + 1) * 3_600_000 ensures age / 3_600_000 == n {}
    forall n | 2 <= n <= 6 && n * 86_400_000 <= age < (n + 1) * 86_400_000 ensures age / 86_400_000 == n {}
  }

  /** There is a delay for every readable time less than a week old, and no other. */
  lemma DelayIff(assignedAt: Option<int>, now: int)
    ensures AssignedAtRefreshDelay(assignedAt, now).Some? <==> assignedAt.Some? && now - assignedAt.value < 604_800_000
    ensures FormatAssignedAtLabel(assignedAt, now) == UnknownTime <==> assignedAt == None
  {}

  function Boundary(age: int): int
    requires age >= 0
  {
    age + Interval(age) - age % Interval(age)
  }

  lemma RankInFirstHour(age: int, later: int)
    requires 0 <= age < ONE_HOUR_MS && age <= later < Boundary(age) + ONE_MINUTE_MS
    ensures Rank(later) == if later < Boundary(age) then Rank(age) else Rank(age) - 1
  {
    var n := age / ONE_MINUTE_MS;
    assert n <= 59 && Boundary(age) == (n + 1) * ONE_MINUTE_MS;
  }

  lemma RankInFirstDay(age: int, later: int)
    requires ONE_HOUR_MS <= age < ONE_DAY_MS && age <= later < Boundary(age) + ONE_MINUTE_MS
    ensures Rank(later) == if later < Boundary(age) then Rank(age) else Rank(age) - 1
  {
    var n := age / ONE_HOUR_MS;
    assert 1 <= n <= 23 && Boundary(age) == (n + 1) * ONE_HOUR_MS;
  }

  lemma RankInFirstWeek(age: int, later: int)
    requires ONE_DAY_MS <= age < ONE_WEEK_MS && age <= later < Boundary(age) + ONE_MINUTE_MS
    ensures Rank(later) == if later < Boundary(age) then Rank(age) else Rank(age) - 1
  {
    var n := age / ONE_DAY_MS;
    assert 1 <= n <= 6 && Boundary(age) == (n + 1) * ONE_DAY_MS;
  }

  /** Until the next boundary the rank stays; from the boundary on it is one less, for at least a minute. */
  lemma RankUntilBoundary(age: int, later: int)
    requires 0 <= age < ONE_WEEK_MS && age <= later < Boundary(age) + ONE_MINUTE_MS
    ensures Rank(later) == if later < Boundary(age) then Rank(age) else Rank(age) - 1
  {
    if age < ONE_HOUR_MS {
      RankInFirstHour(age, later);
    } else if age < ONE_DAY_MS {
      RankInFirstDay(age, later);
    } else {
      RankInFirstWeek(age, later);
    }
  }

  /**
   * The label stays until one second before the delay is over and changes exactly then; the second
   * on top skips no label.
   */
  lemma DelayMeetsLabel(since: int, now: int, t: int)
    requires since <= now && AssignedAtRefreshDelay(Some(since), now).Some?
    requires now <= t <= now + AssignedAtRefreshDelay(Some(since), now).value
    ensures var change := now + AssignedAtRefreshDelay(Some(since), now).value - 1000;
            && (LabelAt(since, t) == LabelAt(since, now) <==> t < change)
            && (t >= change ==> LabelAt(since, t) == LabelAt(since, change))
            && (t >= change ==> Rank(Age(since, t)) == Rank(Age(since, now)) - 1)
  {
    var age := Age(since, now);
    var change := now + Interval(age) - age % Interval(age);
    RankUntilBoundary(age, Age(since, t));
    RankUntilBoundary(age, Age(since, change));
    SameLabelIff(since, t, now);
    SameLabelIff(since, t, change);
  }

  /** The label changes one second before the delay is over exactly if the assignment is not in the future. */
  lemma ChangesOnTimeIff(since: int, now: int)
    requires AssignedAtRefreshDelay(Some(since), now).Some?
    ensures LabelAt(since, now + AssignedAtRefreshDelay(Some(since), now).value - 1000) != LabelAt(since, now)
            <==> since <= now
  {
    if since <= now {
      DelayMeetsLabel(since, now, now + AssignedAtRefreshDelay(Some(since), now).value - BUFFER_MS);
    }
  }

  /** How often a label is refreshed until it needs no more refreshing. */
  function Refreshes(since: int, now: int): (n: nat)
    decreases if now < since + ONE_WEEK_MS then since + ONE_WEEK_MS - now else 0
  {
    match AssignedAtRefreshDelay(Some(since), now)
    case None => 0
    case Some(delay) => 1 + Refreshes(since, now + delay)
  }

  /** Every label still to come is shown, one a refresh. */
  lemma {:induction false} RefreshesAreRank(since: int, now: int)
    requires since <= now
    ensures Refreshes(since, now) == Rank(Age(since, now))
    decreases if now < since + ONE_WEEK_MS then since + ONE_WEEK_MS - now else 0
  {
    var delay := AssignedAtRefreshDelay(Some(since), now);
    if delay.Some? {
      DelayMeetsLabel(since, now, now + delay.value);
      RefreshesAreRank(since, now + delay.value);
    }
  }

  /** 89 refreshes are enough exactly if the assignment is at most the buffer in the future. */
  lemma {:induction false} RefreshesBounded(since: int, now: int)
    ensures Refreshes(since, now) <= 89 <==> since <= now + 1000
    decreases if now < since then since - now else 0
  {
    if since <= now {
      RefreshesAreRank(since, now);
    } else {
      var next := now + ONE_MINUTE_MS + BUFFER_MS;
      assert AssignedAtRefreshDelay(Some(since), now) == Some(ONE_MINUTE_MS + BUFFER_MS);
      assert Refreshes(since, now) == 1 + Refreshes(since, next);
      if since <= next {
        RefreshesAreRank(since, next);
      } else {
        RefreshesBounded(since, next);
        MoreThanRank(since, next);
      }
    }
  }

  lemma {:induction false} MoreThanRank(since: int, now: int)
    requires since > now
    ensures Refreshes(since, now) >= 89
    decreases since - now
  {
    var next := now + ONE_MINUTE_MS + BUFFER_MS;
    assert AssignedAtRefreshDelay(Some(since), now) == Some(ONE_MINUTE_MS + BUFFER_MS);
    if since <= next {
      RefreshesAreRank(since, next);
    } else {
      MoreThanRank(since, next);
    }
  }
}
