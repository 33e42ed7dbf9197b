/**
 Many `GET /reward` calls for one user in a row: how often the ledger can pay
 within a calendar day, how far apart paid calls are, and what the balance
 adds up to.
 */
module AdRuns {
  import opened Optional
  import opened Ledger
  import AccountStore

  /** The request times that were paid, and the record after the last call. */
  datatype Run = Run(credited: seq<int>, final: Account)

  /** Feeds the request times, in order, to the ad credit of one record. */
  function RunAds(a: Account, times: seq<int>, day: DayOf): Run
    decreases |times|
  {
    if times == [] then Run([], a)
    else
      var step := CreditAd(a, times[0], day);
      var rest := RunAds(step.account, times[1..], day);
      Run((if step.outcome == Credited then [times[0]] else []) + rest.credited, rest.final)
  }

  /** Every paid call adds exactly the ad reward, no more, no less (`RunCounter` counts them toward the day). */
  lemma {:induction false} RunBalance(a: Account, times: seq<int>, day: DayOf)
    ensures var r := RunAds(a, times, day);
      r.final.balance == a.balance + AD_REWARD * |r.credited|
    decreases |times|
  {
    if times != [] {
      var step := CreditAd(a, times[0], day);
      RunBalance(step.account, times[1..], day);
    }
  }

  /** `a` can be obtained from `b` by deleting elements: its elements occur in `b` in the same order. */
  predicate Subsequence(a: seq<int>, b: seq<int>)
    decreases |b|
  {
    a == [] || (b != [] && ((a[0] == b[0] && Subsequence(a[1..], b[1..])) || Subsequence(a, b[1..])))
  }

  /** The paid times are request times, in request order. */
  lemma {:induction false} RunCreditedAreRequests(a: Account, times: seq<int>, day: DayOf)
    ensures Subsequence(RunAds(a, times, day).credited, times)
    decreases |times|
  {
    if times != [] {
      var step := CreditAd(a, times[0], day);
      RunCreditedAreRequests(step.account, times[1..], day);
      var rest := RunAds(step.account, times[1..], day).credited;
      var paid := RunAds(a, times, day).credited;
      if step.outcome == Credited {
        assert paid == [times[0]] + rest;
        assert paid[1..] == rest;
      } else {
        assert paid == rest;
      }
    }
  }

  /** A subsequence keeps only elements of the sequence and is no longer than it. */
  lemma {:induction false} SubsequenceMembers(a: seq<int>, b: seq<int>)
    requires Subsequence(a, b)
    ensures |a| <= |b| && forall i :: 0 <= i < |a| ==> a[i] in b
    decreases |b|
  {
    if a != [] {
      if a[0] == b[0] && Subsequence(a[1..], b[1..]) {
        SubsequenceMembers(a[1..], b[1..]);
        forall i | 0 <= i < |a| ensures a[i] in b {
          if i > 0 { assert a[i] == a[1..][i - 1]; assert a[i] in b[1..]; }
        }
      } else {
        SubsequenceMembers(a, b[1..]);
        forall i | 0 <= i < |a| ensures a[i] in b {
          assert a[i] in b[1..];
        }
      }
    }
  }

  /** How many more ads a record may be paid on its current day. */
  function Headroom(a: Account): int {
    if a.adsWatchedToday >= DAILY_LIMIT then 0 else DAILY_LIMIT - a.adsWatchedToday
  }

  lemma {:induction false} SameDayRunWithinHeadroom(a: Account, times: seq<int>, d: int, day: DayOf)
    requires a.lastReset.Some? && day(a.lastReset.value) == d
    requires forall i :: 0 <= i < |times| ==> day(times[i]) == d
    ensures |RunAds(a, times, day).credited| <= Headroom(a)
    decreases |times|
  {
    if times != [] {
      var step := CreditAd(a, times[0], day);
      assert !ResetDue(a, times[0], day);
      SameDayRunWithinHeadroom(step.account, times[1..], d, day);
    }
  }

  /**
   Within one calendar day at most DAILY_LIMIT calls of a run of `/reward`
   calls are paid, when no midnight sweep falls between them
   (`SweepAfterPaidAdAllowsTwentyOne` shows what a sweep can add).
   */
  lemma DailyLimitHolds(a: Account, times: seq<int>, d: int, day: DayOf)
    requires a.adsWatchedToday >= 0
    requires forall i :: 0 <= i < |times| ==> day(times[i]) == d
    ensures |RunAds(a, times, day).credited| <= DAILY_LIMIT
  {
    if times != [] {
      var step := CreditAd(a, times[0], day);
      assert day(step.account.lastReset.value) == d;
      SameDayRunWithinHeadroom(step.account, times[1..], d, day);
    }
  }

  /** Neighbouring entries of `cs` lie at least the minimum gap apart. */
  predicate Spaced(cs: seq<int>) {
    forall i :: 0 <= i < |cs| - 1 ==> cs[i + 1] - cs[i] >= MIN_AD_GAP_MS
  }

  /** Putting a time far enough before the head of a spaced sequence keeps it spaced. */
  lemma SpacedCons(t: int, cs: seq<int>)
    requires Spaced(cs)
    requires |cs| > 0 ==> cs[0] - t >= MIN_AD_GAP_MS
    ensures Spaced([t] + cs)
  {
    var r := [t] + cs;
    forall i | 0 <= i < |r| - 1
      ensures r[i + 1] - r[i] >= MIN_AD_GAP_MS
    {
      if i > 0 {
        assert r[i] == cs[i - 1] && r[i + 1] == cs[i];
      }
    }
  }

  /** Each paid call lies at least the minimum gap after the previous paid call (or the stored one). */
  lemma {:induction false} RunIsSpaced(a: Account, times: seq<int>, day: DayOf)
    ensures var r := RunAds(a, times, day);
      && Spaced(r.credited)
      && (a.lastAdAt.Some? && |r.credited| > 0 ==> r.credited[0] - a.lastAdAt.value >= MIN_AD_GAP_MS)
    decreases |times|
  {
    if times != [] {
      var step := CreditAd(a, times[0], day);
      var rest := RunAds(step.account, times[1..], day);
      RunIsSpaced(step.account, times[1..], day);
      if step.outcome == Credited {
        assert step.account.lastAdAt == Some(times[0]);
        SpacedCons(times[0], rest.credited);
      } else {
        assert step.account.lastAdAt == a.lastAdAt;
      }
    }
  }

  /** The stored `lastAdAt` ends at the last paid call, or stays put when nothing was paid. */
  lemma {:induction false} RunEndsAtLastPaid(a: Account, times: seq<int>, day: DayOf)
    ensures var r := RunAds(a, times, day);
      && (|r.credited| > 0 ==> r.final.lastAdAt == Some(r.credited[|r.credited| - 1]))
      && (|r.credited| == 0 ==> r.final.lastAdAt == a.lastAdAt)
    decreases |times|
  {
    if times != [] {
      var step := CreditAd(a, times[0], day);
      var rest := RunAds(step.account, times[1..], day);
      RunEndsAtLastPaid(step.account, times[1..], day);
      var r := RunAds(a, times, day);
      if step.outcome == Credited {
        assert r.credited == [times[0]] + rest.credited;
      } else {
        assert r.credited == rest.credited;
      }
    }
  }

  /** Paid calls that are `j - i` payments apart are at least `j - i` minimum gaps apart. */
  lemma {:induction false} SpacedApart(cs: seq<int>, i: int, j: int)
    requires Spaced(cs)
    requires 0 <= i <= j < |cs|
    ensures cs[j] - cs[i] >= MIN_AD_GAP_MS * (j - i)
    decreases j - i
  {
    if i < j {
      SpacedApart(cs, i, j - 1);
      assert cs[j] - cs[j - 1] >= MIN_AD_GAP_MS;
    }
  }

  /** Any two paid calls of a run lie at least 29 seconds apart. */
  lemma PaidCallsAreApart(a: Account, times: seq<int>, day: DayOf, i: int, j: int)
    requires var r := RunAds(a, times, day); 0 <= i < j < |r.credited|
    ensures var r := RunAds(a, times, day); r.credited[j] - r.credited[i] >= MIN_AD_GAP_MS
  {
    var r := RunAds(a, times, day);
    RunIsSpaced(a, times, day);
    SpacedApart(r.credited, i, j);
  }

  /**
   The other direction of the daily bound: calls on one day that respect the
   minimum gap are all paid until the day's headroom is used up.
   */
  lemma {:induction false} SpacedSameDayRunIsPaidToLimit(a: Account, times: seq<int>, d: int, day: DayOf)
    requires a.lastReset.Some? && day(a.lastReset.value) == d
    requires forall i :: 0 <= i < |times| ==> day(times[i]) == d
    requires Spaced(times)
    requires a.lastAdAt.Some? && |times| > 0 ==> times[0] - a.lastAdAt.value >= MIN_AD_GAP_MS
    ensures |RunAds(a, times, day).credited| == if |times| < Headroom(a) then |times| else Headroom(a)
    decreases |times|
  {
    if times != [] {
      var step := CreditAd(a, times[0], day);
      assert !ResetDue(a, times[0], day);
      if |times| > 1 {
        assert times[1] - times[0] >= MIN_AD_GAP_MS;
      }
      SpacedSameDayRunIsPaidToLimit(step.account, times[1..], d, day);
    }
  }

  /**
   A new user who calls every 30 seconds, 21 times within one calendar day, is
   paid 20 times and refused the 21st: the balance ends at 20 * AD_REWARD.
   */
  lemma TwentyOneCallsInOneDay(id: int, t0: int, day: DayOf)
    requires forall k :: 0 <= k <= 20 ==> day(t0 + 30000 * k) == day(t0)
    ensures var times := seq(21, k => t0 + 30000 * k);
      var r := RunAds(NewAccount(id, "", t0), times, day);
      && |r.credited| == DAILY_LIMIT
      && r.final.balance == DAILY_LIMIT * AD_REWARD
      && r.final.adsWatchedToday == DAILY_LIMIT
  {
    var times := seq(21, k => t0 + 30000 * k);
    var a := NewAccount(id, "", t0);
    forall i | 0 <= i < |times|
      ensures day(times[i]) == day(t0)
    {
      assert times[i] == t0 + 30000 * i;
    }
    SpacedSameDayRunIsPaidToLimit(a, times, day(t0), day);
    RunBalance(a, times, day);
    RunCounter(a, times, day);
  }

  /** Within a day on which the record is already current, each paid call adds one to the counter. */
  /**
   The midnight sweep zeroes the counter even when no reset is due. A sweep
   that lands after a paid call of the new day (a late cron run, or a credit
   before `updateMany` reaches the record) lets that day pay 21 ads: one
   before the sweep and 20 after it, all on one calendar day.
   */
  lemma SweepAfterPaidAdAllowsTwentyOne(id: int, t0: int, day: DayOf)
    requires day(t0 + 1) == day(t0)
    requires forall k :: 1 <= k <= 20 ==> day(t0 + 30000 * k) == day(t0)
    ensures var first := CreditAd(NewAccount(id, "", t0), t0, day);
      var swept := AccountStore.BulkReset(map[id := first.account], t0 + 1)[id];
      var r := RunAds(swept, seq(20, k => t0 + 30000 * (k + 1)), day);
      && first.outcome == Credited
      && 1 + |r.credited| == DAILY_LIMIT + 1
      && r.final.balance == (DAILY_LIMIT + 1) * AD_REWARD
  {
    var first := CreditAd(NewAccount(id, "", t0), t0, day);
    assert first.outcome == Credited;
    var swept := AccountStore.BulkReset(map[id := first.account], t0 + 1)[id];
    assert swept == first.account.(adsWatchedToday := 0, lastReset := Some(t0 + 1));
    var times := seq(20, k => t0 + 30000 * (k + 1));
    forall i | 0 <= i < |times|
      ensures day(times[i]) == day(t0)
    {
      assert times[i] == t0 + 30000 * (i + 1);
    }
    assert Spaced(times) by {
      forall i | 0 <= i < |times| - 1
        ensures times[i + 1] - times[i] >= MIN_AD_GAP_MS
      {
        assert times[i + 1] - times[i] == 30000;
      }
    }
    SpacedSameDayRunIsPaidToLimit(swept, times, day(t0), day);
    RunBalance(swept, times, day);
  }

  lemma {:induction false} RunCounter(a: Account, times: seq<int>, day: DayOf)
    requires a.lastReset.Some?
    requires forall i :: 0 <= i < |times| ==> day(times[i]) == day(a.lastReset.value)
    ensures var r := RunAds(a, times, day);
      r.final.adsWatchedToday == a.adsWatchedToday + |r.credited|
    decreases |times|
  {
    if times != [] {
      var step := CreditAd(a, times[0], day);
      assert !ResetDue(a, times[0], day);
      RunCounter(step.account, times[1..], day);
    }
  }

  lemma {:induction false} RunPreservesValid(a: Account, times: seq<int>, day: DayOf)
    requires Valid(a)
    ensures Valid(RunAds(a, times, day).final)
    decreases |times|
  {
    if times != [] {
      var step := CreditAd(a, times[0], day);
      CreditAdPreservesValid(a, times[0], day);
      RunPreservesValid(step.account, times[1..], day);
    }
  }
}
