/**
 The per-account reward ledger of the DailyKamai bot: the user record, its
 creation defaults, the lazy daily counter reset, the group-membership flag,
 crediting one watched ad and the withdrawal gate. Every operation is a pure
 function of one record and the inputs the source reads from the outside
 world (the clock, the membership status).
 */
module Ledger {
  import opened Optional

  // Policy constants (index.js:41-48).
  const AD_REWARD: int := 3
  const REFERRAL_REWARD: int := 50
  const DAILY_LIMIT: int := 20
  const AD_SECONDS: int := 30
  const MIN_WITHDRAW: int := 500
  const MIN_REFERRALS: int := 5
  const ADVANCED_REFERRALS: int := 15
  const MIN_DAYS_FOR_WITHDRAW: int := 3

  const MS_PER_DAY: int := 1000 * 60 * 60 * 24
  /** Shortest accepted gap between two credited ads: one second of slack below AD_SECONDS. */
  const MIN_AD_GAP_MS: int := (AD_SECONDS - 1) * 1000

  /**
   The calendar day of a millisecond timestamp as `Date.toDateString` sees it
   in the server's time zone. The model takes it as a parameter and assumes
   nothing about it.
   */
  type DayOf = int -> int

  /** One user document (index.js:81-93); timestamps are milliseconds. */
  datatype Account = Account(
    telegramId: int,
    firstSeen: int,
    balance: int,
    referralCount: int,
    referredBy: Option<int>,
    upi: string,
    adsWatchedToday: int,
    lastAdAt: Option<int>,
    lastReset: Option<int>,
    joinedGroup: bool,
    firstName: string)

  /**
   What the ledger keeps true of every record it creates or updates. A
   referrer is never the user and never 0, since a code of 0 is falsy and
   never stored.
   */
  predicate Valid(a: Account) {
    && a.balance >= 0
    && a.referralCount >= 0
    && 0 <= a.adsWatchedToday <= DAILY_LIMIT
    && a.referredBy != Some(a.telegramId)
    && a.referredBy != Some(0)
  }

  /** A record with every counter at zero and nothing attributed, paid out or watched yet. */
  predicate Pristine(a: Account) {
    && a.balance == 0 && a.referralCount == 0 && a.referredBy.None?
    && a.upi == "" && a.adsWatchedToday == 0 && a.lastAdAt.None? && !a.joinedGroup
  }

  /**
   The document `new User({ telegramId, firstSeen: new Date() })` creates at
   `now`: schema defaults everywhere, the counter reset stamped `now`, and the
   first name when one is given.
   */
  function NewAccount(id: int, firstName: string, now: int): (a: Account)
    ensures a.telegramId == id && a.firstSeen == now && a.firstName == firstName
    ensures Pristine(a) && Valid(a)
    ensures a.lastReset == Some(now)
  {
    Account(id, now, 0, 0, None, "", 0, None, Some(now), false, firstName)
  }

  // ---------------------------------------------------------------------------
  // Daily counter reset

  /** The stored counter belongs to another day than `now` (or was never stamped). */
  predicate ResetDue(a: Account, now: int, day: DayOf) {
    a.lastReset.None? || day(now) != day(a.lastReset.value)
  }

  /** `resetDailyIfNeeded` (index.js:120-127). */
  function ResetDailyIfNeeded(a: Account, now: int, day: DayOf): (r: Account)
    ensures !ResetDue(r, now, day)
    ensures ResetDue(a, now, day) ==> r.adsWatchedToday == 0 && r.lastReset == Some(now)
    ensures !ResetDue(a, now, day) ==> r == a
    ensures r.(adsWatchedToday := a.adsWatchedToday, lastReset := a.lastReset) == a
  {
    if ResetDue(a, now, day) then a.(adsWatchedToday := 0, lastReset := Some(now)) else a
  }

  /** A second reset on the same calendar day changes nothing. */
  lemma ResetIdempotent(a: Account, now: int, later: int, day: DayOf)
    requires day(later) == day(now)
    ensures ResetDailyIfNeeded(ResetDailyIfNeeded(a, now, day), later, day)
         == ResetDailyIfNeeded(a, now, day)
  {
  }

  lemma ResetPreservesValid(a: Account, now: int, day: DayOf)
    requires Valid(a)
    ensures Valid(ResetDailyIfNeeded(a, now, day))
  {
  }

  // ---------------------------------------------------------------------------
  // Group membership

  /** The `status` field of `getChatMember`. */
  datatype ChatStatus = Creator | Administrator | Member | Restricted | Left | Kicked

  /** The live membership test; `None` is a failed `getChatMember` call. */
  predicate IsMember(status: Option<ChatStatus>) {
    status == Some(Member) || status == Some(Administrator) || status == Some(Creator)
  }

  datatype FlagStep = FlagStep(joined: bool, account: Account)

  /**
   `ensureGroupFlag` (index.js:129-141): reports the live status and makes the
   stored `joinedGroup` flag sticky; the report never depends on the flag.
   */
  function EnsureGroupFlag(a: Account, status: Option<ChatStatus>): (s: FlagStep)
    ensures s.joined <==> IsMember(status)
    ensures s.account.joinedGroup <==> a.joinedGroup || IsMember(status)
    ensures s.account.(joinedGroup := a.joinedGroup) == a
  {
    if IsMember(status) then FlagStep(true, a.(joinedGroup := true)) else FlagStep(false, a)
  }

  // ---------------------------------------------------------------------------
  // Crediting one ad

  datatype AdOutcome = LimitReached | TooSoon | Credited

  datatype AdStep = AdStep(outcome: AdOutcome, account: Account)

  /** The previous credited ad lies less than the minimum gap before `now`. */
  predicate TooSoonAfter(lastAdAt: Option<int>, now: int) {
    lastAdAt.Some? && now - lastAdAt.value < MIN_AD_GAP_MS
  }

  /**
   The ledger part of `GET /reward` (index.js:329-338) for a known user: the
   lazy reset is applied first and kept whatever happens; then the daily
   limit, then the minimum gap, and only then the credit.
   */
  function CreditAd(a: Account, now: int, day: DayOf): (s: AdStep)
    ensures var b := ResetDailyIfNeeded(a, now, day);
      && (s.outcome == LimitReached <==> b.adsWatchedToday >= DAILY_LIMIT)
      && (s.outcome == TooSoon <==> b.adsWatchedToday < DAILY_LIMIT && TooSoonAfter(b.lastAdAt, now))
      && (s.outcome != Credited ==> s.account == b)
      && (s.outcome == Credited ==>
            && s.account.balance == a.balance + AD_REWARD
            && s.account.adsWatchedToday == b.adsWatchedToday + 1 <= DAILY_LIMIT
            && s.account.lastAdAt == Some(now)
            && (a.lastAdAt.Some? ==> now - a.lastAdAt.value >= MIN_AD_GAP_MS)
            && s.account.(balance := b.balance, adsWatchedToday := b.adsWatchedToday, lastAdAt := b.lastAdAt) == b)
  {
    var b := ResetDailyIfNeeded(a, now, day);
    if b.adsWatchedToday >= DAILY_LIMIT then AdStep(LimitReached, b)
    else if TooSoonAfter(b.lastAdAt, now) then AdStep(TooSoon, b)
    else AdStep(Credited, b.(balance := b.balance + AD_REWARD,
                             adsWatchedToday := b.adsWatchedToday + 1,
                             lastAdAt := Some(now)))
  }

  /**
   A rejected credit pays nothing and counts nothing: the balance is kept and
   the counter moves only if the day rolled over (and then to zero).
   */
  lemma RejectedAdKeepsLedger(a: Account, now: int, day: DayOf)
    requires CreditAd(a, now, day).outcome != Credited
    ensures var r := CreditAd(a, now, day).account;
      && r.balance == a.balance
      && r.lastAdAt == a.lastAdAt
      && (r.adsWatchedToday == a.adsWatchedToday || (ResetDue(a, now, day) && r.adsWatchedToday == 0))
  {
  }

  lemma CreditAdPreservesValid(a: Account, now: int, day: DayOf)
    requires Valid(a)
    ensures Valid(CreditAd(a, now, day).account)
  {
  }

  /** The gap check sits exactly at 29 seconds: 29 000 ms after the last credit passes, 28 999 ms does not. */
  lemma AdGapBoundary(a: Account, t: int, day: DayOf)
    requires a.lastAdAt == Some(t)
    requires ResetDailyIfNeeded(a, t + MIN_AD_GAP_MS, day).adsWatchedToday < DAILY_LIMIT
    requires ResetDailyIfNeeded(a, t + MIN_AD_GAP_MS - 1, day).adsWatchedToday < DAILY_LIMIT
    ensures CreditAd(a, t + 29000, day).outcome == Credited
    ensures CreditAd(a, t + 28999, day).outcome == TooSoon
  {
  }

  // ---------------------------------------------------------------------------
  // Withdrawal gate

  datatype WithdrawOutcome =
    | NeedUpi                        // prompt for a UPI id, nothing else happens
    | BelowMinimum(balance: int)
    | TooFewReferrals(count: int)
    | NotFullReferrals(count: int)
    | TooNew(daysLeft: int)
    | Placed(payout: int)

  datatype WithdrawStep = WithdrawStep(outcome: WithdrawOutcome, account: Account)

  /** Whole days since the account was first seen: `Math.floor` of the millisecond difference. */
  function DaysSince(firstSeen: int, now: int): (d: int)
    ensures d * MS_PER_DAY <= now - firstSeen < (d + 1) * MS_PER_DAY
  {
    (now - firstSeen) / MS_PER_DAY
  }

  /** Everything a successful withdrawal needs, stated independently of the order of the checks. */
  predicate Eligible(a: Account, now: int) {
    && a.upi != ""
    && a.balance >= MIN_WITHDRAW
    && a.referralCount >= MIN_REFERRALS
    && a.referralCount >= ADVANCED_REFERRALS
    && DaysSince(a.firstSeen, now) >= MIN_DAYS_FOR_WITHDRAW
  }

  /**
   The "Withdraw Funds" branch (index.js:284-301): the first failing check
   wins; a rejection changes nothing; a success pays the whole balance out
   and zeroes it.
   */
  function Withdraw(a: Account, now: int): (s: WithdrawStep)
    ensures s.outcome == NeedUpi <==> a.upi == ""
    ensures s.outcome.BelowMinimum? <==> a.upi != "" && a.balance < MIN_WITHDRAW
    ensures s.outcome.TooFewReferrals? <==>
      a.upi != "" && a.balance >= MIN_WITHDRAW && a.referralCount < MIN_REFERRALS
    ensures s.outcome.NotFullReferrals? <==>
      a.upi != "" && a.balance >= MIN_WITHDRAW && MIN_REFERRALS <= a.referralCount < ADVANCED_REFERRALS
    ensures s.outcome.TooNew? <==>
      && a.upi != "" && a.balance >= MIN_WITHDRAW && a.referralCount >= ADVANCED_REFERRALS
      && DaysSince(a.firstSeen, now) < MIN_DAYS_FOR_WITHDRAW
    ensures s.outcome.TooNew? ==> s.outcome.daysLeft > 0
    ensures s.outcome.Placed? <==> Eligible(a, now)
    ensures !s.outcome.Placed? ==> s.account == a
    ensures s.outcome.Placed? ==> s.outcome.payout == a.balance && s.account == a.(balance := 0)
  {
    if a.upi == "" then WithdrawStep(NeedUpi, a)
    else if a.balance < MIN_WITHDRAW then WithdrawStep(BelowMinimum(a.balance), a)
    else if a.referralCount < MIN_REFERRALS then WithdrawStep(TooFewReferrals(a.referralCount), a)
    else if a.referralCount < ADVANCED_REFERRALS then WithdrawStep(NotFullReferrals(a.referralCount), a)
    else
      var days := DaysSince(a.firstSeen, now);
      if days < MIN_DAYS_FOR_WITHDRAW then WithdrawStep(TooNew(MIN_DAYS_FOR_WITHDRAW - days), a)
      else WithdrawStep(Placed(a.balance), a.(balance := 0))
  }

  /** A placed withdrawal pays at least the minimum, and a second request right after it is refused. */
  lemma WithdrawOnceThenBelowMinimum(a: Account, now: int, later: int)
    requires Withdraw(a, now).outcome.Placed?
    ensures Withdraw(a, now).outcome.payout >= MIN_WITHDRAW
    ensures Withdraw(Withdraw(a, now).account, later).outcome == BelowMinimum(0)
  {
  }

  /**
   Five referrals are not enough in the live rules: an account with a UPI id,
   500 in balance, five referrals and three days behind it is held back by the
   15-referral check.
   */
  lemma FiveReferralsAreNotEnough(a: Account, now: int)
    requires a.upi != "" && a.balance == MIN_WITHDRAW && a.referralCount == MIN_REFERRALS
    requires now == a.firstSeen + MIN_DAYS_FOR_WITHDRAW * MS_PER_DAY
    ensures Withdraw(a, now).outcome == NotFullReferrals(MIN_REFERRALS)
    ensures Withdraw(a.(referralCount := ADVANCED_REFERRALS), now).outcome == Placed(MIN_WITHDRAW)
    ensures Withdraw(a.(referralCount := ADVANCED_REFERRALS), now - 2 * MS_PER_DAY).outcome == TooNew(2)
  {
  }

  lemma WithdrawPreservesValid(a: Account, now: int)
    requires Valid(a)
    ensures Valid(Withdraw(a, now).account)
  {
  }
}
