/** `GET /reward?user=<id>` (index.js:322-344), called by the ad page when the video ends. */
module RewardEndpoint {
  import opened Optional
  import opened Ledger
  import opened AccountStore

  /** `Number(req.query.user)`: not a number, a number that is not an integer (or infinite), or an integer. */
  datatype QueryNumber = NaN | NonIntegral | Integer(n: int)

  datatype RewardReply =
    | MissingUser              // 400
    | UserNotFound             // 404
    | DailyLimitReached        // 429
    | TooSoonReply             // 429
    | Rewarded(balance: int)   // 200, and the user is notified of the new balance

  /** The HTTP status each reply is sent with. */
  function StatusCode(r: RewardReply): int {
    match r
    case MissingUser => 400
    case UserNotFound => 404
    case DailyLimitReached => 429
    case TooSoonReply => 429
    case Rewarded(_) => 200
  }

  /** `!userId` in JavaScript: true for NaN and for zero. */
  predicate Falsy(q: QueryNumber) {
    q == NaN || q == Integer(0)
  }

  datatype RewardResult = RewardResult(reply: RewardReply, store: Store)

  /**
   The handler: 400 for a falsy id, 404 for an id with no record (nothing is
   created), otherwise the ledger's ad credit on that one record, whose lazy
   reset is saved even when the credit is refused.
   */
  function Reward(s: Store, q: QueryNumber, now: int, day: DayOf): (r: RewardResult)
    ensures r.reply == MissingUser <==> Falsy(q)
    ensures r.reply == UserNotFound <==> !Falsy(q) && (q.NonIntegral? || q.n !in s)
    ensures r.reply.MissingUser? || r.reply.UserNotFound? ==> r.store == s
    ensures !(r.reply.MissingUser? || r.reply.UserNotFound?) ==>
      && q.Integer? && q.n in s
      && r.store == s[q.n := CreditAd(s[q.n], now, day).account]
      && (r.reply == DailyLimitReached <==> CreditAd(s[q.n], now, day).outcome == LimitReached)
      && (r.reply == TooSoonReply <==> CreditAd(s[q.n], now, day).outcome == TooSoon)
      && (r.reply.Rewarded? ==> r.reply.balance == s[q.n].balance + AD_REWARD)
    ensures r.store.Keys == s.Keys
    ensures StatusCode(r.reply) == 400 <==> Falsy(q)
    ensures StatusCode(r.reply) == 404 <==> !Falsy(q) && (q.NonIntegral? || q.n !in s)
    ensures StatusCode(r.reply) == 429 <==> r.reply == DailyLimitReached || r.reply == TooSoonReply
    ensures StatusCode(r.reply) == 200 <==> r.reply.Rewarded?
  {
    if Falsy(q) then RewardResult(MissingUser, s)
    else if q.NonIntegral? || q.n !in s then RewardResult(UserNotFound, s)
    else
      var step := CreditAd(s[q.n], now, day);
      var s' := s[q.n := step.account];
      match step.outcome
      case LimitReached => RewardResult(DailyLimitReached, s')
      case TooSoon => RewardResult(TooSoonReply, s')
      case Credited => RewardResult(Rewarded(step.account.balance), s')
  }

  /**
   Whatever the reply, no balance other than the caller's moves, and the
   caller's moves by exactly the reward on a 200 and not at all otherwise.
   */
  lemma RewardMovesOnlyOneBalance(s: Store, q: QueryNumber, now: int, day: DayOf)
    ensures var r := Reward(s, q, now, day);
      forall id :: id in s ==>
        r.store[id].balance == s[id].balance + (if r.reply.Rewarded? && q == Integer(id) then AD_REWARD else 0)
  {
  }

  lemma RewardPreservesValidStore(s: Store, q: QueryNumber, now: int, day: DayOf)
    requires ValidStore(s)
    ensures ValidStore(Reward(s, q, now, day).store)
  {
    if q.Integer? && q.n in s {
      CreditAdPreservesValid(s[q.n], now, day);
    }
  }
}
