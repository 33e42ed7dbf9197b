/**
 The reply-keyboard message handler (index.js:250-307) and the one-shot UPI
 reply listener of the "Withdraw Funds" branch (index.js:287-288).
 */
module MessageHandler {
  import opened Optional
  import opened JsStrings
  import opened Ledger
  import opened AccountStore
  import StartCommand

  // Reply-keyboard labels (index.js:101-103).
  const AD_BUTTON: string := "\U{1F3AC} Ad Dekho"
  const BALANCE_BUTTON: string := "\U{1F4B0} Balance"
  const REFER_BUTTON: string := "\U{1F465} Refer & Earn"
  const WITHDRAW_BUTTON: string := "\U{1F3E6} Withdraw Funds"
  const JOIN_BUTTON: string := "\U{1F381} Join Group"

  /** An incoming chat message; an empty `text` stands for a message without text. */
  datatype Message = Message(from: int, firstName: string, text: string, replyTo: Option<int>)

  datatype MenuReply =
    | Ignored
    | JoinPrompt
    | AdLimitReached
    | AdLink
    | ShowBalance(balance: int, referrals: int)
    | ReferLink(referrals: int)
    | WithdrawReply(outcome: WithdrawOutcome)
    | JoinGroupInfo
    | MenuHint

  /** Messages the handler returns on at once: no text, or a `/start` command (handled elsewhere). */
  predicate IgnoredText(text: string) {
    text == "" || StartsWith(Trim(text), StartCommand.START)
  }

  datatype Prepared = Prepared(store: Store, account: Account, joined: bool)

  /**
   `a` is the sender's record as the handler leaves it before the menu: a new
   sender's fresh record carrying the live flag, or the stored record with only
   the daily counter, its stamp and the flag touched, the counter and stamp
   kept when no reset is due and set to 0 and `now` when one is.
   */
  predicate Refreshed(s: Store, m: Message, status: Option<ChatStatus>, now: int, day: DayOf, a: Account) {
    if m.from !in s then a == NewAccount(m.from, m.firstName, now).(joinedGroup := IsMember(status))
    else
      var b := s[m.from];
      && a.(adsWatchedToday := b.adsWatchedToday, lastReset := b.lastReset, joinedGroup := b.joinedGroup) == b
      && (!ResetDue(b, now, day) ==> a.adsWatchedToday == b.adsWatchedToday && a.lastReset == b.lastReset)
      && (ResetDue(b, now, day) ==> a.adsWatchedToday == 0 && a.lastReset == Some(now))
  }

  /**
   What the handler does before looking at the text (index.js:259-262): load or
   create the sender, apply the lazy reset, refresh the membership flag, and
   save the result.
   */
  function Prepare(s: Store, m: Message, status: Option<ChatStatus>, now: int, day: DayOf): (p: Prepared)
    ensures p.store.Keys == s.Keys + {m.from}
    ensures m.from in p.store && p.store[m.from] == p.account
    ensures forall k :: k in s && k != m.from ==> p.store[k] == s[k]
    ensures p.joined <==> IsMember(status)
    ensures p.account.joinedGroup <==> (m.from in s && s[m.from].joinedGroup) || IsMember(status)
    ensures !ResetDue(p.account, now, day)
    ensures m.from in s ==> p.account.balance == s[m.from].balance && p.account.referralCount == s[m.from].referralCount
    ensures m.from in s ==> p.account.upi == s[m.from].upi && p.account.firstSeen == s[m.from].firstSeen
    ensures m.from !in s ==> Pristine(p.account.(joinedGroup := false)) && p.account.firstSeen == now
    ensures Refreshed(s, m, status, now, day, p.account)
    ensures ValidStore(s) ==> ValidStore(p.store)
  {
    var loaded := EnsureUser(s, m.from, m.firstName, now);
    var reset := ResetDailyIfNeeded(loaded.account, now, day);
    var flag := EnsureGroupFlag(reset, status);
    Prepared(loaded.store[m.from := flag.account], flag.account, flag.joined)
  }

  datatype MenuStep = MenuStep(reply: MenuReply, account: Account)

  /**
   The keyboard branches for a member (index.js:267-306), on the prepared
   record: only "Withdraw Funds" can change it, and only through the
   withdrawal gate.
   */
  function Menu(text: string, a: Account, now: int): (r: MenuStep)
    ensures r.reply != Ignored && r.reply != JoinPrompt
    ensures r.reply == AdLimitReached <==> text == AD_BUTTON && a.adsWatchedToday >= DAILY_LIMIT
    ensures r.reply == AdLink <==> text == AD_BUTTON && a.adsWatchedToday < DAILY_LIMIT
    ensures r.reply.WithdrawReply? <==> text == WITHDRAW_BUTTON
    ensures r.reply.WithdrawReply? ==>
      r.reply.outcome == Withdraw(a, now).outcome && r.account == Withdraw(a, now).account
    ensures !r.reply.WithdrawReply? ==> r.account == a
  {
    if text == AD_BUTTON then
      MenuStep(if a.adsWatchedToday >= DAILY_LIMIT then AdLimitReached else AdLink, a)
    else if text == BALANCE_BUTTON then MenuStep(ShowBalance(a.balance, a.referralCount), a)
    else if text == REFER_BUTTON then MenuStep(ReferLink(a.referralCount), a)
    else if text == WITHDRAW_BUTTON then
      var w := Withdraw(a, now);
      MenuStep(WithdrawReply(w.outcome), w.account)
    else if text == JOIN_BUTTON then MenuStep(JoinGroupInfo, a)
    else MenuStep(MenuHint, a)
  }

  datatype HandleResult = HandleResult(reply: MenuReply, store: Store)

  /** `bot.on("message", ...)`: ignore, prepare the sender, then the membership gate, then the keyboard. */
  function HandleMessage(s: Store, m: Message, status: Option<ChatStatus>, now: int, day: DayOf): (r: HandleResult)
    ensures r.reply == Ignored <==> IgnoredText(m.text)
    ensures r.reply == Ignored ==> r.store == s
    ensures r.reply != Ignored ==>
      && r.store.Keys == s.Keys + {m.from}
      && (forall k :: k in s && k != m.from ==> r.store[k] == s[k])
      && (r.reply == JoinPrompt <==> !IsMember(status))
    ensures r.reply != Ignored && r.reply != JoinPrompt ==>
      && r.reply == Menu(Trim(m.text), Prepare(s, m, status, now, day).account, now).reply
      && r.store == Prepare(s, m, status, now, day).store[
           m.from := Menu(Trim(m.text), Prepare(s, m, status, now, day).account, now).account]
    ensures r.reply == JoinPrompt ==> r.store == Prepare(s, m, status, now, day).store
  {
    if IgnoredText(m.text) then HandleResult(Ignored, s)
    else
      var p := Prepare(s, m, status, now, day);
      if !p.joined then HandleResult(JoinPrompt, p.store)
      else
        var step := Menu(Trim(m.text), p.account, now);
        HandleResult(step.reply, p.store[m.from := step.account])
  }

  /** Pressing "Ad Dekho" shows the limit message exactly to a member with 20 ads counted today. */
  lemma AdButtonPrecheck(s: Store, m: Message, status: Option<ChatStatus>, now: int, day: DayOf)
    requires Trim(m.text) == AD_BUTTON
    ensures var r := HandleMessage(s, m, status, now, day);
      && (r.reply == AdLimitReached <==> IsMember(status) && r.store[m.from].adsWatchedToday >= DAILY_LIMIT)
      && (r.reply == AdLink <==> IsMember(status) && r.store[m.from].adsWatchedToday < DAILY_LIMIT)
      && r.store[m.from].adsWatchedToday == ResetDailyIfNeeded(EnsureUser(s, m.from, m.firstName, now).account, now, day).adsWatchedToday
  {
    assert m.text != "" by { assert Trim(m.text) != ""; }
    assert !StartsWith(Trim(m.text), StartCommand.START) by {
      assert Trim(m.text)[0] != '/';
    }
  }

  /**
   The chat never credits an ad and only a placed withdrawal moves money: the
   sender's balance is kept (zero for a new sender) unless the reply is a
   placed withdrawal, which pays out exactly that balance and leaves zero.
   */
  lemma ChatMovesMoneyOnlyByWithdrawal(s: Store, m: Message, status: Option<ChatStatus>, now: int, day: DayOf)
    requires !IgnoredText(m.text)
    ensures var r := HandleMessage(s, m, status, now, day);
      var before := if m.from in s then s[m.from].balance else 0;
      && (r.reply.WithdrawReply? && r.reply.outcome.Placed? ==>
            r.reply.outcome.payout == before && r.store[m.from].balance == 0)
      && (!(r.reply.WithdrawReply? && r.reply.outcome.Placed?) ==> r.store[m.from].balance == before)
  {
  }

  /** The keyboard branches never look at the stored membership flag. */
  lemma MenuIgnoresFlag(text: string, a: Account, now: int, flag: bool)
    ensures Menu(text, a.(joinedGroup := flag), now).reply == Menu(text, a, now).reply
  {
    assert Withdraw(a.(joinedGroup := flag), now).outcome == Withdraw(a, now).outcome;
  }

  /**
   The gate reads the live membership status only: flipping the stored
   `joinedGroup` flag of the sender never changes the reply.
   */
  lemma GateIgnoresStoredFlag(s: Store, m: Message, status: Option<ChatStatus>, now: int, day: DayOf)
    requires m.from in s
    ensures var flipped := s[m.from := s[m.from].(joinedGroup := !s[m.from].joinedGroup)];
      HandleMessage(flipped, m, status, now, day).reply == HandleMessage(s, m, status, now, day).reply
  {
    var flipped := s[m.from := s[m.from].(joinedGroup := !s[m.from].joinedGroup)];
    var p := Prepare(s, m, status, now, day);
    var q := Prepare(flipped, m, status, now, day);
    assert q.account == p.account.(joinedGroup := q.account.joinedGroup);
    MenuIgnoresFlag(Trim(m.text), p.account, now, q.account.joinedGroup);
  }

  lemma HandleMessagePreservesValidStore(s: Store, m: Message, status: Option<ChatStatus>, now: int, day: DayOf)
    requires ValidStore(s)
    ensures ValidStore(HandleMessage(s, m, status, now, day).store)
  {
    if !IgnoredText(m.text) {
      var p := Prepare(s, m, status, now, day);
      if p.joined {
        var a := p.account;
        assert Valid(a) && a.telegramId == m.from;
        var step := Menu(Trim(m.text), a, now);
        WithdrawPreservesValid(a, now);
        assert Valid(step.account) && step.account.telegramId == m.from;
        SaveKeepsValidStore(p.store, step.account);
      }
    }
  }

  // ---------------------------------------------------------------------------
  // UPI reply listener

  /** A pending "Send your UPI ID" prompt: who was asked, and the id of the prompt message. */
  datatype UpiPrompt = UpiPrompt(userId: int, promptId: int)

  /** The listener's filter: a text message from the prompted user replying to that very prompt. */
  predicate AnswersPrompt(p: UpiPrompt, m: Message) {
    m.text != "" && m.from == p.userId && m.replyTo == Some(p.promptId)
  }

  datatype ListenerResult = ListenerResult(consumed: bool, store: Store)

  /**
   The listener registered at index.js:287-288: an answering message stores its
   trimmed text as the UPI id and retires the listener; any other message
   leaves the store alone and the listener waiting.
   */
  function UpiListener(s: Store, p: UpiPrompt, m: Message): (r: ListenerResult)
    ensures r.consumed <==> AnswersPrompt(p, m)
    ensures r.store.Keys == s.Keys
    ensures r.consumed && p.userId in s ==>
      r.store[p.userId].upi == Trim(m.text)
      && r.store[p.userId].(upi := s[p.userId].upi) == s[p.userId]
    ensures forall k :: k in s && (k != p.userId || !r.consumed) ==> r.store[k] == s[k]
  {
    if !AnswersPrompt(p, m) then ListenerResult(false, s)
    else if p.userId in s then ListenerResult(true, s[p.userId := s[p.userId].(upi := Trim(m.text))])
    else ListenerResult(true, s)
  }

  /**
   After the listener takes a reply, the next withdrawal passes the UPI check
   exactly when the reply held a non-space character; a blank reply is taken
   all the same and leaves the UPI id empty.
   */
  lemma UpiReplyUnlocksWithdrawal(s: Store, p: UpiPrompt, m: Message, now: int)
    requires AnswersPrompt(p, m) && p.userId in s
    ensures var a := UpiListener(s, p, m).store[p.userId];
      Withdraw(a, now).outcome != NeedUpi <==> exists i :: 0 <= i < |m.text| && !IsSpace(m.text[i])
  {
    TrimEmptyIffBlank(m.text);
  }

  lemma UpiListenerPreservesValidStore(s: Store, p: UpiPrompt, m: Message)
    requires ValidStore(s)
    ensures ValidStore(UpiListener(s, p, m).store)
  {
  }
}
