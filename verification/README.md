# DailyKamai reward ledger in Dafny

DailyKamai is a Telegram bot that pays users for watching ads (₹3 each, at most 20 a day) and for referring friends (₹50 each). Before it accepts a cash-out request it checks a UPI payout id, a minimum balance, a referral count and the account's age. This project models the per-account reward ledger of the live script `index.js` (lines 1-368) and proves properties about it. Every operation is a pure function over immutable records:

- `optional.dfy`: `Option`, standing in for nullable fields.
- `js_strings.dfy`: the ECMAScript string built-ins the bot uses: `trim`, `startsWith`, the `\s` and `\d` classes, and `Number` on a run of digits.
- `html.dfy`: `escapeHtml`.
- `ledger.dfy`: the user document and its defaults, the lazy daily reset, the membership flag, crediting one ad, and the withdrawal gate.
- `account_store.dfy`: the `users` collection as a map from Telegram id to record, `ensureUser`, and the midnight bulk reset.
- `reward_endpoint.dfy`: `GET /reward`.
- `start_command.dfy`: the `/start` pattern, first-contact creation and referral attribution.
- `message_handler.dfy`: the reply-keyboard handler with its membership gate and withdrawal branch, and the UPI reply listener.
- `ad_runs.dfy`: sequences of `/reward` calls for one user, covering the daily bound (and how the midnight sweep can exceed it), the spacing between paid calls and the balance total.

Time is an integer count of milliseconds passed in as `now`. The calendar day that `Date.toDateString` computes depends on the server's time zone, so it enters as a parameter `day: int -> int` and nothing is assumed about it. The live membership status (`getChatMember`) and the sender's id are also inputs.

Behaviours of the code worth knowing:
- `/reward` for an unknown id answers 404 and creates no record (index.js:326-327).
- `/reward` answers 400 for id 0 as well as for a missing id, because `!userId` is also true for 0.
- A refused `/reward` still saves the lazy daily reset, because `resetDailyIfNeeded` saves before the checks. So on a new day a "Too soon" answer can move `adsWatchedToday` from its old value to 0 (`Ledger.RejectedAdKeepsLedger`).
- The withdrawal gate has five checks. A second referral threshold of 15 follows the threshold of 5 (index.js:293-294), so an account with five to fourteen referrals is never paid (`Ledger.FiveReferralsAreNotEnough`).
- The membership gate reads the live status on every message. The gate never reads the stored `joinedGroup` flag (`MessageHandler.GateIgnoresStoredFlag`). `ensureGroupFlag` reads the flag only to skip a redundant save (index.js:133).
- The `/start` pattern is not anchored, so `/start` anywhere in a message triggers it (index.js:163). A code of 0 counts as "no code", because `refId && ...` is false for 0 (index.js:181).
- The midnight sweep zeroes the counter even when no reset is due (index.js:155). A sweep that runs after a paid call of the new day, because the cron job fires late or `updateMany` reaches the record after a credit, lets that day pay 21 ads (`AdRuns.SweepAfterPaidAdAllowsTwentyOne`). The 20-a-day bound holds for `/reward` calls with no sweep between them.
- A reply to the UPI prompt that holds only white space is still accepted. It stores an empty UPI id and retires the listener (`MessageHandler.UpiReplyUnlocksWithdrawal`).

## Model

| member | source | states |
|---|---|---|
| `JsStrings.Trim` | index.js:253 | `trim` never lengthens the text, and its result neither starts nor ends with white space |
| `JsStrings.TrimIsSpaceFreeInfix` | index.js:253 | `trim` returns the slice between the first and last non-space characters; everything cut off on either side is white space |
| `JsStrings.TrimIdempotent` | index.js:253 | trimming a trimmed text changes nothing |
| `JsStrings.TrimEmptyIffBlank` | index.js:287 | the trimmed reply is empty exactly when every character is white space |
| `JsStrings.LeadingDigits` | index.js:163 | greedy `\d+`: the longest all-digit prefix, followed by a non-digit or the end |
| `JsStrings.LeadingSpaces` | index.js:163 | greedy `\s+`: the count of leading white space, followed by a non-space or the end |
| `JsStrings.DecimalValue` | index.js:166 | `Number` on a run of `n` digits gives a value below 10^n |
| `JsStrings.DecimalValueLeadingZero` | index.js:166 | a leading zero does not change the value, so `"007"` reads as 7 |
| `JsStrings.DecimalRoundTrip` | index.js:166 | `Number` on the decimal spelling of an id gives the id back |
| `Html.ReplaceAll` | index.js:147-149 | a global single-character replace keeps every other character and adds nothing but pieces of the replacement; text without the character is unchanged; a non-empty replacement never shortens the text |
| `Html.ReplaceAllOneChar` | index.js:147-149 | on a one-character text the replace gives the replacement exactly when the character is the pattern, and the character otherwise |
| `Html.ReplaceAllAppend` | index.js:147-149 | the replace works piecewise: replacing in a concatenation is concatenating the replaced pieces (with `ReplaceAllOneChar`, each occurrence becomes the replacement and everything else is copied in order) |
| `Html.EscapeHtml` | index.js:144-150 | empty output exactly for empty input; the output never contains `<` or `>`; every other character of the input except `&` survives; text without `&`, `<` or `>` passes through unchanged |
| `Html.EscapeHtmlIsCharwise` | index.js:144-150 | the three sequential replaces (`&` first) equal writing each character as its own entity, so no entity is escaped twice |
| `Html.EscapeHtmlRoundTrip` | index.js:144-150 | decoding `&amp;`, `&lt;`, `&gt;` in the output recovers the input: every character is kept, in order |
| `Html.EscapeHtmlEntities` | index.js:144-150 | every `&` in the output begins `&amp;`, `&lt;` or `&gt;` |
| `Ledger.NewAccount` | index.js:81-93 | a new document has the sender's id and name, `firstSeen` and `lastReset` set to now, zero balance, zero counters, no referrer, empty UPI, no ad yet and `joinedGroup` false; it satisfies the ledger invariant |
| `Ledger.ResetDailyIfNeeded` | index.js:120-127 | afterwards the counter belongs to today; when the stamp was missing or from another day the counter is 0 and the stamp is now, otherwise the record is unchanged; no other field changes |
| `Ledger.ResetIdempotent` | index.js:120-127 | a second reset on the same calendar day is a no-op |
| `Ledger.ResetPreservesValid` | index.js:120-127 | the reset keeps balance, referrals and counter within bounds |
| `Ledger.EnsureGroupFlag` | index.js:129-141 | the result is true exactly for member, administrator or creator (a failed lookup is false); the flag becomes sticky-true on membership and nothing else changes |
| `Ledger.CreditAd` | index.js:329-338 | after the reset: "limit" exactly when 20 ads are counted; "too soon" exactly when under the limit and the last paid ad is under 29 000 ms old; a refusal keeps the reset record; a credit adds exactly 3 to the balance and 1 to the counter (never above 20), stamps `lastAdAt = now`, lies at least 29 000 ms after the previous paid ad, and changes nothing else |
| `Ledger.RejectedAdKeepsLedger` | index.js:329-333 | a refused credit keeps the balance and `lastAdAt`; the counter moves only through a day rollover, to 0 |
| `Ledger.CreditAdPreservesValid` | index.js:330-336 | crediting keeps the counter within 0..20 and the balance non-negative |
| `Ledger.AdGapBoundary` | index.js:333 | 29 000 ms after the last paid ad is accepted, 28 999 ms is "too soon" |
| `Ledger.DaysSince` | index.js:296 | the whole-day count is the floor of the elapsed milliseconds over a day, also for a negative difference |
| `Ledger.Withdraw` | index.js:284-301 | first failing check wins, in order: empty UPI, balance below 500, referrals below 5, referrals below 15, under 3 whole days (with a positive count of days left); success exactly when all five pass; a refusal changes nothing; a success pays out exactly the old balance and only zeroes it |
| `Ledger.WithdrawOnceThenBelowMinimum` | index.js:292-299 | a placed withdrawal pays at least 500 and the next request is refused for a zero balance |
| `Ledger.FiveReferralsAreNotEnough` | index.js:293-297 | with a UPI id, 500 in balance and 3 days, five referrals are refused by the 15-referral check, 15 referrals are paid, and 15 referrals after one day are told two days are left |
| `Ledger.WithdrawPreservesValid` | index.js:299 | a withdrawal keeps the ledger invariant |
| `AccountStore.EnsureUser` | index.js:110-118 | an existing record is returned and the store is untouched; an unknown id gets a fresh zero record first seen now; no other record changes; store validity is kept |
| `AccountStore.BulkReset` | index.js:153-160 | every record's counter is zeroed and stamped now, whether due or not; no other field or key changes |
| `AccountStore.BulkResetAgreesWithLazyReset` | index.js:155 | after the sweep no lazy reset is due for the rest of that day; on a record that was due, the sweep equals the lazy reset |
| `AccountStore.BulkResetPreservesValid` | index.js:155 | the sweep keeps every record valid |
| `RewardEndpoint.Reward` | index.js:322-344 | 400 exactly for a NaN or zero id, 404 exactly for a non-integer or unknown id (store untouched in both cases), otherwise the ad credit on that one record, with 429 for limit and too-soon and the new balance on 200 |
| `RewardEndpoint.RewardMovesOnlyOneBalance` | index.js:326-338 | across all records only the caller's balance moves, by exactly 3 on a 200 and by nothing otherwise |
| `RewardEndpoint.RewardPreservesValidStore` | index.js:329-338 | `/reward` keeps every record valid |
| `StartCommand.FindStart` | index.js:163 | the leftmost occurrence of `/start` at or after a position, or none at all |
| `StartCommand.StartArgument` | index.js:163-166 | the pattern fails to match exactly when `/start` occurs nowhere in the text; a code is captured exactly when the text after the leftmost `/start` opens with at least one white-space character followed by a digit, and the code is `Number` of the maximal digit run there |
| `StartCommand.StartArgumentOfPaddedCode` | index.js:163-166 | `/start`, a tab, `007` and a letter captures 7 |
| `StartCommand.StartArgumentOfGluedDigits` | index.js:163-166 | `/start5` matches without a code, since `\s+` needs a white-space character |
| `StartCommand.StartArgumentOfReferralLink` | index.js:163-166 | the referral link's `/start <id>` yields exactly that id |
| `StartCommand.StartArgumentOfBareCommand` | index.js:163 | a bare `/start` matches without a code |
| `StartCommand.Attribute` | index.js:184-189 | the referrer gains exactly 50 and one referral and nothing else; the user's `referredBy` becomes the code and nothing else; other records are untouched |
| `StartCommand.Start` | index.js:163-207 | no effect unless the pattern matches; an unknown sender is only created and greeted; a known sender is attributed exactly when the code is non-zero, not their own id, names a known user, and they have no referrer yet; a set `referredBy` never changes |
| `StartCommand.StartRepeatIsNoOp` | index.js:181-190 | repeating `/start` as a returning user changes nothing the second time |
| `StartCommand.FirstContactNeverAttributes` | index.js:172-178 | first contact leaves every existing record untouched, whatever code it carries |
| `StartCommand.ReferralLinkAttributes` | index.js:181-190 | a returning user with no referrer who follows a known user's link is attributed: the referrer gains 50 and `referredBy` is set |
| `StartCommand.StartPreservesValidStore` | index.js:181-190 | `/start` keeps every record valid; in particular nobody is their own referrer and no record holds referrer 0 |
| `MessageHandler.Prepare` | index.js:259-262 | before the menu: a new sender gets a fresh record with the live flag; a known sender's record differs only in the counter, its stamp and the flag; the counter and stamp are kept when no reset is due and become 0 and now when one is; the flag is sticky; other records are untouched |
| `MessageHandler.Menu` | index.js:267-306 | for a member: the ad-limit message exactly for "Ad Dekho" with 20 ads counted, the ad link exactly below that, the withdrawal gate exactly for "Withdraw Funds", and only that branch changes the record |
| `MessageHandler.HandleMessage` | index.js:251-307 | messages without text or starting with `/start` after trimming are ignored and change nothing; otherwise only the sender's record is written, a non-member gets the join prompt and nothing else, and a member gets the keyboard branch on the prepared record |
| `MessageHandler.AdButtonPrecheck` | index.js:268-271 | "Ad Dekho" shows the limit message exactly to a member whose counter, after today's reset, is at 20, and the ad link exactly to a member below it |
| `MessageHandler.ChatMovesMoneyOnlyByWithdrawal` | index.js:267-301 | the chat never credits; the sender's balance is kept unless a withdrawal is placed, which pays out that balance and leaves zero |
| `MessageHandler.MenuIgnoresFlag` | index.js:267-306 | no keyboard branch reads the stored `joinedGroup` flag |
| `MessageHandler.GateIgnoresStoredFlag` | index.js:262-265 | flipping the stored `joinedGroup` flag never changes the reply: the gate reads the live status |
| `MessageHandler.HandleMessagePreservesValidStore` | index.js:259-301 | the message handler keeps every record valid |
| `MessageHandler.UpiListener` | index.js:287-288 | the listener takes a message exactly when it has text, comes from the prompted user and replies to the prompt message; it then stores the trimmed text as the UPI id and nothing else; other messages change nothing |
| `MessageHandler.UpiReplyUnlocksWithdrawal` | index.js:285-287 | after an accepted reply, the next withdrawal passes the UPI check exactly when the reply held a non-space character |
| `MessageHandler.UpiListenerPreservesValidStore` | index.js:287 | saving a UPI id keeps every record valid |
| `AdRuns.RunBalance` | index.js:335 | over any sequence of calls the balance grows by exactly 3 per paid call |
| `AdRuns.RunCreditedAreRequests` | index.js:329-338 | the paid times are a subsequence of the request times: each one a request time, in request order |
| `AdRuns.RunCounter` | index.js:336 | on a day the record is already current for, the counter grows by exactly one per paid call |
| `AdRuns.DailyLimitHolds` | index.js:329-336 | over `/reward` calls with no midnight sweep between them, at most 20 are paid within one calendar day, from any record whose counter is not negative |
| `AdRuns.SweepAfterPaidAdAllowsTwentyOne` | index.js:153-160 | a sweep that lands after a paid call of the new day lets that day pay 21 ads: one before the sweep, 20 after it, ending with balance 63 |
| `AdRuns.SpacedSameDayRunIsPaidToLimit` | index.js:329-337 | calls on one day that respect the 29 000 ms gap are all paid until the day's headroom (20 minus the counter) is used up |
| `AdRuns.TwentyOneCallsInOneDay` | index.js:329-337 | a new user calling every 30 s, 21 times in one day, is paid 20 times: balance 60, counter 20 |
| `AdRuns.RunIsSpaced` | index.js:333-337 | each paid call is at least 29 000 ms after the previous paid call, and the first after the stored `lastAdAt` |
| `AdRuns.RunEndsAtLastPaid` | index.js:337 | `lastAdAt` ends at the last paid call, or is unchanged when nothing was paid |
| `AdRuns.PaidCallsAreApart` | index.js:333-337 | any two paid calls are at least 29 000 ms apart |
| `AdRuns.RunPreservesValid` | index.js:329-337 | a run of calls keeps the ledger invariant |

## Left out

- Telegram I/O is not modelled: message texts (Hindi/English copy), keyboards, `sendMessage` and its swallowed failures, `getMe`, the `pre_ad`/`pre_ref` callback queries and `answerCallbackQuery`. These are calls into the transport library. The only ledger effect of `pre_ref` is `ensureUser`, which is modelled.
- The admin `/broadcast` command (index.js:210-222) is not modelled. It is transport I/O over every record. Only the `escapeHtml` it calls is modelled.
- Persistence is replaced by an in-memory map. MongoDB failures and the 500 "Server error" / "Start error" paths are not modelled. Neither is the index drop (index.js:66-78).
- Concurrency is not modelled: the last-write-wins race between overlapping requests on one record, and the `message` listeners that pile up when prompts go unanswered. The UPI listener is modelled as writing the current record, not the stale copy it captured.
- The timers (`node-cron` schedules, keep-alive `fetch`) are not modelled. Only the effect of the midnight sweep is. `AccountStore.BulkReset` returns the store, not the modified count, which the source ignores.
- Time-zone semantics are not modelled: `day` is an arbitrary function. `/reward` reads the clock up to three times; the model uses one `now` per request.
- `Number(...)` on the query string is not modelled. The endpoint takes its result (`NaN`, a non-integer, or an integer) as input.
- Telegram ids and balances are JavaScript doubles; they are modelled as unbounded integers. Every amount is an integer well below 2^53, so no rounding occurs. `Number` rounds a code whose value is above 2^53 − 1 (index.js:166). A rounded code can name a different user or equal the sender's own id. `DecimalValue` is exact, so this rounding is not modelled.
- `escapeHtml` is modelled on strings only. Its callers never pass anything else, so `String(text)` on other types is not modelled.
- Environment bootstrap, `BASE_URL` fallback, static files, `/ad`, the health routes and the commented-out drafts after line 368 are outside the modelled core.
