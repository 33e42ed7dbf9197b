/**
 The `/start` handler (index.js:162-207): the unanchored pattern
 `/\/start(?:\s+(\d+))?/` with its optional numeric referral code, creation of
 a first-time user, and referral attribution for a returning one.
 */
module StartCommand {
  import opened Optional
  import opened JsStrings
  import opened Ledger
  import opened AccountStore

  const START: string := "/start"

  /** The leftmost position at or after `from` where `/start` occurs in `s`. */
  function FindStart(s: string, from: nat): (r: Option<nat>)
    requires from <= |s|
    ensures r.Some? ==> from <= r.value <= |s| && StartsWith(s[r.value..], START)
    ensures r.Some? ==> forall k :: from <= k < r.value ==> !StartsWith(s[k..], START)
    ensures r.None? ==> forall k :: from <= k <= |s| ==> !StartsWith(s[k..], START)
    decreases |s| - from
  {
    if from + |START| > |s| then None
    else if StartsWith(s[from..], START) then Some(from)
    else FindStart(s, from + 1)
  }

  /** The text after the `/start` found at `i`. */
  function AfterStart(text: string, i: nat): string
    requires i + |START| <= |text|
  {
    text[i + |START|..]
  }

  /**
   `rest` opens with a referral code as `(?:\s+(\d+))` reads it: `w >= 1`
   white-space characters, then a run of `d >= 1` digits that the next
   character, if any, does not extend.
   */
  predicate CodeAt(rest: string, w: nat, d: nat) {
    && 1 <= w && 1 <= d && w + d <= |rest|
    && (forall k :: 0 <= k < w ==> IsSpace(rest[k]))
    && AllDigits(rest[w..w + d])
    && (w + d == |rest| || !IsDigit(rest[w + d]))
  }

  /** `Number(match[1])` for the code that `CodeAt` locates. */
  function CodeValue(rest: string, w: nat, d: nat): nat
    requires CodeAt(rest, w, d)
  {
    DecimalValue(rest[w..w + d])
  }

  /**
   What the pattern yields on `text`: `None` when it does not match at all,
   `Some(None)` when the leftmost `/start` is not followed by white space and
   digits, and `Some(Some(n))` with `n = Number(match[1])` otherwise.
   */
  function StartArgument(text: string): (r: Option<Option<nat>>)
    ensures r.None? <==> forall k :: 0 <= k <= |text| ==> !StartsWith(text[k..], START)
    ensures forall i: nat, w: nat, d: nat :: FindStart(text, 0) == Some(i) && CodeAt(AfterStart(text, i), w, d) ==>
      r == Some(Some(CodeValue(AfterStart(text, i), w, d)))
    ensures r.Some? && r.value.Some? ==>
      exists i: nat, w: nat, d: nat :: FindStart(text, 0) == Some(i) && CodeAt(AfterStart(text, i), w, d)
  {
    match FindStart(text, 0)
    case None => None
    case Some(i) =>
      var rest := AfterStart(text, i);
      var w := LeadingSpaces(rest);
      var ds := LeadingDigits(rest[w..]);
      CodeAtIsLeading(rest);
      LeadingIsCodeAt(rest);
      if w > 0 && ds != [] then Some(Some(DecimalValue(ds))) else Some(None)
  }

  /** A code that `CodeAt` locates is exactly the run greedy `\s+` and `\d+` take. */
  lemma CodeAtIsLeadingOne(rest: string, w: nat, d: nat)
    requires CodeAt(rest, w, d)
    ensures LeadingSpaces(rest) == w
    ensures LeadingDigits(rest[w..]) == rest[w..w + d]
  {
    assert IsDigit(rest[w]) by { assert rest[w..w + d][0] == rest[w]; }
    DigitIsNotSpace(rest[w]);
    var t := rest[w..];
    assert t[..d] == rest[w..w + d];
    assert w + d < |rest| ==> t[d] == rest[w + d];
    LeadingDigitsOfRun(t, d);
  }

  lemma CodeAtIsLeading(rest: string)
    ensures forall w: nat, d: nat :: CodeAt(rest, w, d) ==>
      LeadingSpaces(rest) == w && LeadingDigits(rest[w..]) == rest[w..w + d]
  {
    forall w: nat, d: nat | CodeAt(rest, w, d)
      ensures LeadingSpaces(rest) == w && LeadingDigits(rest[w..]) == rest[w..w + d]
    {
      CodeAtIsLeadingOne(rest, w, d);
    }
  }

  /** When greedy `\s+` and `\d+` both take something, they take a code `CodeAt` locates. */
  lemma LeadingIsCodeAt(rest: string)
    ensures var w := LeadingSpaces(rest);
      var ds := LeadingDigits(rest[w..]);
      w > 0 && ds != [] ==> CodeAt(rest, w, |ds|) && ds == rest[w..w + |ds|]
  {
    var w := LeadingSpaces(rest);
    var ds := LeadingDigits(rest[w..]);
    if w > 0 && ds != [] {
      assert ds == rest[w..w + |ds|];
      if w + |ds| < |rest| {
        assert rest[w + |ds|] == rest[w..][|ds|];
      }
    }
  }

  lemma FindStartAtHead(text: string)
    requires StartsWith(text, START)
    ensures FindStart(text, 0) == Some(0)
  {
    assert text[0..] == text;
  }

  lemma StartArgumentOfCode(text: string, i: nat, w: nat, d: nat)
    requires FindStart(text, 0) == Some(i) && CodeAt(AfterStart(text, i), w, d)
    ensures StartArgument(text) == Some(Some(CodeValue(AfterStart(text, i), w, d)))
  {
  }

  lemma SpaceThenDigitsIsCode(rest: string, ds: string)
    requires |ds| >= 1 && AllDigits(ds) && rest == " " + ds
    ensures CodeAt(rest, 1, |ds|) && CodeValue(rest, 1, |ds|) == DecimalValue(ds)
  {
    assert rest[1..1 + |ds|] == ds;
    assert IsSpace(rest[0]);
  }

  lemma LinkTextHasCode(text: string, ds: string)
    requires |ds| >= 1 && AllDigits(ds) && text == START + " " + ds
    ensures FindStart(text, 0) == Some(0)
    ensures CodeAt(AfterStart(text, 0), 1, |ds|) && CodeValue(AfterStart(text, 0), 1, |ds|) == DecimalValue(ds)
  {
    assert text[..|START|] == START;
    FindStartAtHead(text);
    assert AfterStart(text, 0) == " " + ds;
    SpaceThenDigitsIsCode(AfterStart(text, 0), ds);
  }

  /** The link `t.me/<bot>?start=<id>` makes Telegram send `/start <id>`, which yields `id` back. */
  lemma StartArgumentOfReferralLink(id: nat)
    ensures StartArgument(START + " " + Decimal(id)) == Some(Some(id))
  {
    var ds := Decimal(id);
    var text := START + " " + ds;
    LinkTextHasCode(text, ds);
    StartArgumentOfCode(text, 0, 1, |ds|);
    DecimalRoundTrip(id);
  }

  lemma PaddedTextHasCode(text: string)
    requires text == "/start\t007x"
    ensures FindStart(text, 0) == Some(0)
    ensures CodeAt(AfterStart(text, 0), 1, 3) && AfterStart(text, 0)[1..4] == "007"
  {
    assert text[..|START|] == START;
    FindStartAtHead(text);
    var rest := AfterStart(text, 0);
    assert rest == "\t007x";
    assert rest[1..4] == "007";
    assert IsSpace(rest[0]);
  }

  lemma ValueOf007()
    ensures AllDigits("007") && DecimalValue("007") == 7
  {
    assert DecimalValue("7") == 7 by { assert "7"[..0] == ""; }
    DecimalValueLeadingZero("7");
    assert "0" + "7" == "07";
    DecimalValueLeadingZero("07");
    assert "0" + "07" == "007";
  }

  /** The greedy runs and leading zeros at work: a tab-separated `007` followed by a letter captures 7. */
  lemma StartArgumentOfPaddedCode()
    ensures StartArgument("/start\t007x") == Some(Some(7))
  {
    var text := "/start\t007x";
    PaddedTextHasCode(text);
    StartArgumentOfCode(text, 0, 1, 3);
    ValueOf007();
  }

  /** Digits glued to the command are not a code: `\s+` needs at least one white-space character. */
  lemma StartArgumentOfGluedDigits()
    ensures StartArgument("/start5") == Some(None)
  {
    var text := "/start5";
    assert text[..|START|] == START;
    FindStartAtHead(text);
    var rest := AfterStart(text, 0);
    assert rest == "5";
    DigitIsNotSpace('5');
    assert forall w: nat, d: nat :: !CodeAt(rest, w, d);
  }

  /** A plain `/start` matches with no referral code. */
  lemma StartArgumentOfBareCommand()
    ensures StartArgument(START) == Some(None)
  {
    assert START[0..] == START;
    assert START[..|START|] == START;
    assert FindStart(START, 0) == Some(0);
  }

  /**
   The referral guard of index.js:181-183: a non-zero code that is not the
   user's own id, names a known user, and the user has no referrer yet. The
   source tests `!user.referredBy`, which would also hold for a stored 0; a
   valid record never holds `Some(0)`, so on valid stores `None?` is the same
   test.
   */
  predicate Attributable(s: Store, id: int, refId: int) {
    id in s && refId != 0 && refId != id && refId in s && s[id].referredBy.None?
  }

  /** Pays the referrer and records the referrer on the referred user (index.js:184-189). */
  function Attribute(s: Store, id: int, refId: int): (r: Store)
    requires Attributable(s, id, refId)
    ensures r.Keys == s.Keys
    ensures r[refId].balance == s[refId].balance + REFERRAL_REWARD
    ensures r[refId].referralCount == s[refId].referralCount + 1
    ensures r[refId].(balance := s[refId].balance, referralCount := s[refId].referralCount) == s[refId]
    ensures r[id].referredBy == Some(refId) && r[id].(referredBy := None) == s[id]
    ensures forall k :: k in s && k != id && k != refId ==> r[k] == s[k]
  {
    var referrer := s[refId];
    s[refId := referrer.(balance := referrer.balance + REFERRAL_REWARD,
                         referralCount := referrer.referralCount + 1)]
     [id := s[id].(referredBy := Some(refId))]
  }

  /** The numeric code the command carries, if the pattern matched and captured one. */
  function ReferralCode(text: string): Option<nat>
  {
    match StartArgument(text)
    case Some(Some(n)) => Some(n)
    case _ => None
  }

  datatype StartReply = NotTriggered | Greeting | WelcomeBack(attributed: bool)

  datatype StartResult = StartResult(reply: StartReply, store: Store)

  /**
   The handler: nothing unless the pattern matches; a first-time user is only
   created and greeted; a returning user is welcomed back and attributed to
   the referrer when the guard holds.
   */
  function Start(s: Store, from: int, firstName: string, text: string, now: int): (r: StartResult)
    ensures r.reply == NotTriggered <==> StartArgument(text).None?
    ensures r.reply == Greeting <==> StartArgument(text).Some? && from !in s
    ensures r.reply == Greeting ==>
      && r.store.Keys == s.Keys + {from}
      && Pristine(r.store[from]) && r.store[from].firstSeen == now
      && forall k :: k in s ==> r.store[k] == s[k]
    ensures r.reply == WelcomeBack(true) <==>
      ReferralCode(text).Some? && Attributable(s, from, ReferralCode(text).value)
    ensures r.reply == WelcomeBack(true) ==> r.store == Attribute(s, from, ReferralCode(text).value)
    ensures r.reply.NotTriggered? || r.reply == WelcomeBack(false) ==> r.store == s
    ensures forall k :: k in s && s[k].referredBy.Some? ==> r.store[k].referredBy == s[k].referredBy
  {
    if StartArgument(text).None? then StartResult(NotTriggered, s)
    else if from !in s then StartResult(Greeting, s[from := NewAccount(from, firstName, now)])
    else
      var code := ReferralCode(text);
      if code.Some? && Attributable(s, from, code.value) then
        StartResult(WelcomeBack(true), Attribute(s, from, code.value))
      else StartResult(WelcomeBack(false), s)
  }

  /** Sending the same `/start` again as a returning user changes nothing the second time. */
  lemma StartRepeatIsNoOp(s: Store, from: int, firstName: string, text: string, now: int, later: int)
    requires from in s
    ensures var once := Start(s, from, firstName, text, now).store;
      Start(once, from, firstName, text, later).store == once
  {
  }

  /** First contact never pays anybody, whatever code the command carries. */
  lemma FirstContactNeverAttributes(s: Store, from: int, firstName: string, text: string, now: int)
    requires from !in s
    ensures forall k :: k in s ==> Start(s, from, firstName, text, now).store[k] == s[k]
  {
  }

  /** A returning user without a referrer who opens a known user's referral link is attributed to that user. */
  lemma ReferralLinkAttributes(s: Store, from: int, firstName: string, refId: nat, now: int)
    requires from in s && s[from].referredBy.None?
    requires refId in s && refId != from && refId != 0
    ensures var r := Start(s, from, firstName, START + " " + Decimal(refId), now);
      && r.reply == WelcomeBack(true)
      && r.store[refId].balance == s[refId].balance + REFERRAL_REWARD
      && r.store[from].referredBy == Some(refId)
  {
    StartArgumentOfReferralLink(refId);
  }

  lemma StartPreservesValidStore(s: Store, from: int, firstName: string, text: string, now: int)
    requires ValidStore(s)
    ensures ValidStore(Start(s, from, firstName, text, now).store)
  {
  }
}
