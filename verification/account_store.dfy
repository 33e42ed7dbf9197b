/**
 The `users` collection as an in-memory map from Telegram id to record, with
 the two whole-store operations of the live script: `ensureUser` and the
 midnight bulk reset.
 */
module AccountStore {
  import opened Optional
  import opened Ledger

  type Store = map<int, Account>

  /** Every record sits under its own id and satisfies the ledger invariant. */
  predicate ValidStore(s: Store) {
    forall id :: id in s ==> s[id].telegramId == id && Valid(s[id])
  }

  /** Saving a valid record under its own id keeps the store valid. */
  lemma SaveKeepsValidStore(s: Store, a: Account)
    requires ValidStore(s) && Valid(a)
    ensures ValidStore(s[a.telegramId := a])
  {
  }

  datatype Loaded = Loaded(store: Store, account: Account)

  /**
   `ensureUser` (index.js:110-118): the stored record when there is one,
   otherwise a fresh record created at `now` and saved. No other record is
   touched.
   */
  function EnsureUser(s: Store, id: int, firstName: string, now: int): (r: Loaded)
    ensures r.store.Keys == s.Keys + {id}
    ensures id in r.store && r.store[id] == r.account
    ensures id in s ==> r.store == s
    ensures id !in s ==> Pristine(r.account) && r.account.firstSeen == now && r.account.firstName == firstName
    ensures forall k :: k in s && k != id ==> r.store[k] == s[k]
    ensures ValidStore(s) ==> ValidStore(r.store) && r.account.telegramId == id
  {
    if id in s then Loaded(s, s[id])
    else
      var a := NewAccount(id, firstName, now);
      Loaded(s[id := a], a)
  }

  /**
   The midnight job (index.js:153-160): every record's counter is zeroed and
   stamped `now`, whether or not it was already reset today.
   */
  function BulkReset(s: Store, now: int): (r: Store)
    ensures r.Keys == s.Keys
    ensures forall id :: id in r ==> r[id].adsWatchedToday == 0 && r[id].lastReset == Some(now)
    ensures forall id :: id in r ==>
      r[id].(adsWatchedToday := s[id].adsWatchedToday, lastReset := s[id].lastReset) == s[id]
  {
    map id | id in s :: s[id].(adsWatchedToday := 0, lastReset := Some(now))
  }

  /**
   After the midnight sweep no lazy reset is due for the rest of that calendar
   day, and for a record that was due the sweep did exactly what the lazy reset
   would have done.
   */
  lemma BulkResetAgreesWithLazyReset(s: Store, id: int, now: int, later: int, day: DayOf)
    requires id in s
    requires day(later) == day(now)
    ensures ResetDailyIfNeeded(BulkReset(s, now)[id], later, day) == BulkReset(s, now)[id]
    ensures ResetDue(s[id], now, day) ==> BulkReset(s, now)[id] == ResetDailyIfNeeded(s[id], now, day)
  {
  }

  lemma BulkResetPreservesValid(s: Store, now: int)
    requires ValidStore(s)
    ensures ValidStore(BulkReset(s, now))
  {
  }
}
