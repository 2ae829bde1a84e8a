/** The weekly token bucket of backend/src/utils/tokenManager.ts.

    `TokenManager` is a class of static methods over the shared database,
    so its two operations are methods that read and update the `users`
    collection of an `AdminDb`. The clock (`Timestamp.now()`) is the
    parameter `now`. */
module Tokens {
  import opened Types

  const WEEKLY_TOKENS := 10
  const MILLISECONDS_IN_WEEK := 7 * 24 * 60 * 60 * 1000
  const USER_NOT_FOUND := "User not found"

  /** A refill is due once a whole week has passed since the last one. */
  predicate RefillDue(u: User, now: Millis) {
    now - u.lastTokenRefill >= MILLISECONDS_IN_WEEK
  }

  /** The user record as `refreshUserTokens` leaves it. */
  function Refreshed(u: User, now: Millis): (r: User)
    ensures RefillDue(u, now) ==> r.tokens == WEEKLY_TOKENS && r.lastTokenRefill == now
    ensures !RefillDue(u, now) ==> r == u
    ensures r.(tokens := u.tokens, lastTokenRefill := u.lastTokenRefill) == u
    ensures 0 <= u.tokens <= WEEKLY_TOKENS ==> 0 <= r.tokens <= WEEKLY_TOKENS
  {
    if RefillDue(u, now) then u.(tokens := WEEKLY_TOKENS, lastTokenRefill := now) else u
  }

  /** The user record after `useToken` has spent a token. */
  function Spent(u: User, now: Millis): (r: User)
    ensures r.tokens == u.tokens - 1 && r.totalVotesCast == u.totalVotesCast + 1 && r.updatedAt == now
    ensures r.lastTokenRefill == u.lastTokenRefill
    ensures r.(tokens := u.tokens, totalVotesCast := u.totalVotesCast, updatedAt := u.updatedAt) == u
  {
    u.(tokens := u.tokens - 1, totalVotesCast := u.totalVotesCast + 1, updatedAt := now)
  }

  /** Every balance lies between 0 and the weekly allowance. */
  ghost predicate BalancesInRange(users: map<string, User>) {
    forall id :: id in users ==> 0 <= users[id].tokens <= WEEKLY_TOKENS
  }

  /** `TokenManager.refreshUserTokens`: refills the balance when a week has
      passed and returns the balance. */
  method RefreshUserTokens(db: AdminDb, userId: string, now: Millis) returns (r: Result<int>)
    modifies db
    ensures db.ideas == old(db.ideas) && db.votes == old(db.votes)
    ensures userId !in old(db.users) ==> r == Err(USER_NOT_FOUND) && db.users == old(db.users)
    ensures userId in old(db.users) && RefillDue(old(db.users)[userId], now) ==>
      && r == Ok(WEEKLY_TOKENS)
      && db.users == old(db.users)[userId := old(db.users)[userId].(tokens := WEEKLY_TOKENS, lastTokenRefill := now)]
    ensures userId in old(db.users) && !RefillDue(old(db.users)[userId], now) ==>
      r == Ok(old(db.users)[userId].tokens) && db.users == old(db.users)
    ensures userId in old(db.users) ==> db.users == old(db.users)[userId := Refreshed(old(db.users)[userId], now)]
    ensures r.Ok? ==> userId in db.users && r.value == db.users[userId].tokens
    ensures BalancesInRange(old(db.users)) ==> BalancesInRange(db.users)
  {
    if userId !in db.users {
      return Err(USER_NOT_FOUND);
    }
    var userData := db.users[userId];
    if now - userData.lastTokenRefill >= MILLISECONDS_IN_WEEK {
      var newTokens := WEEKLY_TOKENS;
      db.users := db.users[userId := userData.(tokens := newTokens, lastTokenRefill := now)];
      return Ok(newTokens);
    }
    return Ok(userData.tokens);
  }

  /** `TokenManager.useToken`: spends one token when the balance allows it.
      The read and the update form one transaction. */
  method UseToken(db: AdminDb, userId: string, now: Millis) returns (r: Result<bool>)
    modifies db
    ensures db.ideas == old(db.ideas) && db.votes == old(db.votes)
    ensures userId !in old(db.users) ==> r == Err(USER_NOT_FOUND) && db.users == old(db.users)
    ensures userId in old(db.users) && old(db.users)[userId].tokens < 1 ==>
      r == Ok(false) && db.users == old(db.users)
    ensures userId in old(db.users) && old(db.users)[userId].tokens >= 1 ==>
      && r == Ok(true)
      && db.users == old(db.users)[userId := Spent(old(db.users)[userId], now)]
      && db.users[userId].tokens == old(db.users)[userId].tokens - 1
      && db.users[userId].totalVotesCast == old(db.users)[userId].totalVotesCast + 1
    ensures r == Ok(true) ==> userId in db.users && db.users[userId].tokens >= 0
    ensures BalancesInRange(old(db.users)) ==> BalancesInRange(db.users)
  {
    if userId !in db.users {
      return Err(USER_NOT_FOUND);
    }
    var userData := db.users[userId];
    if userData.tokens < 1 {
      return Ok(false);
    }
    db.users := db.users[userId := userData.(tokens := userData.tokens - 1,
                                             totalVotesCast := userData.totalVotesCast + 1,
                                             updatedAt := now)];
    return Ok(true);
  }

  /** A refill at `now` makes a second refresh at the same `now` a no-op
      that reports the full allowance. */
  lemma RefreshIdempotent(u: User, now: Millis)
    ensures Refreshed(Refreshed(u, now), now) == Refreshed(u, now)
    ensures RefillDue(u, now) ==> !RefillDue(Refreshed(u, now), now) && Refreshed(u, now).tokens == WEEKLY_TOKENS
  {
  }

  /** A spent token comes back only with the next refill: spending keeps the
      refill time, so a refresh right after spending refills exactly when a
      refresh right before it would have. */
  lemma SpendingKeepsRefillSchedule(u: User, now: Millis, later: Millis)
    ensures RefillDue(Spent(u, now), later) <==> RefillDue(u, later)
    ensures RefillDue(u, later) ==> Refreshed(Spent(u, now), later).tokens == WEEKLY_TOKENS
    ensures !RefillDue(u, later) ==> Refreshed(Spent(u, now), later).tokens == u.tokens - 1
  {
  }
}
