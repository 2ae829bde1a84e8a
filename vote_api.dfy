/** The two write routes of backend/src/app.ts: `POST /api/ideas/:ideaId/vote`
    and `POST /api/ideas`.

    Each route is a sequence of separate database writes, not one
    transaction, and each write that has happened stays when a later step
    fails; the methods below keep that order. The authenticated caller
    (`req.user`) is `caller`, the document id that `collection(...).doc()`
    generates is a parameter, and one instant `now` stands for every clock
    read of one request. */
module VoteApi {
  import opened Types
  import opened Tokens
  import opened IsoWeek

  const UNAUTHORIZED := "Unauthorized"
  const NO_TOKENS := "No tokens available"
  const ALREADY_VOTED := "Already voted this week"
  const SERVER_ERROR := "Server error"

  datatype Body =
    | ErrorBody(error: string)
    | VoteAccepted(success: bool, remainingTokens: int)
    | Created(idea: Idea)

  datatype Response = Response(status: int, body: Body)

  /** What the duplicate-vote query filters on. */
  datatype VoteKey = VoteKey(userId: string, ideaId: string, weekNumber: int, year: int)

  function KeyOf(v: Vote): VoteKey {
    VoteKey(v.userId, v.ideaId, v.weekNumber, v.year)
  }

  /** The key of a vote of `userId` for `ideaId` filed under the pair
      `week` = `(year, weekNumber)`. */
  function KeyIn(userId: string, ideaId: string, week: (int, int)): VoteKey {
    VoteKey(userId, ideaId, week.1, week.0)
  }

  /** The key app.ts files a vote under: the ISO week of `now` paired with
      the calendar year of `now`. */
  function KeyAt(userId: string, ideaId: string, now: Millis): VoteKey {
    KeyIn(userId, ideaId, WeekKeyAsWritten(now))
  }

  /** The corrected key: the ISO week of `now` paired with the year of that
      week's Thursday. */
  function IsoKeyAt(userId: string, ideaId: string, now: Millis): VoteKey {
    KeyIn(userId, ideaId, WeekKey(now))
  }

  /** The duplicate-vote query finds a document. */
  predicate HasVote(votes: map<string, Vote>, key: VoteKey) {
    exists id :: id in votes && KeyOf(votes[id]) == key
  }

  /** The ledger holds at most one vote per user, idea and week. */
  ghost predicate OneVotePerKey(votes: map<string, Vote>) {
    forall a, b :: a in votes && b in votes && KeyOf(votes[a]) == KeyOf(votes[b]) ==> a == b
  }

  /** The idea after one more vote: both counters rise by one. */
  function Counted(idea: Idea): Idea {
    idea.(totalVotes := idea.totalVotes + 1, weeklyVotes := idea.weeklyVotes + 1)
  }

  /** Adding a vote whose key the ledger does not hold keeps one vote per
      key. */
  lemma AddingNewKeyKeepsOneVotePerKey(votes: map<string, Vote>, voteId: string, v: Vote)
    requires OneVotePerKey(votes)
    requires !HasVote(votes, KeyOf(v))
    ensures OneVotePerKey(votes[voteId := v])
    ensures HasVote(votes[voteId := v], KeyOf(v))
  {
    assert votes[voteId := v][voteId] == v;
  }

  /** What the vote route does when it files votes under the pair `week`:
      the answer `res` and the three collections afterwards, path by path. */
  twostate predicate VoteEffect(db: AdminDb, caller: Option<string>, ideaId: string, voteId: string,
                                now: Millis, week: (int, int), res: Response)
    reads db
  {
    // no authenticated user: nothing happens
    && (caller.None? ==>
          && res == Response(401, ErrorBody(UNAUTHORIZED))
          && db.users == old(db.users) && db.ideas == old(db.ideas) && db.votes == old(db.votes))
    // useToken throws: nothing happens
    && (caller.Some? && caller.value !in old(db.users) ==>
          && res == Response(500, ErrorBody(SERVER_ERROR))
          && db.users == old(db.users) && db.ideas == old(db.ideas) && db.votes == old(db.votes))
    // no token to spend: nothing happens
    && (caller.Some? && caller.value in old(db.users) && old(db.users)[caller.value].tokens < 1 ==>
          && res == Response(400, ErrorBody(NO_TOKENS))
          && db.users == old(db.users) && db.ideas == old(db.ideas) && db.votes == old(db.votes))
    // a token was spent; what follows depends on the ledger and the idea
    && (caller.Some? && caller.value in old(db.users) && old(db.users)[caller.value].tokens >= 1 ==>
          var userId := caller.value;
          var u := old(db.users)[userId];
          var key := KeyIn(userId, ideaId, week);
          var v := Vote(voteId, userId, ideaId, week.1, week.0, now);
          && (HasVote(old(db.votes), key) ==>
                && res == Response(400, ErrorBody(ALREADY_VOTED))
                && db.users == old(db.users)[userId := Spent(u, now)]
                && db.ideas == old(db.ideas) && db.votes == old(db.votes))
          && (!HasVote(old(db.votes), key) ==> db.votes == old(db.votes)[voteId := v])
          && (!HasVote(old(db.votes), key) && ideaId !in old(db.ideas) ==>
                && res == Response(500, ErrorBody(SERVER_ERROR))
                && db.users == old(db.users)[userId := Spent(u, now)]
                && db.ideas == old(db.ideas))
          && (!HasVote(old(db.votes), key) && ideaId in old(db.ideas) ==>
                && res == Response(200, VoteAccepted(true, Refreshed(Spent(u, now), now).tokens))
                && db.users == old(db.users)[userId := Refreshed(Spent(u, now), now)]
                && db.ideas == old(db.ideas)[ideaId := Counted(old(db.ideas)[ideaId])]))
  }

  /** The vote route with the week pair given: spend a token, look for a
      vote of this user for this idea under `week`, write the vote, bump
      the idea's counters, then report the balance that
      `refreshUserTokens` returns. */
  method VoteFiledUnder(db: AdminDb, caller: Option<string>, ideaId: string, voteId: string,
                        now: Millis, week: (int, int))
    returns (res: Response)
    modifies db
    ensures VoteEffect(db, caller, ideaId, voteId, now, week, res)
    ensures OneVotePerKey(old(db.votes)) ==> OneVotePerKey(db.votes)
    ensures BalancesInRange(old(db.users)) ==> BalancesInRange(db.users)
    ensures res.status == 200 ==> caller.Some? && HasVote(db.votes, KeyIn(caller.value, ideaId, week))
  {
    if caller.None? {
      return Response(401, ErrorBody(UNAUTHORIZED));
    }
    var userId := caller.value;

    var canVote := UseToken(db, userId, now);
    if canVote.Err? {
      return Response(500, ErrorBody(SERVER_ERROR));
    }
    if !canVote.value {
      return Response(400, ErrorBody(NO_TOKENS));
    }

    var (year, weekNumber) := week;
    var key := VoteKey(userId, ideaId, weekNumber, year);
    if HasVote(db.votes, key) {
      return Response(400, ErrorBody(ALREADY_VOTED));
    }

    var vote := Vote(voteId, userId, ideaId, weekNumber, year, now);
    ghost var before := db.votes;
    db.votes := db.votes[voteId := vote];
    if OneVotePerKey(before) {
      AddingNewKeyKeepsOneVotePerKey(before, voteId, vote);
    }
    assert db.votes[voteId] == vote;

    if ideaId !in db.ideas {
      // `update` of a missing document throws
      return Response(500, ErrorBody(SERVER_ERROR));
    }
    db.ideas := db.ideas[ideaId := Counted(db.ideas[ideaId])];

    var remaining := RefreshUserTokens(db, userId, now);
    res := Response(200, VoteAccepted(true, remaining.value));
  }

  /** Vote for an idea (app.ts, `POST /api/ideas/:ideaId/vote`) as written:
      the vote is filed under `getISOWeek(now)` and `now.getFullYear()`. */
  method CastVote(db: AdminDb, caller: Option<string>, ideaId: string, voteId: string, now: Millis)
    returns (res: Response)
    modifies db
    ensures VoteEffect(db, caller, ideaId, voteId, now, WeekKeyAsWritten(now), res)
    ensures OneVotePerKey(old(db.votes)) ==> OneVotePerKey(db.votes)
    ensures BalancesInRange(old(db.users)) ==> BalancesInRange(db.users)
    ensures res.status == 200 ==> caller.Some? && HasVote(db.votes, KeyAt(caller.value, ideaId, now))
  {
    res := VoteFiledUnder(db, caller, ideaId, voteId, now, WeekKeyAsWritten(now));
  }

  /** The vote route with the corrected key: the vote is filed under the
      ISO week of `now` and the year of that week's Thursday. */
  method CastVoteIsoYear(db: AdminDb, caller: Option<string>, ideaId: string, voteId: string, now: Millis)
    returns (res: Response)
    modifies db
    ensures VoteEffect(db, caller, ideaId, voteId, now, WeekKey(now), res)
    ensures OneVotePerKey(old(db.votes)) ==> OneVotePerKey(db.votes)
    ensures BalancesInRange(old(db.users)) ==> BalancesInRange(db.users)
    ensures res.status == 200 ==> caller.Some? && HasVote(db.votes, IsoKeyAt(caller.value, ideaId, now))
  {
    res := VoteFiledUnder(db, caller, ideaId, voteId, now, WeekKey(now));
  }

  /** With the corrected key, a recorded vote blocks another vote of the
      same user for the same idea exactly within the same Monday-to-Sunday
      week. */
  lemma IsoKeyBlocksExactlySameWeek(userId: string, ideaId: string, t1: Millis, t2: Millis)
    ensures IsoKeyAt(userId, ideaId, t1) == IsoKeyAt(userId, ideaId, t2)
            <==> MondayOf(DayOf(t1)) == MondayOf(DayOf(t2))
  {
    KeyOfDayIffSameWeek(DayOf(t1), DayOf(t2));
  }

  /** As written, a vote cast on Sunday 2023-01-01 makes the route answer
      "Already voted this week" to a vote for the same idea on Sunday
      2023-12-31, 52 weeks later; with the corrected key it does not. */
  lemma AsWrittenBlocksVoteAYearLater(votes: map<string, Vote>, userId: string, ideaId: string)
    requires HasVote(votes, KeyAt(userId, ideaId, 19358 * MS_PER_DAY))
    ensures HasVote(votes, KeyAt(userId, ideaId, 19722 * MS_PER_DAY))
    ensures IsoKeyAt(userId, ideaId, 19358 * MS_PER_DAY) != IsoKeyAt(userId, ideaId, 19722 * MS_PER_DAY)
  {
    AsWrittenKeyCollides();
  }

  /** Submit an idea (app.ts, `POST /api/ideas`): write the new idea with
      fixed initial counters, then count it for its creator. */
  method SubmitIdea(db: AdminDb, caller: Option<string>, ideaId: string, title: string,
                    description: string, category: IdeaCategory, tags: seq<string>, now: Millis)
    returns (res: Response)
    modifies db
    ensures db.votes == old(db.votes)
    ensures caller.None? ==>
      res == Response(401, ErrorBody(UNAUTHORIZED)) && db.users == old(db.users) && db.ideas == old(db.ideas)
    ensures caller.Some? ==>
      var idea := Idea(ideaId, caller.value, title, description, category, tags, Active, 0, 0, now, now);
      && db.ideas == old(db.ideas)[ideaId := idea]
      && (caller.value in old(db.users) ==>
            && res == Response(201, Created(idea))
            && db.users == old(db.users)[caller.value :=
                 old(db.users)[caller.value].(ideasSubmitted := old(db.users)[caller.value].ideasSubmitted + 1)])
      && (caller.value !in old(db.users) ==>
            res == Response(500, ErrorBody(SERVER_ERROR)) && db.users == old(db.users))
    ensures res.status == 201 ==>
      && res.body.Created? && ideaId in db.ideas && db.ideas[ideaId] == res.body.idea
      && res.body.idea.status == Active && res.body.idea.totalVotes == 0 && res.body.idea.weeklyVotes == 0
  {
    if caller.None? {
      return Response(401, ErrorBody(UNAUTHORIZED));
    }
    var newIdea := Idea(ideaId, caller.value, title, description, category, tags, Active, 0, 0, now, now);
    db.ideas := db.ideas[ideaId := newIdea];

    if caller.value !in db.users {
      // `update` of a missing document throws; the idea stays written
      return Response(500, ErrorBody(SERVER_ERROR));
    }
    var u := db.users[caller.value];
    db.users := db.users[caller.value := u.(ideasSubmitted := u.ideasSubmitted + 1)];
    res := Response(201, Created(newIdea));
  }
}
