/** The client-side transactions of frontend/src/services/ideaService.ts.

    Here the records have the shapes of frontend/src/utils/types.ts and a
    vote document is stored under the id `${userId}_${ideaId}`, so the rule
    is one vote per user and idea for all time. Each `runTransaction` is
    one atomic step: every check reads the state before any write. The
    clock (`Date.now()`, `new Date()`, `Timestamp.now()`) is the parameter
    `now`, one instant per call. */
module IdeaService {
  import opened Types
  import opened Text
  import IsoWeek

  const MAX_ACTIVE_IDEAS := 3
  const IDEA_LIFETIME := 7 * IsoWeek.MS_PER_DAY

  datatype ClientUser = ClientUser(
    userId: string,
    displayName: string,
    email: string,
    tokens: int,
    createdAt: Millis,
    lastTokenRefill: Millis)

  datatype ClientIdea = ClientIdea(
    ideaId: string,
    userId: string,
    title: string,
    description: string,
    imageUrl: Option<string>,
    videoUrl: Option<string>,
    tags: Option<seq<string>>,
    createdAt: Millis,
    expiresAt: Millis,
    voteCount: int,
    commentCount: Option<int>)

  datatype VoteDoc = VoteDoc(userId: string, ideaId: string, createdAt: Millis)

  /** The client's view of the database: the `users`, `ideas` and `votes`
      collections. */
  class ClientDb {
    var users: map<string, ClientUser>
    var ideas: map<string, ClientIdea>
    var votes: map<string, VoteDoc>
  }

  /** `${userId}_${ideaId}`. */
  function VoteDocId(userId: string, ideaId: string): (id: string)
    ensures |id| == |userId| + 1 + |ideaId|
    ensures id[..|userId|] == userId && id[|userId|] == '_' && id[|userId| + 1..] == ideaId
  {
    userId + "_" + ideaId
  }

  /** `${userId}-${Date.now()}`. */
  function IdeaIdFor(userId: string, now: Millis): (id: string)
    ensures |id| > |userId| + 1
    ensures id[..|userId|] == userId && id[|userId|] == '-' && id[|userId| + 1..] == IntToString(now)
  {
    userId + "-" + IntToString(now)
  }

  /** Each vote document sits under the id built from its own user and idea. */
  ghost predicate VotesKeyedByPair(votes: map<string, VoteDoc>) {
    forall id :: id in votes ==> id == VoteDocId(votes[id].userId, votes[id].ideaId)
  }

  /** The ideas of `userId` that have not expired at `now`: what the query
      `userId == userId && expiresAt > now` returns. */
  function ActiveIdeas(ideas: map<string, ClientIdea>, userId: string, now: Millis): (active: set<string>)
    ensures active <= ideas.Keys
    ensures forall id :: id in ideas ==> (id in active <==> ideas[id].userId == userId && now < ideas[id].expiresAt)
  {
    set id | id in ideas && ideas[id].userId == userId && ideas[id].expiresAt > now
  }

  /** `tags ? tags.split(",").map((tag) => tag.trim()) : []`. */
  function ParseTags(tags: Option<string>): (r: seq<string>)
    ensures tags.None? || tags.value == "" ==> r == []
    ensures tags.Some? && tags.value != "" ==>
      && |r| == |Split(tags.value, ',')|
      && forall k :: 0 <= k < |r| ==> r[k] == Trim(Split(tags.value, ',')[k])
    ensures forall k :: 0 <= k < |r| ==> ',' !in r[k] && Trimmed(r[k])
  {
    if tags.None? || tags.value == "" then []
    else
      var parts := Split(tags.value, ',');
      seq(|parts|, k requires 0 <= k < |parts| => Trim(parts[k]))
  }

  /** A user id without `_` fixes the pair a vote document id stands for,
      so one document id never serves two different user and idea pairs. */
  lemma VoteDocIdInjective(u1: string, i1: string, u2: string, i2: string)
    requires '_' !in u1 && '_' !in u2
    requires VoteDocId(u1, i1) == VoteDocId(u2, i2)
    ensures u1 == u2 && i1 == i2
  {
    var s := VoteDocId(u1, i1);
    assert s[|u1|] == '_' && s[|u2|] == '_';
    assert |u1| == |u2|;
    assert u1 == s[..|u1|] == u2;
    assert i1 == s[|u1| + 1..] == i2;
  }

  /** Idea ids of one user taken at different instants differ. */
  lemma IdeaIdsDifferByTime(userId: string, t1: Millis, t2: Millis)
    requires IdeaIdFor(userId, t1) == IdeaIdFor(userId, t2)
    ensures t1 == t2
  {
    var a, b := IdeaIdFor(userId, t1), IdeaIdFor(userId, t2);
    assert a[|userId| + 1..] == IntToString(t1);
    assert b[|userId| + 1..] == IntToString(t2);
    IntToStringInjective(t1, t2);
  }

  /** Writing one more idea into a store where `userId` has fewer than 3
      active ideas leaves at most 3. */
  lemma ActiveLimitKept(ideas: map<string, ClientIdea>, userId: string, now: Millis, id: string, idea: ClientIdea)
    requires |ActiveIdeas(ideas, userId, now)| < MAX_ACTIVE_IDEAS
    ensures |ActiveIdeas(ideas[id := idea], userId, now)| <= MAX_ACTIVE_IDEAS
  {
    var before, after := ActiveIdeas(ideas, userId, now), ActiveIdeas(ideas[id := idea], userId, now);
    assert after <= before + {id};
    assert |before + {id}| <= |before| + 1;
    assert |after| <= |before + {id}| by {
      assert before + {id} == after + ((before + {id}) - after);
    }
  }

  /** `voteOnIdea`: all four checks, then the three writes. */
  method VoteOnIdea(db: ClientDb, userId: string, ideaId: string, now: Millis) returns (r: Outcome)
    modifies db
    ensures r == (if userId !in old(db.users) then Fail("User does not exist")
                  else if ideaId !in old(db.ideas) then Fail("Idea does not exist")
                  else if VoteDocId(userId, ideaId) in old(db.votes) then Fail("User has already voted")
                  else if old(db.users)[userId].tokens <= 0 then Fail("No tokens available")
                  else Pass)
    ensures r.Fail? ==> db.users == old(db.users) && db.ideas == old(db.ideas) && db.votes == old(db.votes)
    ensures r.Pass? ==>
      && db.users == old(db.users)[userId := old(db.users)[userId].(tokens := old(db.users)[userId].tokens - 1)]
      && db.ideas == old(db.ideas)[ideaId := old(db.ideas)[ideaId].(voteCount := old(db.ideas)[ideaId].voteCount + 1)]
      && db.votes == old(db.votes)[VoteDocId(userId, ideaId) := VoteDoc(userId, ideaId, now)]
      && |db.votes| == |old(db.votes)| + 1
    ensures VotesKeyedByPair(old(db.votes)) ==> VotesKeyedByPair(db.votes)
    ensures VoteDocId(userId, ideaId) in db.votes <==>
              (r.Pass? || VoteDocId(userId, ideaId) in old(db.votes))
    ensures (forall id :: id in old(db.users) ==> old(db.users)[id].tokens >= 0) ==>
              forall id :: id in db.users ==> db.users[id].tokens >= 0
  {
    var voteId := VoteDocId(userId, ideaId);
    if userId !in db.users { return Fail("User does not exist"); }
    if ideaId !in db.ideas { return Fail("Idea does not exist"); }
    if voteId in db.votes { return Fail("User has already voted"); }
    var userData := db.users[userId];
    if userData.tokens <= 0 { return Fail("No tokens available"); }

    db.users := db.users[userId := userData.(tokens := userData.tokens - 1)];
    var ideaData := db.ideas[ideaId];
    db.ideas := db.ideas[ideaId := ideaData.(voteCount := ideaData.voteCount + 1)];
    db.votes := db.votes[voteId := VoteDoc(userId, ideaId, now)];
    return Pass;
  }

  /** `createIdea`: the user must exist and have fewer than 3 unexpired
      ideas; the new idea expires 7 days after `now`. */
  method CreateIdea(db: ClientDb, userId: string, title: string, description: string,
                    videoUrl: Option<string>, tags: Option<string>, now: Millis)
    returns (r: Outcome)
    modifies db
    ensures db.users == old(db.users) && db.votes == old(db.votes)
    ensures r == (if userId !in old(db.users) then Fail("User does not exist")
                  else if |ActiveIdeas(old(db.ideas), userId, now)| >= MAX_ACTIVE_IDEAS
                  then Fail("Maximum of 3 active ideas reached")
                  else Pass)
    ensures r.Fail? ==> db.ideas == old(db.ideas)
    ensures r.Pass? ==>
      var id := IdeaIdFor(userId, now);
      && db.ideas == old(db.ideas)[id := ClientIdea(id, userId, title, description, None, videoUrl,
                                                   Some(ParseTags(tags)), now, now + IDEA_LIFETIME, 0, None)]
      && id in ActiveIdeas(db.ideas, userId, now)
      && |ActiveIdeas(db.ideas, userId, now)| <= MAX_ACTIVE_IDEAS
  {
    var ideaId := IdeaIdFor(userId, now);
    var expiresAt := now + IDEA_LIFETIME;
    if userId !in db.users { return Fail("User does not exist"); }
    var activeIdeas := ActiveIdeas(db.ideas, userId, now);
    if |activeIdeas| >= MAX_ACTIVE_IDEAS { return Fail("Maximum of 3 active ideas reached"); }

    var newIdea := ClientIdea(ideaId, userId, title, description, None, videoUrl,
                              Some(ParseTags(tags)), now, expiresAt, 0, None);
    ActiveLimitKept(db.ideas, userId, now, ideaId, newIdea);
    db.ideas := db.ideas[ideaId := newIdea];
    return Pass;
  }
}
