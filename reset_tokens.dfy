/** The callable function `resetTokens` of functions/index.js.

    The `users` collection is a map from document id to document, and a
    document is a map from field name to value. The function reads every
    user, queues one field update per user in a write batch, and commits the
    batch. A batch commits all of its writes or none of them. Reading the
    collection and committing are one atomic step here. */
module ResetTokens {
  import opened Types

  const ADMIN_UID := "YOUR_ADMIN_UID"
  const TOKENS_FIELD := "tokensAvailable"
  const RESET_AMOUNT := 5
  const PERMISSION_DENIED := "permission-denied"
  const ONLY_ADMIN := "Only admin can reset tokens"
  const RESET_DONE := "Tokens reset successfully"

  datatype Value = IntValue(i: int) | StringValue(s: string) | BoolValue(b: bool) | NullValue

  type Document = map<string, Value>

  /** `context.auth`: who is calling. */
  datatype AuthContext = AuthContext(uid: string)

  /** What the callable returns or throws. */
  datatype CallResult =
    | Returned(message: string)
    | HttpsError(code: string, errorMessage: string)

  /** `batch.update(ref, { field: value })`. */
  datatype Update = Update(docId: string, field: string, value: Value)

  /** One update applied; updating a missing document fails. */
  function Apply(docs: map<string, Document>, u: Update): (r: Result<map<string, Document>>)
    ensures r.Ok? <==> u.docId in docs
    ensures r.Ok? ==>
      && r.value.Keys == docs.Keys
      && r.value[u.docId] == docs[u.docId][u.field := u.value]
      && forall id :: id in docs && id != u.docId ==> r.value[id] == docs[id]
  {
    if u.docId !in docs then Err("not-found")
    else Ok(docs[u.docId := docs[u.docId][u.field := u.value]])
  }

  /** `batch.commit()`: the updates in the order they were queued, all of
      them or none. */
  function Commit(docs: map<string, Document>, batch: seq<Update>): (r: Result<map<string, Document>>)
    ensures r.Ok? <==> forall k :: 0 <= k < |batch| ==> batch[k].docId in docs
    ensures r.Ok? ==> r.value.Keys == docs.Keys
    decreases |batch|
  {
    if batch == [] then Ok(docs)
    else
      match Commit(docs, batch[..|batch| - 1])
      case Err(e) => Err(e)
      case Ok(d) => Apply(d, batch[|batch| - 1])
  }

  /** The users with the ids in `done` reset and the others untouched. */
  function ResetOn(docs: map<string, Document>, done: set<string>): (r: map<string, Document>)
    ensures r.Keys == docs.Keys
    ensures forall id :: id in docs && id in done ==> r[id] == docs[id][TOKENS_FIELD := IntValue(RESET_AMOUNT)]
    ensures forall id :: id in docs && id !in done ==> r[id] == docs[id]
  {
    map id | id in docs :: if id in done then docs[id][TOKENS_FIELD := IntValue(RESET_AMOUNT)] else docs[id]
  }

  /** Every user after the reset: exactly 5 tokens each, no user added or
      removed, and every other field as it was. */
  function ResetAll(docs: map<string, Document>): (r: map<string, Document>)
    ensures r.Keys == docs.Keys
    ensures forall id :: id in docs ==>
      && TOKENS_FIELD in r[id]
      && r[id][TOKENS_FIELD] == IntValue(RESET_AMOUNT)
      && r[id].Keys == docs[id].Keys + {TOKENS_FIELD}
      && forall f :: f in docs[id] && f != TOKENS_FIELD ==> r[id][f] == docs[id][f]
  {
    ResetOn(docs, docs.Keys)
  }

  /** Resetting twice leaves the users as resetting once does. */
  lemma ResetAllIdempotent(docs: map<string, Document>)
    ensures ResetAll(ResetAll(docs)) == ResetAll(docs)
  {
    var once := ResetAll(docs);
    forall id | id in once
      ensures ResetAll(once)[id] == once[id]
    {
      assert once[id] == docs[id][TOKENS_FIELD := IntValue(RESET_AMOUNT)];
      assert once[id][TOKENS_FIELD := IntValue(RESET_AMOUNT)] == once[id];
    }
  }

  /** Queuing one more update applies it to what the batch commits. */
  lemma CommitSnoc(docs: map<string, Document>, batch: seq<Update>, u: Update)
    ensures Commit(docs, batch + [u]) ==
      match Commit(docs, batch)
      case Err(e) => Err(e)
      case Ok(d) => Apply(d, u)
  {
    assert (batch + [u])[..|batch|] == batch;
  }

  /** Resetting nobody leaves the users as they are. */
  lemma ResetOnNobody(docs: map<string, Document>)
    ensures ResetOn(docs, {}) == docs
  {
  }

  /** Resetting one more user is one more update of `tokensAvailable`. */
  lemma ResetOnStep(docs: map<string, Document>, done: set<string>, id: string)
    requires id in docs
    ensures var r := ResetOn(docs, done);
      r[id := r[id][TOKENS_FIELD := IntValue(RESET_AMOUNT)]] == ResetOn(docs, done + {id})
  {
    var r := ResetOn(docs, done);
    assert docs[id][TOKENS_FIELD := IntValue(RESET_AMOUNT)][TOKENS_FIELD := IntValue(RESET_AMOUNT)]
        == docs[id][TOKENS_FIELD := IntValue(RESET_AMOUNT)];
  }

  /** Queuing the update of one more user resets that user as well. */
  lemma QueueOneMore(docs: map<string, Document>, batch: seq<Update>, done: set<string>, id: string)
    requires id in docs
    requires Commit(docs, batch) == Ok(ResetOn(docs, done))
    ensures Commit(docs, batch + [Update(id, TOKENS_FIELD, IntValue(RESET_AMOUNT))]) == Ok(ResetOn(docs, done + {id}))
  {
    CommitSnoc(docs, batch, Update(id, TOKENS_FIELD, IntValue(RESET_AMOUNT)));
    ResetOnStep(docs, done, id);
  }

  /** `usersSnapshot.forEach(...)`: one update of `tokensAvailable` queued
      per user; committing the batch resets every user. */
  method QueueResets(users: map<string, Document>) returns (batch: seq<Update>)
    ensures |batch| == |users|
    ensures Commit(users, batch) == Ok(ResetAll(users))
  {
    batch := [];
    var remaining := users.Keys;
    assert users.Keys - remaining == {};
    ResetOnNobody(users);
    while remaining != {}
      invariant remaining <= users.Keys
      invariant |batch| + |remaining| == |users|
      invariant Commit(users, batch) == Ok(ResetOn(users, users.Keys - remaining))
      decreases |remaining|
    {
      var id :| id in remaining;
      QueueOneMore(users, batch, users.Keys - remaining, id);
      batch := batch + [Update(id, TOKENS_FIELD, IntValue(RESET_AMOUNT))];
      assert users.Keys - (remaining - {id}) == (users.Keys - remaining) + {id};
      assert |remaining - {id}| == |remaining| - 1;
      remaining := remaining - {id};
    }
    assert users.Keys - remaining == users.Keys;
  }

  /** `resetTokens`: only the admin may call it; the admin's call queues an
      update of `tokensAvailable` for every user and commits them. Returns
      the result of the call and the users as they are afterwards. */
  method ResetTokensCall(auth: Option<AuthContext>, users: map<string, Document>)
    returns (r: CallResult, committed: map<string, Document>)
    ensures auth.None? || auth.value.uid != ADMIN_UID ==>
      r == HttpsError(PERMISSION_DENIED, ONLY_ADMIN) && committed == users
    ensures auth.Some? && auth.value.uid == ADMIN_UID ==>
      r == Returned(RESET_DONE) && committed == ResetAll(users)
  {
    if auth.None? || auth.value.uid != ADMIN_UID {
      return HttpsError(PERMISSION_DENIED, ONLY_ADMIN), users;
    }
    var batch := QueueResets(users);
    var result := Commit(users, batch);
    return Returned(RESET_DONE), result.value;
  }
}
