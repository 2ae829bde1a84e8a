/** Record shapes shared by the backend: the `User`, `Idea` and `Vote`
    documents of backend/src/types/index.ts, the small result types used
    in place of thrown errors, and the Firestore database the backend
    writes to (`adminDb`), reduced to its three collections. */
module Types {

  /** Instants are integer milliseconds since 1970-01-01T00:00:00Z. */
  type Millis = int

  datatype Option<T> = None | Some(value: T)

  /** A value, or the message of the error the source throws instead. */
  datatype Result<T> = Ok(value: T) | Err(error: string)

  /** Success, or the message of the error the source throws. */
  datatype Outcome = Pass | Fail(error: string)

  datatype IdeaCategory =
    | Technology | Business | Social | Environment | Education | Health | Other

  datatype IdeaStatus = Active | Trending | Validated | Archived

  /** A document of the `users` collection. */
  datatype User = User(
    uid: string,
    email: string,
    displayName: Option<string>,
    photoURL: Option<string>,
    tokens: int,
    lastTokenRefill: Millis,
    createdAt: Millis,
    updatedAt: Millis,
    ideasSubmitted: int,
    totalVotesCast: int,
    votesReceivedOnIdeas: int)

  /** A document of the `ideas` collection. */
  datatype Idea = Idea(
    id: string,
    creatorId: string,
    title: string,
    description: string,
    category: IdeaCategory,
    tags: seq<string>,
    status: IdeaStatus,
    totalVotes: int,
    weeklyVotes: int,
    createdAt: Millis,
    updatedAt: Millis)

  /** A document of the `votes` collection: one vote of one user for one
      idea in the week `(year, weekNumber)`. */
  datatype Vote = Vote(
    id: string,
    userId: string,
    ideaId: string,
    weekNumber: int,
    year: int,
    createdAt: Millis)

  /** The backend's database: each collection maps document ids to
      documents. Every write the backend issues replaces or updates one
      document of one of these maps. */
  class AdminDb {
    var users: map<string, User>
    var ideas: map<string, Idea>
    var votes: map<string, Vote>
  }
}
