/**
 * The four stores as values: what the repositories hold between two requests.
 *
 * Each store maps an id to a record; `nextId` stands in for the id generator, so every
 * id in use is below it and a saved entity gets `nextId`.
 */
module BlogState {
  import opened Records
  import opened Errors

  datatype State = State(
    users: map<Id, UserRec>,
    articles: map<Id, ContentRec>,
    posts: map<Id, ContentRec>,
    comments: map<Id, CommentRec>,
    nextId: Id)

  /** What an operation returns, and the stores it leaves behind. */
  datatype Outcome<T> = Outcome(result: Result<T>, post: State)

  /**
   * The constraints of the schema: ids come from the generator, every join column
   * refers to a stored row, and usernames are unique.
   */
  ghost predicate Valid(s: State)
  {
    && (forall i :: i in s.users ==> i < s.nextId)
    && (forall i :: i in s.articles ==> i < s.nextId && s.articles[i].authorId in s.users)
    && (forall i :: i in s.posts ==> i < s.nextId && s.posts[i].authorId in s.users)
    && (forall i :: i in s.comments ==>
          i < s.nextId && s.comments[i].userId in s.users && s.comments[i].articleId in s.articles)
    && (forall i, j :: i in s.users && j in s.users && s.users[i].username == s.users[j].username ==> i == j)
  }

  function Empty(): (s: State)
    ensures Valid(s)
  {
    State(map[], map[], map[], map[], 0)
  }

  /** The user named `u` among the ids below `bound` (the lowest such id). */
  function FindUsername(users: map<Id, UserRec>, u: string, bound: nat): (r: Option<Id>)
    ensures r.Some? ==> r.value < bound && r.value in users && users[r.value].username == u
    ensures r.None? ==> forall i :: 0 <= i < bound && i in users ==> users[i].username != u
    decreases bound
  {
    if bound == 0 then None
    else
      match FindUsername(users, u, bound - 1)
      case Some(i) => Some(i)
      case None => if bound - 1 in users && users[bound - 1].username == u then Some(bound - 1) else None
  }

  /** `findByUsername`: the id of the user named `u`, deleted or not. */
  function LookupUsername(s: State, u: string): Option<Id>
  {
    FindUsername(s.users, u, s.nextId)
  }

  /** On a valid state, the lookup finds exactly the one user of that name, if there is one. */
  lemma LookupUsernameExact(s: State, u: string)
    requires Valid(s)
    ensures LookupUsername(s, u).None? <==> forall i :: i in s.users ==> s.users[i].username != u
    ensures forall i :: i in s.users && s.users[i].username == u ==> LookupUsername(s, u) == Some(i)
  {
  }

  /** The username of user `id`; in a valid state every author of an item or comment is stored. */
  function UsernameOf(s: State, id: Id): string
  {
    if id in s.users then s.users[id].username else ""
  }

  /** Saves `rec` as a new user under the next id. */
  function AddUser(s: State, rec: UserRec): State
  {
    s.(users := s.users[s.nextId := rec], nextId := s.nextId + 1)
  }
}
