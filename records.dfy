/**
 * The value of each persisted entity, as the stores hold it.
 *
 * An entity refers to another one by its id (`authorId`, `articleId`, `userId`): every
 * ownership check in the services compares ids, and the join columns are not updatable.
 */
module Records {

  type Id = nat

  /** Java's 32-bit `int`, the type of the view counters. */
  newtype Int32 = x: int | -0x8000_0000 <= x < 0x8000_0000

  const INT32_MAX: Int32 := 0x7fff_ffff
  const INT32_MIN: Int32 := -0x8000_0000

  /** Java's `views++`: one more, wrapping from the largest `int` to the smallest. */
  function Increment(v: Int32): Int32
  {
    if v == INT32_MAX then INT32_MIN else v + 1
  }

  /** The authority every user gets at construction. */
  const ROLE_USER := "ROLE_USER"

  datatype UserRec = UserRec(
    username: string,
    password: string,
    name: string,
    blogName: string,
    greeting: string,
    authority: string,
    deleted: bool)

  /** An article or a post: both entities have this shape. */
  datatype ContentRec = ContentRec(
    title: string,
    content: string,
    views: Int32,
    deleted: bool,
    authorId: Id)

  datatype CommentRec = CommentRec(
    content: string,
    deleted: bool,
    articleId: Id,
    userId: Id)

  /** What `new User(...)` holds: the given fields, role `ROLE_USER`, not deleted. */
  function NewUser(username: string, password: string, name: string, blogName: string, greeting: string): UserRec
  {
    UserRec(username, password, name, blogName, greeting, ROLE_USER, false)
  }

  /** What `new Article(...)` and `new Post(...)` hold: no views, not deleted. */
  function NewContent(title: string, content: string, authorId: Id): ContentRec
  {
    ContentRec(title, content, 0, false, authorId)
  }

  /** What `new Comment(...)` holds: not deleted. */
  function NewComment(content: string, articleId: Id, userId: Id): CommentRec
  {
    CommentRec(content, false, articleId, userId)
  }
}
