/**
 * Request and response records of the service layer, and the `ResultList` wrapper
 * that a comment listing returns.
 */
module Dto {
  import opened Records

  datatype SignUpRequest = SignUpRequest(
    username: string,
    password: string,
    passwordConfirmation: string,
    name: string,
    blogName: string,
    greeting: string)

  datatype UserUpdateRequest = UserUpdateRequest(name: string, blogName: string, greeting: string)

  /** The create and update requests of articles and posts: a title and a body. */
  datatype ContentRequest = ContentRequest(title: string, content: string)

  datatype CommentCreateRequest = CommentCreateRequest(articleId: Id, content: string)

  datatype UserInfo = UserInfo(username: string, name: string, blogName: string, greeting: string)

  /** `ArticleInfoResponse` and `PostInfoResponse`. */
  datatype ContentInfo = ContentInfo(id: Id, username: string, title: string, content: string, views: Int32)

  datatype CommentInfo = CommentInfo(commentId: Id, articleId: Id, username: string, content: string)

  function UserInfoOf(u: UserRec): UserInfo
  {
    UserInfo(u.username, u.name, u.blogName, u.greeting)
  }

  /** The response for content `c` stored under `id`, whose author is named `username`. */
  function ContentInfoOf(id: Id, username: string, c: ContentRec): ContentInfo
  {
    ContentInfo(id, username, c.title, c.content, c.views)
  }

  function CommentInfoOf(id: Id, username: string, c: CommentRec): CommentInfo
  {
    CommentInfo(id, c.articleId, username, c.content)
  }

  /** One page of query results: its content and whether a further page exists. */
  datatype Slice<T> = Slice(hasNext: bool, content: seq<T>)

  /** Immutable once built; `count` is the number of results, fixed at construction. */
  datatype ResultList<T> = ResultList(count: int, hasNext: bool, results: seq<T>)

  /** The `ResultList` constructor. */
  function MakeResultList<T>(hasNext: bool, results: seq<T>): (r: ResultList<T>)
    ensures r.count == |r.results|
    ensures r.hasNext == hasNext && r.results == results
  {
    ResultList(|results|, hasNext, results)
  }

  /** `ResultList.from(slice)`. */
  function FromSlice<T>(slice: Slice<T>): (r: ResultList<T>)
    ensures r.hasNext == slice.hasNext && r.results == slice.content
    ensures r.count == |slice.content|
  {
    MakeResultList(slice.hasNext, slice.content)
  }
}
