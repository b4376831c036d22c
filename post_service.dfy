/**
 * `PostService`: posts, the same operations as for articles over their own store.
 *
 * Each method does what the service does on the entity objects and is proved to leave the
 * store in the state, and to answer with the result, that `ContentRules` prescribes.
 */
module PostService {
  import opened Records
  import opened Errors
  import opened Dto
  import opened BlogState
  import opened PostEntity
  import opened Store
  import opened ContentRules

  /** `createPost`: the author is looked up by username and must be live. */
  method CreatePost(blog: Blog, username: string, req: ContentRequest) returns (r: Result<ContentInfo>)
    requires blog.Sound()
    modifies blog
    ensures blog.Sound()
    ensures Outcome(r, blog.State()) == ContentRules.CreatePost(old(blog.State()), username, req)
  {
    match LookupUsername(blog.State(), username)
    case None =>
      r := Err(StatusFailure(Forbidden, "User '" + username + "' is not exists."));
    case Some(userId) =>
      var user := blog.users[userId];
      if user.deleted {
        return Err(StatusFailure(Forbidden, "User '" + username + "' is not exists."));
      }
      var post := new Post(req.title, req.content, userId);
      var id := blog.SavePost(post);
      r := Ok(ContentInfoOf(id, user.username, post.Rec()));
  }

  /** `getPost`: the live post stored under `id`. */
  method GetPost(blog: Blog, id: Id) returns (r: Result<Post>)
    ensures r.Ok? <==> Find(blog.State(), PostKind, id).Ok?
    ensures r.Ok? ==> id in blog.posts && blog.posts[id] == r.value
    ensures r.Ok? ==> r.value.Rec() == Find(blog.State(), PostKind, id).value
    ensures r.Err? ==> r.failure == Find(blog.State(), PostKind, id).failure
  {
    if id !in blog.posts {
      return Err(StatusFailure(NotFound, NotFoundReason(PostKind, id)));
    }
    var post := blog.posts[id];
    if post.deleted {
      return Err(StatusFailure(NotFound, NotFoundReason(PostKind, id)));
    }
    r := Ok(post);
  }

  /** `readPost`: one more view of a live post. */
  method ReadPost(blog: Blog, id: Id) returns (r: Result<ContentInfo>)
    requires blog.Sound()
    modifies blog.posts.Values
    ensures blog.Sound()
    ensures Outcome(r, blog.State()) == Read(old(blog.State()), PostKind, id)
  {
    var found := GetPost(blog, id);
    match found
    case Err(f) =>
      r := Err(f);
    case Ok(post) =>
      blog.ViewPost(id, post);
      r := Ok(Info(blog.State(), id, post.Rec()));
  }

  /** `updatePost`: existence, then authorship, then the new title and body. */
  method UpdatePost(blog: Blog, id: Id, userId: Id, req: ContentRequest) returns (r: Result<ContentInfo>)
    requires blog.Sound()
    modifies blog.posts.Values
    ensures blog.Sound()
    ensures Outcome(r, blog.State()) == Update(old(blog.State()), PostKind, id, userId, req)
  {
    var found := GetPost(blog, id);
    match found
    case Err(f) =>
      r := Err(f);
    case Ok(post) =>
      if userId != post.authorId {
        return Err(StatusFailure(Forbidden, NotAuthorReason(PostKind, "update")));
      }
      blog.UpdatePost(id, post, req.title, req.content);
      r := Ok(Info(blog.State(), id, post.Rec()));
  }

  /** `deletePost`: existence, then authorship, then the soft delete. */
  method DeletePost(blog: Blog, id: Id, userId: Id) returns (r: Result<()>)
    requires blog.Sound()
    modifies blog.posts.Values
    ensures blog.Sound()
    ensures Outcome(r, blog.State()) == Delete(old(blog.State()), PostKind, id, userId)
  {
    var found := GetPost(blog, id);
    match found
    case Err(f) =>
      r := Err(f);
    case Ok(post) =>
      if userId != post.authorId {
        return Err(StatusFailure(Forbidden, NotAuthorReason(PostKind, "delete")));
      }
      blog.DeletePost(id, post);
      r := Ok(());
  }
}
