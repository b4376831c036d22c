/**
 * `ArticleService`: articles: publishing, reading, updating and soft-deleting.
 *
 * Each method does what the service does on the entity objects and is proved to leave the
 * store in the state, and to answer with the result, that `ContentRules` prescribes.
 */
module ArticleService {
  import opened Records
  import opened Errors
  import opened Dto
  import opened BlogState
  import opened ArticleEntity
  import opened Store
  import opened ContentRules

  /** `postArticle`: the author is looked up by id and must be live. */
  method PostArticle(blog: Blog, userId: Id, req: ContentRequest) returns (r: Result<ContentInfo>)
    requires blog.Sound()
    modifies blog
    ensures blog.Sound()
    ensures Outcome(r, blog.State()) == ContentRules.PostArticle(old(blog.State()), userId, req)
  {
    if userId !in blog.users {
      return Err(StatusFailure(Forbidden, USER_MISSING));
    }
    var user := blog.users[userId];
    if user.deleted {
      return Err(StatusFailure(Forbidden, USER_MISSING));
    }
    var article := new Article(req.title, req.content, userId);
    var id := blog.SaveArticle(article);
    r := Ok(ContentInfoOf(id, user.username, article.Rec()));
  }

  /** `getArticle`: the live article stored under `id`. */
  method GetArticle(blog: Blog, id: Id) returns (r: Result<Article>)
    ensures r.Ok? <==> Find(blog.State(), ArticleKind, id).Ok?
    ensures r.Ok? ==> id in blog.articles && blog.articles[id] == r.value
    ensures r.Ok? ==> r.value.Rec() == Find(blog.State(), ArticleKind, id).value
    ensures r.Err? ==> r.failure == Find(blog.State(), ArticleKind, id).failure
  {
    if id !in blog.articles {
      return Err(StatusFailure(NotFound, NotFoundReason(ArticleKind, id)));
    }
    var article := blog.articles[id];
    if article.deleted {
      return Err(StatusFailure(NotFound, NotFoundReason(ArticleKind, id)));
    }
    r := Ok(article);
  }

  /** `readArticle`: one more view of a live article. */
  method ReadArticle(blog: Blog, id: Id) returns (r: Result<ContentInfo>)
    requires blog.Sound()
    modifies blog.articles.Values
    ensures blog.Sound()
    ensures Outcome(r, blog.State()) == Read(old(blog.State()), ArticleKind, id)
  {
    var found := GetArticle(blog, id);
    match found
    case Err(f) =>
      r := Err(f);
    case Ok(article) =>
      blog.ViewArticle(id, article);
      r := Ok(Info(blog.State(), id, article.Rec()));
  }

  /** `updateArticle`: existence, then authorship, then the new title and body. */
  method UpdateArticle(blog: Blog, id: Id, userId: Id, req: ContentRequest) returns (r: Result<ContentInfo>)
    requires blog.Sound()
    modifies blog.articles.Values
    ensures blog.Sound()
    ensures Outcome(r, blog.State()) == Update(old(blog.State()), ArticleKind, id, userId, req)
  {
    var found := GetArticle(blog, id);
    match found
    case Err(f) =>
      r := Err(f);
    case Ok(article) =>
      if userId != article.authorId {
        return Err(StatusFailure(Forbidden, NotAuthorReason(ArticleKind, "update")));
      }
      blog.UpdateArticle(id, article, req.title, req.content);
      r := Ok(Info(blog.State(), id, article.Rec()));
  }

  /** `deleteArticle`: existence, then authorship, then the soft delete. */
  method DeleteArticle(blog: Blog, id: Id, userId: Id) returns (r: Result<()>)
    requires blog.Sound()
    modifies blog.articles.Values
    ensures blog.Sound()
    ensures Outcome(r, blog.State()) == Delete(old(blog.State()), ArticleKind, id, userId)
  {
    var found := GetArticle(blog, id);
    match found
    case Err(f) =>
      r := Err(f);
    case Ok(article) =>
      if userId != article.authorId {
        return Err(StatusFailure(Forbidden, NotAuthorReason(ArticleKind, "delete")));
      }
      blog.DeleteArticle(id, article);
      r := Ok(());
  }
}
