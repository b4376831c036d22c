/**
 * `CommentService`: posting, listing, editing and soft-deleting comments on articles.
 *
 * The state-changing methods are proved to match `CommentRules`; the listing reads the
 * store only and returns what `CommentRules.ReadComments` computes from it.
 */
module CommentService {
  import opened Records
  import opened Errors
  import opened Dto
  import opened BlogState
  import opened CommentEntity
  import opened Store
  import opened CommentRules

  /** `postComment`: the user is checked first, then the article, then the comment is saved. */
  method PostComment(blog: Blog, userId: Id, req: CommentCreateRequest) returns (r: Result<CommentInfo>)
    requires blog.Sound()
    modifies blog
    ensures blog.Sound()
    ensures Outcome(r, blog.State()) == CommentRules.PostComment(old(blog.State()), userId, req)
  {
    if userId !in blog.users || blog.users[userId].deleted {
      return Err(StatusFailure(Forbidden, USER_MISSING));
    }
    if req.articleId !in blog.articles || blog.articles[req.articleId].deleted {
      return Err(StatusFailure(NotFound, ARTICLE_MISSING));
    }
    var comment := new Comment(req.content, req.articleId, userId);
    var id := blog.SaveComment(comment);
    r := Ok(Info(blog.State(), id, comment.Rec()));
  }

  /** `readCommentsByArticle`: every comment on an existing article row, as one unpaged slice. */
  method ReadCommentsByArticle(blog: Blog, articleId: Id) returns (r: Result<ResultList<CommentInfo>>)
    ensures r.Err? <==> articleId !in blog.articles
    ensures r.Err? ==> r.failure == StatusFailure(NotFound, LIST_ARTICLE_MISSING)
    ensures r.Ok? ==> r.value == FromSlice(Slice(false, CommentsOf(blog.State(), articleId)))
  {
    if articleId !in blog.articles {
      return Err(StatusFailure(NotFound, LIST_ARTICLE_MISSING));
    }
    var infos := CommentsOf(blog.State(), articleId);
    r := Ok(FromSlice(Slice(false, infos)));
  }

  /** `updateComment`: existence, then authorship, then the new body. */
  method UpdateComment(blog: Blog, userId: Id, commentId: Id, content: string) returns (r: Result<CommentInfo>)
    requires blog.Sound()
    modifies blog.comments.Values
    ensures blog.Sound()
    ensures Outcome(r, blog.State()) == CommentRules.UpdateComment(old(blog.State()), userId, commentId, content)
  {
    if commentId !in blog.comments {
      return Err(StatusFailure(NotFound, COMMENT_MISSING));
    }
    var comment := blog.comments[commentId];
    if userId != comment.userId {
      return Err(StatusFailure(Forbidden, UPDATE_DENIED));
    }
    blog.UpdateComment(commentId, comment, content);
    r := Ok(Info(blog.State(), commentId, comment.Rec()));
  }

  /** `deleteComment`: existence, then authorship, then the soft delete. */
  method DeleteComment(blog: Blog, userId: Id, commentId: Id) returns (r: Result<()>)
    requires blog.Sound()
    modifies blog.comments.Values
    ensures blog.Sound()
    ensures Outcome(r, blog.State()) == CommentRules.DeleteComment(old(blog.State()), userId, commentId)
  {
    if commentId !in blog.comments {
      return Err(StatusFailure(NotFound, COMMENT_MISSING));
    }
    var comment := blog.comments[commentId];
    if userId != comment.userId {
      return Err(StatusFailure(Forbidden, DELETE_DENIED));
    }
    blog.DeleteComment(commentId, comment);
    r := Ok(());
  }
}
