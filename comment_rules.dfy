/**
 * What `CommentService` decides, as functions of the stores.
 *
 * A comment belongs to one article and one user. The listing of an article's comments is
 * the repository's derived query by article id, taken unpaged and in id order; it does not
 * look at the soft-delete flag of the comments, and it only asks whether the article row
 * exists. Update and delete do not look at the flag either.
 */
module CommentRules {
  import opened Records
  import opened Errors
  import opened Dto
  import opened BlogState

  const USER_MISSING := "User is not exists."
  const ARTICLE_MISSING := "Article is not exists."
  /** The listing's wording differs from the posting's by one word. */
  const LIST_ARTICLE_MISSING := "Article not exists."
  const COMMENT_MISSING := "Comment not exists."
  const UPDATE_DENIED := "Only the author of this comment can update it."
  const DELETE_DENIED := "Only the author of this comment can delete it."

  /** `CommentInfoResponse.from`: the response for comment `c` stored under `id`. */
  function Info(s: State, id: Id, c: CommentRec): CommentInfo
  {
    CommentInfoOf(id, UsernameOf(s, c.userId), c)
  }

  /** `postComment`: a live user comments on a live article; the user is checked first. */
  function PostComment(s: State, userId: Id, req: CommentCreateRequest): Outcome<CommentInfo>
  {
    if userId !in s.users || s.users[userId].deleted then
      Outcome(Err(StatusFailure(Forbidden, USER_MISSING)), s)
    else if req.articleId !in s.articles || s.articles[req.articleId].deleted then
      Outcome(Err(StatusFailure(NotFound, ARTICLE_MISSING)), s)
    else
      var c := NewComment(req.content, req.articleId, userId);
      var t := s.(comments := s.comments[s.nextId := c], nextId := s.nextId + 1);
      Outcome(Ok(Info(t, s.nextId, c)), t)
  }

  /**
   * The ids below `bound` of the comments on article `articleId`, in ascending order,
   * soft-deleted ones included.
   */
  function CommentIds(comments: map<Id, CommentRec>, articleId: Id, bound: nat): (r: seq<Id>)
    ensures forall k :: 0 <= k < |r| ==> r[k] < bound && r[k] in comments && comments[r[k]].articleId == articleId
    ensures forall i :: 0 <= i < bound && i in comments && comments[i].articleId == articleId ==> i in r
    ensures forall k, l :: 0 <= k < l < |r| ==> r[k] < r[l]
    decreases bound
  {
    if bound == 0 then []
    else
      var prefix := CommentIds(comments, articleId, bound - 1);
      if bound - 1 in comments && comments[bound - 1].articleId == articleId then prefix + [bound - 1]
      else prefix
  }

  /** The responses for the comments with ids `ids`, in that order. */
  function Infos(s: State, ids: seq<Id>): seq<CommentInfo>
    requires forall k :: 0 <= k < |ids| ==> ids[k] in s.comments
  {
    seq(|ids|, k requires 0 <= k < |ids| => Info(s, ids[k], s.comments[ids[k]]))
  }

  /** `findCommentsByArticleId` taken unpaged: every comment on the article, in id order. */
  function CommentsOf(s: State, articleId: Id): seq<CommentInfo>
  {
    Infos(s, CommentIds(s.comments, articleId, s.nextId))
  }

  /** `readCommentsByArticle`: NOT_FOUND unless the article row exists; reads only. */
  function ReadComments(s: State, articleId: Id): Result<ResultList<CommentInfo>>
  {
    if articleId !in s.articles then Err(StatusFailure(NotFound, LIST_ARTICLE_MISSING))
    else Ok(FromSlice(Slice(false, CommentsOf(s, articleId))))
  }

  /** `updateComment`: existence, then authorship; the soft-delete flag is not consulted. */
  function UpdateComment(s: State, userId: Id, commentId: Id, content: string): Outcome<CommentInfo>
  {
    if commentId !in s.comments then Outcome(Err(StatusFailure(NotFound, COMMENT_MISSING)), s)
    else
      var c := s.comments[commentId];
      if userId != c.userId then Outcome(Err(StatusFailure(Forbidden, UPDATE_DENIED)), s)
      else
        var c' := c.(content := content);
        var t := s.(comments := s.comments[commentId := c']);
        Outcome(Ok(Info(t, commentId, c')), t)
  }

  /** `deleteComment`: existence, then authorship, then the soft delete. */
  function DeleteComment(s: State, userId: Id, commentId: Id): Outcome<()>
  {
    if commentId !in s.comments then Outcome(Err(StatusFailure(NotFound, COMMENT_MISSING)), s)
    else
      var c := s.comments[commentId];
      if userId != c.userId then Outcome(Err(StatusFailure(Forbidden, DELETE_DENIED)), s)
      else Outcome(Ok(()), s.(comments := s.comments[commentId := c.(deleted := true)]))
  }

  // ----- Properties -----

  /** The set the listing of article `articleId` should cover: its comments below `bound`. */
  ghost function CommentsOn(comments: map<Id, CommentRec>, articleId: Id, bound: nat): set<Id>
  {
    set i | i in comments && i < bound && comments[i].articleId == articleId
  }

  /** One id more adds at most that id to the set. */
  lemma CommentsOnStep(comments: map<Id, CommentRec>, articleId: Id, bound: nat)
    requires bound > 0
    ensures bound - 1 !in CommentsOn(comments, articleId, bound - 1)
    ensures CommentsOn(comments, articleId, bound) ==
      CommentsOn(comments, articleId, bound - 1) +
      (if bound - 1 in comments && comments[bound - 1].articleId == articleId then {bound - 1} else {})
  {
  }

  /** The ids listed are exactly the article's comments, each once. */
  lemma {:induction false} CommentIdsCount(comments: map<Id, CommentRec>, articleId: Id, bound: nat)
    ensures |CommentIds(comments, articleId, bound)| == |CommentsOn(comments, articleId, bound)|
    decreases bound
  {
    if bound == 0 {
      assert CommentsOn(comments, articleId, bound) == {};
    } else {
      CommentIdsCount(comments, articleId, bound - 1);
      CommentsOnStep(comments, articleId, bound);
    }
  }

  /** The listing depends only on which ids below `bound` hold a comment on the article. */
  lemma {:induction false} CommentIdsFrame(c1: map<Id, CommentRec>, c2: map<Id, CommentRec>, articleId: Id, bound: nat)
    requires forall i :: 0 <= i < bound ==>
      ((i in c1 && c1[i].articleId == articleId) <==> (i in c2 && c2[i].articleId == articleId))
    ensures CommentIds(c1, articleId, bound) == CommentIds(c2, articleId, bound)
    decreases bound
  {
    if bound > 0 {
      CommentIdsFrame(c1, c2, articleId, bound - 1);
    }
  }

  /**
   * The listing fails NOT_FOUND exactly when no article row has that id (a soft-deleted
   * article still lists); otherwise it holds every comment on the article, soft-deleted ones
   * included, each once, in ascending id order, with the matching count and no next page.
   */
  lemma ReadCommentsExact(s: State, articleId: Id)
    requires Valid(s)
    ensures ReadComments(s, articleId).Err? <==> articleId !in s.articles
    ensures ReadComments(s, articleId).Err? ==> FailsWith(ReadComments(s, articleId), NotFound)
    ensures ReadComments(s, articleId).Ok? ==>
      var r := ReadComments(s, articleId).value;
      && !r.hasNext
      && r.count == |r.results| == |set i | i in s.comments && s.comments[i].articleId == articleId|
      && (forall k :: 0 <= k < |r.results| ==>
            var id := r.results[k].commentId;
            && id in s.comments && s.comments[id].articleId == articleId
            && r.results[k] == CommentInfo(id, articleId, s.users[s.comments[id].userId].username, s.comments[id].content))
      && (forall i :: i in s.comments && s.comments[i].articleId == articleId ==>
            exists k :: 0 <= k < |r.results| && r.results[k].commentId == i)
      && (forall k, l :: 0 <= k < l < |r.results| ==> r.results[k].commentId < r.results[l].commentId)
  {
    if articleId in s.articles {
      CommentsOfCount(s, articleId);
      CommentsOfCovers(s, articleId);
      CommentsOfEntries(s, articleId);
    }
  }

  /** Each entry of the listing is the response for a comment on the article, in id order. */
  lemma CommentsOfEntries(s: State, articleId: Id)
    requires forall i :: i in s.comments ==> s.comments[i].userId in s.users
    ensures var r := CommentsOf(s, articleId);
      && (forall k :: 0 <= k < |r| ==>
            var id := r[k].commentId;
            && id in s.comments && s.comments[id].articleId == articleId
            && r[k] == CommentInfo(id, articleId, s.users[s.comments[id].userId].username, s.comments[id].content))
      && (forall k, l :: 0 <= k < l < |r| ==> r[k].commentId < r[l].commentId)
  {
  }

  /** The listing has one entry per comment on the article. */
  lemma CommentsOfCount(s: State, articleId: Id)
    requires forall i :: i in s.comments ==> i < s.nextId
    ensures |CommentsOf(s, articleId)| == |set i | i in s.comments && s.comments[i].articleId == articleId|
  {
    CommentIdsCount(s.comments, articleId, s.nextId);
    assert CommentsOn(s.comments, articleId, s.nextId) == set i | i in s.comments && s.comments[i].articleId == articleId;
  }

  /** Every comment on the article appears in the listing. */
  lemma CommentsOfCovers(s: State, articleId: Id)
    requires forall i :: i in s.comments ==> i < s.nextId
    ensures var r := CommentsOf(s, articleId);
      forall i :: i in s.comments && s.comments[i].articleId == articleId ==>
        exists k :: 0 <= k < |r| && r[k].commentId == i
  {
    var ids := CommentIds(s.comments, articleId, s.nextId);
    var r := CommentsOf(s, articleId);
    forall i | i in s.comments && s.comments[i].articleId == articleId
      ensures exists k :: 0 <= k < |r| && r[k].commentId == i
    {
      var k :| 0 <= k < |ids| && ids[k] == i;
      assert r[k].commentId == i;
    }
  }

  /**
   * A user who is absent or soft-deleted gets FORBIDDEN whatever the article; a live user
   * commenting on an absent or soft-deleted article gets NOT_FOUND; nothing is saved.
   */
  lemma PostCommentRejects(s: State, userId: Id, req: CommentCreateRequest)
    ensures userId !in s.users || s.users[userId].deleted ==>
      PostComment(s, userId, req) == Outcome(Err(StatusFailure(Forbidden, USER_MISSING)), s)
    ensures userId in s.users && !s.users[userId].deleted &&
            (req.articleId !in s.articles || s.articles[req.articleId].deleted) ==>
      PostComment(s, userId, req) == Outcome(Err(StatusFailure(NotFound, ARTICLE_MISSING)), s)
  {
  }

  /**
   * A live user's comment on a live article is saved under the next id and is appended to
   * the article's listing: the listing after is the listing before plus the new response.
   */
  lemma PostCommentAppends(s: State, userId: Id, req: CommentCreateRequest)
    requires userId in s.users && !s.users[userId].deleted
    requires req.articleId in s.articles && !s.articles[req.articleId].deleted
    requires forall i :: i in s.comments ==> i < s.nextId
    ensures var o := PostComment(s, userId, req);
      var info := CommentInfo(s.nextId, req.articleId, s.users[userId].username, req.content);
      && o.result == Ok(info)
      && o.post == s.(comments := s.comments[s.nextId := CommentRec(req.content, false, req.articleId, userId)],
                      nextId := s.nextId + 1)
      && CommentsOf(o.post, req.articleId) == CommentsOf(s, req.articleId) + [info]
  {
    var t := PostComment(s, userId, req).post;
    var a := req.articleId;
    CommentIdsFrame(t.comments, s.comments, a, s.nextId);
    assert CommentIds(t.comments, a, t.nextId) == CommentIds(s.comments, a, s.nextId) + [s.nextId];
  }

  /** A comment on another article leaves an article's listing as it was. */
  lemma PostCommentElsewhere(s: State, userId: Id, req: CommentCreateRequest, articleId: Id)
    requires articleId != req.articleId
    requires forall i :: i in s.comments ==> i < s.nextId
    ensures CommentsOf(PostComment(s, userId, req).post, articleId) == CommentsOf(s, articleId)
  {
    if userId in s.users && !s.users[userId].deleted && req.articleId in s.articles && !s.articles[req.articleId].deleted {
      var c := NewComment(req.content, req.articleId, userId);
      var t := s.(comments := s.comments[s.nextId := c], nextId := s.nextId + 1);
      assert PostComment(s, userId, req).post == t;
      var ids := CommentIds(s.comments, articleId, s.nextId);
      CommentIdsFrame(t.comments, s.comments, articleId, s.nextId);
      assert CommentIds(t.comments, articleId, t.nextId) == CommentIds(t.comments, articleId, s.nextId);
      InfosFrame(s, t, ids);
    } else {
      assert PostComment(s, userId, req).post == s;
    }
  }

  /** The responses for `ids` depend only on those comments and on the users. */
  lemma InfosFrame(s: State, t: State, ids: seq<Id>)
    requires t.users == s.users
    requires forall k :: 0 <= k < |ids| ==> ids[k] in s.comments && ids[k] in t.comments
    requires forall k :: 0 <= k < |ids| ==> t.comments[ids[k]] == s.comments[ids[k]]
    ensures Infos(t, ids) == Infos(s, ids)
  {
  }

  /**
   * Update and delete: NOT_FOUND for an absent comment, FORBIDDEN for anyone but its
   * author, with nothing changed in either case.
   */
  lemma CommentGuards(s: State, userId: Id, commentId: Id, content: string)
    ensures commentId !in s.comments ==>
      && UpdateComment(s, userId, commentId, content) == Outcome(Err(StatusFailure(NotFound, COMMENT_MISSING)), s)
      && DeleteComment(s, userId, commentId) == Outcome(Err(StatusFailure(NotFound, COMMENT_MISSING)), s)
    ensures commentId in s.comments && userId != s.comments[commentId].userId ==>
      && UpdateComment(s, userId, commentId, content) == Outcome(Err(StatusFailure(Forbidden, UPDATE_DENIED)), s)
      && DeleteComment(s, userId, commentId) == Outcome(Err(StatusFailure(Forbidden, DELETE_DENIED)), s)
  {
  }

  /**
   * The author's update replaces the text only, and a soft-deleted comment is no exception:
   * its flag is left as it was.
   */
  lemma AuthorUpdatesComment(s: State, commentId: Id, content: string)
    requires Valid(s)
    requires commentId in s.comments
    ensures var c := s.comments[commentId];
      var o := UpdateComment(s, c.userId, commentId, content);
      && o.post == s.(comments := s.comments[commentId := CommentRec(content, c.deleted, c.articleId, c.userId)])
      && o.result == Ok(CommentInfo(commentId, c.articleId, s.users[c.userId].username, content))
      && Valid(o.post)
  {
  }

  /**
   * The author's delete sets the flag, and the comment stays: the article's listing is
   * the same before and after, and the author may still update it.
   */
  lemma DeleteKeepsListing(s: State, commentId: Id, content: string)
    requires Valid(s)
    requires commentId in s.comments
    ensures var c := s.comments[commentId];
      var o := DeleteComment(s, c.userId, commentId);
      && o.result == Ok(())
      && o.post == s.(comments := s.comments[commentId := c.(deleted := true)])
      && Valid(o.post)
      && CommentsOf(o.post, c.articleId) == CommentsOf(s, c.articleId)
      && UpdateComment(o.post, c.userId, commentId, content).result.Ok?
      && DeleteComment(o.post, c.userId, commentId).result == Ok(())
  {
    var c := s.comments[commentId];
    SoftDeleteKeepsListing(s, commentId, c.articleId);
  }

  /** Setting a comment's flag changes no article's listing. */
  lemma SoftDeleteKeepsListing(s: State, commentId: Id, articleId: Id)
    requires commentId in s.comments
    ensures var t := s.(comments := s.comments[commentId := s.comments[commentId].(deleted := true)]);
      CommentsOf(t, articleId) == CommentsOf(s, articleId)
  {
    var t := s.(comments := s.comments[commentId := s.comments[commentId].(deleted := true)]);
    CommentIdsFrame(t.comments, s.comments, articleId, s.nextId);
  }

  /** Every comment operation keeps the stores valid. */
  lemma CommentOpsKeepValid(s: State, userId: Id, req: CommentCreateRequest, commentId: Id, content: string)
    requires Valid(s)
    ensures Valid(PostComment(s, userId, req).post)
    ensures Valid(UpdateComment(s, userId, commentId, content).post)
    ensures Valid(DeleteComment(s, userId, commentId).post)
  {
    if commentId in s.comments && userId == s.comments[commentId].userId {
      AuthorUpdatesComment(s, commentId, content);
      DeleteKeepsListing(s, commentId, content);
    }
  }
}
