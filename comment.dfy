/** The `Comment` entity: a body updated in place and a soft-delete flag. */
module CommentEntity {
  import opened Records

  class Comment {
    var content: string
    var deleted: bool
    // Neither join column is updatable.
    const articleId: Id
    const userId: Id

    /** The value this object holds. */
    function Rec(): CommentRec
      reads this
    {
      CommentRec(content, deleted, articleId, userId)
    }

    constructor (content: string, articleId: Id, userId: Id)
      ensures Rec() == NewComment(content, articleId, userId)
    {
      this.content := content;
      this.articleId := articleId;
      this.userId := userId;
      this.deleted := false;
    }

    method Update(newContent: string)
      modifies this
      ensures Rec() == old(Rec()).(content := newContent)
    {
      content := newContent;
    }

    method Delete()
      modifies this
      ensures Rec() == old(Rec()).(deleted := true)
    {
      deleted := true;
    }
  }
}
