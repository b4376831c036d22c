/** The `Post` entity: title and body updated in place, a view counter, soft delete. */
module PostEntity {
  import opened Records

  class Post {
    var title: string
    var content: string
    var views: Int32
    var deleted: bool
    // The author's join column is not updatable.
    const authorId: Id

    /** The value this object holds. */
    function Rec(): ContentRec
      reads this
    {
      ContentRec(title, content, views, deleted, authorId)
    }

    constructor (title: string, content: string, authorId: Id)
      ensures Rec() == NewContent(title, content, authorId)
    {
      this.title := title;
      this.content := content;
      this.authorId := authorId;
      this.views := 0;
      this.deleted := false;
    }

    method Update(title: string, content: string)
      modifies this
      ensures Rec() == old(Rec()).(title := title, content := content)
    {
      this.title := title;
      this.content := content;
    }

    /** `views++` on a Java `int`. */
    method IncreaseViews()
      modifies this
      ensures Rec() == old(Rec()).(views := Increment(old(views)))
    {
      views := Increment(views);
    }

    method Delete()
      modifies this
      ensures Rec() == old(Rec()).(deleted := true)
    {
      deleted := true;
    }
  }
}
