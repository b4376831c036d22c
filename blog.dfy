/**
 * The repositories as one store of entity objects.
 *
 * Each repository maps an id to the object it manages; a service loads an object, changes
 * its fields in place, and the change is what the store holds afterwards. `State()` reads
 * the value of every stored object, and the services are proved against the functions of
 * `UserRules`, `ContentRules` and `CommentRules` over that value.
 */
module Store {
  import opened Records
  import opened BlogState
  import opened UserEntity
  import opened ArticleEntity
  import opened PostEntity
  import opened CommentEntity

  class Blog {
    var users: map<Id, User>
    var articles: map<Id, Article>
    var posts: map<Id, Post>
    var comments: map<Id, Comment>
    /** The id generator: the id the next saved entity gets. */
    var nextId: Id
    /** The `PasswordEncoder` bean. */
    const encode: string -> string

    /** The values the repositories hold. */
    function State(): State
      reads this, users.Values, articles.Values, posts.Values, comments.Values
    {
      BlogState.State(UserValues(users), ArticleValues(articles), PostValues(posts), CommentValues(comments), nextId)
    }

    /** A repository never holds one object under two ids. */
    ghost predicate Distinct()
      reads this
    {
      && (forall i, j :: i in users && j in users && users[i] == users[j] ==> i == j)
      && (forall i, j :: i in articles && j in articles && articles[i] == articles[j] ==> i == j)
      && (forall i, j :: i in posts && j in posts && posts[i] == posts[j] ==> i == j)
      && (forall i, j :: i in comments && j in comments && comments[i] == comments[j] ==> i == j)
    }

    /** Every stored object sits under an id the generator has handed out. */
    ghost predicate Allocated()
      reads this
    {
      && (forall i :: i in users ==> i < nextId)
      && (forall i :: i in articles ==> i < nextId)
      && (forall i :: i in posts ==> i < nextId)
      && (forall i :: i in comments ==> i < nextId)
    }

    /** What the services rely on of the object graph. */
    ghost predicate Sound()
      reads this
    {
      Distinct() && Allocated()
    }

    /**
     * A sound object graph whose values meet the schema's constraints. Only the constructor
     * ensures it: the other methods keep `Sound()` and equal a rule function, and the rule
     * lemmas (`*KeepsValid`) carry `BlogState.Valid` of `State()` across that equality.
     */
    ghost predicate Valid()
      reads this, users.Values, articles.Values, posts.Values, comments.Values
    {
      Sound() && BlogState.Valid(State())
    }

    constructor (encode: string -> string)
      ensures Valid() && State() == Empty() && this.encode == encode
    {
      users, articles, posts, comments := map[], map[], map[], map[];
      nextId := 0;
      this.encode := encode;
    }

    /** `userRepository.save` of a new user: stored under the next id. */
    method SaveUser(user: User) returns (id: Id)
      requires Sound()
      requires user !in users.Values
      modifies this
      ensures Sound() && id == old(nextId)
      ensures users == old(users)[id := user] && articles == old(articles) && posts == old(posts)
      ensures comments == old(comments)
      ensures State() == AddUser(old(State()), user.Rec())
    {
      id := nextId;
      UserAdded(users, id, user);
      users := users[id := user];
      nextId := nextId + 1;
    }

    /** `articleRepository.save` of a new article. */
    method SaveArticle(a: Article) returns (id: Id)
      requires Sound()
      requires a !in articles.Values
      modifies this
      ensures Sound() && id == old(nextId)
      ensures articles == old(articles)[id := a] && users == old(users) && posts == old(posts)
      ensures comments == old(comments)
      ensures State() == old(State()).(articles := old(State().articles)[id := a.Rec()], nextId := id + 1)
    {
      id := nextId;
      ArticleAdded(articles, id, a);
      articles := articles[id := a];
      nextId := nextId + 1;
    }

    /** `postRepository.save` of a new post. */
    method SavePost(p: Post) returns (id: Id)
      requires Sound()
      requires p !in posts.Values
      modifies this
      ensures Sound() && id == old(nextId)
      ensures posts == old(posts)[id := p] && users == old(users) && articles == old(articles)
      ensures comments == old(comments)
      ensures State() == old(State()).(posts := old(State().posts)[id := p.Rec()], nextId := id + 1)
    {
      id := nextId;
      PostAdded(posts, id, p);
      posts := posts[id := p];
      nextId := nextId + 1;
    }

    /** `commentRepository.save` of a new comment. */
    method SaveComment(c: Comment) returns (id: Id)
      requires Sound()
      requires c !in comments.Values
      modifies this
      ensures Sound() && id == old(nextId)
      ensures comments == old(comments)[id := c] && users == old(users) && articles == old(articles)
      ensures posts == old(posts)
      ensures State() == old(State()).(comments := old(State().comments)[id := c.Rec()], nextId := id + 1)
    {
      id := nextId;
      CommentAdded(comments, id, c);
      comments := comments[id := c];
      nextId := nextId + 1;
    }

    // ----- Changes to managed entities -----
    // A service changes a loaded entity in place, and the store holds the change from then
    // on. Each method below makes one entity call and states what the store then holds.

    /** `user.update(...)` on the managed user stored under `id`. */
    method UpdateUser(ghost id: Id, user: User, name: string, blogName: string, greeting: string)
      requires Distinct() && id in users && users[id] == user
      modifies user
      ensures State() == old(State()).(users := old(State().users)[id := old(user.Rec()).(name := name, blogName := blogName, greeting := greeting)])
    {
      user.Update(name, blogName, greeting);
      assert UserValues(users) == old(UserValues(users))[id := user.Rec()];
    }

    /** `user.delete()` on the managed user stored under `id`. */
    method DeleteUser(ghost id: Id, user: User)
      requires Distinct() && id in users && users[id] == user
      modifies user
      ensures State() == old(State()).(users := old(State().users)[id := old(user.Rec()).(deleted := true)])
    {
      user.Delete();
      assert UserValues(users) == old(UserValues(users))[id := user.Rec()];
    }

    /** `article.update(...)` on the managed article stored under `id`. */
    method UpdateArticle(ghost id: Id, article: Article, title: string, content: string)
      requires Distinct() && id in articles && articles[id] == article
      modifies article
      ensures State() == old(State()).(articles := old(State().articles)[id := old(article.Rec()).(title := title, content := content)])
    {
      article.Update(title, content);
      assert ArticleValues(articles) == old(ArticleValues(articles))[id := article.Rec()];
    }

    /** `article.increaseViews()` on the managed article stored under `id`. */
    method ViewArticle(ghost id: Id, article: Article)
      requires Distinct() && id in articles && articles[id] == article
      modifies article
      ensures State() == old(State()).(articles := old(State().articles)[id := old(article.Rec()).(views := Increment(old(article.views)))])
    {
      article.IncreaseViews();
      assert ArticleValues(articles) == old(ArticleValues(articles))[id := article.Rec()];
    }

    /** `article.delete()` on the managed article stored under `id`. */
    method DeleteArticle(ghost id: Id, article: Article)
      requires Distinct() && id in articles && articles[id] == article
      modifies article
      ensures State() == old(State()).(articles := old(State().articles)[id := old(article.Rec()).(deleted := true)])
    {
      article.Delete();
      assert ArticleValues(articles) == old(ArticleValues(articles))[id := article.Rec()];
    }

    /** `post.update(...)` on the managed post stored under `id`. */
    method UpdatePost(ghost id: Id, post: Post, title: string, content: string)
      requires Distinct() && id in posts && posts[id] == post
      modifies post
      ensures State() == old(State()).(posts := old(State().posts)[id := old(post.Rec()).(title := title, content := content)])
    {
      post.Update(title, content);
      assert PostValues(posts) == old(PostValues(posts))[id := post.Rec()];
    }

    /** `post.increaseViews()` on the managed post stored under `id`. */
    method ViewPost(ghost id: Id, post: Post)
      requires Distinct() && id in posts && posts[id] == post
      modifies post
      ensures State() == old(State()).(posts := old(State().posts)[id := old(post.Rec()).(views := Increment(old(post.views)))])
    {
      post.IncreaseViews();
      assert PostValues(posts) == old(PostValues(posts))[id := post.Rec()];
    }

    /** `post.delete()` on the managed post stored under `id`. */
    method DeletePost(ghost id: Id, post: Post)
      requires Distinct() && id in posts && posts[id] == post
      modifies post
      ensures State() == old(State()).(posts := old(State().posts)[id := old(post.Rec()).(deleted := true)])
    {
      post.Delete();
      assert PostValues(posts) == old(PostValues(posts))[id := post.Rec()];
    }

    /** `comment.update(...)` on the managed comment stored under `id`. */
    method UpdateComment(ghost id: Id, comment: Comment, content: string)
      requires Distinct() && id in comments && comments[id] == comment
      modifies comment
      ensures State() == old(State()).(comments := old(State().comments)[id := old(comment.Rec()).(content := content)])
    {
      comment.Update(content);
      assert CommentValues(comments) == old(CommentValues(comments))[id := comment.Rec()];
    }

    /** `comment.delete()` on the managed comment stored under `id`. */
    method DeleteComment(ghost id: Id, comment: Comment)
      requires Distinct() && id in comments && comments[id] == comment
      modifies comment
      ensures State() == old(State()).(comments := old(State().comments)[id := old(comment.Rec()).(deleted := true)])
    {
      comment.Delete();
      assert CommentValues(comments) == old(CommentValues(comments))[id := comment.Rec()];
    }
  }

  /** The value of each user object, by id. */
  function UserValues(m: map<Id, User>): map<Id, UserRec>
    reads m.Values
  {
    map i | i in m :: m[i].Rec()
  }

  /** The value of each article object, by id. */
  function ArticleValues(m: map<Id, Article>): map<Id, ContentRec>
    reads m.Values
  {
    map i | i in m :: m[i].Rec()
  }

  /** The value of each post object, by id. */
  function PostValues(m: map<Id, Post>): map<Id, ContentRec>
    reads m.Values
  {
    map i | i in m :: m[i].Rec()
  }

  /** The value of each comment object, by id. */
  function CommentValues(m: map<Id, Comment>): map<Id, CommentRec>
    reads m.Values
  {
    map i | i in m :: m[i].Rec()
  }

  /** Adding an object under a new id adds its value under that id. */
  lemma UserAdded(m: map<Id, User>, id: Id, u: User)
    ensures UserValues(m[id := u]) == UserValues(m)[id := u.Rec()]
  {
  }

  /** Adding an object under a new id adds its value under that id. */
  lemma ArticleAdded(m: map<Id, Article>, id: Id, a: Article)
    ensures ArticleValues(m[id := a]) == ArticleValues(m)[id := a.Rec()]
  {
  }

  /** Adding an object under a new id adds its value under that id. */
  lemma PostAdded(m: map<Id, Post>, id: Id, p: Post)
    ensures PostValues(m[id := p]) == PostValues(m)[id := p.Rec()]
  {
  }

  /** Adding an object under a new id adds its value under that id. */
  lemma CommentAdded(m: map<Id, Comment>, id: Id, c: Comment)
    ensures CommentValues(m[id := c]) == CommentValues(m)[id := c.Rec()]
  {
  }
}
