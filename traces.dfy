/**
 * Runs of requests against the stores: every service operation, applied one after another.
 *
 * Two facts hold over any run: the schema constraints of `BlogState.Valid` are kept, and
 * nothing is lost: every delete of the system is a soft delete that stands, usernames and
 * owner references are never rewritten, and the id generator only moves forward.
 */
module Traces {
  import opened Records
  import opened Dto
  import opened BlogState
  import UserRules
  import ContentRules
  import CommentRules

  /** One call into a service, with its arguments. */
  datatype Request =
    | SignUp(req: SignUpRequest)
    | AuthSignUp(req: SignUpRequest)
    | UpdateUser(caller: string, username: string, update: UserUpdateRequest)
    | DeleteUser(caller: string, username: string)
    | PostArticle(userId: Id, content: ContentRequest)
    | CreatePost(author: string, content: ContentRequest)
    | Read(kind: ContentRules.Kind, id: Id)
    | Update(kind: ContentRules.Kind, id: Id, userId: Id, content: ContentRequest)
    | Delete(kind: ContentRules.Kind, id: Id, userId: Id)
    | PostComment(userId: Id, comment: CommentCreateRequest)
    | UpdateComment(userId: Id, commentId: Id, text: string)
    | DeleteComment(userId: Id, commentId: Id)

  /** The stores after serving `q`; `encode` is the password encoder. */
  function Step(s: State, q: Request, encode: string -> string): State
  {
    match q
    case SignUp(req) => UserRules.SignUp(s, req, encode).post
    case AuthSignUp(req) => UserRules.AuthSignUp(s, req, encode).post
    case UpdateUser(caller, u, req) => UserRules.ControllerUpdate(s, caller, u, req).post
    case DeleteUser(caller, u) => UserRules.ControllerDelete(s, caller, u).post
    case PostArticle(userId, req) => ContentRules.PostArticle(s, userId, req).post
    case CreatePost(u, req) => ContentRules.CreatePost(s, u, req).post
    case Read(k, id) => ContentRules.Read(s, k, id).post
    case Update(k, id, userId, req) => ContentRules.Update(s, k, id, userId, req).post
    case Delete(k, id, userId) => ContentRules.Delete(s, k, id, userId).post
    case PostComment(userId, req) => CommentRules.PostComment(s, userId, req).post
    case UpdateComment(userId, commentId, text) => CommentRules.UpdateComment(s, userId, commentId, text).post
    case DeleteComment(userId, commentId) => CommentRules.DeleteComment(s, userId, commentId).post
  }

  /** The stores after serving `qs` in order. */
  function Run(s: State, qs: seq<Request>, encode: string -> string): State
    decreases |qs|
  {
    if |qs| == 0 then s else Run(Step(s, qs[0], encode), qs[1..], encode)
  }

  /**
   * `b` holds every user of `a`, under the same username and authority, and a user that
   * was deleted in `a` is still deleted in `b`.
   */
  predicate KeepsUsers(a: map<Id, UserRec>, b: map<Id, UserRec>)
  {
    forall i :: i in a ==>
      && i in b
      && b[i].username == a[i].username && b[i].authority == a[i].authority
      && (a[i].deleted ==> b[i].deleted)
  }

  /** `b` holds every item of `a`, by the same author, and no deleted item is restored. */
  predicate KeepsContent(a: map<Id, ContentRec>, b: map<Id, ContentRec>)
  {
    forall i :: i in a ==> i in b && b[i].authorId == a[i].authorId && (a[i].deleted ==> b[i].deleted)
  }

  /** `b` holds every comment of `a`, on the same article by the same user, and no deleted comment is restored. */
  predicate KeepsComments(a: map<Id, CommentRec>, b: map<Id, CommentRec>)
  {
    forall i :: i in a ==>
      && i in b
      && b[i].articleId == a[i].articleId && b[i].userId == a[i].userId
      && (a[i].deleted ==> b[i].deleted)
  }

  /**
   * Nothing of `s` is lost in `t`: every row is still there with the same owner references,
   * every soft delete stands, and the id generator is no further back.
   */
  predicate Keeps(s: State, t: State)
  {
    && KeepsUsers(s.users, t.users)
    && KeepsContent(s.articles, t.articles)
    && KeepsContent(s.posts, t.posts)
    && KeepsComments(s.comments, t.comments)
    && s.nextId <= t.nextId
  }

  /** Every id in use is below the generator, so a save never overwrites a row. */
  predicate IdsBelow(s: State)
  {
    && (forall i :: i in s.users ==> i < s.nextId)
    && (forall i :: i in s.articles ==> i < s.nextId)
    && (forall i :: i in s.posts ==> i < s.nextId)
    && (forall i :: i in s.comments ==> i < s.nextId)
  }

  lemma KeepsTransitive(s: State, t: State, u: State)
    requires Keeps(s, t) && Keeps(t, u)
    ensures Keeps(s, u)
  {
  }

  /** The user requests keep the schema constraints, unique usernames included. */
  lemma UserStepKeepsValid(s: State, q: Request, encode: string -> string)
    requires Valid(s)
    requires q.SignUp? || q.AuthSignUp? || q.UpdateUser? || q.DeleteUser?
    ensures Valid(Step(s, q, encode))
  {
    match q
    case SignUp(req) => UserRules.SignUpKeepsValid(s, req, encode);
    case AuthSignUp(req) => UserRules.SignUpKeepsValid(s, req, encode);
    case UpdateUser(caller, u, req) => UserRules.UpdateUserKeepsValid(s, u, req);
    case DeleteUser(caller, u) => UserRules.UpdateUserKeepsValid(s, u, UserUpdateRequest("", "", ""));
  }

  /** The article and post requests keep the schema constraints. */
  lemma ContentStepKeepsValid(s: State, q: Request, encode: string -> string)
    requires Valid(s)
    requires q.PostArticle? || q.CreatePost? || q.Read? || q.Update? || q.Delete?
    ensures Valid(Step(s, q, encode))
  {
    match q
    case PostArticle(userId, req) => ContentRules.CreateKeepsValid(s, userId, "", req);
    case CreatePost(u, req) => ContentRules.CreateKeepsValid(s, 0, u, req);
    case Read(k, id) => ContentRules.ContentOpsKeepValid(s, k, id, 0, ContentRequest("", ""));
    case Update(k, id, userId, req) => ContentRules.ContentOpsKeepValid(s, k, id, userId, req);
    case Delete(k, id, userId) => ContentRules.ContentOpsKeepValid(s, k, id, userId, ContentRequest("", ""));
  }

  /** The comment requests keep the schema constraints. */
  lemma CommentStepKeepsValid(s: State, q: Request, encode: string -> string)
    requires Valid(s)
    requires q.PostComment? || q.UpdateComment? || q.DeleteComment?
    ensures Valid(Step(s, q, encode))
  {
    match q
    case PostComment(userId, req) => CommentRules.CommentOpsKeepValid(s, userId, req, 0, "");
    case UpdateComment(userId, commentId, text) =>
      CommentRules.CommentOpsKeepValid(s, userId, CommentCreateRequest(0, ""), commentId, text);
    case DeleteComment(userId, commentId) =>
      CommentRules.CommentOpsKeepValid(s, userId, CommentCreateRequest(0, ""), commentId, "");
  }

  /** Every request keeps the schema constraints. */
  lemma StepKeepsValid(s: State, q: Request, encode: string -> string)
    requires Valid(s)
    ensures Valid(Step(s, q, encode))
  {
    if q.SignUp? || q.AuthSignUp? || q.UpdateUser? || q.DeleteUser? {
      UserStepKeepsValid(s, q, encode);
    } else if q.PostComment? || q.UpdateComment? || q.DeleteComment? {
      CommentStepKeepsValid(s, q, encode);
    } else {
      ContentStepKeepsValid(s, q, encode);
    }
  }

  lemma KeepsSelf(s: State)
    ensures Keeps(s, s)
  {
  }

  /** Overwriting a user with one of the same name and authority, not undeleted, keeps the users. */
  lemma ReplaceUserKeeps(s: State, i: Id, r: UserRec)
    requires i in s.users
    requires r.username == s.users[i].username && r.authority == s.users[i].authority
    requires s.users[i].deleted ==> r.deleted
    ensures Keeps(s, s.(users := s.users[i := r]))
  {
  }

  /** Overwriting an item with one by the same author, not undeleted, keeps its store. */
  lemma ReplaceContentKeeps(s: State, k: ContentRules.Kind, i: Id, r: ContentRec)
    requires i in ContentRules.StoreOf(s, k)
    requires r.authorId == ContentRules.StoreOf(s, k)[i].authorId
    requires ContentRules.StoreOf(s, k)[i].deleted ==> r.deleted
    ensures Keeps(s, ContentRules.WithStore(s, k, ContentRules.StoreOf(s, k)[i := r]))
  {
  }

  /** Overwriting a comment with one on the same article by the same user, not undeleted, keeps the comments. */
  lemma ReplaceCommentKeeps(s: State, i: Id, r: CommentRec)
    requires i in s.comments
    requires r.articleId == s.comments[i].articleId && r.userId == s.comments[i].userId
    requires s.comments[i].deleted ==> r.deleted
    ensures Keeps(s, s.(comments := s.comments[i := r]))
  {
  }

  /** The user requests keep every row: a user delete only sets the flag. */
  lemma UserStepKeeps(s: State, q: Request, encode: string -> string)
    requires IdsBelow(s)
    requires q.SignUp? || q.AuthSignUp? || q.UpdateUser? || q.DeleteUser?
    ensures Keeps(s, Step(s, q, encode))
  {
    match q
    case SignUp(req) =>
      KeepsSelf(s);
    case AuthSignUp(req) =>
      KeepsSelf(s);
    case UpdateUser(caller, u, req) =>
      KeepsSelf(s);
      if caller == u && UserRules.GetUser(s, u).Ok? {
        var i := UserRules.GetUser(s, u).value;
        ReplaceUserKeeps(s, i, s.users[i].(name := req.name, blogName := req.blogName, greeting := req.greeting));
      }
    case DeleteUser(caller, u) =>
      KeepsSelf(s);
      if caller == u && UserRules.GetUser(s, u).Ok? {
        var i := UserRules.GetUser(s, u).value;
        ReplaceUserKeeps(s, i, s.users[i].(deleted := true));
      }
  }

  /** The article and post requests keep every row. */
  lemma ContentStepKeeps(s: State, q: Request, encode: string -> string)
    requires IdsBelow(s)
    requires q.PostArticle? || q.CreatePost? || q.Read? || q.Update? || q.Delete?
    ensures Keeps(s, Step(s, q, encode))
  {
    KeepsSelf(s);
    match q
    case PostArticle(userId, req) =>
    case CreatePost(u, req) =>
    case Read(k, id) =>
      if ContentRules.Live(s, k, id) {
        var c := ContentRules.StoreOf(s, k)[id];
        ReplaceContentKeeps(s, k, id, c.(views := Increment(c.views)));
      }
    case Update(k, id, userId, req) =>
      if ContentRules.Live(s, k, id) {
        var c := ContentRules.StoreOf(s, k)[id];
        ReplaceContentKeeps(s, k, id, c.(title := req.title, content := req.content));
      }
    case Delete(k, id, userId) =>
      if ContentRules.Live(s, k, id) {
        var c := ContentRules.StoreOf(s, k)[id];
        ReplaceContentKeeps(s, k, id, c.(deleted := true));
      }
  }

  /** The comment requests keep every row. */
  lemma CommentStepKeeps(s: State, q: Request, encode: string -> string)
    requires IdsBelow(s)
    requires q.PostComment? || q.UpdateComment? || q.DeleteComment?
    ensures Keeps(s, Step(s, q, encode))
  {
    KeepsSelf(s);
    match q
    case PostComment(userId, req) =>
    case UpdateComment(userId, commentId, text) =>
      if commentId in s.comments {
        ReplaceCommentKeeps(s, commentId, s.comments[commentId].(content := text));
      }
    case DeleteComment(userId, commentId) =>
      if commentId in s.comments {
        ReplaceCommentKeeps(s, commentId, s.comments[commentId].(deleted := true));
      }
  }

  /** Every request keeps every row: deletes only set the flag. */
  lemma StepKeeps(s: State, q: Request, encode: string -> string)
    requires Valid(s)
    ensures Keeps(s, Step(s, q, encode))
  {
    if q.SignUp? || q.AuthSignUp? || q.UpdateUser? || q.DeleteUser? {
      UserStepKeeps(s, q, encode);
    } else if q.PostComment? || q.UpdateComment? || q.DeleteComment? {
      CommentStepKeeps(s, q, encode);
    } else {
      ContentStepKeeps(s, q, encode);
    }
  }

  /** Any run from a valid state ends in a valid state holding every row it started with. */
  lemma {:induction false} RunKeepsValid(s: State, qs: seq<Request>, encode: string -> string)
    requires Valid(s)
    ensures Valid(Run(s, qs, encode))
    ensures Keeps(s, Run(s, qs, encode))
    decreases |qs|
  {
    if |qs| > 0 {
      var t := Step(s, qs[0], encode);
      StepKeepsValid(s, qs[0], encode);
      StepKeeps(s, qs[0], encode);
      RunKeepsValid(t, qs[1..], encode);
      KeepsTransitive(s, t, Run(t, qs[1..], encode));
    } else {
      assert Run(s, qs, encode) == s;
    }
  }

  /** Every run from the empty stores ends in a valid state. */
  lemma FromEmpty(qs: seq<Request>, encode: string -> string)
    ensures Valid(Run(Empty(), qs, encode))
  {
    RunKeepsValid(Empty(), qs, encode);
  }
}
