/**
 * What `ArticleService` and `PostService` decide, as functions of the stores.
 *
 * The two services run the same checks over two stores of the same shape; they differ
 * in how the author of a new item is named (by id for articles, by username for posts)
 * and in their messages. `Kind` selects the store and the wording.
 */
module ContentRules {
  import opened Records
  import opened Errors
  import opened Dto
  import opened BlogState

  datatype Kind = ArticleKind | PostKind
  {
    function Noun(): string
    {
      if ArticleKind? then "article" else "post"
    }

    function Title(): string
    {
      if ArticleKind? then "Article" else "Post"
    }
  }

  function StoreOf(s: State, k: Kind): map<Id, ContentRec>
  {
    if k.ArticleKind? then s.articles else s.posts
  }

  function WithStore(s: State, k: Kind, m: map<Id, ContentRec>): State
  {
    if k.ArticleKind? then s.(articles := m) else s.(posts := m)
  }

  const USER_MISSING := "User is not exists."

  function NotFoundReason(k: Kind, id: Id): string
  {
    k.Title() + " id '" + Decimal(id) + "' is not exists."
  }

  function NotAuthorReason(k: Kind, action: string): string
  {
    "Only the author of this " + k.Noun() + " can " + action + " it."
  }

  /** The item stored under `id` is there and not soft-deleted. */
  predicate Live(s: State, k: Kind, id: Id)
  {
    id in StoreOf(s, k) && !StoreOf(s, k)[id].deleted
  }

  /** The response for item `c` stored under `id`. */
  function Info(s: State, id: Id, c: ContentRec): ContentInfo
  {
    ContentInfoOf(id, UsernameOf(s, c.authorId), c)
  }

  /** `getArticle` / `getPost`: the item, unless it is absent or soft-deleted. */
  function Find(s: State, k: Kind, id: Id): Result<ContentRec>
  {
    if Live(s, k, id) then Ok(StoreOf(s, k)[id])
    else Err(StatusFailure(NotFound, NotFoundReason(k, id)))
  }

  /** Saves a new item by the user `authorId` under the next id. */
  function Publish(s: State, k: Kind, authorId: Id, req: ContentRequest): Outcome<ContentInfo>
  {
    var c := NewContent(req.title, req.content, authorId);
    var t := WithStore(s, k, StoreOf(s, k)[s.nextId := c]).(nextId := s.nextId + 1);
    Outcome(Ok(Info(s, s.nextId, c)), t)
  }

  /** `ArticleService.postArticle`: the author must be a live user, looked up by id. */
  function PostArticle(s: State, userId: Id, req: ContentRequest): Outcome<ContentInfo>
  {
    if userId !in s.users || s.users[userId].deleted then
      Outcome(Err(StatusFailure(Forbidden, USER_MISSING)), s)
    else Publish(s, ArticleKind, userId, req)
  }

  /** `PostService.createPost`: the author must be a live user, looked up by username. */
  function CreatePost(s: State, username: string, req: ContentRequest): Outcome<ContentInfo>
  {
    match LookupUsername(s, username)
    case None => Outcome(Err(StatusFailure(Forbidden, "User '" + username + "' is not exists.")), s)
    case Some(i) =>
      if s.users[i].deleted then Outcome(Err(StatusFailure(Forbidden, "User '" + username + "' is not exists.")), s)
      else Publish(s, PostKind, i, req)
  }

  /** `readArticle` / `readPost`: one more view of a live item. */
  function Read(s: State, k: Kind, id: Id): Outcome<ContentInfo>
  {
    match Find(s, k, id)
    case Err(f) => Outcome(Err(f), s)
    case Ok(c) =>
      var c' := c.(views := Increment(c.views));
      Outcome(Ok(Info(s, id, c')), WithStore(s, k, StoreOf(s, k)[id := c']))
  }

  /**
   * `readArticle` / `readPost` as the code runs them: inside a read-only transaction the
   * loaded entity is read-only and the session is not flushed, so the caller sees the
   * incremented counter but the store keeps the old one.
   */
  function ReadInReadOnlyTx(s: State, k: Kind, id: Id): Outcome<ContentInfo>
  {
    Outcome(Read(s, k, id).result, s)
  }

  /** `updateArticle` / `updatePost`: existence first, then authorship. */
  function Update(s: State, k: Kind, id: Id, userId: Id, req: ContentRequest): Outcome<ContentInfo>
  {
    match Find(s, k, id)
    case Err(f) => Outcome(Err(f), s)
    case Ok(c) =>
      if userId != c.authorId then Outcome(Err(StatusFailure(Forbidden, NotAuthorReason(k, "update"))), s)
      else
        var c' := c.(title := req.title, content := req.content);
        Outcome(Ok(Info(s, id, c')), WithStore(s, k, StoreOf(s, k)[id := c']))
  }

  /** `deleteArticle` / `deletePost`: existence first, then authorship. */
  function Delete(s: State, k: Kind, id: Id, userId: Id): Outcome<()>
  {
    match Find(s, k, id)
    case Err(f) => Outcome(Err(f), s)
    case Ok(c) =>
      if userId != c.authorId then Outcome(Err(StatusFailure(Forbidden, NotAuthorReason(k, "delete"))), s)
      else Outcome(Ok(()), WithStore(s, k, StoreOf(s, k)[id := c.(deleted := true)]))
  }

  // ----- Properties -----

  /** The lookup fails NOT_FOUND exactly for an absent or soft-deleted item. */
  lemma FindExact(s: State, k: Kind, id: Id)
    ensures Find(s, k, id).Ok? <==> id in StoreOf(s, k) && !StoreOf(s, k)[id].deleted
    ensures Find(s, k, id).Ok? ==> Find(s, k, id).value == StoreOf(s, k)[id]
    ensures Find(s, k, id).Err? ==> FailsWith(Find(s, k, id), NotFound)
  {
  }

  /** A missing or soft-deleted author, or an unknown username, gets FORBIDDEN and nothing is saved. */
  lemma CreateNeedsLiveUser(s: State, userId: Id, username: string, req: ContentRequest)
    requires Valid(s)
    ensures userId !in s.users || s.users[userId].deleted ==>
      && PostArticle(s, userId, req) == Outcome(Err(StatusFailure(Forbidden, USER_MISSING)), s)
    ensures (forall i :: i in s.users && s.users[i].username == username ==> s.users[i].deleted) ==>
      && FailsWith(CreatePost(s, username, req).result, Forbidden)
      && CreatePost(s, username, req).post == s
  {
    LookupUsernameExact(s, username);
  }

  /** A live author's new item is saved under the next id with the request's text and no views. */
  lemma CreateSaves(s: State, k: Kind, userId: Id, req: ContentRequest)
    requires Valid(s)
    requires userId in s.users && !s.users[userId].deleted
    ensures var o := if k.ArticleKind? then PostArticle(s, userId, req) else CreatePost(s, s.users[userId].username, req);
      && s.nextId !in StoreOf(s, k)
      && StoreOf(o.post, k) == StoreOf(s, k)[s.nextId := ContentRec(req.title, req.content, 0, false, userId)]
      && o.post == WithStore(s, k, StoreOf(o.post, k)).(nextId := s.nextId + 1)
      && o.result == Ok(ContentInfo(s.nextId, s.users[userId].username, req.title, req.content, 0))
      && Valid(o.post)
  {
    LookupUsernameExact(s, s.users[userId].username);
  }

  /**
   * Existence is resolved before ownership: for an absent or soft-deleted item, update and
   * delete fail NOT_FOUND whoever the caller is, and nothing changes.
   */
  lemma ExistenceBeforeOwnership(s: State, k: Kind, id: Id, userId: Id, req: ContentRequest)
    requires Valid(s)
    requires !Live(s, k, id)
    ensures Read(s, k, id) == Outcome(Err(StatusFailure(NotFound, NotFoundReason(k, id))), s)
    ensures Update(s, k, id, userId, req) == Outcome(Err(StatusFailure(NotFound, NotFoundReason(k, id))), s)
    ensures Delete(s, k, id, userId) == Outcome(Err(StatusFailure(NotFound, NotFoundReason(k, id))), s)
  {
  }

  /** Anyone but the author gets FORBIDDEN on a live item, and the item is unchanged. */
  lemma OnlyAuthorMutates(s: State, k: Kind, id: Id, userId: Id, req: ContentRequest)
    requires Valid(s)
    requires Live(s, k, id) && userId != StoreOf(s, k)[id].authorId
    ensures Update(s, k, id, userId, req) == Outcome(Err(StatusFailure(Forbidden, NotAuthorReason(k, "update"))), s)
    ensures Delete(s, k, id, userId) == Outcome(Err(StatusFailure(Forbidden, NotAuthorReason(k, "delete"))), s)
  {
  }

  /** The author's update replaces title and body only, and the response shows the new text. */
  lemma AuthorUpdates(s: State, k: Kind, id: Id, req: ContentRequest)
    requires Valid(s)
    requires Live(s, k, id)
    ensures var c := StoreOf(s, k)[id];
      var o := Update(s, k, id, c.authorId, req);
      && StoreOf(o.post, k) == StoreOf(s, k)[id := ContentRec(req.title, req.content, c.views, false, c.authorId)]
      && o.post == WithStore(s, k, StoreOf(o.post, k))
      && o.result == Ok(ContentInfo(id, s.users[c.authorId].username, req.title, req.content, c.views))
      && Valid(o.post)
  {
  }

  /** A read of a live item adds one view (wrapping at the `int` limit) and changes nothing else. */
  lemma ReadCounts(s: State, k: Kind, id: Id)
    requires Valid(s)
    requires Live(s, k, id)
    ensures var c := StoreOf(s, k)[id];
      var o := Read(s, k, id);
      && StoreOf(o.post, k) == StoreOf(s, k)[id := c.(views := Increment(c.views))]
      && o.post == WithStore(s, k, StoreOf(o.post, k))
      && o.result.Ok? && o.result.value.views == Increment(c.views)
      && (c.views < INT32_MAX ==> o.result.value.views as int == c.views as int + 1)
      && o.result.value.title == c.title && o.result.value.content == c.content
      && Valid(o.post)
  {
  }

  /** The stores after `n` reads of item `id` in a row. */
  function ReadTimes(s: State, k: Kind, id: Id, n: nat): State
    decreases n
  {
    if n == 0 then s
    else
      var t := Read(s, k, id).post;
      ReadTimes(t, k, id, n - 1)
  }

  /** Replacing one item twice is replacing it with the second value. */
  lemma ReplaceTwice(s: State, k: Kind, id: Id, a: ContentRec, b: ContentRec)
    ensures var t := WithStore(s, k, StoreOf(s, k)[id := a]);
      WithStore(t, k, StoreOf(t, k)[id := b]) == WithStore(s, k, StoreOf(s, k)[id := b])
  {
    var t := WithStore(s, k, StoreOf(s, k)[id := a]);
    assert StoreOf(t, k)[id := b] == StoreOf(s, k)[id := b];
  }

  /** One read of a live item, as the first of `n` reads. */
  lemma ReadTimesUnfold(s: State, k: Kind, id: Id, n: nat)
    requires Live(s, k, id)
    requires n > 0
    ensures var c := StoreOf(s, k)[id];
      var t := WithStore(s, k, StoreOf(s, k)[id := c.(views := Increment(c.views))]);
      && Live(t, k, id)
      && StoreOf(t, k)[id] == c.(views := Increment(c.views))
      && ReadTimes(s, k, id, n) == ReadTimes(t, k, id, n - 1)
  {
  }

  /**
   * The view counter counts reads exactly: after `n` reads in a row of a live item whose
   * counter stays within `int`, it has gone up by `n`, and nothing else has changed.
   */
  lemma {:induction false} ReadTimesCounts(s: State, k: Kind, id: Id, n: nat)
    requires Live(s, k, id)
    requires StoreOf(s, k)[id].views as int + n <= INT32_MAX as int
    ensures ReadTimes(s, k, id, n) ==
      var c := StoreOf(s, k)[id];
      WithStore(s, k, StoreOf(s, k)[id := c.(views := (c.views as int + n) as Int32)])
    decreases n
  {
    var c := StoreOf(s, k)[id];
    if n == 0 {
      assert StoreOf(s, k)[id := c] == StoreOf(s, k);
    } else {
      var c1 := c.(views := c.views + 1);
      var t := WithStore(s, k, StoreOf(s, k)[id := c1]);
      ReadTimesUnfold(s, k, id, n);
      ReadTimesCounts(t, k, id, n - 1);
      var cn := c.(views := (c.views as int + n) as Int32);
      assert c1.(views := (c1.views as int + (n - 1)) as Int32) == cn;
      ReplaceTwice(s, k, id, c1, cn);
    }
  }

  /**
   * In the read-only transaction every read of a live item answers the same count, one
   * above the stored counter, however often it is read: two reads in a row answer `v + 1`
   * twice, where two reads that are written back answer `v + 1` and then `v + 2`.
   */
  lemma ReadOnlyTxLosesViews(s: State, k: Kind, id: Id)
    requires Live(s, k, id)
    requires StoreOf(s, k)[id].views as int + 2 <= INT32_MAX as int
    ensures var v := StoreOf(s, k)[id].views as int;
      var o1 := ReadInReadOnlyTx(s, k, id);
      var o2 := ReadInReadOnlyTx(o1.post, k, id);
      var w1 := Read(s, k, id);
      var w2 := Read(w1.post, k, id);
      && o1.post == s && o2.post == s
      && o1.result.Ok? && o2.result.Ok? && w1.result.Ok? && w2.result.Ok?
      && o1.result.value.views as int == v + 1 && o2.result.value.views as int == v + 1
      && w1.result.value.views as int == v + 1 && w2.result.value.views as int == v + 2
  {
    var c := StoreOf(s, k)[id];
    ReadTimesUnfold(s, k, id, 1);
  }

  /**
   * Once the author deletes an item, every later read, update or delete of it, by anyone,
   * fails NOT_FOUND without changing anything.
   */
  lemma DeleteIsFinal(s: State, k: Kind, id: Id, userId: Id, req: ContentRequest)
    requires Valid(s)
    requires Live(s, k, id)
    ensures var c := StoreOf(s, k)[id];
      var o := Delete(s, k, id, c.authorId);
      && o.result == Ok(())
      && StoreOf(o.post, k) == StoreOf(s, k)[id := c.(deleted := true)]
      && o.post == WithStore(s, k, StoreOf(o.post, k))
      && Valid(o.post)
      && FailsWith(Find(o.post, k, id), NotFound)
      && Read(o.post, k, id) == Outcome(Err(StatusFailure(NotFound, NotFoundReason(k, id))), o.post)
      && Update(o.post, k, id, userId, req) == Outcome(Err(StatusFailure(NotFound, NotFoundReason(k, id))), o.post)
      && Delete(o.post, k, id, userId) == Outcome(Err(StatusFailure(NotFound, NotFoundReason(k, id))), o.post)
  {
    var c := StoreOf(s, k)[id];
    var t := Delete(s, k, id, c.authorId).post;
    assert Valid(t);
    assert !Live(t, k, id);
    ExistenceBeforeOwnership(t, k, id, userId, req);
  }

  /** Every content operation keeps the stores valid. */
  lemma ContentOpsKeepValid(s: State, k: Kind, id: Id, userId: Id, req: ContentRequest)
    requires Valid(s)
    ensures Valid(Read(s, k, id).post)
    ensures Valid(Update(s, k, id, userId, req).post)
    ensures Valid(Delete(s, k, id, userId).post)
  {
    if Live(s, k, id) {
      ReadCounts(s, k, id);
      AuthorUpdates(s, k, id, req);
      DeleteIsFinal(s, k, id, userId, req);
    }
  }

  lemma CreateKeepsValid(s: State, userId: Id, username: string, req: ContentRequest)
    requires Valid(s)
    ensures Valid(PostArticle(s, userId, req).post)
    ensures Valid(CreatePost(s, username, req).post)
  {
    if userId in s.users && !s.users[userId].deleted {
      CreateSaves(s, ArticleKind, userId, req);
    }
    LookupUsernameExact(s, username);
    match LookupUsername(s, username)
    case None =>
    case Some(i) =>
      if !s.users[i].deleted {
        CreateSaves(s, PostKind, i, req);
      }
  }
}
