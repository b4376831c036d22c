# blog-backend: the service and entity layer, modelled in Dafny

The blog backend keeps four stores: users, articles, posts and comments. Each store is a
table of entities keyed by a generated id. Every service call runs a short, fixed sequence
of checks. The checks are existence, the soft-delete flag, ownership, password confirmation
and username uniqueness. Each check ends in a definite failure (FORBIDDEN, NOT_FOUND,
BAD_REQUEST or a duplicate-username conflict) or in one in-place change to one entity:
overwrite fields, count a view, set `deleted`, or save a new entity.

The model has two layers.

- **Rules.** `UserRules`, `ContentRules` and `CommentRules` state each service decision as
  a function. Each function maps the stores as values (`BlogState.State`) to an `Outcome`:
  the result plus the stores afterwards. Articles and posts share `ContentRules`, with a
  `Kind` choosing the store and the wording. The properties of the services are lemmas
  about these functions. `BlogState.Valid` is the schema invariant: ids come from the
  generator, join columns refer to stored rows, and usernames are unique. Every rule keeps
  that invariant, and `Traces` extends it to any run of requests.
- **Objects.** `User`, `Article`, `Post` and `Comment` are classes whose methods update
  their fields in place, as the entities do. `Store.Blog` holds the repositories as maps
  from id to object, plus the id generator and the password encoder. The service methods
  (`UserService`, `AuthService`, `ArticleService`, `PostService`, `CommentService`,
  `UserController`) work on those objects. Each is proved to return the result, and to
  leave the store in the state, that its rule prescribes:
  `Outcome(r, blog.State()) == Rule(old(blog.State()), ...)`. The service methods keep
  `Blog.Sound()`: distinct objects and allocated maps. The schema invariant itself is
  carried by the rule lemmas (`*KeepsValid`, `Traces.RunKeepsValid`), because
  `blog.State()` is the value the rules run on.

`JpaUserDetails`, `ResultList` and `GlobalExceptionHandler` have no state. They are
datatypes and functions.

## Model

Paths are under `src/main/java/xyz/firstlab/blog/`, written out in full in each row.

| member | source | states |
|---|---|---|
| UserEntity.User.constructor | src/main/java/xyz/firstlab/blog/entity/user/User.java:57-66 | copies username, password, name, blog name and greeting; authority is `ROLE_USER`; not deleted |
| UserEntity.User.EncodePassword | src/main/java/xyz/firstlab/blog/entity/user/User.java:68-70 | the password becomes `encode(old password)`; no other field changes |
| UserEntity.User.Update | src/main/java/xyz/firstlab/blog/entity/user/User.java:72-76 | overwrites exactly name, blog name and greeting; username, password, authority and the flag are kept |
| UserEntity.User.Delete | src/main/java/xyz/firstlab/blog/entity/user/User.java:78-80 | sets the flag and nothing else (so a second delete changes nothing); username and authority are `const` |
| ArticleEntity.Article.constructor | src/main/java/xyz/firstlab/blog/entity/article/Article.java:43-49 | given title, content and author; zero views; not deleted |
| ArticleEntity.Article.Update | src/main/java/xyz/firstlab/blog/entity/article/Article.java:51-54 | replaces title and content only; views, author and flag are kept |
| ArticleEntity.Article.IncreaseViews | src/main/java/xyz/firstlab/blog/entity/article/Article.java:56-58 | views become `views + 1` as a Java `int` (wrapping at the maximum); nothing else changes |
| ArticleEntity.Article.Delete | src/main/java/xyz/firstlab/blog/entity/article/Article.java:60-62 | sets the flag only; the author is a `const` id (the join column is not updatable) |
| PostEntity.Post.constructor | src/main/java/xyz/firstlab/blog/entity/post/Post.java:43-49 | given title, content and author; zero views; not deleted |
| PostEntity.Post.Update | src/main/java/xyz/firstlab/blog/entity/post/Post.java:51-54 | replaces title and content only |
| PostEntity.Post.IncreaseViews | src/main/java/xyz/firstlab/blog/entity/post/Post.java:56-58 | views up by one as a Java `int`; nothing else changes |
| PostEntity.Post.Delete | src/main/java/xyz/firstlab/blog/entity/post/Post.java:60-62 | sets the flag only; the author is immutable |
| CommentEntity.Comment.constructor | src/main/java/xyz/firstlab/blog/entity/comment/Comment.java:35-41 | given content, article and user; not deleted |
| CommentEntity.Comment.Update | src/main/java/xyz/firstlab/blog/entity/comment/Comment.java:43-45 | replaces the content only; article and user are `const` |
| CommentEntity.Comment.Delete | src/main/java/xyz/firstlab/blog/entity/comment/Comment.java:47-49 | sets the flag only |
| Store.Blog.constructor | src/main/java/xyz/firstlab/blog/entity/user/User.java:26-27 | a new store is empty and valid, with the given encoder. The invariant rests on this unique username and on the non-null join columns of `Article`, `Post` and `Comment` |
| Store.Blog.SaveUser | src/main/java/xyz/firstlab/blog/service/UserService.java:36-38 | `save` of a new user: stored under the next id, the other repositories untouched |
| Store.Blog.SaveArticle | src/main/java/xyz/firstlab/blog/service/ArticleService.java:46-47 | a new article stored under the next id; nothing else changes |
| Store.Blog.SavePost | src/main/java/xyz/firstlab/blog/service/PostService.java:41-42 | a new post stored under the next id; nothing else changes |
| Store.Blog.SaveComment | src/main/java/xyz/firstlab/blog/service/CommentService.java:59-60 | a new comment stored under the next id; nothing else changes |
| Store.Blog.UpdateUser | src/main/java/xyz/firstlab/blog/service/UserService.java:64-67 | the managed user's in-place update is what the user store then holds under its id |
| Store.Blog.DeleteUser | src/main/java/xyz/firstlab/blog/service/UserService.java:71-73 | the managed user's flag is set in the store; nothing else changes |
| Store.Blog.UpdateArticle | src/main/java/xyz/firstlab/blog/service/ArticleService.java:80 | the stored article gets the new title and content; nothing else changes |
| Store.Blog.ViewArticle | src/main/java/xyz/firstlab/blog/service/ArticleService.java:54 | the stored article's views go up by one; nothing else changes |
| Store.Blog.DeleteArticle | src/main/java/xyz/firstlab/blog/service/ArticleService.java:92 | the stored article's flag is set; nothing else changes |
| Store.Blog.UpdatePost | src/main/java/xyz/firstlab/blog/service/PostService.java:75 | the stored post gets the new title and content; nothing else changes |
| Store.Blog.ViewPost | src/main/java/xyz/firstlab/blog/service/PostService.java:49 | the stored post's views go up by one; nothing else changes |
| Store.Blog.DeletePost | src/main/java/xyz/firstlab/blog/service/PostService.java:87 | the stored post's flag is set; nothing else changes |
| Store.Blog.UpdateComment | src/main/java/xyz/firstlab/blog/service/CommentService.java:87 | the stored comment gets the new content; nothing else changes |
| Store.Blog.DeleteComment | src/main/java/xyz/firstlab/blog/service/CommentService.java:103 | the stored comment's flag is set; nothing else changes |
| UserService.SignUp | src/main/java/xyz/firstlab/blog/service/UserService.java:26-41 | result and new store are those of `UserRules.SignUp`, whose lemmas follow |
| UserService.GetUser | src/main/java/xyz/firstlab/blog/service/UserService.java:49-61 | the user returned is the stored object under the id `UserRules.GetUser` finds; otherwise the same NOT_FOUND failure |
| UserService.GetUserInfo | src/main/java/xyz/firstlab/blog/service/UserService.java:43-47 | reads only; answers `UserRules.GetUserInfo` of the store |
| UserService.Update | src/main/java/xyz/firstlab/blog/service/UserService.java:63-68 | result and new store are those of `UserRules.UpdateUser` |
| UserService.Delete | src/main/java/xyz/firstlab/blog/service/UserService.java:70-74 | result and new store are those of `UserRules.DeleteUser` |
| AuthService.SignUp | src/main/java/xyz/firstlab/blog/service/AuthService.java:37-53 | new store as `UserRules.AuthSignUp`; on success the returned user is a fresh object, holds the rule's record and is the one stored under the new id |
| UserController.Update | src/main/java/xyz/firstlab/blog/api/UserController.java:32-43 | result and new store are those of `UserRules.ControllerUpdate` for the signed-in username |
| UserController.Delete | src/main/java/xyz/firstlab/blog/api/UserController.java:45-56 | result and new store are those of `UserRules.ControllerDelete`, with the success message |
| ArticleService.PostArticle | src/main/java/xyz/firstlab/blog/service/ArticleService.java:31-49 | result and new store are those of `ContentRules.PostArticle` |
| ArticleService.GetArticle | src/main/java/xyz/firstlab/blog/service/ArticleService.java:58-70 | reads only; succeeds exactly when `ContentRules.Find` does, with the stored object holding the found record |
| ArticleService.ReadArticle | src/main/java/xyz/firstlab/blog/service/ArticleService.java:51-56 | result and new store are those of `ContentRules.Read` (one more view is stored) |
| ArticleService.UpdateArticle | src/main/java/xyz/firstlab/blog/service/ArticleService.java:72-82 | result and new store are those of `ContentRules.Update` |
| ArticleService.DeleteArticle | src/main/java/xyz/firstlab/blog/service/ArticleService.java:84-93 | result and new store are those of `ContentRules.Delete` |
| PostService.CreatePost | src/main/java/xyz/firstlab/blog/service/PostService.java:26-44 | result and new store are those of `ContentRules.CreatePost` |
| PostService.GetPost | src/main/java/xyz/firstlab/blog/service/PostService.java:53-65 | reads only; succeeds exactly when `ContentRules.Find` does for posts |
| PostService.ReadPost | src/main/java/xyz/firstlab/blog/service/PostService.java:46-51 | result and new store are those of `ContentRules.Read` for posts |
| PostService.UpdatePost | src/main/java/xyz/firstlab/blog/service/PostService.java:67-77 | result and new store are those of `ContentRules.Update` for posts |
| PostService.DeletePost | src/main/java/xyz/firstlab/blog/service/PostService.java:79-88 | result and new store are those of `ContentRules.Delete` for posts |
| CommentService.PostComment | src/main/java/xyz/firstlab/blog/service/CommentService.java:35-62 | result and new store are those of `CommentRules.PostComment` |
| CommentService.ReadCommentsByArticle | src/main/java/xyz/firstlab/blog/service/CommentService.java:64-73 | fails NOT_FOUND ("Article not exists.") exactly when no article row has the id; otherwise the article's listing as one slice with no next page |
| CommentService.UpdateComment | src/main/java/xyz/firstlab/blog/service/CommentService.java:75-89 | result and new store are those of `CommentRules.UpdateComment` |
| CommentService.DeleteComment | src/main/java/xyz/firstlab/blog/service/CommentService.java:91-104 | result and new store are those of `CommentRules.DeleteComment` |
| BlogState.Empty | src/main/java/xyz/firstlab/blog/entity/user/User.java:26-27 | the empty stores satisfy the schema invariant. The invariant rests on this unique username and on the non-null join columns of `Article`, `Post` and `Comment` |
| BlogState.FindUsername | src/main/java/xyz/firstlab/blog/entity/user/UserRepository.java:11-15 | a hit is a user with that name; a miss means no user below the bound has it |
| BlogState.LookupUsernameExact | src/main/java/xyz/firstlab/blog/entity/user/User.java:26-27 | with unique usernames, the lookup finds exactly the one user of that name, deleted or not, or none |
| UserRules.SignUpMismatch | src/main/java/xyz/firstlab/blog/service/UserService.java:28-30 | a mismatched confirmation fails BAD_REQUEST, whatever the store holds, and saves nothing |
| UserRules.SignUpDuplicate | src/main/java/xyz/firstlab/blog/service/UserService.java:32-34 | a taken username, even a soft-deleted user's, fails with the duplicate-username message and saves nothing |
| UserRules.SignUpAdds | src/main/java/xyz/firstlab/blog/service/UserService.java:36-40 | success adds exactly one user under a fresh id, with the request's fields, `encode(password)`, `ROLE_USER`, not deleted; returns its profile; the store stays valid |
| UserRules.SignUpTwice | src/main/java/xyz/firstlab/blog/service/UserService.java:32-40 | after a successful sign-up, a second one with the same username fails as a duplicate |
| UserRules.SignUpOrdersDiffer | src/main/java/xyz/firstlab/blog/service/AuthService.java:41-47 | with a taken username and a mismatch, the user service answers BAD_REQUEST and the auth service answers duplicate: the checks run in opposite orders |
| UserRules.AuthSignUpDuplicate | src/main/java/xyz/firstlab/blog/service/AuthService.java:41-43 | a taken username, even a soft-deleted user's, fails with the duplicate-username message whatever the confirmation is, and saves nothing |
| UserRules.AuthSignUpMismatch | src/main/java/xyz/firstlab/blog/service/AuthService.java:45-47 | a mismatch on a free username fails BAD_REQUEST and saves nothing |
| UserRules.AuthSignUpAdds | src/main/java/xyz/firstlab/blog/service/AuthService.java:49-52 | success stores and returns one user whose name and blog name are the username, with an empty greeting and the encoded password |
| UserRules.GetUserExact | src/main/java/xyz/firstlab/blog/service/UserService.java:49-61 | fails NOT_FOUND exactly when every user of that name is deleted (or none exists); otherwise finds the live one |
| UserRules.UpdateUserOverwrites | src/main/java/xyz/firstlab/blog/service/UserService.java:63-68 | a live user's name, blog name and greeting are overwritten and returned; nothing else in the store changes |
| UserRules.DeleteUserOnce | src/main/java/xyz/firstlab/blog/service/UserService.java:70-74 | a live user is flagged; afterwards get, update and a second delete fail NOT_FOUND |
| UserRules.ControllerGuard | src/main/java/xyz/firstlab/blog/api/UserController.java:38-54 | a caller who is not the named user gets FORBIDDEN with no change, even for an absent user; a caller who is gets the service's outcome: the same failure, or USER_DELETED when the delete succeeds |
| UserRules.SignUpKeepsValid | src/main/java/xyz/firstlab/blog/service/UserService.java:26-41 | both sign-up paths keep the schema invariant, unique usernames included |
| UserRules.UpdateUserKeepsValid | src/main/java/xyz/firstlab/blog/service/UserService.java:63-74 | update and delete keep the schema invariant |
| ContentRules.FindExact | src/main/java/xyz/firstlab/blog/service/ArticleService.java:58-70 | the lookup fails NOT_FOUND exactly for an absent or soft-deleted item, and otherwise returns the stored one |
| ContentRules.CreateNeedsLiveUser | src/main/java/xyz/firstlab/blog/service/ArticleService.java:36-44 | an absent or deleted author (by id for articles, by username for posts) fails FORBIDDEN and saves nothing |
| ContentRules.CreateSaves | src/main/java/xyz/firstlab/blog/service/PostService.java:41-43 | a live author's item is saved under a fresh id with the request's text, zero views and that author; the store stays valid |
| ContentRules.ExistenceBeforeOwnership | src/main/java/xyz/firstlab/blog/service/ArticleService.java:74-90 | for an absent or deleted item, read, update and delete fail NOT_FOUND whoever calls, and nothing changes |
| ContentRules.OnlyAuthorMutates | src/main/java/xyz/firstlab/blog/service/ArticleService.java:76-90 | anyone but the author of a live item gets FORBIDDEN on update and delete, and nothing changes |
| ContentRules.AuthorUpdates | src/main/java/xyz/firstlab/blog/service/ArticleService.java:72-82 | the author's update replaces title and content only, keeps views, author and flag, and answers the new text |
| ContentRules.ReadCounts | src/main/java/xyz/firstlab/blog/service/ArticleService.java:51-56 | a read of a live item stores and answers one more view (wrapping only at the `int` limit); title, content and everything else are unchanged |
| ContentRules.ReadTimesCounts | src/main/java/xyz/firstlab/blog/service/PostService.java:46-51 | n reads in a row of a live item, within the `int` range, raise its counter by exactly n and change nothing else |
| ContentRules.ReadOnlyTxLosesViews | src/main/java/xyz/firstlab/blog/service/ArticleService.java:51-56 | as run inside a read-only transaction, two reads both answer v+1 and the store keeps v; written back, they answer v+1 then v+2 |
| ContentRules.DeleteIsFinal | src/main/java/xyz/firstlab/blog/service/PostService.java:79-88 | the author's delete flags the item; afterwards read, update and delete by anyone fail NOT_FOUND without change |
| ContentRules.ContentOpsKeepValid | src/main/java/xyz/firstlab/blog/service/ArticleService.java:51-93 | read, update and delete keep the schema invariant |
| ContentRules.CreateKeepsValid | src/main/java/xyz/firstlab/blog/service/PostService.java:26-44 | publishing an article or a post keeps the schema invariant |
| CommentRules.CommentIds | src/main/java/xyz/firstlab/blog/entity/comment/CommentRepository.java:15 | the ids listed are comments on that article, every such comment is listed, in strictly ascending order |
| CommentRules.CommentIdsCount | src/main/java/xyz/firstlab/blog/entity/comment/CommentRepository.java:15 | the listing has as many entries as the article has comments (each listed once) |
| CommentRules.CommentIdsFrame | src/main/java/xyz/firstlab/blog/entity/comment/CommentRepository.java:15 | the listing depends only on which ids hold a comment on the article |
| CommentRules.ReadCommentsExact | src/main/java/xyz/firstlab/blog/service/CommentService.java:64-73 | fails NOT_FOUND exactly for an absent article row (a deleted article still lists); otherwise every comment on it, deleted ones too, once each, in id order, with the author's username, `count` equal to the number of results and no next page |
| CommentRules.CommentsOfEntries | src/main/java/xyz/firstlab/blog/dto/CommentInfoResponse.java:15-19 | each entry is the response of a comment on the article: its id, article, author's username and content |
| CommentRules.CommentsOfCount | src/main/java/xyz/firstlab/blog/service/CommentService.java:70-72 | the listing has one entry per comment on the article |
| CommentRules.CommentsOfCovers | src/main/java/xyz/firstlab/blog/service/CommentService.java:70-72 | every comment on the article appears in the listing |
| CommentRules.PostCommentRejects | src/main/java/xyz/firstlab/blog/service/CommentService.java:37-57 | an absent or deleted user gets FORBIDDEN before the article is looked at; then an absent or deleted article gets NOT_FOUND; nothing is saved |
| CommentRules.PostCommentAppends | src/main/java/xyz/firstlab/blog/service/CommentService.java:59-61 | success saves one comment with the request's content, user and article, and the article's listing becomes the old listing plus the new response |
| CommentRules.PostCommentElsewhere | src/main/java/xyz/firstlab/blog/service/CommentService.java:59-61 | a comment on one article leaves every other article's listing unchanged |
| CommentRules.CommentGuards | src/main/java/xyz/firstlab/blog/service/CommentService.java:77-101 | an absent comment gives NOT_FOUND, then a non-author gives FORBIDDEN, with no change either way |
| CommentRules.AuthorUpdatesComment | src/main/java/xyz/firstlab/blog/service/CommentService.java:75-89 | the author's update replaces the content only, on a deleted comment too; the store stays valid |
| CommentRules.DeleteKeepsListing | src/main/java/xyz/firstlab/blog/service/CommentService.java:91-104 | the author's delete sets only that comment's flag; the article's listing is the same afterwards, and the author can still update or delete it |
| CommentRules.SoftDeleteKeepsListing | src/main/java/xyz/firstlab/blog/service/CommentService.java:103 | flagging a comment changes no article's listing |
| CommentRules.CommentOpsKeepValid | src/main/java/xyz/firstlab/blog/service/CommentService.java:35-104 | posting, updating and deleting comments keep the schema invariant |
| UserDetails.EnabledIffFound | src/main/java/xyz/firstlab/blog/security/JpaUserDetails.java:38-55 | a stored user's details are enabled, and unexpired, exactly when the service finds that user by name |
| UserDetails.SignedUpDetails | src/main/java/xyz/firstlab/blog/security/JpaUserDetails.java:22-55 | a signed-up user has the request's username and encoded password, authorities exactly `[ROLE_USER]`, and all four status flags true |
| UserDetails.DeletedDetails | src/main/java/xyz/firstlab/blog/security/JpaUserDetails.java:38-55 | after delete: disabled and expired but still unlocked with valid credentials; username, password and authority unchanged |
| Dto.MakeResultList | src/main/java/xyz/firstlab/blog/dto/ResultList.java:22-26 | `count` is the number of results; `hasNext` and the results are kept as given |
| Dto.FromSlice | src/main/java/xyz/firstlab/blog/dto/ResultList.java:18-20 | carries the slice's `hasNext` and content, with `count` their number |
| ExceptionHandler.Handle | src/main/java/xyz/firstlab/blog/exception/handler/GlobalExceptionHandler.java:16-37 | a status failure keeps its code, with its reason phrase and reason; a duplicate username is 409 with "CONFLICT"; anything else is 500 with "INTERNAL_SERVER_ERROR"; the message is carried |
| ExceptionHandler.HandleInjective | src/main/java/xyz/firstlab/blog/exception/handler/GlobalExceptionHandler.java:16-37 | different failures never get the same response |
| ExceptionHandler.UserFailuresAreClientErrors | src/main/java/xyz/firstlab/blog/service/UserService.java:26-74 | for non-null inputs, every failure of the user operations and the controller guard is answered with a 4xx status |
| ExceptionHandler.ContentFailuresAreClientErrors | src/main/java/xyz/firstlab/blog/service/ArticleService.java:31-93 | for non-null inputs, every failure of the article and post operations is answered with a 4xx status |
| ExceptionHandler.CommentFailuresAreClientErrors | src/main/java/xyz/firstlab/blog/service/CommentService.java:35-104 | for non-null inputs, every failure of the comment operations is answered with a 4xx status |
| Errors.Decimal | src/main/java/xyz/firstlab/blog/service/ArticleService.java:61 | the id written into a message is a non-empty string of digits, one digit exactly for ids below 10 |
| Errors.DecimalValue | src/main/java/xyz/firstlab/blog/service/ArticleService.java:61 | the digits written into a message denote the id itself |
| Traces.StepKeepsValid | src/main/java/xyz/firstlab/blog/entity/user/User.java:26-27 | every request of the services, sign-up through either `UserService` or `AuthService` included, keeps the schema invariant: ids below the generator, join columns resolved, usernames unique. The invariant rests on this unique username and on the non-null join columns of `Article`, `Post` and `Comment` |
| Traces.StepKeeps | src/main/java/xyz/firstlab/blog/entity/article/Article.java:36-38 | no request removes a row, reassigns an owner, renames a user or clears a deleted flag |
| Traces.RunKeepsValid | src/main/java/xyz/firstlab/blog/entity/user/User.java:26-27 | any run of service requests from a valid store ends valid and keeps every row, owner reference and soft delete it started with. The invariant rests on this unique username and on the non-null join columns of `Article`, `Post` and `Comment` |
| Traces.FromEmpty | src/main/java/xyz/firstlab/blog/entity/user/User.java:26-27 | every run of service requests from the empty stores ends in a valid state. The invariant rests on this unique username and on the non-null join columns of `Article`, `Post` and `Comment` |

## Left out

- Sign-in and sign-out: `AuthService.signIn` and `signOut` call Spring Security's
  authentication manager, security context and HTTP session, which are not part of this
  model. `UserController` receives the signed-in user as a `JpaUserDetails` argument.
- CSRF tokens and the route permissions of the security configuration: library behaviour.
- Password hashing: the `PasswordEncoder` is an uninterpreted function `encode`, held by
  the store.
- Pagination: `Pageable` and `Slice` are not modelled. The comment listing is the whole
  result in ascending id order, with `hasNext` false. Ascending id order is the order
  chosen for the unpaged query.
- Id generation is a counter (`nextId`) shared by all four stores: a new record gets the
  id `nextId`, which no store uses yet.
- Timestamps (`createdAt`, `modifiedAt`) come from auditing in a base entity that is not
  part of this model. They are left out of the records and responses.
- Transactions, rollback, concurrency and persistence flushing are not modelled: every
  service call is one atomic step on the store. The one place where flushing changes the
  outcome is listed under Findings.
- The thin article and post controllers, `AuthController`, the `Follow` entity and the
  `Post.comments` mapping are not part of this model. So are logging and the application
  bootstrap.
- `JpaUserDetails` holds the `User` it was constructed with, taken at authentication and
  kept in the session; it reads nothing from the store. The model builds it from a user
  record, so it does not capture a session copy that has gone stale.
- Views: a Java `int`. `Increment` wraps from the largest `int` to the smallest.
- ContentRules.ReadTimesCounts: assumes the counter stays in the `int` range over the n
  reads, so it does not state the count after a wrap.
- Responses name an author by looking the author's id up in the user store. If the id
  were missing, the model would answer an empty username. That cannot happen in a valid
  store, which every operation keeps.
- Store.Blog and the service methods ensure `Blog.Sound()` and equality with the rule
  function. They do not restate `BlogState.Valid` of `blog.State()`. That is stated once,
  on the rules (`*KeepsValid`, `Traces.RunKeepsValid`), and it carries over through the
  equality.
- `AuthService.signUp` reads the confirmation through an accessor named `passwordConfirm`,
  but the request record declares `passwordConfirmation`. The model compares the password
  with the confirmation field.
- `UserService.getUser` (the lookup shared by `getUserInfo`, `update` and `delete`) and
  `JpaUserDetails` read the deleted flag through `getDeleted()`, but the getter generated
  for a `boolean` field is `isDeleted()`, the accessor the article and comment services
  use. The model reads the flag itself.
- Negative ids: a Java `Long` id may be negative, and `readArticle(-1)` answers "Article id
  '-1' is not exists.". Ids are `nat` here, so `Errors.Decimal` renders only non-negative
  ids and no rule receives a negative one.
- Null request fields: a request whose fields are null makes the services throw a
  `NullPointerException`, which the handler for runtime exceptions answers with 500
  INTERNAL_SERVER_ERROR. Request fields are plain strings and ids here, so no rule produces
  `Unexpected`.
- ExceptionHandler.UserFailuresAreClientErrors: holds for non-null inputs only; a null
  request field is answered with 500, as the line on null request fields says.
- ExceptionHandler.ContentFailuresAreClientErrors: holds for non-null inputs only, for the
  same reason.
- ExceptionHandler.CommentFailuresAreClientErrors: holds for non-null inputs only, for the
  same reason.

Behaviour of the code worth noting:

- the comment listing includes soft-deleted comments;
- comment update and delete ignore the comment's flag;
- the listing only asks whether the article row exists, so a soft-deleted article still
  lists. Its message is "Article not exists.", while posting says "Article is not exists.";
- for users, ownership is decided before existence;
- `AuthService.signUp` checks for a duplicate before checking the confirmation;
- the duplicate-username handler names the error "CONFLICT", while status failures carry
  the reason phrase ("Conflict" for the same code).

## Findings

| source | as written | input that shows it | evidently intended | confidence | as-written member | corrected member |
|---|---|---|---|---|---|---|
| src/main/java/xyz/firstlab/blog/service/ArticleService.java:51-56 (and src/main/java/xyz/firstlab/blog/service/PostService.java:46-51) | `readArticle`/`readPost` run in a read-only transaction, yet count the view with `increaseViews()`. Spring marks the session read-only and does not flush, so the counter change is not written | two reads in a row of a live article with 0 views: both answer 1 view, and the stored counter stays 0 | each read is written back, so the counter counts reads | medium, not executed | ContentRules.ReadOnlyTxLosesViews | ContentRules.ReadTimesCounts |

`ContentRules.ReadInReadOnlyTx` is the as-written read: it gives the answer of a read and keeps the old store. `ContentRules.Read` is the corrected read. The services use it, and `ContentRules.ReadTimesCounts` proves that n reads add n views.
