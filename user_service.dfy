/**
 * `UserService`: sign-up, profile lookup, profile update and soft delete over the store.
 *
 * Each method does what the service does, step by step on the entity objects, and is
 * proved to leave the store in the state, and to answer with the result, that
 * `UserRules` prescribes.
 */
module UserService {
  import opened Records
  import opened Errors
  import opened Dto
  import opened BlogState
  import opened UserEntity
  import opened Store
  import UserRules

  /** `signUp`: the confirmation, then uniqueness, then a new user with its password encoded. */
  method SignUp(blog: Blog, req: SignUpRequest) returns (r: Result<UserInfo>)
    requires blog.Sound()
    modifies blog
    ensures blog.Sound()
    ensures Outcome(r, blog.State()) == UserRules.SignUp(old(blog.State()), req, blog.encode)
  {
    ghost var s0 := blog.State();
    if req.password != req.passwordConfirmation {
      return Err(StatusFailure(BadRequest, UserRules.PASSWORD_MISMATCH));
    }
    if LookupUsername(blog.State(), req.username).Some? {
      return Err(DuplicateUsername(UserRules.DuplicateMessage(req.username)));
    }
    var user := new User(req.username, req.password, req.name, req.blogName, req.greeting);
    user.EncodePassword(blog.encode);
    ghost var rec := NewUser(req.username, blog.encode(req.password), req.name, req.blogName, req.greeting);
    assert user.Rec() == rec;
    assert blog.State() == s0;
    var _ := blog.SaveUser(user);
    assert blog.State() == AddUser(s0, rec);
    r := Ok(UserInfoOf(user.Rec()));
  }

  /** `getUser`: the live user named `username`. */
  method GetUser(blog: Blog, username: string) returns (r: Result<User>)
    ensures r.Ok? <==> UserRules.GetUser(blog.State(), username).Ok?
    ensures r.Ok? ==> blog.users[UserRules.GetUser(blog.State(), username).value] == r.value
    ensures r.Err? ==> r.failure == UserRules.GetUser(blog.State(), username).failure
  {
    match LookupUsername(blog.State(), username)
    case None =>
      r := Err(StatusFailure(NotFound, UserRules.UserNotFound(username)));
    case Some(i) =>
      var user := blog.users[i];
      if user.deleted {
        r := Err(StatusFailure(NotFound, UserRules.UserNotFound(username)));
      } else {
        r := Ok(user);
      }
  }

  /** `getUserInfo`: the profile of the live user named `username`. */
  method GetUserInfo(blog: Blog, username: string) returns (r: Result<UserInfo>)
    ensures r == UserRules.GetUserInfo(blog.State(), username)
  {
    var found := GetUser(blog, username);
    match found
    case Err(f) => r := Err(f);
    case Ok(user) => r := Ok(UserInfoOf(user.Rec()));
  }

  /** `update`: overwrites the profile of the live user named `username`. */
  method Update(blog: Blog, username: string, req: UserUpdateRequest) returns (r: Result<UserInfo>)
    requires blog.Sound()
    modifies blog.users.Values
    ensures blog.Sound()
    ensures Outcome(r, blog.State()) == UserRules.UpdateUser(old(blog.State()), username, req)
  {
    ghost var s0 := blog.State();
    var found := GetUser(blog, username);
    match found
    case Err(f) =>
      r := Err(f);
    case Ok(user) =>
      ghost var i := UserRules.GetUser(s0, username).value;
      blog.UpdateUser(i, user, req.name, req.blogName, req.greeting);
      assert blog.State() == UserRules.UpdateUser(s0, username, req).post;
      r := Ok(UserInfoOf(user.Rec()));
  }

  /** `delete`: soft-deletes the live user named `username`. */
  method Delete(blog: Blog, username: string) returns (r: Result<()>)
    requires blog.Sound()
    modifies blog.users.Values
    ensures blog.Sound()
    ensures Outcome(r, blog.State()) == UserRules.DeleteUser(old(blog.State()), username)
  {
    ghost var s0 := blog.State();
    var found := GetUser(blog, username);
    match found
    case Err(f) =>
      r := Err(f);
    case Ok(user) =>
      ghost var i := UserRules.GetUser(s0, username).value;
      blog.DeleteUser(i, user);
      assert blog.State() == UserRules.DeleteUser(s0, username).post;
      r := Ok(());
  }
}
