/**
 * What `UserService`, `AuthService.signUp` and the guard in `UserController` decide,
 * as functions of the stores, and the properties of those decisions.
 */
module UserRules {
  import opened Records
  import opened Errors
  import opened Dto
  import opened BlogState

  const PASSWORD_MISMATCH := "Passwords do not match."
  const UPDATE_DENIED := "Do not have the user update privilege."
  const DELETE_DENIED := "Do not have the user delete privilege."
  const USER_DELETED := "User is successfully deleted."

  function DuplicateMessage(u: string): string
  {
    "Username '" + u + "' already exists."
  }

  function UserNotFound(u: string): string
  {
    "User '" + u + "' is not exists."
  }

  /** `UserService.signUp`: confirmation first, then uniqueness, then save with the password encoded. */
  function SignUp(s: State, req: SignUpRequest, encode: string -> string): Outcome<UserInfo>
  {
    if req.password != req.passwordConfirmation then
      Outcome(Err(StatusFailure(BadRequest, PASSWORD_MISMATCH)), s)
    else if LookupUsername(s, req.username).Some? then
      Outcome(Err(DuplicateUsername(DuplicateMessage(req.username))), s)
    else
      var rec := NewUser(req.username, encode(req.password), req.name, req.blogName, req.greeting);
      Outcome(Ok(UserInfoOf(rec)), AddUser(s, rec))
  }

  /** `AuthService.signUp`: uniqueness first, then confirmation; the profile defaults to the username. */
  function AuthSignUp(s: State, req: SignUpRequest, encode: string -> string): Outcome<UserRec>
  {
    if LookupUsername(s, req.username).Some? then
      Outcome(Err(DuplicateUsername(DuplicateMessage(req.username))), s)
    else if req.password != req.passwordConfirmation then
      Outcome(Err(StatusFailure(BadRequest, PASSWORD_MISMATCH)), s)
    else
      var rec := NewUser(req.username, encode(req.password), req.username, req.username, "");
      Outcome(Ok(rec), AddUser(s, rec))
  }

  /** `UserService.getUser`: the id of the live user named `u`. */
  function GetUser(s: State, u: string): Result<Id>
  {
    match LookupUsername(s, u)
    case None => Err(StatusFailure(NotFound, UserNotFound(u)))
    case Some(i) => if s.users[i].deleted then Err(StatusFailure(NotFound, UserNotFound(u))) else Ok(i)
  }

  /** `UserService.getUserInfo`. */
  function GetUserInfo(s: State, u: string): Result<UserInfo>
  {
    match GetUser(s, u)
    case Err(f) => Err(f)
    case Ok(i) => Ok(UserInfoOf(s.users[i]))
  }

  /** `UserService.update`. */
  function UpdateUser(s: State, u: string, req: UserUpdateRequest): Outcome<UserInfo>
  {
    match GetUser(s, u)
    case Err(f) => Outcome(Err(f), s)
    case Ok(i) =>
      var rec := s.users[i].(name := req.name, blogName := req.blogName, greeting := req.greeting);
      Outcome(Ok(UserInfoOf(rec)), s.(users := s.users[i := rec]))
  }

  /** `UserService.delete`. */
  function DeleteUser(s: State, u: string): Outcome<()>
  {
    match GetUser(s, u)
    case Err(f) => Outcome(Err(f), s)
    case Ok(i) => Outcome(Ok(()), s.(users := s.users[i := s.users[i].(deleted := true)]))
  }

  /** `UserController.update`, called by the signed-in user named `caller`. */
  function ControllerUpdate(s: State, caller: string, u: string, req: UserUpdateRequest): Outcome<UserInfo>
  {
    if caller != u then Outcome(Err(StatusFailure(Forbidden, UPDATE_DENIED)), s)
    else UpdateUser(s, u, req)
  }

  /** `UserController.delete`, called by the signed-in user named `caller`. */
  function ControllerDelete(s: State, caller: string, u: string): Outcome<string>
  {
    if caller != u then Outcome(Err(StatusFailure(Forbidden, DELETE_DENIED)), s)
    else
      var o := DeleteUser(s, u);
      Outcome(if o.result.Ok? then Ok(USER_DELETED) else Err(o.result.failure), o.post)
  }

  // ----- Properties -----

  /** A mismatched confirmation fails BAD_REQUEST before the duplicate check, and nothing is saved. */
  lemma SignUpMismatch(s: State, req: SignUpRequest, encode: string -> string)
    requires req.password != req.passwordConfirmation
    ensures FailsWith(SignUp(s, req, encode).result, BadRequest)
    ensures SignUp(s, req, encode).post == s
  {
  }

  /**
   * A taken username fails with DuplicateUsername and nothing is saved; the check ignores
   * the deleted flag, so a soft-deleted user's name still blocks sign-up.
   */
  lemma SignUpDuplicate(s: State, req: SignUpRequest, encode: string -> string, i: Id)
    requires Valid(s)
    requires req.password == req.passwordConfirmation
    requires i in s.users && s.users[i].username == req.username
    ensures SignUp(s, req, encode).result == Err(DuplicateUsername(DuplicateMessage(req.username)))
    ensures SignUp(s, req, encode).post == s
  {
    LookupUsernameExact(s, req.username);
  }

  /** A successful sign-up adds exactly one user, with the request's fields and the encoded password. */
  lemma SignUpAdds(s: State, req: SignUpRequest, encode: string -> string)
    requires Valid(s)
    requires req.password == req.passwordConfirmation
    requires forall i :: i in s.users ==> s.users[i].username != req.username
    ensures var o := SignUp(s, req, encode);
      && o.result == Ok(UserInfo(req.username, req.name, req.blogName, req.greeting))
      && o.post.users == s.users[s.nextId := UserRec(req.username, encode(req.password), req.name,
                                                     req.blogName, req.greeting, ROLE_USER, false)]
      && s.nextId !in s.users
      && o.post == s.(users := o.post.users, nextId := s.nextId + 1)
      && Valid(o.post)
  {
    LookupUsernameExact(s, req.username);
  }

  /** Of two sign-ups with the same username, the second fails with DuplicateUsername. */
  lemma SignUpTwice(s: State, req: SignUpRequest, req2: SignUpRequest, encode: string -> string)
    requires Valid(s)
    requires SignUp(s, req, encode).result.Ok?
    requires req2.username == req.username && req2.password == req2.passwordConfirmation
    ensures var t := SignUp(s, req, encode).post;
      SignUp(t, req2, encode).result == Err(DuplicateUsername(DuplicateMessage(req.username)))
  {
    LookupUsernameExact(s, req.username);
    var t := SignUp(s, req, encode).post;
    assert Valid(t);
    SignUpDuplicate(t, req2, encode, s.nextId);
  }

  /** The two sign-up paths check their conditions in opposite orders. */
  lemma SignUpOrdersDiffer(s: State, req: SignUpRequest, encode: string -> string, i: Id)
    requires Valid(s)
    requires req.password != req.passwordConfirmation
    requires i in s.users && s.users[i].username == req.username
    ensures FailsWith(SignUp(s, req, encode).result, BadRequest)
    ensures AuthSignUp(s, req, encode).result == Err(DuplicateUsername(DuplicateMessage(req.username)))
  {
    LookupUsernameExact(s, req.username);
  }

  /**
   * `AuthService.signUp`: a taken username, even a soft-deleted user's, fails with
   * DuplicateUsername whatever the confirmation is, and nothing is saved.
   */
  lemma AuthSignUpDuplicate(s: State, req: SignUpRequest, encode: string -> string, i: Id)
    requires Valid(s)
    requires i in s.users && s.users[i].username == req.username
    ensures AuthSignUp(s, req, encode) == Outcome(Err(DuplicateUsername(DuplicateMessage(req.username))), s)
  {
    LookupUsernameExact(s, req.username);
  }

  /** `AuthService.signUp`: a mismatch on a free username fails BAD_REQUEST and saves nothing. */
  lemma AuthSignUpMismatch(s: State, req: SignUpRequest, encode: string -> string)
    requires Valid(s)
    requires req.password != req.passwordConfirmation
    requires forall i :: i in s.users ==> s.users[i].username != req.username
    ensures FailsWith(AuthSignUp(s, req, encode).result, BadRequest)
    ensures AuthSignUp(s, req, encode).post == s
  {
    LookupUsernameExact(s, req.username);
  }

  /**
   * `AuthService.signUp` on a free username with a matching confirmation stores and returns
   * one user whose name and blog name are the username and whose greeting is empty.
   */
  lemma AuthSignUpAdds(s: State, req: SignUpRequest, encode: string -> string)
    requires Valid(s)
    requires req.password == req.passwordConfirmation
    requires forall i :: i in s.users ==> s.users[i].username != req.username
    ensures var o := AuthSignUp(s, req, encode);
      && o.result.Ok?
      && o.result.value == UserRec(req.username, encode(req.password), req.username, req.username, "", ROLE_USER, false)
      && o.post.users == s.users[s.nextId := o.result.value]
      && s.nextId !in s.users
      && o.post == s.(users := o.post.users, nextId := s.nextId + 1)
      && Valid(o.post)
  {
    LookupUsernameExact(s, req.username);
  }

  /** The user lookup fails NOT_FOUND exactly when no live user has that name. */
  lemma GetUserExact(s: State, u: string)
    requires Valid(s)
    ensures GetUser(s, u).Err? <==> forall i :: i in s.users && s.users[i].username == u ==> s.users[i].deleted
    ensures GetUser(s, u).Err? ==> GetUser(s, u) == Err(StatusFailure(NotFound, UserNotFound(u)))
    ensures GetUser(s, u).Ok? ==>
      var i := GetUser(s, u).value; i in s.users && s.users[i].username == u && !s.users[i].deleted
  {
    LookupUsernameExact(s, u);
  }

  /** An update of a live user overwrites exactly name, blog name and greeting, and returns them. */
  lemma UpdateUserOverwrites(s: State, u: string, req: UserUpdateRequest, i: Id)
    requires Valid(s)
    requires i in s.users && s.users[i].username == u && !s.users[i].deleted
    ensures var o := UpdateUser(s, u, req);
      && o.result == Ok(UserInfo(u, req.name, req.blogName, req.greeting))
      && o.post == s.(users := s.users[i := s.users[i].(name := req.name, blogName := req.blogName,
                                                        greeting := req.greeting)])
      && o.post.users[i].password == s.users[i].password
      && Valid(o.post)
  {
    LookupUsernameExact(s, u);
  }

  /** Deleting a live user marks it deleted; from then on it is not found, and a second delete fails. */
  lemma DeleteUserOnce(s: State, u: string, i: Id, req: UserUpdateRequest)
    requires Valid(s)
    requires i in s.users && s.users[i].username == u && !s.users[i].deleted
    ensures var o := DeleteUser(s, u);
      && o.result == Ok(())
      && o.post == s.(users := s.users[i := s.users[i].(deleted := true)])
      && Valid(o.post)
      && FailsWith(DeleteUser(o.post, u).result, NotFound)
      && DeleteUser(o.post, u).post == o.post
      && FailsWith(GetUserInfo(o.post, u), NotFound)
      && FailsWith(UpdateUser(o.post, u, req).result, NotFound)
  {
    LookupUsernameExact(s, u);
    var t := DeleteUser(s, u).post;
    assert Valid(t);
    LookupUsernameExact(t, u);
  }

  /**
   * For users, ownership is decided before existence: a caller who is not the named user
   * gets FORBIDDEN with no change, even when no such user exists; a caller who is gets
   * exactly the outcome of the service.
   */
  lemma ControllerGuard(s: State, caller: string, u: string, req: UserUpdateRequest)
    ensures caller != u ==>
      && ControllerUpdate(s, caller, u, req) == Outcome(Err(StatusFailure(Forbidden, UPDATE_DENIED)), s)
      && ControllerDelete(s, caller, u) == Outcome(Err(StatusFailure(Forbidden, DELETE_DENIED)), s)
    ensures caller == u ==>
      && ControllerUpdate(s, caller, u, req) == UpdateUser(s, u, req)
      && ControllerDelete(s, caller, u).post == DeleteUser(s, u).post
      && (ControllerDelete(s, caller, u).result.Ok? <==> DeleteUser(s, u).result.Ok?)
      && (DeleteUser(s, u).result.Err? ==> ControllerDelete(s, caller, u).result == Err(DeleteUser(s, u).result.failure))
      && (DeleteUser(s, u).result.Ok? ==> ControllerDelete(s, caller, u).result == Ok(USER_DELETED))
  {
  }

  /** Every user operation keeps the stores valid. */
  lemma SignUpKeepsValid(s: State, req: SignUpRequest, encode: string -> string)
    requires Valid(s)
    ensures Valid(SignUp(s, req, encode).post)
    ensures Valid(AuthSignUp(s, req, encode).post)
  {
    LookupUsernameExact(s, req.username);
    if LookupUsername(s, req.username).None? && req.password == req.passwordConfirmation {
      SignUpAdds(s, req, encode);
      AuthSignUpAdds(s, req, encode);
    }
  }

  lemma UpdateUserKeepsValid(s: State, u: string, req: UserUpdateRequest)
    requires Valid(s)
    ensures Valid(UpdateUser(s, u, req).post)
    ensures Valid(DeleteUser(s, u).post)
  {
    match GetUser(s, u)
    case Err(_) =>
    case Ok(i) =>
      GetUserExact(s, u);
      UpdateUserOverwrites(s, u, req, i);
      DeleteUserOnce(s, u, i, req);
  }
}
