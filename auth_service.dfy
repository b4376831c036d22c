/**
 * `AuthService.signUp`: the sign-up the authentication endpoint uses.
 *
 * It checks uniqueness before the confirmation, and fills the profile from the username.
 */
module AuthService {
  import opened Errors
  import opened Dto
  import opened BlogState
  import opened UserEntity
  import opened Store
  import UserRules

  /** `signUp`: returns the saved user entity. */
  method SignUp(blog: Blog, req: SignUpRequest) returns (r: Result<User>)
    requires blog.Sound()
    modifies blog
    ensures blog.Sound()
    ensures var o := UserRules.AuthSignUp(old(blog.State()), req, blog.encode);
      && blog.State() == o.post
      && (r.Ok? <==> o.result.Ok?)
      && (r.Ok? ==> fresh(r.value) && r.value.Rec() == o.result.value)
      && (r.Ok? ==> old(blog.nextId) in blog.users && blog.users[old(blog.nextId)] == r.value)
      && (r.Err? ==> r.failure == o.result.failure)
  {
    var username := req.username;
    if LookupUsername(blog.State(), username).Some? {
      return Err(DuplicateUsername(UserRules.DuplicateMessage(username)));
    }
    if req.password != req.passwordConfirmation {
      return Err(StatusFailure(BadRequest, UserRules.PASSWORD_MISMATCH));
    }
    var user := new User(username, blog.encode(req.password), username, username, "");
    var _ := blog.SaveUser(user);
    r := Ok(user);
  }
}
