/**
 * `UserController`'s update and delete endpoints: only the signed-in user may change or
 * delete its own account. The signed-in user is the principal's `JpaUserDetails`.
 */
module UserController {
  import opened Errors
  import opened Dto
  import opened BlogState
  import opened Store
  import opened UserDetails
  import UserRules
  import UserService

  /** `PUT /users/{username}`. */
  method Update(blog: Blog, principal: JpaUserDetails, username: string, req: UserUpdateRequest)
    returns (r: Result<UserInfo>)
    requires blog.Sound()
    modifies blog.users.Values
    ensures blog.Sound()
    ensures Outcome(r, blog.State()) == UserRules.ControllerUpdate(old(blog.State()), principal.Username(), username, req)
  {
    if principal.Username() != username {
      return Err(StatusFailure(Forbidden, UserRules.UPDATE_DENIED));
    }
    r := UserService.Update(blog, username, req);
  }

  /** `DELETE /users/{username}`: answers with a confirmation message. */
  method Delete(blog: Blog, principal: JpaUserDetails, username: string) returns (r: Result<string>)
    requires blog.Sound()
    modifies blog.users.Values
    ensures blog.Sound()
    ensures Outcome(r, blog.State()) == UserRules.ControllerDelete(old(blog.State()), principal.Username(), username)
  {
    if principal.Username() != username {
      return Err(StatusFailure(Forbidden, UserRules.DELETE_DENIED));
    }
    var deleted := UserService.Delete(blog, username);
    match deleted
    case Err(f) => r := Err(f);
    case Ok(_) => r := Ok(UserRules.USER_DELETED);
  }
}
