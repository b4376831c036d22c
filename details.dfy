/**
 * `JpaUserDetails`: the view of a stored user that the authentication layer consults.
 *
 * A soft-deleted user stays in the store; this view is what turns the flag into a
 * disabled, expired account.
 */
module UserDetails {
  import opened Records
  import opened Errors
  import opened Dto
  import opened BlogState
  import opened UserRules

  datatype JpaUserDetails = JpaUserDetails(user: UserRec)
  {
    /** One granted authority: the user's own. */
    function Authorities(): seq<string>
    {
      [user.authority]
    }

    function Password(): string
    {
      user.password
    }

    function Username(): string
    {
      user.username
    }

    function IsAccountNonExpired(): bool
    {
      !user.deleted
    }

    function IsAccountNonLocked(): bool
    {
      true
    }

    function IsCredentialsNonExpired(): bool
    {
      true
    }

    function IsEnabled(): bool
    {
      !user.deleted
    }
  }

  /**
   * On a valid state, the details of a stored user say "enabled" exactly when the service
   * layer finds that user by name, and "expired" exactly when it does not.
   */
  lemma EnabledIffFound(s: State, i: Id)
    requires Valid(s)
    requires i in s.users
    ensures var d := JpaUserDetails(s.users[i]);
      && (d.IsEnabled() <==> GetUser(s, d.Username()) == Ok(i))
      && (d.IsAccountNonExpired() <==> d.IsEnabled())
  {
    GetUserExact(s, s.users[i].username);
  }

  /**
   * A user created by sign-up is enabled, unexpired, unlocked, holds only `ROLE_USER` and
   * signs in with the encoded password.
   */
  lemma SignedUpDetails(s: State, req: SignUpRequest, encode: string -> string)
    requires AuthSignUp(s, req, encode).result.Ok?
    ensures var d := JpaUserDetails(AuthSignUp(s, req, encode).result.value);
      && d.Username() == req.username
      && d.Password() == encode(req.password)
      && d.Authorities() == [ROLE_USER]
      && d.IsEnabled() && d.IsAccountNonExpired() && d.IsAccountNonLocked() && d.IsCredentialsNonExpired()
  {
  }

  /**
   * Deleting a live user disables and expires its account but neither locks it nor touches
   * its password or authority.
   */
  lemma DeletedDetails(s: State, i: Id)
    requires Valid(s)
    requires i in s.users && !s.users[i].deleted
    ensures var d := JpaUserDetails(DeleteUser(s, s.users[i].username).post.users[i]);
      && !d.IsEnabled() && !d.IsAccountNonExpired()
      && d.IsAccountNonLocked() && d.IsCredentialsNonExpired()
      && d.Username() == s.users[i].username
      && d.Password() == s.users[i].password
      && d.Authorities() == [s.users[i].authority]
  {
    DeleteUserOnce(s, s.users[i].username, i, UserUpdateRequest("", "", ""));
  }
}
