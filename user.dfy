/** The `User` entity: a profile updated in place, soft-deleted, never hard-deleted. */
module UserEntity {
  import opened Records

  class User {
    // The username has no mutator after construction, and neither has the authority.
    const username: string
    var password: string
    var name: string
    var blogName: string
    var greeting: string
    const authority: string
    var deleted: bool

    /** The value this object holds. */
    function Rec(): UserRec
      reads this
    {
      UserRec(username, password, name, blogName, greeting, authority, deleted)
    }

    constructor (username: string, password: string, name: string, blogName: string, greeting: string)
      ensures Rec() == NewUser(username, password, name, blogName, greeting)
    {
      this.username := username;
      this.password := password;
      this.name := name;
      this.blogName := blogName;
      this.greeting := greeting;
      this.authority := ROLE_USER;
      this.deleted := false;
    }

    /** Replaces the stored password by its encoding. */
    method EncodePassword(encode: string -> string)
      modifies this
      ensures Rec() == old(Rec()).(password := encode(old(password)))
    {
      password := encode(password);
    }

    method Update(name: string, blogName: string, greeting: string)
      modifies this
      ensures Rec() == old(Rec()).(name := name, blogName := blogName, greeting := greeting)
    {
      this.name := name;
      this.blogName := blogName;
      this.greeting := greeting;
    }

    method Delete()
      modifies this
      ensures Rec() == old(Rec()).(deleted := true)
    {
      deleted := true;
    }
  }
}
