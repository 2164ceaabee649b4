/**
  Django's user, as far as the authentication backend touches it, and the
  user manager (`User.objects`) modelled as an in-memory store.

  The store holds the user objects themselves, so a change made to a user is
  what a later query sees; `save()` has nothing left to write.
 */
module Users {
  import opened Privileges

  /** The fields of a user the backend reads or writes, as one value. */
  datatype UserRecord = UserRecord(
    username: string,
    email: string,
    firstName: string,
    lastName: string,
    isStaff: bool,
    isSuperuser: bool)

  /** A Django user; the backend assigns its fields in place. */
  class User {
    var username: string
    var email: string
    var firstName: string
    var lastName: string
    var isStaff: bool
    var isSuperuser: bool

    /**
      A new user with the given profile. Its privilege flags are whatever
      the user model gives a new user; they are passed in as `libraryFlags`.
     */
    constructor (username: string, email: string, firstName: string, lastName: string, libraryFlags: Flags)
      ensures Record() == UserRecord(username, email, firstName, lastName,
                                     libraryFlags.isStaff, libraryFlags.isSuperuser)
    {
      this.username := username;
      this.email := email;
      this.firstName := firstName;
      this.lastName := lastName;
      this.isStaff := libraryFlags.isStaff;
      this.isSuperuser := libraryFlags.isSuperuser;
    }

    /** The current field values. */
    function Record(): UserRecord
      reads this
    {
      UserRecord(username, email, firstName, lastName, isStaff, isSuperuser)
    }
  }

  /**
    `User.objects.filter(username=name)`: the stored users whose username is
    exactly `name`, in store order.
   */
  function UsersNamed(users: seq<User>, name: string): (r: seq<User>)
    reads users
    ensures forall i :: 0 <= i < |r| ==> r[i] in users && r[i].username == name
    ensures forall i :: 0 <= i < |users| && users[i].username == name ==> users[i] in r
    ensures multiset(r) <= multiset(users)
  {
    if users == [] then []
    else
      assert users == [users[0]] + users[1..];
      if users[0].username == name then [users[0]] + UsersNamed(users[1..], name)
      else UsersNamed(users[1..], name)
  }

  /** The user manager: every user created so far. */
  class UserStore {
    var users: seq<User>

    constructor ()
      ensures users == []
    {
      users := [];
    }

    /** `User.objects.create_user`: a new user, added to the store. */
    method CreateUser(username: string, email: string, firstName: string, lastName: string,
                      libraryFlags: Flags) returns (user: User)
      modifies this
      ensures fresh(user)
      ensures users == old(users) + [user]
      ensures user.Record() == UserRecord(username, email, firstName, lastName,
                                          libraryFlags.isStaff, libraryFlags.isSuperuser)
    {
      user := new User(username, email, firstName, lastName, libraryFlags);
      users := users + [user];
    }
  }
}
