/**
  The Keycloak authentication backend: how a claim set from the identity
  provider becomes a local Django user.

  - `UpdateUser` (update_user) copies the name and email claims onto an
    existing user and, when the claims carry realm roles, recomputes the
    privilege flags from them.
  - `CreateUser` (create_user) creates a user from the claims and then runs
    `UpdateUser` on it.
  - `FilterUsersByClaims` (filter_users_by_claims) finds the local users a
    claim set refers to, by exact username.

  `Updated` and `Created` say, as functions on records, what the two
  methods leave behind; the methods are proved to do exactly that.
 */
module KeycloakBackend {
  import opened Claims
  import opened Privileges
  import opened Users

  /** The record update_user leaves, given the record it started from. */
  function Updated(rec: UserRecord, claims: ClaimSet): (r: UserRecord)
    ensures r.username == rec.username
    ensures r.firstName == if GivenName in claims then claims[GivenName].text else rec.firstName
    ensures r.lastName == if FamilyName in claims then claims[FamilyName].text else rec.lastName
    ensures r.email == if Email in claims then claims[Email].text else rec.email
    ensures RealmRoles(claims).None? ==> r.isStaff == rec.isStaff && r.isSuperuser == rec.isSuperuser
    ensures RealmRoles(claims).Some? ==>
              var roles := RealmRoles(claims).value;
              && (r.isSuperuser <==> AppAdmin in roles)
              && (r.isStaff <==> AppAdmin in roles || AppView in roles)
  {
    var flags :=
      match RealmRoles(claims)
      case None => Flags(rec.isStaff, rec.isSuperuser)
      case Some(roles) => Grant(roles);
    rec.(firstName := TextOr(claims, GivenName, rec.firstName),
         lastName := TextOr(claims, FamilyName, rec.lastName),
         email := TextOr(claims, Email, rec.email),
         isStaff := flags.isStaff,
         isSuperuser := flags.isSuperuser)
  }

  /**
    The record create_user leaves: the profile taken from the claims ('' for
    a missing claim), then update_user. Without realm roles the flags stay
    what the user model gives a new user (`libraryFlags`).
   */
  function Created(claims: ClaimSet, libraryFlags: Flags): (r: UserRecord)
    ensures r.username == if PreferredUsername in claims then claims[PreferredUsername].text else ""
    ensures r.firstName == if GivenName in claims then claims[GivenName].text else ""
    ensures r.lastName == if FamilyName in claims then claims[FamilyName].text else ""
    ensures r.email == if Email in claims then claims[Email].text else ""
    ensures RealmRoles(claims).None? ==>
              r.isStaff == libraryFlags.isStaff && r.isSuperuser == libraryFlags.isSuperuser
    ensures RealmRoles(claims).Some? ==> Flags(r.isStaff, r.isSuperuser) == Grant(RealmRoles(claims).value)
  {
    var initial := UserRecord(
      TextOr(claims, PreferredUsername, ""),
      TextOr(claims, Email, ""),
      TextOr(claims, GivenName, ""),
      TextOr(claims, FamilyName, ""),
      libraryFlags.isStaff,
      libraryFlags.isSuperuser);
    Updated(initial, claims)
  }

  /**
    update_user: overwrite the profile from the claims, keeping a field whose
    claim is missing; when realm_access.roles is present, reset both flags and
    grant them from the roles. Returns the same user.
   */
  method UpdateUser(user: User, claims: ClaimSet) returns (same: User)
    modifies user
    ensures same == user
    ensures user.Record() == Updated(old(user.Record()), claims)
  {
    user.firstName := TextOr(claims, GivenName, user.firstName);
    user.lastName := TextOr(claims, FamilyName, user.lastName);
    user.email := TextOr(claims, Email, user.email);

    if RealmAccess in claims && Roles in claims[RealmAccess].entries {
      var roles := claims[RealmAccess].entries[Roles];

      // Reset first, so that no earlier grant survives.
      user.isStaff := false;
      user.isSuperuser := false;

      if AppAdmin in roles {
        user.isStaff := true;
        user.isSuperuser := true;
      } else if AppView in roles {
        user.isStaff := true;
        user.isSuperuser := false;
      }
    }
    // user.save(): the store holds this very object, so there is nothing more to write.
    same := user;
  }

  /**
    create_user: create a user in the store from the claims ('' for a missing
    claim), then run update_user on it.
   */
  method CreateUser(store: UserStore, claims: ClaimSet, libraryFlags: Flags) returns (user: User)
    modifies store
    ensures fresh(user)
    ensures store.users == old(store.users) + [user]
    ensures user.Record() == Created(claims, libraryFlags)
    ensures user in FilterUsersByClaims(store.users, claims) <==> user.username != ""
  {
    var username := TextOr(claims, PreferredUsername, "");
    var email := TextOr(claims, Email, "");
    var firstName := TextOr(claims, GivenName, "");
    var lastName := TextOr(claims, FamilyName, "");

    user := store.CreateUser(username, email, firstName, lastName, libraryFlags);
    user := UpdateUser(user, claims);
    assert store.users[|store.users| - 1] == user;
  }

  /**
    filter_users_by_claims: no user when preferred_username is missing or
    empty; otherwise exactly the stored users with that username.
   */
  function FilterUsersByClaims(users: seq<User>, claims: ClaimSet): (r: seq<User>)
    reads users
    ensures PreferredUsername !in claims || claims[PreferredUsername].text == "" ==> r == []
    ensures PreferredUsername in claims && claims[PreferredUsername].text != "" ==>
              && (forall i :: 0 <= i < |r| ==> r[i] in users && r[i].username == claims[PreferredUsername].text)
              && (forall i :: 0 <= i < |users| && users[i].username == claims[PreferredUsername].text ==> users[i] in r)
    ensures multiset(r) <= multiset(users)
  {
    if PreferredUsername !in claims then []
    else
      var username := claims[PreferredUsername].text;
      if username == "" then [] else UsersNamed(users, username)
  }

  /** update_user is idempotent: a second run with the same claims changes nothing. */
  lemma UpdateIdempotent(rec: UserRecord, claims: ClaimSet)
    ensures Updated(Updated(rec, claims), claims) == Updated(rec, claims)
  {
  }

  /**
    update_user keeps the invariant that a superuser is also staff; when the
    claims carry roles it establishes it whatever the flags were before.
   */
  lemma UpdateKeepsSuperuserStaff(rec: UserRecord, claims: ClaimSet)
    requires RealmRoles(claims).Some? || (rec.isSuperuser ==> rec.isStaff)
    ensures Updated(rec, claims).isSuperuser ==> Updated(rec, claims).isStaff
  {
  }

  /** The record after a sequence of logins, each running update_user with its claims. */
  function AfterLogins(rec: UserRecord, logins: seq<ClaimSet>): UserRecord
    decreases |logins|
  {
    if logins == [] then rec
    else Updated(AfterLogins(rec, logins[..|logins| - 1]), logins[|logins| - 1])
  }

  /** The role list of the latest login whose claims carry realm roles, if any. */
  function LatestRoles(logins: seq<ClaimSet>): Option<seq<string>>
    decreases |logins|
  {
    if logins == [] then None
    else if RealmRoles(logins[|logins| - 1]).Some? then RealmRoles(logins[|logins| - 1])
    else LatestRoles(logins[..|logins| - 1])
  }

  /** The text of the latest login whose claims carry `key`, or `fallback` if none does. */
  function LatestText(logins: seq<ClaimSet>, key: string, fallback: string): string
    requires IsTextClaim(key)
    decreases |logins|
  {
    if logins == [] then fallback
    else if key in logins[|logins| - 1] then logins[|logins| - 1][key].text
    else LatestText(logins[..|logins| - 1], key, fallback)
  }

  /**
    Across successive logins, the privilege flags are those granted by the
    latest roles-bearing claim set (earlier grants never survive it), and are
    the original flags when no login carried roles; each profile field is the
    latest value its claim had; the username never changes.
   */
  lemma {:induction false} AfterLoginsSettles(rec: UserRecord, logins: seq<ClaimSet>)
    ensures AfterLogins(rec, logins).username == rec.username
    ensures AfterLogins(rec, logins).firstName == LatestText(logins, GivenName, rec.firstName)
    ensures AfterLogins(rec, logins).lastName == LatestText(logins, FamilyName, rec.lastName)
    ensures AfterLogins(rec, logins).email == LatestText(logins, Email, rec.email)
    ensures LatestRoles(logins).None? ==>
              AfterLogins(rec, logins).isStaff == rec.isStaff &&
              AfterLogins(rec, logins).isSuperuser == rec.isSuperuser
    ensures LatestRoles(logins).Some? ==>
              Flags(AfterLogins(rec, logins).isStaff, AfterLogins(rec, logins).isSuperuser)
                == Grant(LatestRoles(logins).value)
  {
    if logins != [] {
      AfterLoginsSettles(rec, logins[..|logins| - 1]);
    }
  }
}
