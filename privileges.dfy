/**
  How the backend maps Keycloak realm roles to Django's two privilege flags,
  `is_staff` and `is_superuser`.

  `Grant` is the mapping as the backend writes it: reset both flags, then
  `app-admin` grants both, otherwise `app-view` grants staff only. A second,
  independent definition ranks every role by the privilege it confers and
  takes the highest rank over the list; `GrantIsHighestLevel` proves the two
  agree, which is the precise sense in which `app-admin` takes precedence.
 */
module Privileges {

  // Keycloak client roles the backend recognises.
  const AppAdmin: string := "app-admin"
  const AppView: string := "app-view"

  /** Django's privilege flags on a user. */
  datatype Flags = Flags(isStaff: bool, isSuperuser: bool)

  /** The flags the roles branch of update_user leaves on a user. */
  function Grant(roles: seq<string>): (f: Flags)
    ensures f.isSuperuser <==> AppAdmin in roles
    ensures f.isStaff <==> AppAdmin in roles || AppView in roles
    ensures f.isSuperuser ==> f.isStaff
  {
    if AppAdmin in roles then Flags(true, true)
    else if AppView in roles then Flags(true, false)
    else Flags(false, false)
  }

  /** The privilege one role confers: 2 for app-admin, 1 for app-view, 0 otherwise. */
  function RoleLevel(role: string): nat {
    if role == AppAdmin then 2 else if role == AppView then 1 else 0
  }

  /** The highest privilege any role of the list confers (0 for no roles). */
  function HighestLevel(roles: seq<string>): nat {
    if roles == [] then 0
    else
      var rest := HighestLevel(roles[1..]);
      if RoleLevel(roles[0]) > rest then RoleLevel(roles[0]) else rest
  }

  /** The flags that belong to a privilege level. */
  function FlagsAt(level: nat): Flags {
    Flags(level >= 1, level >= 2)
  }

  /** The highest level reaches 2 exactly when app-admin is held, and 1 when app-view or app-admin is. */
  lemma {:induction false} HighestLevelMeaning(roles: seq<string>)
    ensures HighestLevel(roles) <= 2
    ensures HighestLevel(roles) >= 2 <==> AppAdmin in roles
    ensures HighestLevel(roles) >= 1 <==> AppAdmin in roles || AppView in roles
  {
    if roles != [] {
      HighestLevelMeaning(roles[1..]);
      assert roles == [roles[0]] + roles[1..];
    }
  }

  /** The backend's if/elif mapping is the highest-privilege-wins mapping. */
  lemma {:induction false} GrantIsHighestLevel(roles: seq<string>)
    ensures Grant(roles) == FlagsAt(HighestLevel(roles))
  {
    HighestLevelMeaning(roles);
  }
}
