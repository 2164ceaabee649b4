# Keycloak sign-on bridge of the college ERP

This project models the identity-provider bridge of the college ERP web
application in Dafny and proves what it does. The bridge is the Keycloak
authentication backend. It turns the claims of an OpenID Connect login into a
local Django user. It has three operations:

- **update_user** copies the `given_name`, `family_name` and `email` claims
  onto an existing user. A field whose claim is missing keeps its value. When
  the claims carry Keycloak's `realm_access.roles`, it resets `is_staff` and
  `is_superuser` and grants them again from the roles: `app-admin` grants
  both, otherwise `app-view` grants staff only.
- **create_user** creates a user whose username, names and email come from the
  claims, with `''` for a missing claim, and then runs update_user on it.
- **filter_users_by_claims** finds the local users with the username in
  `preferred_username`, and finds none when that claim is missing or empty.

The claim names are the standard claims of section 5.1 of OpenID Connect
Core 1.0, plus Keycloak's `realm_access.roles`.

Files:

- `claims.dfy` (module `Claims`): the claim set, and the two ways the backend
  reads it (a string claim with a fallback, and the realm role list).
- `privileges.dfy` (module `Privileges`): the role-to-flags mapping `Grant`,
  and an independent highest-privilege-wins definition proved equal to it.
- `users.dfy` (module `Users`): the user as a class with mutable fields, its
  value snapshot `UserRecord`, and the user manager as an in-memory store.
- `keycloak_backend.dfy` (module `KeycloakBackend`): the three operations.
  `Updated` and `Created` are functions on records that state what the
  methods leave behind. `UpdateUser` and `CreateUser` are imperative methods
  that assign the user's fields step by step, as the source does, and are
  proved to produce exactly those records. The file also holds the lemmas
  about repeated logins.

The privilege flags are recomputed only when the claims hold `realm_access`
with a `roles` entry; otherwise they are left as they were (`Updated`,
`AfterLoginsSettles`).

## Model

| member | source | states |
|---|---|---|
| Privileges.Grant | CollegeERP/auth.py:46-58 | after the roles branch, `is_superuser` holds exactly when `app-admin` is among the roles, and `is_staff` exactly when `app-admin` or `app-view` is. So `app-admin` wins over `app-view`, and a list with neither role leaves both flags false. A superuser is always staff. |
| Privileges.HighestLevelMeaning | CollegeERP/auth.py:51-58 | ranking `app-admin` 2, `app-view` 1 and other roles 0, the highest rank of a role list is 2 exactly when it holds `app-admin`, and at least 1 exactly when it holds `app-admin` or `app-view`. |
| Privileges.GrantIsHighestLevel | CollegeERP/auth.py:46-58 | the reset-then-if/elif mapping equals the highest-privilege-wins mapping over the role list. |
| Users.UsersNamed | CollegeERP/auth.py:70 | the username query returns only stored users whose username equals the name, and every stored user whose username equals it. No user appears more often in the result than in the store. |
| Users.UserStore.CreateUser | CollegeERP/auth.py:21-26 | the user manager adds one fresh user at the end of the store. The new user has the given username, email and names, and the user model's default flags. |
| KeycloakBackend.Updated | CollegeERP/auth.py:36-58 | after update_user the username is unchanged. `first_name`, `last_name` and `email` take the `given_name`, `family_name` and `email` claims when present and keep their old values otherwise. Without `realm_access.roles` both flags are unchanged. With it, `is_superuser` holds exactly when `app-admin` is in the roles, and `is_staff` exactly when `app-admin` or `app-view` is, whatever the flags were before. |
| KeycloakBackend.Created | CollegeERP/auth.py:15-29 | create_user's user has username `preferred_username`, and names and email from their claims, with `''` for each missing claim. Its flags are granted from the roles when `realm_access.roles` is present, and are the user model's defaults otherwise. |
| KeycloakBackend.UpdateUser | CollegeERP/auth.py:32-61 | the in-place assignments leave the user's record equal to `Updated` of its old record. The method returns the same user. |
| KeycloakBackend.CreateUser | CollegeERP/auth.py:10-30 | one fresh user is appended to the store, and its record is `Created` of the claims. A later filter by the same claims finds that user exactly when its username is non-empty. |
| KeycloakBackend.FilterUsersByClaims | CollegeERP/auth.py:63-72 | with `preferred_username` missing or empty the result is empty. Otherwise it holds only stored users with exactly that username, and every stored user with that username. No user appears more often in the result than in the store. |
| KeycloakBackend.UpdateIdempotent | CollegeERP/auth.py:32-61 | running update_user twice with the same claims gives the same record as running it once. |
| KeycloakBackend.UpdateKeepsSuperuserStaff | CollegeERP/auth.py:42-58 | after update_user, a superuser is staff. This holds whenever the claims carry roles, and otherwise whenever it held before. |
| KeycloakBackend.AfterLoginsSettles | CollegeERP/auth.py:32-61 | after any sequence of logins, each running update_user, the flags are those granted by the latest login whose claims carry roles, and are the original flags if no login carried roles. Each profile field holds the latest value its claim had, and the username never changes. |

## Left out

- `verify_claims` (CollegeERP/auth.py:74-82) only calls the OpenID Connect library's own check. That library code is not part of this model.
- The OpenID Connect handshake, token validation and the library flow that picks between create_user and update_user after filter_users_by_claims are library code and are not modelled.
- `logger.info` calls write to the log only and are not modelled.
- `user.save()` and the database are not modelled as such. The store holds the user objects themselves, so a change made by update_user is what later queries see.
- The flags a newly created user gets from the user model are library defaults. `CreateUser` and `Created` take them as the parameter `libraryFlags` and assert nothing about them.
- Any validation or normalisation done by the user manager's `create_user` is not part of this model. The library may refuse an empty username, and it NFKC-normalises the username. The model stores `preferred_username` verbatim, so `CreateUser`'s promise that a later filter by the same claims finds the new user rests on that choice.
- Claims whose values have another JSON shape than the model's are not modelled. This means a standard claim that is not a string, a `realm_access` that is not an object, or a `roles` entry that is not a list of strings (a string, where the role test would be a substring test, or `null`, where it would raise an error). The type `Claims.ClaimSet` excludes them. Section 5.1 of OpenID Connect Core 1.0 defines these claims as strings.
