/**
  The claim set an OpenID Connect provider (here Keycloak) hands to the
  authentication backend after a successful login.

  Claims arrive as a JSON object. The model keeps the two shapes of value the
  backend reads: a JSON string (the standard claims of section 5.1 of
  OpenID Connect Core 1.0) and a nested JSON object whose entries are lists of
  strings (Keycloak's `realm_access`, holding `roles`).
 */
module Claims {

  /** One claim value: a JSON string, or a JSON object of string lists. */
  datatype ClaimValue =
    | Text(text: string)
    | Nested(entries: map<string, seq<string>>)

  // Claim names of section 5.1 of OpenID Connect Core 1.0.
  const PreferredUsername: string := "preferred_username"
  const Email: string := "email"
  const GivenName: string := "given_name"
  const FamilyName: string := "family_name"

  // Keycloak's realm-role claim: realm_access.roles.
  const RealmAccess: string := "realm_access"
  const Roles: string := "roles"

  /** The standard claims are JSON strings and realm_access is a JSON object. */
  predicate WellTyped(claims: map<string, ClaimValue>) {
    && (PreferredUsername in claims ==> claims[PreferredUsername].Text?)
    && (Email in claims ==> claims[Email].Text?)
    && (GivenName in claims ==> claims[GivenName].Text?)
    && (FamilyName in claims ==> claims[FamilyName].Text?)
    && (RealmAccess in claims ==> claims[RealmAccess].Nested?)
  }

  /** A claim set as the provider issues it. */
  type ClaimSet = claims: map<string, ClaimValue> | WellTyped(claims) witness map[]

  /** The standard claims, the ones read as text. */
  predicate IsTextClaim(key: string) {
    key == PreferredUsername || key == Email || key == GivenName || key == FamilyName
  }

  /**
    `claims.get(key, fallback)` for a string claim: the claim's text when the
    claim is present, the fallback otherwise.
   */
  function TextOr(claims: ClaimSet, key: string, fallback: string): string
    requires IsTextClaim(key)
  {
    if key in claims then claims[key].text else fallback
  }

  /**
    The role list `claims['realm_access']['roles']`, present exactly when
    `realm_access` is in the claims and has a `roles` entry.
   */
  function RealmRoles(claims: ClaimSet): Option<seq<string>>
  {
    if RealmAccess in claims && Roles in claims[RealmAccess].entries
    then Some(claims[RealmAccess].entries[Roles])
    else None
  }

  datatype Option<+T> = None | Some(value: T)
}
