// The records the identity services exchange (internal/proto) and the user the
// OIDC server issues tokens for.

module Identity {
  import opened Claims

  datatype Option<+T> = None | Some(value: T)

  datatype Result<+T> = Ok(value: T) | Err

  // Any status string outside the six ranked ones has rank 0 in the merger.
  datatype Status =
    | Undefined
    | UserNotFound
    | PasswordMissing
    | PasswordUnchecked
    | PasswordChecked
    | PasswordFail
    | Disabled
    | OtherStatus(name: string)

  datatype User = User(login: string, uid: Option<int>, name: string, emails: seq<string>,
                       groups: seq<string>, claims: ClaimMap)

  function InitUser(login: string): User {
    User(login, None, "", [], [], map[])
  }

  datatype OidcUser = OidcUser(login: string, claims: ClaimMap, fullName: string)

  // Claims as they come back from the JSON-encoded session.
  function JsonMap(m: ClaimMap): ClaimMap {
    map k | k in m :: Json(m[k])
  }

  function StringClaim(m: ClaimMap, k: string): string {
    if k in m && m[k].Str? then m[k].s else ""
  }
}
