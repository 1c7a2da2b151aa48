/** Resolving the signed-in identity to a user document, as the handlers'
    `getCurrentUser` / `getOptionalUser` helpers do through the `by_token`
    index. */
module Auth {
  import opened Base
  import opened Schema

  /** `.withIndex("by_token", ...).first()`: the earliest user carrying `token`. */
  function FindByToken(users: seq<User>, token: string): (r: Option<UserId>)
    ensures r.Some? ==> r.value < |users| && users[r.value].tokenIdentifier == Some(token)
    ensures r.Some? ==> forall j :: 0 <= j < r.value ==> users[j].tokenIdentifier != Some(token)
    ensures r.None? <==> forall j :: 0 <= j < |users| ==> users[j].tokenIdentifier != Some(token)
  {
    FirstWhere(users, (x: User) => x.tokenIdentifier == Some(token))
  }

  /** The throwing helper of listings.ts and messages.ts. */
  function CurrentUser(users: seq<User>, identity: Option<Identity>): (r: Result<UserId>)
    ensures r == Err(NotAuthenticated) <==> identity.None?
    ensures r == Err(UserNotFound) <==>
      identity.Some? && FindByToken(users, identity.value.tokenIdentifier).None?
    ensures r.Err? ==> r.error == NotAuthenticated || r.error == UserNotFound
    ensures r.Ok? ==>
      r.value < |users| && users[r.value].tokenIdentifier == Some(identity.value.tokenIdentifier)
  {
    match identity
    case None => Err(NotAuthenticated)
    case Some(id) =>
      match FindByToken(users, id.tokenIdentifier)
      case None => Err(UserNotFound)
      case Some(u) => Ok(u)
  }

  /** The non-throwing helper (`getOptionalUser` in messages.ts,
      `getCurrentUser` in users.ts): no user instead of an error. */
  function SignedIn(users: seq<User>, identity: Option<Identity>): (r: Option<UserId>)
    ensures r.Some? <==> CurrentUser(users, identity).Ok?
    ensures r.Some? ==> r.value == CurrentUser(users, identity).value
    ensures r.Some? ==>
      r.value < |users| && users[r.value].tokenIdentifier == Some(identity.value.tokenIdentifier)
  {
    if identity.None? then None else FindByToken(users, identity.value.tokenIdentifier)
  }
}
