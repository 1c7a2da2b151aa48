/** The profile handlers of convex/users.ts. Here a missing identity is
    not always an error: `getMe` answers with no user instead. */
module Users {
  import opened Base
  import opened Schema
  import opened Auth
  import opened Store
  import opened Feed
  import opened Listings

  const DefaultName := "Anonymous"

  /** `getMe`: the signed-in user's record, if there is one. */
  function GetMe(users: seq<User>, identity: Option<Identity>): (r: Option<User>)
    ensures identity.None? ==> r.None?
    ensures r.Some? <==> SignedIn(users, identity).Some?
    ensures r.Some? ==> r.value == users[SignedIn(users, identity).value]
    ensures r.Some? ==> r.value.tokenIdentifier == Some(identity.value.tokenIdentifier)
  {
    match SignedIn(users, identity)
    case None => None
    case Some(u) => Some(users[u])
  }

  /** A fresh user record: role "user", neither banned nor premium. */
  function NewUser(token: string, name: string, email: Option<string>, avatarUrl: Option<string>, now: int): (r: User)
    ensures r.tokenIdentifier == Some(token) && r.name == name && r.email == email && r.avatarUrl == avatarUrl
    ensures r.bio.None? && r.area.None?
    ensures r.role == UserRole && !r.isBanned && !r.isPremium && r.createdAt == now
  {
    User(Some(token), name, email, avatarUrl, None, None, UserRole, false, false, now)
  }

  /** `identity.name ?? "Anonymous"`: only a missing name is replaced. */
  function NameOrDefault(name: Option<string>): (r: string)
    ensures name.Some? ==> r == name.value
    ensures name.None? ==> r == DefaultName
  {
    if name.Some? then name.value else DefaultName
  }

  /** Appending a user never changes which record an already known token resolves to. */
  lemma AppendKeepsSignIn(users: seq<User>, x: User, t: string)
    ensures FindByToken(users, t).Some? ==> FindByToken(users + [x], t) == FindByToken(users, t)
    ensures FindByToken(users, t).None? && x.tokenIdentifier == Some(t) ==> FindByToken(users + [x], t) == Some(|users|)
  {
    assert forall j :: 0 <= j < |users| ==> (users + [x])[j] == users[j];
    assert (users + [x])[|users|] == x;
  }

  method GetOrCreate(db: Db, identity: Option<Identity>, now: int) returns (r: Result<UserId>)
    modifies db`users
    ensures identity.None? ==> r == Err(NotAuthenticated) && db.users == old(db.users)
    ensures identity.Some? ==>
      var id := identity.value;
      match FindByToken(old(db.users), id.tokenIdentifier)
      case Some(k) => r == Ok(k) && db.users == old(db.users)
      case None =>
        r == Ok(|old(db.users)|)
        && db.users == old(db.users) + [NewUser(id.tokenIdentifier, NameOrDefault(id.name), id.email, id.pictureUrl, now)]
    // Whoever calls again gets the same record.
    ensures r.Ok? ==> FindByToken(db.users, identity.value.tokenIdentifier) == Some(r.value)
  {
    if identity.None? {
      return Err(NotAuthenticated);
    }
    var id := identity.value;
    var existing := FindByToken(db.users, id.tokenIdentifier);
    if existing.Some? {
      return Ok(existing.value);
    }
    var user := NewUser(id.tokenIdentifier, NameOrDefault(id.name), id.email, id.pictureUrl, now);
    AppendKeepsSignIn(db.users, user, id.tokenIdentifier);
    r := Ok(|db.users|);
    db.users := db.users + [user];
  }

  /** `createOrUpdate`'s patch. An omitted email or avatar is written as
      `undefined`, which the platform's patch treats as removing the field. */
  function Profiled(u: User, name: string, email: Option<string>, avatarUrl: Option<string>): (r: User)
    ensures r.(name := u.name, email := u.email, avatarUrl := u.avatarUrl) == u
    ensures r.name == name && r.email == email && r.avatarUrl == avatarUrl
  {
    u.(name := name, email := email, avatarUrl := avatarUrl)
  }

  method CreateOrUpdate(db: Db, identity: Option<Identity>, name: string, email: Option<string>,
                        avatarUrl: Option<string>, now: int) returns (r: Result<UserId>)
    modifies db`users
    ensures identity.None? ==> r == Err(NotAuthenticated) && db.users == old(db.users)
    ensures identity.Some? ==>
      match FindByToken(old(db.users), identity.value.tokenIdentifier)
      case Some(k) => r == Ok(k) && db.users == old(db.users)[k := Profiled(old(db.users)[k], name, email, avatarUrl)]
      case None =>
        r == Ok(|old(db.users)|)
        && db.users == old(db.users) + [NewUser(identity.value.tokenIdentifier, name, email, avatarUrl, now)]
    ensures r.Ok? ==> FindByToken(db.users, identity.value.tokenIdentifier) == Some(r.value)
  {
    if identity.None? {
      return Err(NotAuthenticated);
    }
    var id := identity.value;
    var existing := FindByToken(db.users, id.tokenIdentifier);
    if existing.Some? {
      var k := existing.value;
      var patched := Profiled(db.users[k], name, email, avatarUrl);
      ProfilePatchKeepsSignIn(db.users, k, patched, id.tokenIdentifier);
      db.users := db.users[k := patched];
      return Ok(k);
    }
    var user := NewUser(id.tokenIdentifier, name, email, avatarUrl, now);
    AppendKeepsSignIn(db.users, user, id.tokenIdentifier);
    r := Ok(|db.users|);
    db.users := db.users + [user];
  }

  /** Patching a record without touching its token keeps every token's resolution. */
  lemma ProfilePatchKeepsSignIn(users: seq<User>, i: nat, x: User, t: string)
    requires i < |users| && x.tokenIdentifier == users[i].tokenIdentifier
    ensures FindByToken(users[i := x], t) == FindByToken(users, t)
  {
    assert forall j :: 0 <= j < |users| ==> users[i := x][j].tokenIdentifier == users[j].tokenIdentifier;
  }

  /** `update`'s patch: whichever of name, bio, area and avatar are supplied. */
  function Edited(u: User, name: Option<string>, bio: Option<string>, area: Option<string>, avatarUrl: Option<string>): (r: User)
    ensures r.name == (if name.Some? then name.value else u.name)
    ensures r.bio == (if bio.Some? then bio else u.bio)
    ensures r.area == (if area.Some? then area else u.area)
    ensures r.avatarUrl == (if avatarUrl.Some? then avatarUrl else u.avatarUrl)
    ensures r.(name := u.name, bio := u.bio, area := u.area, avatarUrl := u.avatarUrl) == u
  {
    User(u.tokenIdentifier, Otherwise(name, u.name), u.email, Overlay(avatarUrl, u.avatarUrl),
         Overlay(bio, u.bio), Overlay(area, u.area), u.role, u.isBanned, u.isPremium, u.createdAt)
  }

  /** A profile edit never touches the moderation fields or the token, and
      an empty edit changes nothing. */
  lemma EditKeepsStanding(u: User, name: Option<string>, bio: Option<string>, area: Option<string>, avatarUrl: Option<string>)
    ensures var e := Edited(u, name, bio, area, avatarUrl);
      e.role == u.role && e.isBanned == u.isBanned && e.isPremium == u.isPremium
      && e.tokenIdentifier == u.tokenIdentifier && e.email == u.email && e.createdAt == u.createdAt
    ensures Edited(u, None, None, None, None) == u
    ensures Edited(Edited(u, name, bio, area, avatarUrl), name, bio, area, avatarUrl) == Edited(u, name, bio, area, avatarUrl)
  {
  }

  method Update(db: Db, identity: Option<Identity>, name: Option<string>, bio: Option<string>,
                area: Option<string>, avatarUrl: Option<string>) returns (r: Result<UserId>)
    modifies db`users
    ensures match CurrentUser(old(db.users), identity)
      case Err(e) => r == Err(e) && db.users == old(db.users)
      case Ok(u) => r == Ok(u) && db.users == old(db.users)[u := Edited(old(db.users)[u], name, bio, area, avatarUrl)]
  {
    var who := CurrentUser(db.users, identity);
    if who.Err? {
      return Err(who.error);
    }
    var u := who.value;
    var user := db.users[u];
    if name.Some? {
      user := user.(name := name.value);
    }
    if bio.Some? {
      user := user.(bio := bio);
    }
    if area.Some? {
      user := user.(area := area);
    }
    if avatarUrl.Some? {
      user := user.(avatarUrl := avatarUrl);
    }
    db.users := db.users[u := user];
    r := Ok(u);
  }

  /** `getListingCount`: the size of the seller's active index range, which
      is also the length of their active listing page and the count the
      free tier checks. */
  function GetListingCount(listings: seq<Listing>, userId: UserId): (r: nat)
    ensures r == |GetBySeller(listings, userId, Some(Active))|
    ensures r == 0 <==> forall l :: l in listings ==> l.sellerId != userId || l.status != Active
    ensures r <= |listings|
  {
    var range := Select(listings, BySeller(userId, Active));
    assert range != [] ==> range[0] in range;
    |range|
  }
}
