/** The moderation handlers of convex/admin.ts. Every one of them first
    resolves the caller and insists on the "admin" role. */
module Admin {
  import opened Base
  import opened Schema
  import opened Auth
  import opened Store
  import opened Feed
  import opened Listings

  /** `requireAdmin`: the caller's user id when the caller is an admin. */
  function RequireAdmin(users: seq<User>, identity: Option<Identity>): (r: Result<UserId>)
    ensures r.Ok? <==>
      CurrentUser(users, identity).Ok? && users[CurrentUser(users, identity).value].role == AdminRole
    ensures r.Ok? ==> r.value == CurrentUser(users, identity).value
    ensures CurrentUser(users, identity).Err? ==> r == CurrentUser(users, identity)
    ensures CurrentUser(users, identity).Ok? && r.Err? ==> r.error == NotAuthorized
  {
    match CurrentUser(users, identity)
    case Err(e) => Err(e)
    case Ok(u) => if users[u].role != AdminRole then Err(NotAuthorized) else Ok(u)
  }

  datatype Stats = Stats(totalUsers: nat, totalListings: nat, activeListings: nat, pendingReports: nat)

  /** The `by_status` range of "pending" reports. */
  function PendingReports(reports: seq<Report>): (r: seq<Report>)
    ensures |r| <= |reports|
    ensures forall x :: x in r <==> x in reports && x.status == Pending
  {
    if reports == [] then []
    else (if reports[0].status == Pending then [reports[0]] else []) + PendingReports(reports[1..])
  }

  /** The pending range holds every pending report exactly as many times as
      the table does, and no other report. */
  lemma {:induction false} PendingCounts(reports: seq<Report>)
    ensures forall x :: multiset(PendingReports(reports))[x] == if x.status == Pending then multiset(reports)[x] else 0
  {
    if reports != [] {
      PendingCounts(reports[1..]);
      assert reports == [reports[0]] + reports[1..];
    }
  }

  /** `getStats`. */
  function GetStats(users: seq<User>, listings: seq<Listing>, reports: seq<Report>, identity: Option<Identity>)
    : (r: Result<Stats>)
    ensures RequireAdmin(users, identity).Err? ==> r == Err(RequireAdmin(users, identity).error)
    ensures RequireAdmin(users, identity).Ok? ==>
      && r.Ok?
      && r.value.totalUsers == |users|
      && r.value.totalListings == |listings|
      && r.value.activeListings == |Select(listings, ByStatus)|
      && r.value.pendingReports == |PendingReports(reports)|
      && r.value.activeListings <= r.value.totalListings
      && r.value.pendingReports <= |reports|
      && (r.value.activeListings == r.value.totalListings <==> forall l :: l in listings ==> l.status == Active)
  {
    match RequireAdmin(users, identity)
    case Err(e) => Err(e)
    case Ok(_) =>
      var active := Select(listings, ByStatus);
      ActiveAllIff(listings);
      Ok(Stats(|users|, |listings|, |active|, |PendingReports(reports)|))
  }

  /** Every listing is counted active exactly when all of them are. */
  lemma {:induction false} ActiveAllIff(listings: seq<Listing>)
    ensures |Select(listings, ByStatus)| == |listings| <==> forall l :: l in listings ==> l.status == Active
  {
    if listings != [] {
      ActiveAllIff(listings[1..]);
      assert listings == [listings[0]] + listings[1..];
      if listings[0].status != Active {
        assert |Select(listings, ByStatus)| <= |listings[1..]|;
      }
    }
  }

  /** Patching one report changes the pending count by that report leaving or joining. */
  lemma {:induction false} PendingPatch(reports: seq<Report>, i: nat, x: Report)
    requires i < |reports|
    ensures |PendingReports(reports[i := x])|
         == |PendingReports(reports)| - (if reports[i].status == Pending then 1 else 0)
            + (if x.status == Pending then 1 else 0)
  {
    if i == 0 {
      assert reports[0 := x][1..] == reports[1..];
    } else {
      assert reports[i := x][1..] == reports[1..][i - 1 := x];
      PendingPatch(reports[1..], i - 1, x);
    }
  }

  /** Resolving a pending report lowers the dashboard's pending count by one. */
  lemma ResolvingLowersPending(users: seq<User>, listings: seq<Listing>, reports: seq<Report>, identity: Option<Identity>, i: nat)
    requires i < |reports| && reports[i].status == Pending && RequireAdmin(users, identity).Ok?
    ensures GetStats(users, listings, reports[i := reports[i].(status := Resolved)], identity).value.pendingReports
         == GetStats(users, listings, reports, identity).value.pendingReports - 1
  {
    PendingPatch(reports, i, reports[i].(status := Resolved));
  }

  /** Removing an active listing lowers the dashboard's active count by one. */
  lemma RemovingLowersActive(users: seq<User>, listings: seq<Listing>, reports: seq<Report>, identity: Option<Identity>, i: nat, now: int)
    requires i < |listings| && listings[i].status == Active && RequireAdmin(users, identity).Ok?
    ensures GetStats(users, listings[i := WithStatus(listings[i], Removed, now)], reports, identity).value.activeListings
         == GetStats(users, listings, reports, identity).value.activeListings - 1
  {
    SelectPatch(listings, i, WithStatus(listings[i], Removed, now), ByStatus);
  }

  /** `updateUser`'s patch: whichever of role, ban and premium are supplied. */
  function Moderated(u: User, role: Option<string>, isBanned: Option<bool>, isPremium: Option<bool>): (r: User)
    ensures r.role == (if role.Some? then role.value else u.role)
    ensures r.isBanned == (if isBanned.Some? then isBanned.value else u.isBanned)
    ensures r.isPremium == (if isPremium.Some? then isPremium.value else u.isPremium)
    ensures r.(role := u.role, isBanned := u.isBanned, isPremium := u.isPremium) == u
  {
    User(u.tokenIdentifier, u.name, u.email, u.avatarUrl, u.bio, u.area,
         Otherwise(role, u.role), Otherwise(isBanned, u.isBanned), Otherwise(isPremium, u.isPremium),
         u.createdAt)
  }

  /** A user patch that keeps the token keeps who signs in as whom. */
  lemma PatchKeepsSignIn(users: seq<User>, i: nat, x: User, identity: Option<Identity>)
    requires i < |users| && x.tokenIdentifier == users[i].tokenIdentifier
    ensures CurrentUser(users[i := x], identity) == CurrentUser(users, identity)
  {
    if identity.Some? {
      var t := identity.value.tokenIdentifier;
      var before := FindByToken(users, t);
      var after := FindByToken(users[i := x], t);
      assert forall j :: 0 <= j < |users| ==> users[i := x][j].tokenIdentifier == users[j].tokenIdentifier;
    }
  }

  /** A moderation patch leaves sign-in alone, and a ban or a role change
      takes effect on the caller's next request. */
  lemma ModerationTakesEffect(users: seq<User>, i: nat, role: Option<string>, isBanned: Option<bool>, isPremium: Option<bool>, identity: Option<Identity>)
    requires i < |users|
    requires CurrentUser(users, identity) == Ok(i)
    ensures CurrentUser(users[i := Moderated(users[i], role, isBanned, isPremium)], identity) == Ok(i)
    ensures isBanned == Some(true) ==> users[i := Moderated(users[i], role, isBanned, isPremium)][i].isBanned
    ensures role.Some? && role.value != AdminRole ==>
      RequireAdmin(users[i := Moderated(users[i], role, isBanned, isPremium)], identity) == Err(NotAuthorized)
  {
    PatchKeepsSignIn(users, i, Moderated(users[i], role, isBanned, isPremium), identity);
  }

  /** `updateUser`; the platform's patch throws on a missing user. */
  method UpdateUser(db: Db, identity: Option<Identity>, userId: UserId,
                    role: Option<string>, isBanned: Option<bool>, isPremium: Option<bool>)
    returns (r: Result<()>)
    modifies db`users
    ensures match RequireAdmin(old(db.users), identity)
      case Err(e) => r == Err(e) && db.users == old(db.users)
      case Ok(_) =>
        if userId >= |old(db.users)| then
          r == Err(NonexistentDocument) && db.users == old(db.users)
        else
          r == Ok(()) && db.users == old(db.users)[userId := Moderated(old(db.users)[userId], role, isBanned, isPremium)]
  {
    var admin := RequireAdmin(db.users, identity);
    if admin.Err? {
      return Err(admin.error);
    }
    if userId >= |db.users| {
      return Err(NonexistentDocument);
    }
    var user := db.users[userId];
    if role.Some? {
      user := user.(role := role.value);
    }
    if isBanned.Some? {
      user := user.(isBanned := isBanned.value);
    }
    if isPremium.Some? {
      user := user.(isPremium := isPremium.value);
    }
    db.users := db.users[userId := user];
    r := Ok(());
  }

  /** The `isHidden` flip of `hideListing`. */
  function Toggled(l: Listing): (r: Listing)
    ensures r.isHidden == !l.isHidden
    ensures r.(isHidden := l.isHidden) == l
  {
    l.(isHidden := !l.isHidden)
  }

  /** Hiding twice restores the listing; hiding never moves a listing in or
      out of the feed, which does not look at the flag. */
  lemma ToggleInvolution(l: Listing, ix: Index, t: int)
    ensures Toggled(Toggled(l)) == l
    ensures InIndex(Toggled(l), ix) == InIndex(l, ix)
    ensures CurrentlyFeatured(Toggled(l), t) == CurrentlyFeatured(l, t)
  {
  }

  method HideListing(db: Db, identity: Option<Identity>, id: ListingId) returns (r: Result<()>)
    modifies db`listings
    ensures match RequireAdmin(db.users, identity)
      case Err(e) => r == Err(e) && db.listings == old(db.listings)
      case Ok(_) =>
        if id >= |old(db.listings)| then
          r == Err(ListingNotFound) && db.listings == old(db.listings)
        else
          r == Ok(()) && db.listings == old(db.listings)[id := Toggled(old(db.listings)[id])]
  {
    var admin := RequireAdmin(db.users, identity);
    if admin.Err? {
      return Err(admin.error);
    }
    if id >= |db.listings| {
      return Err(ListingNotFound);
    }
    db.listings := db.listings[id := Toggled(db.listings[id])];
    r := Ok(());
  }

  /** The admin's `removeListing`: no existence check of its own; the
      platform's patch throws on a missing listing. */
  method RemoveListing(db: Db, identity: Option<Identity>, id: ListingId, now: int) returns (r: Result<()>)
    modifies db`listings
    ensures match RequireAdmin(db.users, identity)
      case Err(e) => r == Err(e) && db.listings == old(db.listings)
      case Ok(_) =>
        if id >= |old(db.listings)| then
          r == Err(NonexistentDocument) && db.listings == old(db.listings)
        else
          r == Ok(()) && db.listings == old(db.listings)[id := WithStatus(old(db.listings)[id], Removed, now)]
  {
    var admin := RequireAdmin(db.users, identity);
    if admin.Err? {
      return Err(admin.error);
    }
    if id >= |db.listings| {
      return Err(NonexistentDocument);
    }
    db.listings := db.listings[id := WithStatus(db.listings[id], Removed, now)];
    r := Ok(());
  }

  method ResolveReport(db: Db, identity: Option<Identity>, id: ReportId) returns (r: Result<()>)
    modifies db`reports
    ensures match RequireAdmin(db.users, identity)
      case Err(e) => r == Err(e) && db.reports == old(db.reports)
      case Ok(_) =>
        if id >= |old(db.reports)| then
          r == Err(NonexistentDocument) && db.reports == old(db.reports)
        else
          r == Ok(()) && db.reports == old(db.reports)[id := old(db.reports)[id].(status := Resolved)]
  {
    var admin := RequireAdmin(db.users, identity);
    if admin.Err? {
      return Err(admin.error);
    }
    if id >= |db.reports| {
      return Err(NonexistentDocument);
    }
    db.reports := db.reports[id := db.reports[id].(status := Resolved)];
    r := Ok(());
  }
}
