/** The mutations of convex/listings.ts: `create`, `update`, `remove`,
    `markSold`, `incrementView` and `report`, as methods on the store. */
module Listings {
  import opened Base
  import opened Schema
  import opened Auth
  import opened Store
  import opened Feed

  /** The free tier's cap on a seller's active listings. */
  const FreeTierCap: nat := 3

  /** The arguments of `create`. */
  datatype NewListing = NewListing(
    title: string,
    description: string,
    story: Option<string>,
    price: int,
    photos: seq<string>,
    category: string,
    area: string,
    condition: string)

  /** The fields `update` may supply; `None` is an omitted argument. */
  datatype ListingPatch = ListingPatch(
    title: Option<string>,
    description: Option<string>,
    story: Option<string>,
    price: Option<int>,
    photos: Option<seq<string>>,
    category: Option<string>,
    area: Option<string>,
    condition: Option<string>)

  /** The number of `seller`'s listings whose status is "active". */
  function ActiveCount(listings: seq<Listing>, seller: UserId): nat {
    |Select(listings, BySeller(seller, Active))|
  }

  /** The document `create` inserts. */
  function NewRecord(seller: UserId, args: NewListing, now: int): (r: Listing)
    ensures r.sellerId == seller && r.title == args.title && r.description == args.description
      && r.story == args.story && r.price == args.price && r.photos == args.photos
      && r.category == args.category && r.area == args.area && r.condition == args.condition
    ensures r.status == Active && !r.featured && r.featuredUntil.None?
    ensures r.reportCount == 0 && !r.isHidden && r.viewCount == 0
    ensures r.createdAt == now && r.updatedAt == now
  {
    Listing(seller, args.title, args.description, args.story, args.price, args.photos,
            args.category, args.area, args.condition, Active, false, None, 0, false, 0, now, now)
  }

  /** A new listing is active, in its seller's active range and in the feed
      index ranges of its category and area, and is never featured. */
  lemma NewRecordJoinsFeed(seller: UserId, args: NewListing, now: int, t: int)
    ensures var l := NewRecord(seller, args, now);
      && InIndex(l, BySeller(seller, Active)) && InIndex(l, ByStatus)
      && InIndex(l, ByCategory(args.category)) && InIndex(l, ByArea(args.area))
      && !CurrentlyFeatured(l, t)
      && l.reportCount == 0 && l.viewCount == 0 && !l.isHidden
      && l.createdAt == l.updatedAt == now
  {
  }

  /** Inserting a listing for `seller` raises that seller's active count by one
      and leaves every other seller's count alone. */
  lemma {:induction false} CreateRaisesActiveCount(listings: seq<Listing>, seller: UserId, args: NewListing, now: int, other: UserId)
    ensures ActiveCount(listings + [NewRecord(seller, args, now)], seller) == ActiveCount(listings, seller) + 1
    ensures other != seller ==>
      ActiveCount(listings + [NewRecord(seller, args, now)], other) == ActiveCount(listings, other)
  {
    SelectAppend(listings, NewRecord(seller, args, now), BySeller(seller, Active));
    SelectAppend(listings, NewRecord(seller, args, now), BySeller(other, Active));
  }

  /** `update`'s patch: the supplied fields and `updatedAt`, nothing else. */
  function Patched(l: Listing, p: ListingPatch, now: int): (r: Listing)
    ensures r.sellerId == l.sellerId && r.status == l.status && r.createdAt == l.createdAt
    ensures r.featured == l.featured && r.featuredUntil == l.featuredUntil
    ensures r.reportCount == l.reportCount && r.isHidden == l.isHidden && r.viewCount == l.viewCount
    ensures r.updatedAt == now
    // A supplied field takes the supplied value; an omitted one keeps its old value.
    ensures r.title == (if p.title.Some? then p.title.value else l.title)
    ensures r.description == (if p.description.Some? then p.description.value else l.description)
    ensures r.story == (if p.story.Some? then p.story else l.story)
    ensures r.price == (if p.price.Some? then p.price.value else l.price)
    ensures r.photos == (if p.photos.Some? then p.photos.value else l.photos)
    ensures r.category == (if p.category.Some? then p.category.value else l.category)
    ensures r.area == (if p.area.Some? then p.area.value else l.area)
    ensures r.condition == (if p.condition.Some? then p.condition.value else l.condition)
  {
    Listing(l.sellerId,
            Otherwise(p.title, l.title),
            Otherwise(p.description, l.description),
            Overlay(p.story, l.story),
            Otherwise(p.price, l.price),
            Otherwise(p.photos, l.photos),
            Otherwise(p.category, l.category),
            Otherwise(p.area, l.area),
            Otherwise(p.condition, l.condition),
            l.status, l.featured, l.featuredUntil, l.reportCount, l.isHidden, l.viewCount,
            l.createdAt, now)
  }

  /** Patching is idempotent, an empty patch only touches `updatedAt`, and an
      edit leaves the seller's active count and every listing's featured
      status unchanged. */
  lemma PatchedKeepsCountAndFeature(listings: seq<Listing>, i: nat, p: ListingPatch, now: int, seller: UserId, t: int)
    requires i < |listings|
    ensures p == ListingPatch(None, None, None, None, None, None, None, None) ==>
      Patched(listings[i], p, now) == listings[i].(updatedAt := now)
    ensures Patched(Patched(listings[i], p, now), p, now) == Patched(listings[i], p, now)
    ensures ActiveCount(listings[i := Patched(listings[i], p, now)], seller) == ActiveCount(listings, seller)
    ensures CurrentlyFeatured(Patched(listings[i], p, now), t) == CurrentlyFeatured(listings[i], t)
  {
    SelectPatch(listings, i, Patched(listings[i], p, now), BySeller(seller, Active));
  }

  /** The `{ status, updatedAt }` patch of `remove`, `markSold` and the admin's `removeListing`. */
  function WithStatus(l: Listing, status: string, now: int): (r: Listing)
    ensures r.status == status && r.updatedAt == now
    ensures r.(status := l.status, updatedAt := l.updatedAt) == l
  {
    l.(status := status, updatedAt := now)
  }

  /** Retiring an active listing frees one slot of its seller's free tier. */
  lemma RetiringFreesSlot(listings: seq<Listing>, i: nat, status: string, now: int)
    requires i < |listings| && listings[i].status == Active && status != Active
    ensures ActiveCount(listings[i := WithStatus(listings[i], status, now)], listings[i].sellerId)
         == ActiveCount(listings, listings[i].sellerId) - 1
  {
    SelectPatch(listings, i, WithStatus(listings[i], status, now), BySeller(listings[i].sellerId, Active));
  }

  /** The seller, and no one else, owns the listing. */
  predicate IsSeller(listings: seq<Listing>, id: ListingId, u: UserId)
    requires id < |listings|
  {
    listings[id].sellerId == u
  }

  method Create(db: Db, identity: Option<Identity>, args: NewListing, now: int) returns (r: Result<ListingId>)
    modifies db`listings
    ensures match CurrentUser(db.users, identity)
      case Err(e) => r == Err(e) && db.listings == old(db.listings)
      case Ok(u) =>
        if db.users[u].isBanned then
          r == Err(UserBanned) && db.listings == old(db.listings)
        else if !db.users[u].isPremium && ActiveCount(old(db.listings), u) >= FreeTierCap then
          r == Err(FreeTierLimit) && db.listings == old(db.listings)
        else
          r == Ok(|old(db.listings)|)
          && db.listings == old(db.listings) + [NewRecord(u, args, now)]
          && ActiveCount(db.listings, u) == ActiveCount(old(db.listings), u) + 1
          && (!db.users[u].isPremium ==> ActiveCount(db.listings, u) <= FreeTierCap)
  {
    var who := CurrentUser(db.users, identity);
    if who.Err? {
      return Err(who.error);
    }
    var u := who.value;
    var user := db.users[u];
    if user.isBanned {
      return Err(UserBanned);
    }
    if !user.isPremium {
      var activeListings := Select(db.listings, BySeller(u, Active));
      if |activeListings| >= FreeTierCap {
        return Err(FreeTierLimit);
      }
    }
    CreateRaisesActiveCount(db.listings, u, args, now, u);
    r := Ok(|db.listings|);
    db.listings := db.listings + [NewRecord(u, args, now)];
  }

  method Update(db: Db, identity: Option<Identity>, id: ListingId, p: ListingPatch, now: int) returns (r: Result<()>)
    modifies db`listings
    ensures match CurrentUser(db.users, identity)
      case Err(e) => r == Err(e) && db.listings == old(db.listings)
      case Ok(u) =>
        if id >= |old(db.listings)| then
          r == Err(ListingNotFound) && db.listings == old(db.listings)
        else if !IsSeller(old(db.listings), id, u) then
          r == Err(NotAuthorized) && db.listings == old(db.listings)
        else
          r == Ok(()) && db.listings == old(db.listings)[id := Patched(old(db.listings)[id], p, now)]
  {
    var who := CurrentUser(db.users, identity);
    if who.Err? {
      return Err(who.error);
    }
    var u := who.value;
    if id >= |db.listings| {
      return Err(ListingNotFound);
    }
    var listing := db.listings[id];
    if u != listing.sellerId {
      return Err(NotAuthorized);
    }
    db.listings := db.listings[id := Patched(listing, p, now)];
    r := Ok(());
  }

  method Remove(db: Db, identity: Option<Identity>, id: ListingId, now: int) returns (r: Result<()>)
    modifies db`listings
    ensures match CurrentUser(db.users, identity)
      case Err(e) => r == Err(e) && db.listings == old(db.listings)
      case Ok(u) =>
        if id >= |old(db.listings)| then
          r == Err(ListingNotFound) && db.listings == old(db.listings)
        else if !IsSeller(old(db.listings), id, u) && db.users[u].role != AdminRole then
          r == Err(NotAuthorized) && db.listings == old(db.listings)
        else
          r == Ok(())
          && db.listings == old(db.listings)[id := WithStatus(old(db.listings)[id], Removed, now)]
  {
    var who := CurrentUser(db.users, identity);
    if who.Err? {
      return Err(who.error);
    }
    var u := who.value;
    if id >= |db.listings| {
      return Err(ListingNotFound);
    }
    var listing := db.listings[id];
    if u != listing.sellerId && db.users[u].role != AdminRole {
      return Err(NotAuthorized);
    }
    db.listings := db.listings[id := WithStatus(listing, Removed, now)];
    r := Ok(());
  }

  method MarkSold(db: Db, identity: Option<Identity>, id: ListingId, now: int) returns (r: Result<()>)
    modifies db`listings
    ensures match CurrentUser(db.users, identity)
      case Err(e) => r == Err(e) && db.listings == old(db.listings)
      case Ok(u) =>
        if id >= |old(db.listings)| then
          r == Err(ListingNotFound) && db.listings == old(db.listings)
        else if !IsSeller(old(db.listings), id, u) then
          r == Err(NotAuthorized) && db.listings == old(db.listings)
        else
          r == Ok(())
          && db.listings == old(db.listings)[id := WithStatus(old(db.listings)[id], Sold, now)]
  {
    var who := CurrentUser(db.users, identity);
    if who.Err? {
      return Err(who.error);
    }
    var u := who.value;
    if id >= |db.listings| {
      return Err(ListingNotFound);
    }
    var listing := db.listings[id];
    if u != listing.sellerId {
      return Err(NotAuthorized);
    }
    db.listings := db.listings[id := WithStatus(listing, Sold, now)];
    r := Ok(());
  }

  /** No sign-in needed; a missing listing is silently ignored. */
  method IncrementView(db: Db, id: ListingId)
    modifies db`listings
    ensures id >= |old(db.listings)| ==> db.listings == old(db.listings)
    ensures id < |old(db.listings)| ==>
      && |db.listings| == |old(db.listings)|
      && db.listings[id].viewCount == old(db.listings)[id].viewCount + 1
      && db.listings[id].(viewCount := old(db.listings)[id].viewCount) == old(db.listings)[id]
      && forall j :: 0 <= j < |db.listings| && j != id ==> db.listings[j] == old(db.listings)[j]
  {
    if id >= |db.listings| {
      return;
    }
    var listing := db.listings[id];
    db.listings := db.listings[id := listing.(viewCount := listing.viewCount + 1)];
  }

  /** Whether `reporter` has a report on listing `id` (read through `by_listing`). */
  predicate HasReported(reports: seq<Report>, id: ListingId, reporter: UserId): (b: bool)
    ensures b <==> exists x :: x in reports && x.listingId == id && x.reporterId == reporter
  {
    exists k :: 0 <= k < |reports| && reports[k].listingId == id && reports[k].reporterId == reporter
  }

  /** `report` does not look the listing up: any listing id is accepted. */
  method ReportListing(db: Db, identity: Option<Identity>, id: ListingId, reason: string, details: Option<string>, now: int)
    returns (r: Result<()>)
    modifies db`reports
    ensures match CurrentUser(db.users, identity)
      case Err(e) => r == Err(e) && db.reports == old(db.reports)
      case Ok(u) =>
        if HasReported(old(db.reports), id, u) then
          r == Err(AlreadyReported) && db.reports == old(db.reports)
        else
          r == Ok(()) && db.reports == old(db.reports) + [Report(id, u, reason, details, Pending, now)]
    ensures r.Ok? ==> HasReported(db.reports, id, CurrentUser(db.users, identity).value)
  {
    var who := CurrentUser(db.users, identity);
    if who.Err? {
      return Err(who.error);
    }
    var u := who.value;
    if HasReported(db.reports, id, u) {
      return Err(AlreadyReported);
    }
    db.reports := db.reports + [Report(id, u, reason, details, Pending, now)];
    assert db.reports[|db.reports| - 1].listingId == id;
    r := Ok(());
  }
}
