/** The read side of convex/listings.ts: the `list` feed query (choice of
    candidate path and the featured-first ranking) and `getBySeller`.

    An index range read with `.order("desc")` is modelled as: the table's
    matching documents, newest document first (reverse table order), stably
    sorted by the index's last field. */
module Feed {
  import opened Base
  import opened Schema

  const DefaultLimit: nat := 50

  /** The arguments of `list`. */
  datatype ListArgs = ListArgs(
    category: Option<string>,
    area: Option<string>,
    search: Option<string>,
    sortBy: Option<string>,
    limit: Option<nat>)

  /** `args.limit ?? 50`. */
  function LimitOf(args: ListArgs): nat {
    if args.limit.Some? then args.limit.value else DefaultLimit
  }

  /** The characters `String.prototype.trim` removes: ECMAScript WhiteSpace
      (tab, vertical tab, form feed, U+FEFF and the space separators) and
      LineTerminator. */
  predicate IsWhiteSpace(c: char) {
    || c == '\t' || c == '\n' || c == '\U{0B}' || c == '\U{0C}' || c == '\r'
    || c == ' ' || c == '\U{A0}' || c == '\U{1680}'
    || ('\U{2000}' <= c <= '\U{200A}')
    || c == '\U{2028}' || c == '\U{2029}' || c == '\U{202F}' || c == '\U{205F}'
    || c == '\U{3000}' || c == '\U{FEFF}'
  }

  function TrimStart(s: string): (r: string)
    ensures |r| <= |s| && r == s[|s| - |r|..]
    ensures forall i :: 0 <= i < |s| - |r| ==> IsWhiteSpace(s[i])
    ensures r != [] ==> !IsWhiteSpace(r[0])
  {
    if s != [] && IsWhiteSpace(s[0]) then TrimStart(s[1..]) else s
  }

  function TrimEnd(s: string): (r: string)
    ensures |r| <= |s| && r == s[..|r|]
    ensures forall i :: |r| <= i < |s| ==> IsWhiteSpace(s[i])
    ensures r != [] ==> !IsWhiteSpace(r[|r| - 1])
  {
    if s != [] && IsWhiteSpace(s[|s| - 1]) then TrimEnd(s[..|s| - 1]) else s
  }

  /** `String.prototype.trim`: the middle of `s` left once the white space
      at both ends is cut off. */
  function Trim(s: string): (r: string)
    ensures r != [] ==> !IsWhiteSpace(r[0]) && !IsWhiteSpace(r[|r| - 1])
    ensures exists a :: WhiteSpaceAround(s, a, r)
  {
    var t := TrimStart(s);
    var r := TrimEnd(t);
    var a := |s| - |t|;
    assert t == s[a..] && r == t[..|r|];
    assert r == s[a..a + |r|];
    assert WhiteSpaceAround(s, a, r);
    r
  }

  /** `s` is `r` at offset `a` with only white space before and after it. */
  predicate WhiteSpaceAround(s: string, a: int, r: string) {
    && 0 <= a && a + |r| <= |s| && r == s[a..a + |r|]
    && (forall i :: 0 <= i < a ==> IsWhiteSpace(s[i]))
    && (forall i :: a + |r| <= i < |s| ==> IsWhiteSpace(s[i]))
  }

  /** `s.trim().length > 0` exactly when `s` holds a character that is not white space. */
  lemma TrimEmptyIff(s: string)
    ensures Trim(s) == [] <==> forall i :: 0 <= i < |s| ==> IsWhiteSpace(s[i])
  {
  }

  /** `args.search && args.search.trim().length > 0`. */
  predicate SearchRequested(args: ListArgs) {
    args.search.Some? && |Trim(args.search.value)| > 0
  }

  /** The listing indexes of convex/schema.ts that the handlers read with
      equality on every field but the last. */
  datatype Index =
    | ByCategory(category: string)          // by_category_status
    | ByArea(area: string)                  // by_area_status
    | ByStatus                              // by_status_created, status "active"
    | BySeller(sellerId: UserId, status: string)  // by_seller

  predicate InIndex(l: Listing, ix: Index) {
    match ix
    case ByCategory(c) => l.category == c && l.status == Active
    case ByArea(a) => l.area == a && l.status == Active
    case ByStatus => l.status == Active
    case BySeller(s, st) => l.sellerId == s && l.status == st
  }

  /** The documents in the index range, in table order. */
  function Select(listings: seq<Listing>, ix: Index): (r: seq<Listing>)
    ensures |r| <= |listings|
    ensures forall l :: l in r <==> l in listings && InIndex(l, ix)
  {
    if listings == [] then []
    else
      assert listings == [listings[0]] + listings[1..];
      (if InIndex(listings[0], ix) then [listings[0]] else []) + Select(listings[1..], ix)
  }

  /** An index range holds every matching document exactly as many times as
      the table does, and no other document. */
  lemma {:induction false} SelectCounts(listings: seq<Listing>, ix: Index)
    ensures forall l :: multiset(Select(listings, ix))[l] == if InIndex(l, ix) then multiset(listings)[l] else 0
  {
    if listings != [] {
      SelectCounts(listings[1..], ix);
      assert listings == [listings[0]] + listings[1..];
    }
  }

  /** Inserting a document adds it to every index range it belongs to. */
  lemma {:induction false} SelectAppend(listings: seq<Listing>, x: Listing, ix: Index)
    ensures Select(listings + [x], ix) == Select(listings, ix) + (if InIndex(x, ix) then [x] else [])
  {
    if listings != [] {
      var rest := listings[1..];
      assert (listings + [x])[1..] == rest + [x];
      SelectAppend(rest, x, ix);
    } else {
      assert [x][1..] == [];
    }
  }


  /** Patching one document changes the size of an index range by the
      document leaving or joining it. */
  lemma {:induction false} SelectPatch(listings: seq<Listing>, i: nat, x: Listing, ix: Index)
    requires i < |listings|
    ensures |Select(listings[i := x], ix)|
         == |Select(listings, ix)| - (if InIndex(listings[i], ix) then 1 else 0)
            + (if InIndex(x, ix) then 1 else 0)
  {
    if i == 0 {
      assert listings[0 := x][1..] == listings[1..];
    } else {
      assert listings[i := x][1..] == listings[1..][i - 1 := x];
      SelectPatch(listings[1..], i - 1, x, ix);
    }
  }

  /** Order of an index range read in descending order: newest `createdAt` first. */
  const NewestKey: Listing -> Rank := (l: Listing) => Rank(-l.createdAt, 0)

  /** Sorted by `NewestKey` means `createdAt` never increases. */
  lemma NewestFirst(s: seq<Listing>)
    requires SortedBy(s, NewestKey)
    ensures forall i, j :: 0 <= i < j < |s| ==> s[i].createdAt >= s[j].createdAt
  {
    forall i, j | 0 <= i < j < |s| ensures s[i].createdAt >= s[j].createdAt {
      assert RankLe(NewestKey(s[i]), NewestKey(s[j]));
    }
  }

  /** `.withIndex(ix).order("desc").take(limit)`. */
  function Scan(listings: seq<Listing>, ix: Index, limit: nat): (r: seq<Listing>)
    ensures |r| <= limit
    ensures forall l :: l in r ==> l in listings && InIndex(l, ix)
    ensures forall i, j :: 0 <= i < j < |r| ==> r[i].createdAt >= r[j].createdAt
  {
    var range := Reverse(Select(listings, ix));
    var all := SortBy(range, NewestKey);
    SortBySorted(range, NewestKey);
    NewestFirst(all);
    SameMembers(all, range);
    SameMembers(range, Select(listings, ix));
    var r := Take(all, limit);
    assert forall i :: 0 <= i < |r| ==> r[i] == all[i];
    r
  }

  /** A scan draws from the index range without repeating a document: each
      listing occurs in it at most as often as in the range. */
  lemma ScanWithinRange(listings: seq<Listing>, ix: Index, limit: nat)
    ensures multiset(Scan(listings, ix, limit)) <= multiset(Select(listings, ix))
  {
    var all := SortBy(Reverse(Select(listings, ix)), NewestKey);
    assert Scan(listings, ix, limit) == Take(all, limit);
    PrefixWithin(all, |Take(all, limit)|);
  }


  /** A matching listing that the scan leaves out is no newer than any it
      returns, and the scan is then full: the scan holds the newest `limit`. */
  lemma ScanKeepsNewest(listings: seq<Listing>, ix: Index, limit: nat, l: Listing)
    requires l in listings && InIndex(l, ix)
    requires l !in Scan(listings, ix, limit)
    ensures |Scan(listings, ix, limit)| == limit
    ensures forall c :: c in Scan(listings, ix, limit) ==> c.createdAt >= l.createdAt
  {
    var range := Reverse(Select(listings, ix));
    var all := SortBy(range, NewestKey);
    SortBySorted(range, NewestKey);
    assert l in multiset(range);
    assert l in multiset(all);
    var j :| 0 <= j < |all| && all[j] == l;
    var r := Scan(listings, ix, limit);
    assert r == all[..|r|];
    forall c | c in r ensures c.createdAt >= l.createdAt {
      var i :| 0 <= i < |r| && r[i] == c;
      assert all[i] == c;
      assert RankLe(NewestKey(all[i]), NewestKey(all[j]));
    }
  }

  /** The index path `list` reads when there is no search text. */
  function ScanIndex(args: ListArgs): (r: Index)
    ensures forall l :: InIndex(l, r) ==> l.status == Active
    ensures Given(args.category) ==>
      forall l :: InIndex(l, r) <==> l.status == Active && l.category == args.category.value
    ensures !Given(args.category) && Given(args.area) ==>
      forall l :: InIndex(l, r) <==> l.status == Active && l.area == args.area.value
    ensures !Given(args.category) && !Given(args.area) ==>
      forall l :: InIndex(l, r) <==> l.status == Active
  {
    if Given(args.category) then ByCategory(args.category.value)
    else if Given(args.area) then ByArea(args.area.value)
    else ByStatus
  }

  /** `a.featured && a.featuredUntil && a.featuredUntil > now`; a stored 0
      is falsy in that test. */
  predicate CurrentlyFeatured(l: Listing, now: int): (b: bool)
    ensures b ==> l.featured && l.featuredUntil.Some? && l.featuredUntil.value > now
    ensures l.featured && l.featuredUntil.Some? && l.featuredUntil.value > now && now >= 0 ==> b
  {
    l.featured && l.featuredUntil.Some? && l.featuredUntil.value != 0
    && l.featuredUntil.value > now
  }

  /** The ranking comparator of `list`, as written (negative: `a` first). */
  function Compare(a: Listing, b: Listing, sortBy: Option<string>, now: int): (r: int)
    ensures CurrentlyFeatured(a, now) && !CurrentlyFeatured(b, now) ==> r < 0
    ensures !CurrentlyFeatured(a, now) && CurrentlyFeatured(b, now) ==> r > 0
    ensures CurrentlyFeatured(a, now) == CurrentlyFeatured(b, now) ==>
      (sortBy == Some("price_asc") ==> (r <= 0 <==> a.price <= b.price))
      && (sortBy == Some("price_desc") ==> (r <= 0 <==> a.price >= b.price))
      && (sortBy != Some("price_asc") && sortBy != Some("price_desc") ==> (r <= 0 <==> a.createdAt >= b.createdAt))
  {
    var aFeatured := CurrentlyFeatured(a, now);
    var bFeatured := CurrentlyFeatured(b, now);
    if aFeatured && !bFeatured then -1
    else if !aFeatured && bFeatured then 1
    else if sortBy == Some("price_asc") then a.price - b.price
    else if sortBy == Some("price_desc") then b.price - a.price
    else b.createdAt - a.createdAt
  }

  /** The comparator as a rank: featured first, then the `sortBy` field. */
  function FeedKey(sortBy: Option<string>, now: int): Listing -> Rank {
    (l: Listing) => Rank(
      if CurrentlyFeatured(l, now) then 0 else 1,
      if sortBy == Some("price_asc") then l.price
      else if sortBy == Some("price_desc") then -l.price
      else -l.createdAt)
  }

  /** The comparator orders two listings exactly as their ranks do. */
  lemma CompareAgreesWithKey(a: Listing, b: Listing, sortBy: Option<string>, now: int)
    ensures Compare(a, b, sortBy, now) <= 0 <==> RankLe(FeedKey(sortBy, now)(a), FeedKey(sortBy, now)(b))
    ensures Compare(a, b, sortBy, now) == 0 <==> FeedKey(sortBy, now)(a) == FeedKey(sortBy, now)(b)
  {
  }

  /** The comparator is consistent: swapping its arguments negates it. */
  lemma CompareAntisymmetric(a: Listing, b: Listing, sortBy: Option<string>, now: int)
    ensures Compare(b, a, sortBy, now) == -Compare(a, b, sortBy, now)
  {
  }

  /** `results.sort(comparator)`: stable, so equal ranks keep fetch order. */
  function Ranked(candidates: seq<Listing>, sortBy: Option<string>, now: int): (r: seq<Listing>)
    ensures |r| == |candidates|
    ensures multiset(r) == multiset(candidates)
    ensures forall l :: l in r <==> l in candidates
  {
    var r := SortBy(candidates, FeedKey(sortBy, now));
    SameMembers(r, candidates);
    r
  }

  /** The candidates of the three index paths, before ranking. */
  function Candidates(listings: seq<Listing>, args: ListArgs): seq<Listing> {
    Scan(listings, ScanIndex(args), LimitOf(args))
  }

  /** The `list` query. `hits` is what the full-text search index returns
      for the search text and filters, in the engine's relevance order. */
  function List(listings: seq<Listing>, hits: seq<Listing>, args: ListArgs, now: int): (r: seq<Listing>)
    ensures |r| <= LimitOf(args)
    ensures SearchRequested(args) ==> r == Take(hits, LimitOf(args))
    ensures !SearchRequested(args) ==>
      forall l :: l in r ==> l in listings && l.status == Active
    ensures !SearchRequested(args) && Given(args.category) ==>
      forall l :: l in r ==> l.category == args.category.value
    ensures !SearchRequested(args) && !Given(args.category) && Given(args.area) ==>
      forall l :: l in r ==> l.area == args.area.value
  {
    if SearchRequested(args) then Take(hits, LimitOf(args))
    else
      Ranked(Candidates(listings, args), args.sortBy, now)
  }

  /** Off the search path, the feed never repeats a listing of the index
      range it reads. */
  lemma ListWithinRange(listings: seq<Listing>, hits: seq<Listing>, args: ListArgs, now: int)
    requires !SearchRequested(args)
    ensures multiset(List(listings, hits, args, now)) <= multiset(Select(listings, ScanIndex(args)))
  {
    ScanWithinRange(listings, ScanIndex(args), LimitOf(args));
  }

  /** Off the search path, `list` is a permutation of the candidates in which
      currently featured listings come first, each featured group is ordered
      by `sortBy`, the source comparator never sees an inversion, and ties
      keep their fetch order. */
  lemma ListIsRanked(listings: seq<Listing>, hits: seq<Listing>, args: ListArgs, now: int)
    requires !SearchRequested(args)
    ensures var c := Candidates(listings, args);
            var r := List(listings, hits, args, now);
            && multiset(r) == multiset(c)
            && (forall i, j :: 0 <= i < j < |r| && CurrentlyFeatured(r[j], now) ==>
                  CurrentlyFeatured(r[i], now))
            && (forall i, j ::
                  (0 <= i < j < |r| && args.sortBy == Some("price_asc")
                   && CurrentlyFeatured(r[i], now) == CurrentlyFeatured(r[j], now)) ==>
                  r[i].price <= r[j].price)
            && (forall i, j ::
                  (0 <= i < j < |r| && args.sortBy == Some("price_desc")
                   && CurrentlyFeatured(r[i], now) == CurrentlyFeatured(r[j], now)) ==>
                  r[i].price >= r[j].price)
            && (forall i, j ::
                  (0 <= i < j < |r| && args.sortBy != Some("price_asc")
                   && args.sortBy != Some("price_desc")
                   && CurrentlyFeatured(r[i], now) == CurrentlyFeatured(r[j], now)) ==>
                  r[i].createdAt >= r[j].createdAt)
            && (forall i, j :: 0 <= i < j < |r| ==> Compare(r[i], r[j], args.sortBy, now) <= 0)
            && (forall rank :: Tier(r, FeedKey(args.sortBy, now), rank)
                            == Tier(c, FeedKey(args.sortBy, now), rank))
  {
    var c := Candidates(listings, args);
    var key := FeedKey(args.sortBy, now);
    var r := List(listings, hits, args, now);
    assert r == SortBy(c, key);
    SortBySorted(c, key);
    forall i, j | 0 <= i < j < |r| ensures Compare(r[i], r[j], args.sortBy, now) <= 0 {
      CompareAgreesWithKey(r[i], r[j], args.sortBy, now);
    }
    forall rank ensures Tier(r, key, rank) == Tier(c, key, rank) {
      SortByStable(c, key, rank);
    }
  }

  /** `getBySeller`: one status when given, otherwise the active listings
      followed by the sold ones. */
  function GetBySeller(listings: seq<Listing>, sellerId: UserId, status: Option<string>): (r: seq<Listing>)
    ensures forall l :: l in r ==> l in listings && l.sellerId == sellerId
    ensures Given(status) ==>
      multiset(r) == multiset(Select(listings, BySeller(sellerId, status.value)))
    ensures !Given(status) ==>
      multiset(r) == multiset(Select(listings, BySeller(sellerId, Active)))
                   + multiset(Select(listings, BySeller(sellerId, Sold)))
    ensures !Given(status) ==> forall l :: l in r ==> l.status == Active || l.status == Sold
    ensures !Given(status) ==>
      forall i, j :: 0 <= i < j < |r| && r[j].status == Active ==> r[i].status == Active
  {
    if Given(status) then
      var range := Select(listings, BySeller(sellerId, status.value));
      SameMembers(Reverse(range), range);
      Reverse(range)
    else
      var active := Reverse(Select(listings, BySeller(sellerId, Active)));
      var sold := Reverse(Select(listings, BySeller(sellerId, Sold)));
      SameMembers(active, Select(listings, BySeller(sellerId, Active)));
      SameMembers(sold, Select(listings, BySeller(sellerId, Sold)));
      ActiveThenSold(active, sold);
      assert multiset(active + sold) == multiset(active) + multiset(sold);
      active + sold
  }

  /** Joining an all-active part and an all-sold part puts every active
      listing ahead of every sold one. */
  lemma ActiveThenSold(active: seq<Listing>, sold: seq<Listing>)
    requires forall l :: l in active ==> l.status == Active
    requires forall l :: l in sold ==> l.status == Sold
    ensures forall l :: l in active + sold <==> l in active || l in sold
    ensures forall l :: l in active + sold ==> l.status == Active || l.status == Sold
    ensures forall i, j :: 0 <= i < j < |active + sold| && (active + sold)[j].status == Active ==>
      (active + sold)[i].status == Active
  {
    var r := active + sold;
    forall i | 0 <= i < |r| ensures (i < |active| ==> r[i].status == Active) && (i >= |active| ==> r[i].status == Sold) {
      if i < |active| {
        assert r[i] == active[i] && active[i] in active;
      } else {
        assert r[i] == sold[i - |active|] && sold[i - |active|] in sold;
      }
    }
  }
}
