# Exchange marketplace backend, modelled in Dafny

This project models the server side of a local second-hand marketplace. The
server runs as Convex query and mutation handlers. The model covers:

- the listing feed: choosing a candidate path, then ranking featured listings first;
- the listing lifecycle: create, update, remove, mark sold, count a view, report;
- buyer–seller conversations and their unread counters;
- the admin moderation handlers;
- the user-profile handlers;
- the two display helpers `formatPrice` and `formatTimeAgo`.

Platform services become explicit inputs:

- The database is the class `Store.Db`, with one sequence per table. A document's id is its position in its table. No handler deletes a document, so positions grow with creation time. Creation time is the platform's final tie-break in every index.
- An index range read with `.order("desc")` is the matching documents in reverse creation order, stably sorted on the index's last field.
- The signed-in identity (`ctx.auth.getUserIdentity()`) is an `Option<Identity>` parameter.
- `Date.now()` is a `now` parameter.
- The full-text search engine's hits are an opaque sequence, kept in engine order.
- Handler exceptions are `Err(e)` results of the `Result` datatype. `Schema.ErrorText` gives each exception's message. The text for `NonexistentDocument` is approximate: the platform raises it, and the repository does not contain it.

Handlers that write are methods over `Store.Db`. Each method states its whole new state for every branch, and its `modifies` names only the tables it writes. Read-only handlers are functions or methods over table snapshots. Lemmas then connect the handlers: counters that move by exactly one, idempotence, involution and round trips.

Modules:

- `Base`: option type, `Take`, `Reverse`, first match, and the stable insertion sort that stands for `Array.prototype.sort`.
- `Schema`: documents and errors.
- `Auth`: resolving the identity through the `by_token` index.
- `Store`: the database class.
- `Feed`: `list` and `getBySeller`.
- `Listings`: the listing mutations.
- `Messages`: conversations and messages.
- `Admin`: moderation.
- `Users`: profiles.
- `Numerals`: decimal printing.
- `Format`: the display helpers.

## Model

| member | source | states |
|---|---|---|
| Auth.FindByToken | convex/listings.ts:8-11 | the user found is the earliest whose token matches; none is found exactly when no user carries the token |
| Auth.CurrentUser | convex/listings.ts:5-14 | "Not authenticated" exactly when there is no identity; "User not found" exactly when the token matches no user; on success, the user carries the identity's token |
| Auth.SignedIn | convex/messages.ts:16-23 | yields a user exactly when the throwing helper would succeed, and the same user; yields nothing instead of throwing |
| Base.Take | convex/listings.ts:37 | `take(n)` returns a prefix of length n, or the whole range when it is shorter |
| Base.SortByStable | convex/listings.ts:66-74 | the stable sort keeps the input order of each group of equal rank |
| Base.SortBySorted | convex/listings.ts:66-74 | the sort's output is ordered by rank |
| Base.SortBy | convex/listings.ts:66-74 | the sort's output is a permutation of its input |
| Feed.TrimEmptyIff | convex/listings.ts:27 | the trimmed search text is empty exactly when every character is ECMAScript white space |
| Feed.TrimStart | convex/listings.ts:27 | removes a white-space prefix and nothing else; what remains starts with a non-white-space character |
| Feed.TrimEnd | convex/listings.ts:27 | removes a white-space suffix and nothing else; what remains ends with a non-white-space character |
| Feed.Trim | convex/listings.ts:27 | the result is a contiguous slice of the text with only white space before and after it, and it neither starts nor ends with white space |
| Feed.Select | convex/schema.ts:44-47 | an index range holds exactly the documents whose fields match the index's equality prefix |
| Feed.SelectCounts | convex/admin.ts:29 | an index range (the filter on "active" included) holds each matching document exactly as many times as the table does and no other document |
| Feed.SelectAppend | convex/listings.ts:143-160 | inserting a document appends it to every index range it matches and leaves the other ranges unchanged |
| Feed.SelectPatch | convex/listings.ts:205 | patching one document changes a range's size by that document leaving or joining the range |
| Feed.Scan | convex/listings.ts:40-63 | an index read returns at most `limit` listings; each one is in the table and in the index; createdAt never increases along the result |
| Feed.ScanWithinRange | convex/listings.ts:42-62 | a scan draws from the index range without repetition: each listing occurs in it at most as often as in the range |
| Feed.ScanKeepsNewest | convex/listings.ts:47-48 | a matching listing left out of a scan is no newer than any listing returned, and the scan is then full |
| Feed.ScanIndex | convex/listings.ts:40-63 | the category index when a category is given, else the area index when an area is given, else the status index; each range holds exactly the active listings matching that field |
| Feed.CurrentlyFeatured | convex/listings.ts:67-68 | featured only when the flag is set and featuredUntil is set and later than now; for a non-negative now, those conditions suffice |
| Feed.Compare | convex/listings.ts:66-74 | a currently featured listing sorts before one that is not; between equal featured status, the sign follows price ascending, price descending or createdAt descending as sortBy says |
| Feed.CompareAntisymmetric | convex/listings.ts:66-74 | swapping the comparator's arguments negates its result |
| Feed.CompareAgreesWithKey | convex/listings.ts:66-74 | the comparator as written orders two listings exactly as their ranks do (featured first, then the sortBy field) |
| Feed.Ranked | convex/listings.ts:66 | ranking neither drops nor adds a candidate |
| Feed.List | convex/listings.ts:16-76 | size is at most the limit (default 50); when the trimmed search text is non-empty, the result is the first `limit` hits in engine order with no re-ranking; otherwise every result is active and in the table, matches the category when one is given, and otherwise matches the area when one is given |
| Feed.ListWithinRange | convex/listings.ts:40-74 | off the search path, the feed's multiset is contained in the multiset of the index range it reads |
| Feed.ListIsRanked | convex/listings.ts:65-74 | off the search path the result is a permutation of the candidates; a currently featured listing precedes every other listing; within equal featured status: price_asc gives non-decreasing price, price_desc non-increasing price, and any other sortBy non-increasing createdAt; the comparator sees no inversion; ties keep fetch order |
| Feed.GetBySeller | convex/listings.ts:85-113 | with a truthy status, the seller's listings of that status; otherwise the seller's active listings followed by the sold ones, and nothing else |
| Feed.ActiveThenSold | convex/listings.ts:111 | joining the active part and the sold part puts every active listing ahead of every sold one |
| Listings.NewRecordJoinsFeed | convex/listings.ts:143-160 | a new listing is active; it is in its seller's, category's and area's active ranges; it is not featured; report and view counts are 0; it is not hidden; createdAt equals updatedAt equals now |
| Listings.NewRecord | convex/listings.ts:143-160 | the inserted document carries the seller and every argument field, status "active", not featured, no featuredUntil, zero report and view counts, not hidden, and createdAt = updatedAt = now |
| Listings.CreateRaisesActiveCount | convex/listings.ts:130-143 | creating a listing raises its seller's active count by one and leaves every other seller's count unchanged |
| Listings.Patched | convex/listings.ts:182-192 | each of the eight editable fields takes the supplied value and keeps its old value when omitted; updatedAt becomes now; seller, status, featured fields, counters, hidden flag and createdAt never change |
| Listings.PatchedKeepsCountAndFeature | convex/listings.ts:182-192 | an empty patch changes only updatedAt; editing is idempotent and changes neither the seller's active count nor whether the listing is featured |
| Listings.WithStatus | convex/listings.ts:205 | sets status and updatedAt, and nothing else |
| Listings.RetiringFreesSlot | convex/listings.ts:205-216 | removing or selling an active listing lowers its seller's active count by one |
| Listings.Create | convex/listings.ts:126-161 | auth errors first, then "User is banned", then the free-tier error for a non-premium seller with 3 or more active listings; otherwise appends the new listing, returns its id, and the seller's active count rises by one and stays at most 3 for a non-premium seller |
| Listings.Update | convex/listings.ts:176-193 | "Listing not found" on a missing id; "Not authorized" unless the caller is the seller; otherwise only that listing changes, by the patch |
| Listings.Remove | convex/listings.ts:198-206 | missing listing, then "Not authorized" unless the caller is the seller or an admin; otherwise that listing alone becomes "removed" with updatedAt = now |
| Listings.MarkSold | convex/listings.ts:211-217 | missing listing, then "Not authorized" unless the caller is the seller; otherwise that listing alone becomes "sold" with updatedAt = now |
| Listings.IncrementView | convex/listings.ts:222-226 | a missing id changes nothing; otherwise viewCount rises by exactly 1 and nothing else changes |
| Listings.HasReported | convex/listings.ts:261-265 | true exactly when some report on the listing has the caller as reporter |
| Listings.ReportListing | convex/listings.ts:251-277 | throws if the caller already reported this listing; otherwise appends one pending report by the caller, without checking that the listing exists |
| Messages.FindConversation | convex/messages.ts:33-38 | the conversation found is the earliest for that listing and buyer; none is found exactly when none exists |
| Messages.Preview | convex/messages.ts:129-130 | the text itself when at most 80 characters long; otherwise its first 80 characters followed by "..." |
| Messages.PreviewIsPrefix | convex/messages.ts:129-130 | a preview is at most 83 characters long and starts like the text |
| Messages.AfterSend | convex/messages.ts:131-139 | sets lastMessageAt and the preview; the buyer's message raises sellerUnread by one, any other sender's raises buyerUnread |
| Messages.AfterRead | convex/messages.ts:150-153 | zeroes buyerUnread when the reader is the buyer, otherwise sellerUnread |
| Messages.UnreadCountPatch | convex/messages.ts:133-139 | replacing one conversation changes a user's unread total by that conversation's share |
| Messages.SendNotifiesOtherParty | convex/messages.ts:121-139 | a message raises the recipient's unread total by exactly one and leaves the sender's unchanged |
| Messages.ReadClearsOwnCount | convex/messages.ts:147-153 | reading clears the reader's unread messages in that conversation and lowers the reader's total by them |
| Messages.ReadByOutsiderClearsSeller | convex/messages.ts:150-153 | a caller outside the conversation still zeroes its sellerUnread |
| Messages.GetOrCreateConversation | convex/messages.ts:25-51 | "Listing not found", then "Can't message yourself"; an existing conversation for the listing and buyer is returned and nothing is inserted; otherwise one is appended with the listing's seller and both counters 0; a second call finds the same conversation; the table invariant holds |
| Messages.SendMessage | convex/messages.ts:104-141 | "Conversation not found", then "Not part of this conversation"; otherwise one message is appended and that conversation alone is updated by AfterSend |
| Messages.MarkRead | convex/messages.ts:143-155 | no-op for a missing conversation; otherwise that conversation alone is updated by AfterRead, with no participant check |
| Messages.DescendingSide | convex/messages.ts:59-69 | a `by_buyer`/`by_seller` read holds exactly the user's conversations on that side |
| Messages.Side | convex/messages.ts:59-69 | holds exactly the conversations with the user as buyer (or as seller), never more than the table |
| Messages.Inbox | convex/messages.ts:59-73 | the merged list holds exactly the conversations involving the user, ordered by lastMessageAt non-increasing |
| Messages.KeepFirstOfEachId | convex/messages.ts:75-80 | the `seen` filter keeps, at strictly increasing input positions, exactly the first element of each id: every kept element is the input element at its position, no earlier input element has its id, no id is lost and none repeats, and the recency order is kept |
| Messages.ListConversations | convex/messages.ts:53-82 | [] when no user is signed in; otherwise only the caller's conversations, every one of them, each id at most once, lastMessageAt non-increasing |
| Messages.SidesMakeUnreadCount | convex/messages.ts:163-176 | the two per-side sums equal each conversation's unread share for the user, summed over the table |
| Messages.GetUnreadCount | convex/messages.ts:157-178 | 0 when no user is signed in; otherwise the user's unread total over all conversations |
| Admin.RequireAdmin | convex/admin.ts:5-15 | succeeds exactly for a resolved user whose role is "admin"; otherwise the resolution error, or "Not authorized" |
| Admin.PendingReports | convex/admin.ts:24-27 | exactly the reports whose status is "pending" |
| Admin.PendingCounts | convex/admin.ts:24-27 | the pending range holds each pending report exactly as many times as the table does and no other report |
| Admin.GetStats | convex/admin.ts:17-38 | fails with requireAdmin's error; otherwise totalUsers and totalListings are the table sizes, activeListings is the size of the active filter and pendingReports the size of the pending range (both exact counts by Feed.SelectCounts and Admin.PendingCounts); activeListings equals totalListings exactly when every listing is active |
| Admin.ActiveAllIff | convex/admin.ts:29 | the active filter keeps every listing exactly when all listings are active |
| Admin.PendingPatch | convex/admin.ts:105 | patching one report changes the pending count by that report leaving or joining it |
| Admin.ResolvingLowersPending | convex/admin.ts:101-106 | resolving a pending report lowers the dashboard's pending count by one |
| Admin.RemovingLowersActive | convex/admin.ts:85-90 | removing an active listing lowers the dashboard's active count by one |
| Admin.PatchKeepsSignIn | convex/admin.ts:63 | a user patch that keeps the token changes no identity's resolution |
| Admin.ModerationTakesEffect | convex/admin.ts:48-65 | after a moderation patch the user still signs in as the same record; a ban shows at once; a role other than "admin" fails the next requireAdmin |
| Admin.Moderated | convex/admin.ts:58-61 | role, isBanned and isPremium each take the supplied value or keep the old one when omitted; every other field is unchanged |
| Admin.UpdateUser | convex/admin.ts:48-65 | requireAdmin first; a missing user raises the platform's patch error; otherwise only that user changes, and only in the supplied role, isBanned and isPremium |
| Admin.Toggled | convex/admin.ts:81 | flips isHidden and leaves every other field unchanged |
| Admin.ToggleInvolution | convex/admin.ts:79-81 | hiding twice restores the listing; hiding changes neither index membership nor featured status |
| Admin.HideListing | convex/admin.ts:75-83 | requireAdmin first; "Listing not found" on a missing id; otherwise only that listing's isHidden flips |
| Admin.RemoveListing | convex/admin.ts:85-91 | requireAdmin first; the platform's patch error on a missing id; otherwise that listing alone becomes "removed" with updatedAt = now |
| Admin.ResolveReport | convex/admin.ts:101-107 | requireAdmin first; the platform's patch error on a missing id; otherwise only that report's status becomes "resolved" |
| Users.GetMe | convex/users.ts:5-19 | nothing when there is no identity; otherwise the user record whose token matches, if any |
| Users.NewUser | convex/users.ts:41-50 | the inserted user carries the token, name, email and avatar given, no bio or area, role "user", not banned, not premium, createdAt = now |
| Users.NameOrDefault | convex/users.ts:43 | `name ?? "Anonymous"`: only a missing name is replaced |
| Users.AppendKeepsSignIn | convex/users.ts:41-50 | inserting a user leaves every known token's resolution unchanged, and a new token resolves to the new record |
| Users.GetOrCreate | convex/users.ts:28-52 | "Not authenticated" without an identity; a known token returns its user and inserts nothing; otherwise appends a user with role "user", not banned, not premium, named `name ?? "Anonymous"`; a second call returns the same id |
| Users.Profiled | convex/users.ts:70-74 | sets name, email and avatarUrl, and nothing else |
| Users.ProfilePatchKeepsSignIn | convex/users.ts:70-74 | a profile patch changes no token's resolution |
| Users.CreateOrUpdate | convex/users.ts:54-89 | a known token's user is patched in name, email and avatarUrl and keeps its id; otherwise a new user is appended; a second call resolves to the same id |
| Users.EditKeepsStanding | convex/users.ts:108-114 | a profile edit keeps role, ban, premium, token, email and createdAt; an empty edit changes nothing; editing twice is editing once |
| Users.Edited | convex/users.ts:108-112 | name, bio, area and avatarUrl each take the supplied value or keep the old one when omitted; every other field is unchanged |
| Users.Update | convex/users.ts:91-117 | "Not authenticated" or "User not found" first; otherwise only the caller's record changes, by the supplied name, bio, area and avatarUrl, and the caller's id is returned |
| Users.GetListingCount | convex/users.ts:119-130 | the number of the seller's active listings: the length of the seller's active listing page; 0 exactly when the seller has no active listing |
| Numerals.NatToString | src/lib/utils.ts:10-23 | a non-empty string of decimal digits with a leading zero only for 0 |
| Numerals.NatToStringValue | src/lib/utils.ts:10-23 | reading a printed numeral gives the number back |
| Numerals.NatToStringInjective | src/lib/utils.ts:10-23 | different numbers print differently |
| Format.FixedZero | src/lib/utils.ts:10 | `toFixed(0)` of cents/100: a leading "-" exactly for negative input, then a digit string without a leading zero whose value n satisfies n*100 - 50 <= abs(cents) < n*100 + 50, i.e. the magnitude rounded half up |
| Format.FormatPrice | src/lib/utils.ts:8-11 | the "Free — just take it" label exactly for 0 cents; any other price starts with "$" |
| Format.PositivePrice | src/lib/utils.ts:10 | for positive cents, the digits after "$" read back as a dollar amount within half a dollar of the price, halves rounding up |
| Format.NegativePrice | src/lib/utils.ts:10 | for negative cents, "$-" followed by digits that read back as the nearest dollar amount to the magnitude, halves rounding away from zero |
| Format.SamePrintedPrice | src/lib/utils.ts:10 | two positive prices print alike exactly when they round to the same dollar amount |
| Format.FormatTimeAgo | src/lib/utils.ts:13-25 | "Just now" exactly when the difference is under 60000 ms, future timestamps included; a relative phrase exactly when the difference is under 7 days; otherwise the locale date of the timestamp |
| Format.MinutesAgo | src/lib/utils.ts:16-21 | from one minute up to one hour: "Nm ago" with N whole minutes, 1..59 |
| Format.HoursAgo | src/lib/utils.ts:17-22 | from one hour up to one day: "Nh ago" with N whole hours, 1..23 |
| Format.DaysAgo | src/lib/utils.ts:18-23 | from one day up to seven days: "Nd ago" with N whole days, 1..6 |

## Left out

- Boost lifecycle: the bodies of `boostListing` (called from the Stripe webhook route) and of the `expireBoosts` sweep (scheduled in convex/crons.ts) are not part of this model. Only the read-time "currently featured" test that `list` applies is modelled.
- The Stripe checkout and webhook routes, the React pages and components, and `cn` are not part of this model. They are network I/O and UI rendering.
- `get` in listings.ts and users.ts, `getConversation` and `listMessages` are plain reads of one document or one index range. `generateUploadUrl` and `getImageUrl` call the platform's file storage. None of them is modelled.
- `listUsers`, `listAllListings` and `listReports` are admin reads of a whole table in descending creation order. After `requireAdmin`, which is modelled, nothing remains to state about them.
- The locale-date branch of `formatTimeAgo` is returned as `LocaleDate(timestamp)`. The locale's rendering of that date is not modelled.
- Format.FixedZero: uses exact integer arithmetic. The source divides a floating-point number by 100, which agrees for prices below 2^53 cents. `toFixed` switches to exponent notation from 10^21 on, which is not modelled.
- Messages.Preview: counts characters. The source counts UTF-16 code units, which differ for characters outside the Basic Multilingual Plane.
- Feed.ListArgs: `limit` is a natural number. A negative or fractional limit is rejected by the platform and is not modelled.
- The user fields `phone`, `avatarStorageId` and `premiumUntil` are not read or written by the core handlers, so they are not modelled.
- Search: relevance ranking and the engine's own filtering are not modelled. The hits are an input sequence, already filtered by status, category and area.
- Real-time subscriptions and transaction isolation are not modelled. Each handler is one atomic step on the store.
- Listings.Update: builds its `updates` record one field at a time. The model applies the finished patch (`Listings.Patched`) in one step; the result is the same.
- Messages.GetUnreadCount: the source's `by_buyer`/`by_seller` reads come in index order. The model sums them in creation order; a sum does not depend on order.
