/** The documents of the marketplace's tables (convex/schema.ts), the
    handlers' errors, and the signed-in identity the platform supplies.

    A table is a sequence in insertion order and a document's id is its
    position: no handler ever deletes a document, so ids grow with
    `_creationTime`, which is the platform's final tie-break in every index. */
module Schema {
  import opened Base

  type UserId = nat
  type ListingId = nat
  type ConversationId = nat
  type MessageId = nat
  type ReportId = nat

  /** What `ctx.auth.getUserIdentity()` returns when someone is signed in. */
  datatype Identity = Identity(
    tokenIdentifier: string,
    name: Option<string>,
    email: Option<string>,
    pictureUrl: Option<string>)

  datatype User = User(
    tokenIdentifier: Option<string>,
    name: string,
    email: Option<string>,
    avatarUrl: Option<string>,
    bio: Option<string>,
    area: Option<string>,
    role: string,
    isBanned: bool,
    isPremium: bool,
    createdAt: int)

  datatype Listing = Listing(
    sellerId: UserId,
    title: string,
    description: string,
    story: Option<string>,
    price: int,
    photos: seq<string>,
    category: string,
    area: string,
    condition: string,
    status: string,
    featured: bool,
    featuredUntil: Option<int>,
    reportCount: int,
    isHidden: bool,
    viewCount: int,
    createdAt: int,
    updatedAt: int)

  /** Conversations carry their own id: `listConversations` de-duplicates on it. */
  datatype Conversation = Conversation(
    id: ConversationId,
    listingId: ListingId,
    buyerId: UserId,
    sellerId: UserId,
    lastMessageAt: int,
    lastMessagePreview: Option<string>,
    buyerUnread: int,
    sellerUnread: int)

  datatype Message = Message(
    conversationId: ConversationId,
    senderId: UserId,
    text: string,
    createdAt: int)

  datatype Report = Report(
    listingId: ListingId,
    reporterId: UserId,
    reason: string,
    details: Option<string>,
    status: string,
    createdAt: int)

  const Active := "active"
  const Sold := "sold"
  const Removed := "removed"
  const Pending := "pending"
  const Resolved := "resolved"
  const AdminRole := "admin"
  const UserRole := "user"

  /** The exceptions the handlers throw. */
  datatype Error =
    | NotAuthenticated
    | UserNotFound
    | NotAuthorized
    | UserBanned
    | FreeTierLimit
    | ListingNotFound
    | AlreadyReported
    | CannotMessageSelf
    | ConversationNotFound
    | NotParticipant
    | NonexistentDocument  // thrown by the platform's `db.patch` on an id with no document

  function ErrorText(e: Error): string {
    match e
    case NotAuthenticated => "Not authenticated"
    case UserNotFound => "User not found"
    case NotAuthorized => "Not authorized"
    case UserBanned => "User is banned"
    case FreeTierLimit => "Free tier limit: 3 active listings max"
    case ListingNotFound => "Listing not found"
    case AlreadyReported => "You already reported this listing"
    case CannotMessageSelf => "Can't message yourself"
    case ConversationNotFound => "Conversation not found"
    case NotParticipant => "Not part of this conversation"
    case NonexistentDocument => "Update on nonexistent document"
  }

  datatype Result<+T> = Ok(value: T) | Err(error: Error)

  /** JavaScript truthiness of an optional string argument: present and non-empty. */
  predicate Given(o: Option<string>) {
    o.Some? && o.value != ""
  }
}
