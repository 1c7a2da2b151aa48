/** The buyer–seller messaging handlers of convex/messages.ts. */
module Messages {
  import opened Base
  import opened Schema
  import opened Auth
  import opened Store

  /** How much of a message the conversation list shows before "...". */
  const PreviewLength: nat := 80

  predicate Involves(c: Conversation, u: UserId) {
    c.buyerId == u || c.sellerId == u
  }

  /** `.withIndex("by_listing_buyer", ...).first()`. */
  function FindConversation(convs: seq<Conversation>, listingId: ListingId, buyer: UserId): (r: Option<ConversationId>)
    ensures r.Some? ==> r.value < |convs| && convs[r.value].listingId == listingId && convs[r.value].buyerId == buyer
    ensures r.Some? ==>
      forall j :: 0 <= j < r.value ==> convs[j].listingId != listingId || convs[j].buyerId != buyer
    ensures r.None? <==>
      forall j :: 0 <= j < |convs| ==> convs[j].listingId != listingId || convs[j].buyerId != buyer
  {
    FirstWhere(convs, (c: Conversation) => c.listingId == listingId && c.buyerId == buyer)
  }

  /** The preview stored on the conversation: the text, cut to 80 characters
      and marked with "..." when it is longer. */
  function Preview(text: string): (r: string)
    ensures |text| <= PreviewLength ==> r == text
    ensures |text| > PreviewLength ==>
      |r| == PreviewLength + 3 && r[..PreviewLength] == text[..PreviewLength] && r[PreviewLength..] == "..."
  {
    if |text| > PreviewLength then text[..PreviewLength] + "..." else text
  }

  /** A preview never exceeds 83 characters and always starts like the text. */
  lemma PreviewIsPrefix(text: string)
    ensures |Preview(text)| <= PreviewLength + 3
    ensures var n := if |text| < PreviewLength then |text| else PreviewLength;
      n <= |Preview(text)| && Preview(text)[..n] == text[..n]
  {
  }

  /** The conversation after `sender` sends `text` at `now`: the other side
      gains one unread message. */
  function AfterSend(c: Conversation, sender: UserId, text: string, now: int): (r: Conversation)
    ensures r.id == c.id && r.listingId == c.listingId && r.buyerId == c.buyerId && r.sellerId == c.sellerId
    ensures r.lastMessageAt == now && r.lastMessagePreview == Some(Preview(text))
    ensures sender == c.buyerId ==> r.sellerUnread == c.sellerUnread + 1 && r.buyerUnread == c.buyerUnread
    ensures sender != c.buyerId ==> r.buyerUnread == c.buyerUnread + 1 && r.sellerUnread == c.sellerUnread
  {
    var c := c.(lastMessageAt := now, lastMessagePreview := Some(Preview(text)));
    if sender == c.buyerId then c.(sellerUnread := c.sellerUnread + 1)
    else c.(buyerUnread := c.buyerUnread + 1)
  }

  /** The conversation after `reader` opens it: the buyer's counter is reset
      when the reader is the buyer, otherwise the seller's. */
  function AfterRead(c: Conversation, reader: UserId): (r: Conversation)
    ensures reader == c.buyerId ==> r == c.(buyerUnread := 0)
    ensures reader != c.buyerId ==> r == c.(sellerUnread := 0)
  {
    if reader == c.buyerId then c.(buyerUnread := 0) else c.(sellerUnread := 0)
  }

  /** The unread messages `u` has in `c`. */
  function Owed(c: Conversation, u: UserId): int {
    (if c.buyerId == u then c.buyerUnread else 0) + (if c.sellerId == u then c.sellerUnread else 0)
  }

  /** The reference count: every conversation's unread messages for `u`. */
  function UnreadCount(convs: seq<Conversation>, u: UserId): int {
    if convs == [] then 0 else Owed(convs[0], u) + UnreadCount(convs[1..], u)
  }

  /** Replacing one conversation changes the count by that conversation's share. */
  lemma {:induction false} UnreadCountPatch(convs: seq<Conversation>, i: nat, c: Conversation, u: UserId)
    requires i < |convs|
    ensures UnreadCount(convs[i := c], u) == UnreadCount(convs, u) - Owed(convs[i], u) + Owed(c, u)
  {
    if i > 0 {
      UnreadCountPatch(convs[1..], i - 1, c, u);
      assert convs[i := c][1..] == convs[1..][i - 1 := c];
    }
  }

  /** A message raises the other party's unread count by one and leaves the
      sender's alone. */
  lemma SendNotifiesOtherParty(convs: seq<Conversation>, i: nat, sender: UserId, text: string, now: int)
    requires i < |convs| && WellFormed(convs) && Involves(convs[i], sender)
    ensures var other := if sender == convs[i].buyerId then convs[i].sellerId else convs[i].buyerId;
      var after := convs[i := AfterSend(convs[i], sender, text, now)];
      UnreadCount(after, other) == UnreadCount(convs, other) + 1
      && UnreadCount(after, sender) == UnreadCount(convs, sender)
  {
    var c := AfterSend(convs[i], sender, text, now);
    var other := if sender == convs[i].buyerId then convs[i].sellerId else convs[i].buyerId;
    UnreadCountPatch(convs, i, c, other);
    UnreadCountPatch(convs, i, c, sender);
  }

  /** Reading a conversation clears the reader's unread messages in it. */
  lemma ReadClearsOwnCount(convs: seq<Conversation>, i: nat, reader: UserId)
    requires i < |convs| && WellFormed(convs) && Involves(convs[i], reader)
    ensures Owed(AfterRead(convs[i], reader), reader) == 0
    ensures UnreadCount(convs[i := AfterRead(convs[i], reader)], reader)
         == UnreadCount(convs, reader) - Owed(convs[i], reader)
  {
    UnreadCountPatch(convs, i, AfterRead(convs[i], reader), reader);
  }

  /** `markRead` by someone outside the conversation still clears the
      seller's counter (the handler checks no participation). */
  lemma ReadByOutsiderClearsSeller(c: Conversation, reader: UserId)
    requires !Involves(c, reader)
    ensures AfterRead(c, reader).sellerUnread == 0 && AfterRead(c, reader).buyerUnread == c.buyerUnread
  {
  }

  method GetOrCreateConversation(db: Db, identity: Option<Identity>, listingId: ListingId, now: int)
    returns (r: Result<ConversationId>)
    requires db.Valid()
    modifies db`conversations
    ensures db.Valid()
    ensures match CurrentUser(db.users, identity)
      case Err(e) => r == Err(e) && db.conversations == old(db.conversations)
      case Ok(u) =>
        if listingId >= |db.listings| then
          r == Err(ListingNotFound) && db.conversations == old(db.conversations)
        else if db.listings[listingId].sellerId == u then
          r == Err(CannotMessageSelf) && db.conversations == old(db.conversations)
        else
          match FindConversation(old(db.conversations), listingId, u)
          case Some(k) => r == Ok(k) && db.conversations == old(db.conversations)
          case None =>
            r == Ok(|old(db.conversations)|)
            && db.conversations == old(db.conversations) +
                 [Conversation(|old(db.conversations)|, listingId, u, db.listings[listingId].sellerId, now, None, 0, 0)]
    // A second call by the same buyer finds the same conversation.
    ensures r.Ok? ==>
      FindConversation(db.conversations, listingId, CurrentUser(db.users, identity).value) == Some(r.value)
  {
    var who := CurrentUser(db.users, identity);
    if who.Err? {
      return Err(who.error);
    }
    var u := who.value;
    if listingId >= |db.listings| {
      return Err(ListingNotFound);
    }
    var listing := db.listings[listingId];
    if listing.sellerId == u {
      return Err(CannotMessageSelf);
    }
    var existing := FindConversation(db.conversations, listingId, u);
    if existing.Some? {
      return Ok(existing.value);
    }
    var id := |db.conversations|;
    var convs := db.conversations + [Conversation(id, listingId, u, listing.sellerId, now, None, 0, 0)];
    assert forall j :: 0 <= j < id ==> convs[j] == db.conversations[j];
    assert convs[id].listingId == listingId && convs[id].buyerId == u;
    var found := FindConversation(convs, listingId, u);
    assert found.Some? && found.value >= id;
    db.conversations := convs;
    r := Ok(id);
  }

  method SendMessage(db: Db, identity: Option<Identity>, conversationId: ConversationId, text: string, now: int)
    returns (r: Result<()>)
    requires db.Valid()
    modifies db`conversations, db`messages
    ensures db.Valid()
    ensures match CurrentUser(db.users, identity)
      case Err(e) => r == Err(e) && db.conversations == old(db.conversations) && db.messages == old(db.messages)
      case Ok(u) =>
        if conversationId >= |old(db.conversations)| then
          r == Err(ConversationNotFound) && db.conversations == old(db.conversations) && db.messages == old(db.messages)
        else if !Involves(old(db.conversations)[conversationId], u) then
          r == Err(NotParticipant) && db.conversations == old(db.conversations) && db.messages == old(db.messages)
        else
          r == Ok(())
          && db.messages == old(db.messages) + [Message(conversationId, u, text, now)]
          && db.conversations == old(db.conversations)[conversationId :=
               AfterSend(old(db.conversations)[conversationId], u, text, now)]
  {
    var who := CurrentUser(db.users, identity);
    if who.Err? {
      return Err(who.error);
    }
    var u := who.value;
    if conversationId >= |db.conversations| {
      return Err(ConversationNotFound);
    }
    var conversation := db.conversations[conversationId];
    if conversation.buyerId != u && conversation.sellerId != u {
      return Err(NotParticipant);
    }
    db.messages := db.messages + [Message(conversationId, u, text, now)];
    db.conversations := db.conversations[conversationId := AfterSend(conversation, u, text, now)];
    r := Ok(());
  }

  /** A missing conversation is silently ignored. */
  method MarkRead(db: Db, identity: Option<Identity>, conversationId: ConversationId) returns (r: Result<()>)
    requires db.Valid()
    modifies db`conversations
    ensures db.Valid()
    ensures match CurrentUser(db.users, identity)
      case Err(e) => r == Err(e) && db.conversations == old(db.conversations)
      case Ok(u) =>
        r == Ok(())
        && if conversationId >= |old(db.conversations)| then db.conversations == old(db.conversations)
           else db.conversations == old(db.conversations)[conversationId :=
                  AfterRead(old(db.conversations)[conversationId], u)]
  {
    var who := CurrentUser(db.users, identity);
    if who.Err? {
      return Err(who.error);
    }
    var u := who.value;
    r := Ok(());
    if conversationId >= |db.conversations| {
      return;
    }
    var conversation := db.conversations[conversationId];
    db.conversations := db.conversations[conversationId := AfterRead(conversation, u)];
  }

  /** The documents of `u`'s `by_buyer` (or `by_seller`) index range, in
      creation order. */
  function Side(convs: seq<Conversation>, u: UserId, asBuyer: bool): (r: seq<Conversation>)
    ensures |r| <= |convs|
    ensures forall c :: c in r <==> c in convs && (if asBuyer then c.buyerId == u else c.sellerId == u)
  {
    if convs == [] then []
    else
      var keep := if asBuyer then convs[0].buyerId == u else convs[0].sellerId == u;
      (if keep then [convs[0]] else []) + Side(convs[1..], u, asBuyer)
  }

  /** The comparator `b.lastMessageAt - a.lastMessageAt`: most recent first. */
  const RecentKey: Conversation -> Rank := (c: Conversation) => Rank(-c.lastMessageAt, 0)

  /** `.withIndex("by_buyer" | "by_seller", ...).order("desc")`: the index
      is keyed on `lastMessageAt`, newest first, and ties come newest
      document first. */
  function DescendingSide(convs: seq<Conversation>, u: UserId, asBuyer: bool): (r: seq<Conversation>)
    ensures forall c :: c in r <==> c in convs && (if asBuyer then c.buyerId == u else c.sellerId == u)
  {
    var side := Side(convs, u, asBuyer);
    SameMembers(Reverse(side), side);
    SameMembers(SortBy(Reverse(side), RecentKey), Reverse(side));
    SortBy(Reverse(side), RecentKey)
  }

  /** Both index ranges, joined and sorted by recency. */
  function Inbox(convs: seq<Conversation>, u: UserId): (r: seq<Conversation>)
    ensures forall c :: c in r <==> c in convs && Involves(c, u)
    ensures forall i, j :: 0 <= i < j < |r| ==> r[i].lastMessageAt >= r[j].lastMessageAt
  {
    var all := DescendingSide(convs, u, true) + DescendingSide(convs, u, false);
    SameMembers(SortBy(all, RecentKey), all);
    SortBySorted(all, RecentKey);
    SortBy(all, RecentKey)
  }

  /** The ids of the conversations in `s`. */
  function IdsOf(s: seq<Conversation>): set<ConversationId> {
    set c | c in s :: c.id
  }

  lemma IdsOfAppend(s: seq<Conversation>, c: Conversation)
    ensures IdsOf(s + [c]) == IdsOf(s) + {c.id}
  {
    forall x | x in IdsOf(s + [c]) ensures x in IdsOf(s) + {c.id} {
      var d :| d in s + [c] && d.id == x;
      if d != c {
        assert d in s;
      }
    }
    forall x | x in IdsOf(s) ensures x in IdsOf(s + [c]) {
      var d :| d in s && d.id == x;
      assert d in s + [c];
    }
    assert c in s + [c];
  }

  /** The `seen`-set filter: keeps the first conversation with each id, in
      input order. `kept` holds the input positions of the kept elements. */
  method KeepFirstOfEachId(all: seq<Conversation>) returns (r: seq<Conversation>, ghost kept: seq<nat>)
    requires forall i, j :: 0 <= i < j < |all| ==> all[i].lastMessageAt >= all[j].lastMessageAt
    ensures |kept| == |r|
    ensures forall k :: 0 <= k < |r| ==> kept[k] < |all| && r[k] == all[kept[k]]
    ensures forall j, k :: 0 <= j < k < |r| ==> kept[j] < kept[k]
    ensures forall k, j :: 0 <= k < |r| && 0 <= j < kept[k] ==> all[j].id != r[k].id
    ensures forall k :: 0 <= k < |r| ==> r[k] in all
    ensures IdsOf(r) == IdsOf(all)
    ensures forall j, k :: 0 <= j < k < |r| ==> r[j].id != r[k].id
    ensures forall j, k :: 0 <= j < k < |r| ==> r[j].lastMessageAt >= r[k].lastMessageAt
  {
    var seen: set<ConversationId> := {};
    r := [];
    kept := [];
    var i := 0;
    while i < |all|
      invariant i <= |all|
      invariant |kept| == |r|
      invariant forall k :: 0 <= k < |r| ==> kept[k] < i && r[k] == all[kept[k]]
      invariant forall j, k :: 0 <= j < k < |r| ==> kept[j] < kept[k]
      invariant forall k, j :: 0 <= k < |r| && 0 <= j < kept[k] ==> all[j].id != r[k].id
      invariant seen == IdsOf(r) == IdsOf(all[..i])
    {
      var c := all[i];
      assert all[..i + 1] == all[..i] + [c];
      IdsOfAppend(all[..i], c);
      if c.id !in seen {
        forall j | 0 <= j < i ensures all[j].id != c.id {
          assert all[j] in all[..i];
        }
        IdsOfAppend(r, c);
        seen := seen + {c.id};
        r := r + [c];
        kept := kept + [i];
      }
      i := i + 1;
    }
    assert all[..i] == all;
    KeptInOrder(all, r, kept);
  }

  /** Elements taken at increasing positions of a recency-ordered sequence,
      each the first of its id, are distinct, ordered by recency and from it. */
  lemma KeptInOrder(all: seq<Conversation>, r: seq<Conversation>, kept: seq<nat>)
    requires forall i, j :: 0 <= i < j < |all| ==> all[i].lastMessageAt >= all[j].lastMessageAt
    requires |kept| == |r|
    requires forall k :: 0 <= k < |r| ==> kept[k] < |all| && r[k] == all[kept[k]]
    requires forall j, k :: 0 <= j < k < |r| ==> kept[j] < kept[k]
    requires forall k, j :: 0 <= k < |r| && 0 <= j < kept[k] ==> all[j].id != r[k].id
    ensures forall k :: 0 <= k < |r| ==> r[k] in all
    ensures forall j, k :: 0 <= j < k < |r| ==> r[j].id != r[k].id
    ensures forall j, k :: 0 <= j < k < |r| ==> r[j].lastMessageAt >= r[k].lastMessageAt
  {
    forall k | 0 <= k < |r| ensures r[k] in all {
      assert r[k] == all[kept[k]];
    }
    forall j, k | 0 <= j < k < |r|
      ensures r[j].id != r[k].id && r[j].lastMessageAt >= r[k].lastMessageAt
    {
      assert kept[j] < kept[k];
      assert r[j] == all[kept[j]];
    }
  }

  /** `listConversations`: the user's conversations, most recent first, each
      once. Not signed in, or no user record: nothing. */
  method ListConversations(users: seq<User>, convs: seq<Conversation>, identity: Option<Identity>)
    returns (r: seq<Conversation>)
    ensures SignedIn(users, identity).None? ==> r == []
    ensures SignedIn(users, identity).Some? ==>
      var u := SignedIn(users, identity).value;
      && (forall k :: 0 <= k < |r| ==> r[k] in convs && Involves(r[k], u))
      && (forall c :: c in convs && Involves(c, u) ==> c.id in IdsOf(r))
      && (forall j, k :: 0 <= j < k < |r| ==> r[j].id != r[k].id)
      && (forall j, k :: 0 <= j < k < |r| ==> r[j].lastMessageAt >= r[k].lastMessageAt)
  {
    var user := SignedIn(users, identity);
    if user.None? {
      return [];
    }
    var u := user.value;
    var all := Inbox(convs, u);
    ghost var kept;
    r, kept := KeepFirstOfEachId(all);
    forall c | c in convs && Involves(c, u) ensures c.id in IdsOf(r) {
      assert c in all;
      assert c.id in IdsOf(all);
    }
  }

  /** What the loops of `getUnreadCount` add up over one index range. */
  function SideUnread(side: seq<Conversation>, asBuyer: bool): int {
    if side == [] then 0
    else (if asBuyer then side[0].buyerUnread else side[0].sellerUnread) + SideUnread(side[1..], asBuyer)
  }

  /** Summing each side separately counts every conversation's share once. */
  lemma {:induction false} SidesMakeUnreadCount(convs: seq<Conversation>, u: UserId)
    ensures SideUnread(Side(convs, u, true), true) + SideUnread(Side(convs, u, false), false)
         == UnreadCount(convs, u)
  {
    if convs != [] {
      SidesMakeUnreadCount(convs[1..], u);
      var c := convs[0];
      var b := Side(convs[1..], u, true);
      var s := Side(convs[1..], u, false);
      if c.buyerId == u {
        assert Side(convs, u, true) == [c] + b;
        assert ([c] + b)[1..] == b;
      } else {
        assert Side(convs, u, true) == b;
      }
      if c.sellerId == u {
        assert Side(convs, u, false) == [c] + s;
        assert ([c] + s)[1..] == s;
      } else {
        assert Side(convs, u, false) == s;
      }
    }
  }

  /** `getUnreadCount`: 0 when not signed in, otherwise the user's unread
      messages over all their conversations. */
  method GetUnreadCount(users: seq<User>, convs: seq<Conversation>, identity: Option<Identity>)
    returns (total: int)
    ensures SignedIn(users, identity).None? ==> total == 0
    ensures SignedIn(users, identity).Some? ==> total == UnreadCount(convs, SignedIn(users, identity).value)
  {
    var user := SignedIn(users, identity);
    if user.None? {
      return 0;
    }
    var u := user.value;
    var asBuyer := Side(convs, u, true);
    var asSeller := Side(convs, u, false);
    total := 0;
    for i := 0 to |asBuyer|
      invariant total + SideUnread(asBuyer[i..], true) == SideUnread(asBuyer, true)
    {
      assert asBuyer[i..][1..] == asBuyer[i + 1..];
      total := total + asBuyer[i].buyerUnread;
    }
    for i := 0 to |asSeller|
      invariant total + SideUnread(asSeller[i..], false)
             == SideUnread(asBuyer, true) + SideUnread(asSeller, false)
    {
      assert asSeller[i..][1..] == asSeller[i + 1..];
      total := total + asSeller[i].sellerUnread;
    }
    SidesMakeUnreadCount(convs, u);
  }
}
