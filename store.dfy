/** The platform's document database, one table per field. Handlers insert
    by appending (the new id is the old length) and patch by replacing one
    position. */
module Store {
  import opened Schema

  /** The conversations table as the handlers keep it: each document records
      its own id, nobody talks to themself, and there is at most one
      conversation per listing and buyer. */
  ghost predicate WellFormed(convs: seq<Conversation>) {
    && (forall i :: 0 <= i < |convs| ==> convs[i].id == i && convs[i].buyerId != convs[i].sellerId)
    && (forall i, j :: 0 <= i < j < |convs| ==>
          convs[i].listingId != convs[j].listingId || convs[i].buyerId != convs[j].buyerId)
  }

  class Db {
    var users: seq<User>
    var listings: seq<Listing>
    var conversations: seq<Conversation>
    var messages: seq<Message>
    var reports: seq<Report>

    ghost predicate Valid()
      reads this
    {
      WellFormed(conversations)
    }

    constructor ()
      ensures Valid()
      ensures users == [] && listings == [] && conversations == []
      ensures messages == [] && reports == []
    {
      users, listings, conversations, messages, reports := [], [], [], [], [];
    }
  }
}
