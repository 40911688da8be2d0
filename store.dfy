/** The document store the application talks to: four collections of
    documents keyed by id. A field that a document lacks, or that holds
    `null`, is `None`. Timestamps are milliseconds since the epoch. */
module Store {

  datatype Option<T> = None | Some(value: T)

  /** A document of the `items` collection, as the two report forms write it
      and as the admin panel updates it. */
  datatype Item = Item(
    itemName: string,
    description: string,
    location: string,
    date: string,
    reporterName: string,
    sapId: string,
    course: string,
    contactEmail: string,
    title: Option<string>,
    isLost: bool,
    isFound: Option<bool>,
    status: Option<string>,
    image: Option<string>,
    imageUrl: Option<string>,
    imageType: Option<string>,
    imageData: Option<string>,
    timestamp: int,
    claimStatus: Option<string>,
    claimedBy: Option<string>,
    claimId: Option<string>,
    foundAt: Option<int>)

  /** A document of the `claims` collection: who asks for which item, and how
      the request stands ('pending', 'approved' or 'rejected'). */
  datatype Claim = Claim(
    itemId: string,
    userId: string,
    userName: string,
    userEmail: string,
    claimDate: int,
    claimStatus: string,
    processedAt: Option<int>)

  /** A document of the `notifications` collection. */
  datatype Notification = Notification(
    userId: string,
    message: string,
    kind: string,
    chatMessageId: Option<string>,
    timestamp: int,
    read: bool,
    senderId: string,
    senderEmail: string,
    senderIsAdmin: bool)

  /** What a chat message shares when it shares an item post. */
  datatype PostDetails = PostDetails(
    id: string,
    title: string,
    description: string,
    image: string,
    status: string,
    category: string,
    location: string)

  /** A document of the `chatting` collection. */
  datatype ChatMessage = ChatMessage(
    text: string,
    userId: string,
    userEmail: string,
    isAdmin: bool,
    timestamp: int,
    read: bool,
    sharedPost: Option<PostDetails>)

  /** A document as a query snapshot delivers it: its id and its data. */
  datatype Doc<T> = Doc(id: string, data: T)

  /** What `addDoc` reports: the id the store chose, or the error it threw. */
  datatype AddResult = Added(id: string) | AddFailed(message: string)

  /** The store itself. Every write of the application is a change of one of
      these maps. */
  class Database {
    var items: map<string, Item>
    var claims: map<string, Claim>
    var notifications: map<string, Notification>
    var chatting: map<string, ChatMessage>

    constructor ()
      ensures items == map[] && claims == map[]
      ensures notifications == map[] && chatting == map[]
    {
      items, claims := map[], map[];
      notifications, chatting := map[], map[];
    }
  }
}

/** What a store query hands back: the documents of one collection that pass
    the query's `where` filter, each once, in the order of its `orderBy`. */
module Query {
  import opened Store

  ghost predicate IsSnapshot<T>(coll: map<string, T>, matches: T -> bool, key: T -> int,
                                descending: bool, docs: seq<Doc<T>>)
  {
    && (forall i :: 0 <= i < |docs| ==>
          docs[i].id in coll && coll[docs[i].id] == docs[i].data && matches(docs[i].data))
    && (forall i, j :: 0 <= i < j < |docs| ==> docs[i].id != docs[j].id)
    && (forall id :: id in coll && matches(coll[id]) ==>
          exists i :: 0 <= i < |docs| && docs[i].id == id)
    && (forall i, j :: 0 <= i < j < |docs| ==>
          if descending then key(docs[j].data) <= key(docs[i].data)
          else key(docs[i].data) <= key(docs[j].data))
  }

  /** A snapshot stays a snapshot when its documents are rewritten in place
      without changing their ids or keys, the rewritten documents are those
      of the new collection, and the new collection matches no document the
      old one did not. */
  lemma SnapshotAfterUpdate<T>(coll: map<string, T>, coll': map<string, T>, matches: T -> bool,
                               key: T -> int, descending: bool,
                               docs: seq<Doc<T>>, docs': seq<Doc<T>>)
    requires IsSnapshot(coll, matches, key, descending, docs)
    requires |docs'| == |docs|
    requires forall i :: 0 <= i < |docs| ==>
      docs'[i].id == docs[i].id && key(docs'[i].data) == key(docs[i].data)
    requires forall i :: 0 <= i < |docs'| ==>
      docs'[i].id in coll' && coll'[docs'[i].id] == docs'[i].data && matches(docs'[i].data)
    requires forall id :: id in coll' && matches(coll'[id]) ==> id in coll && matches(coll[id])
    ensures IsSnapshot(coll', matches, key, descending, docs')
  {
    forall id | id in coll' && matches(coll'[id])
      ensures exists i :: 0 <= i < |docs'| && docs'[i].id == id
    {
      var i :| 0 <= i < |docs| && docs[i].id == id;
      assert docs'[i].id == id;
    }
  }
}
