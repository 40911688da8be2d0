/** The notification bell (src/components/NotificationSystem.js): the live list
    of a user's notifications, its unread count, marking a notification read
    when it is clicked, and the "how long ago" label. */
module NotificationSystem {
  import opened JsText
  import opened Store
  import opened Query

  // ---------------------------------------------------------------------------
  // The subscription

  /** The `where` filter of the subscription: notifications addressed to the
      user, and those addressed to 'admin'. */
  predicate VisibleTo(uid: string, n: Notification) {
    n.userId == uid || n.userId == "admin"
  }

  function TimestampOf(n: Notification): int {
    n.timestamp
  }

  /** A snapshot of the subscription: the visible notifications, newest first. */
  ghost predicate IsFeed(coll: map<string, Notification>, uid: string, docs: seq<Doc<Notification>>) {
    IsSnapshot(coll, n => VisibleTo(uid, n), TimestampOf, true, docs)
  }

  /** As written, a notification addressed to 'admin' is in every user's feed,
      whoever the user is. */
  lemma AdminAddressedInEveryFeed(coll: map<string, Notification>, uid: string,
                                  docs: seq<Doc<Notification>>, id: string)
    requires IsFeed(coll, uid, docs)
    requires id in coll && coll[id].userId == "admin"
    ensures exists i :: 0 <= i < |docs| && docs[i].id == id
  {
    assert VisibleTo(uid, coll[id]);
  }

  // ---------------------------------------------------------------------------
  // The unread count

  /** `notifications.filter(n => !n.read).length` */
  function UnreadCount(docs: seq<Doc<Notification>>): (r: nat)
    ensures r <= |docs|
    ensures r == 0 <==> forall i :: 0 <= i < |docs| ==> docs[i].data.read
    ensures r == |docs| <==> forall i :: 0 <= i < |docs| ==> !docs[i].data.read
  {
    if docs == [] then 0
    else (if docs[0].data.read then 0 else 1) + UnreadCount(docs[1..])
  }

  /** A feed snapshot after notification `id` is marked read: the clicked
      entry read, every other entry as it was (see `FeedAfterMarkRead`). */
  function MarkReadIn(docs: seq<Doc<Notification>>, id: string): (r: seq<Doc<Notification>>)
    ensures |r| == |docs|
    ensures forall i :: 0 <= i < |docs| ==>
      r[i] == if docs[i].id == id then Doc(id, docs[i].data.(read := true)) else docs[i]
  {
    if docs == [] then []
    else [if docs[0].id == id then Doc(id, docs[0].data.(read := true)) else docs[0]]
         + MarkReadIn(docs[1..], id)
  }

  /** Marking read the one unread notification with a given id lowers the
      unread count by exactly one. */
  lemma {:induction false} MarkReadLowersCount(docs: seq<Doc<Notification>>, k: nat)
    requires k < |docs| && !docs[k].data.read
    requires forall i :: 0 <= i < |docs| && i != k ==> docs[i].id != docs[k].id
    ensures UnreadCount(MarkReadIn(docs, docs[k].id)) == UnreadCount(docs) - 1
  {
    var id := docs[k].id;
    var r := MarkReadIn(docs, id);
    assert r[1..] == MarkReadIn(docs[1..], id);
    if k == 0 {
      MarkReadKeepsCount(docs[1..], id);
    } else {
      assert docs[0].id != id;
      MarkReadLowersCount(docs[1..], k - 1);
    }
  }

  /** Marking read an id no notification of the list has changes nothing. */
  lemma {:induction false} MarkReadKeepsCount(docs: seq<Doc<Notification>>, id: string)
    requires forall i :: 0 <= i < |docs| ==> docs[i].id != id
    ensures MarkReadIn(docs, id) == docs
  {
    if docs != [] {
      MarkReadKeepsCount(docs[1..], id);
    }
  }

  // ---------------------------------------------------------------------------
  // Marking read

  /** What `markAsRead(id)` does to the collection: only `read` of that one
      notification becomes true; updating a missing document throws and the
      error is only logged. */
  function MarkRead(coll: map<string, Notification>, id: string): (r: map<string, Notification>)
    ensures r.Keys == coll.Keys
    ensures forall other :: other in coll && other != id ==> r[other] == coll[other]
    ensures id in coll ==> r[id].read && r[id].(read := coll[id].read) == coll[id]
  {
    if id in coll then coll[id := coll[id].(read := true)] else coll
  }

  method MarkAsRead(db: Database, id: string)
    modifies db`notifications
    ensures db.notifications == MarkRead(old(db.notifications), id)
  {
    if id in db.notifications {
      db.notifications := db.notifications[id := db.notifications[id].(read := true)];
    }
  }

  /** Marking read twice is marking read once. */
  lemma MarkReadIdempotent(coll: map<string, Notification>, id: string)
    ensures MarkRead(MarkRead(coll, id), id) == MarkRead(coll, id)
  {
  }

  /** The store and the bell's list stay in step: once notification `id` is
      marked read in the store, marking it read in a feed snapshot gives a
      feed snapshot of the new store. */
  lemma FeedAfterMarkRead(coll: map<string, Notification>, uid: string,
                          docs: seq<Doc<Notification>>, id: string)
    requires IsFeed(coll, uid, docs)
    ensures IsFeed(MarkRead(coll, id), uid, MarkReadIn(docs, id))
  {
    var coll', docs' := MarkRead(coll, id), MarkReadIn(docs, id);
    var visible := n => VisibleTo(uid, n);
    forall i | 0 <= i < |docs'|
      ensures docs'[i].id in coll' && coll'[docs'[i].id] == docs'[i].data
      ensures visible(docs'[i].data)
    {
      assert docs[i].id in coll && coll[docs[i].id] == docs[i].data && visible(docs[i].data);
    }
    forall other | other in coll' && visible(coll'[other])
      ensures other in coll && visible(coll[other])
    {
    }
    SnapshotAfterUpdate(coll, coll', visible, TimestampOf, true, docs, docs');
  }

  /** Clicking an unread notification of the feed: the store's feed then has
      one unread notification fewer, the clicked one now read. */
  lemma ClickLowersFeedCount(coll: map<string, Notification>, uid: string,
                             docs: seq<Doc<Notification>>, k: nat)
    requires IsFeed(coll, uid, docs)
    requires k < |docs| && !docs[k].data.read
    ensures var docs' := MarkReadIn(docs, docs[k].id);
      && IsFeed(MarkRead(coll, docs[k].id), uid, docs')
      && UnreadCount(docs') == UnreadCount(docs) - 1
      && docs'[k].data.read
  {
    FeedAfterMarkRead(coll, uid, docs, docs[k].id);
    MarkReadLowersCount(docs, k);
  }

  /** The bell's state. */
  class NotificationBell {
    const uid: string
    var notifications: seq<Doc<Notification>>
    var showNotifications: bool
    var unreadCount: nat

    constructor (uid: string)
      ensures this.uid == uid && notifications == [] && !showNotifications && unreadCount == 0
    {
      this.uid := uid;
      notifications, showNotifications, unreadCount := [], false, 0;
    }

    /** The subscription delivers a new snapshot. */
    method OnSnapshot(docs: seq<Doc<Notification>>)
      modifies this
      ensures notifications == docs && unreadCount == UnreadCount(docs)
      ensures showNotifications == old(showNotifications)
    {
      notifications := docs;
      unreadCount := UnreadCount(docs);
    }

    /** The bell icon toggles the dropdown. */
    method ToggleDropdown()
      modifies this
      ensures showNotifications == !old(showNotifications)
      ensures notifications == old(notifications) && unreadCount == old(unreadCount)
    {
      showNotifications := !showNotifications;
    }

    /** `handleNotificationClick(n)`: an unread notification is marked read in
        the store, a read one causes no write, and the dropdown closes. */
    method HandleNotificationClick(db: Database, n: Doc<Notification>)
      modifies this, db`notifications
      ensures !n.data.read ==> db.notifications == MarkRead(old(db.notifications), n.id)
      ensures n.data.read ==> db.notifications == old(db.notifications)
      ensures !showNotifications
      ensures notifications == old(notifications) && unreadCount == old(unreadCount)
    {
      if !n.data.read {
        MarkAsRead(db, n.id);
      }
      showNotifications := false;
    }
  }

  // ---------------------------------------------------------------------------
  // "How long ago"

  /** The argument of `formatTimestamp`: a `Date`, or anything else. */
  datatype Timestamp = NotADate | Date(ms: int)

  /** The unit and count the label shows. */
  datatype Elapsed = Minutes(n: int) | Hours(n: int) | Days(n: int)

  const MsPerMinute := 60000

  /** The bucketing of `formatTimestamp` for an elapsed time of `diff`
      milliseconds: `Math.floor` by 60000, then by 60, then by 24 (for a
      positive divisor Dafny's `/` is `Math.floor` of the quotient). */
  function Bucket(diff: int): Elapsed {
    var minutes := diff / MsPerMinute;
    var hours := minutes / 60;
    var days := hours / 24;
    if minutes < 60 then Minutes(minutes)
    else if hours < 24 then Hours(hours)
    else Days(days)
  }

  /** Flooring by 60000 and then by 60 is flooring by 3600000. */
  lemma HoursFloor(diff: int)
    ensures (diff / 60000) / 60 == diff / 3600000
  {
    var m := diff / 60000;
    var h := m / 60;
    assert 60000 * m <= diff < 60000 * m + 60000;
    assert 60 * h <= m < 60 * h + 60;
    assert 3600000 * h <= diff < 3600000 * h + 3600000;
  }

  /** Flooring by 3600000 and then by 24 is flooring by 86400000. */
  lemma DaysFloor(diff: int)
    ensures (diff / 3600000) / 24 == diff / 86400000
  {
    var h := diff / 3600000;
    var d := h / 24;
    assert 3600000 * h <= diff < 3600000 * h + 3600000;
    assert 24 * d <= h < 24 * d + 24;
    assert 86400000 * d <= diff < 86400000 * d + 86400000;
  }

  /** Each label names the whole number of its units that have elapsed: below an
      hour the minutes, below a day the hours, from a day on the days. */
  lemma BucketBounds(diff: int)
    ensures match Bucket(diff)
      case Minutes(m) => diff < 3600000 && m * 60000 <= diff < (m + 1) * 60000
      case Hours(h) => 3600000 <= diff < 86400000 && 0 < h < 24 && h * 3600000 <= diff < (h + 1) * 3600000
      case Days(d) => 86400000 <= diff && 0 < d && d * 86400000 <= diff < (d + 1) * 86400000
  {
    HoursFloor(diff);
    DaysFloor(diff);
  }

  function Label(e: Elapsed): string {
    match e
    case Minutes(m) => IntToString(m) + "m ago"
    case Hours(h) => IntToString(h) + "h ago"
    case Days(d) => IntToString(d) + "d ago"
  }

  /** `formatTimestamp(timestamp)` at time `now`: the empty string for anything
      but a `Date`. */
  function FormatTimestamp(ts: Timestamp, now: int): (r: string)
    ensures ts == NotADate ==> r == ""
  {
    match ts
    case NotADate => ""
    case Date(ms) => Label(Bucket(now - ms))
  }

  /** The label can be read back: its unit suffix and its count give back the
      bucket, so two timestamps get the same label exactly when they fall in
      the same bucket. */
  lemma LabelInjective(a: Elapsed, b: Elapsed)
    ensures Label(a) == Label(b) <==> a == b
  {
    if Label(a) == Label(b) {
      var la, lb := Label(a), Label(b);
      assert la[|la| - 5] == lb[|lb| - 5];
      var sa := la[..|la| - 5];
      var sb := lb[..|lb| - 5];
      assert sa == IntToString(a.n);
      assert sb == IntToString(b.n);
      IntToStringInjective(a.n, b.n);
    }
  }
}
