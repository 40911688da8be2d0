/** The chat panel (src/components/ChatSystem.js): sending a message with an
    optimistic entry in the local list, the notification that goes with it,
    and sharing an item post. */
module ChatSystem {
  import opened JsText
  import opened Store
  import opened Query

  /** The signed-in user. */
  datatype ChatUser = ChatUser(uid: string, email: string)

  /** An entry of the local message list; `pending` marks the optimistic copy
      of a message not yet confirmed by the store. */
  datatype ChatEntry = ChatEntry(id: string, msg: ChatMessage, pending: bool)

  // ---------------------------------------------------------------------------
  // The subscription

  /** The `where` filter of the subscription: an admin sees every message, a
      user the messages stored under its own uid or under 'admin'. */
  predicate ChatVisible(isAdmin: bool, uid: string, m: ChatMessage) {
    isAdmin || m.userId == uid || m.userId == "admin"
  }

  function TimestampOf(m: ChatMessage): int {
    m.timestamp
  }

  /** A snapshot of the subscription: the visible messages, oldest first. */
  ghost predicate IsChatFeed(coll: map<string, ChatMessage>, isAdmin: bool, uid: string,
                             docs: seq<Doc<ChatMessage>>) {
    IsSnapshot(coll, m => ChatVisible(isAdmin, uid, m), TimestampOf, false, docs)
  }

  function EntriesOf(docs: seq<Doc<ChatMessage>>): (r: seq<ChatEntry>)
    ensures |r| == |docs|
    ensures forall i :: 0 <= i < |r| ==> r[i] == ChatEntry(docs[i].id, docs[i].data, false)
  {
    if docs == [] then [] else [ChatEntry(docs[0].id, docs[0].data, false)] + EntriesOf(docs[1..])
  }

  /** As written, a message an admin sends is stored under the admin's own uid,
      which a user's subscription does not match unless that uid is literally
      'admin': users do not see admin replies. */
  lemma AdminMessageHiddenFromUser(admin: ChatUser, user: ChatUser, text: string, now: int)
    requires admin.uid != "admin" && admin.uid != user.uid
    ensures !ChatVisible(false, user.uid, NewMessage(admin, true, text, now))
  {
  }

  // ---------------------------------------------------------------------------
  // Pure pieces of the send

  function NewMessage(user: ChatUser, isAdmin: bool, text: string, now: int): ChatMessage {
    ChatMessage(text, user.uid, user.email, isAdmin, now, false, None)
  }

  /** `'temp-' + Date.now()` */
  function TempId(now: int): string {
    "temp-" + IntToString(now)
  }

  /** Sends at different milliseconds get different temporary ids. */
  lemma TempIdInjective(a: int, b: int)
    ensures TempId(a) == TempId(b) ==> a == b
  {
    if TempId(a) == TempId(b) {
      assert IntToString(a) == TempId(a)[5..];
      assert IntToString(b) == TempId(b)[5..];
      IntToStringInjective(a, b);
    }
  }

  /** The notification goes to the sender's own uid when the sender is an
      admin, and to 'admin' otherwise. */
  function Recipient(isAdmin: bool, user: ChatUser): (r: string)
    ensures isAdmin ==> r == user.uid
    ensures !isAdmin ==> r == "admin"
  {
    if isAdmin then user.uid else "admin"
  }

  /** `email.split('@')[0]`: the text before the first `@`, the whole address
      when there is none. */
  function EmailPrefix(email: string): (r: string)
    ensures '@' !in r
    ensures |r| <= |email| && r == email[..|r|]
    ensures |r| < |email| ==> email[|r|] == '@'
  {
    if email == [] || email[0] == '@' then [] else [email[0]] + EmailPrefix(email[1..])
  }

  function SenderName(isAdmin: bool, user: ChatUser): string {
    if isAdmin then "Admin" else EmailPrefix(user.email)
  }

  /** The first 50 characters of the text, followed by `...` when anything was
      cut off. */
  function Preview(text: string): (r: string)
    ensures |text| <= 50 ==> r == text
    ensures |text| > 50 ==> |r| == 53 && r == text[..50] + "..."
  {
    (if |text| <= 50 then text else text[..50]) + (if |text| > 50 then "..." else "")
  }

  /** The message of the notification for `text` (already trimmed). */
  function PreviewMessage(isAdmin: bool, user: ChatUser, text: string): string {
    "New message from " + SenderName(isAdmin, user) + ": " + Preview(text)
  }

  /** The preview of a trimmed text is a prefix of it, at most 50 characters
      of it, behind the sender's name. */
  lemma PreviewMessageShape(isAdmin: bool, user: ChatUser, text: string)
    ensures var m := PreviewMessage(isAdmin, user, text);
      var head := "New message from " + SenderName(isAdmin, user) + ": ";
      && |head| <= |m| && m[..|head|] == head
      && var shown := if |text| <= 50 then text else text[..50];
      && m[|head|..|head| + |shown|] == shown
      && (m[|head| + |shown|..] == "..." <==> |text| > 50)
  {
    var m := PreviewMessage(isAdmin, user, text);
    var head := "New message from " + SenderName(isAdmin, user) + ": ";
    assert m == head + Preview(text);
    var shown := if |text| <= 50 then text else text[..50];
    assert m[|head|..] == Preview(text);
    if |text| <= 50 {
      assert m[|head| + |shown|..] == "";
    }
  }

  function NewNotification(isAdmin: bool, user: ChatUser, text: string, chatId: string, now: int)
    : Notification
  {
    Notification(Recipient(isAdmin, user), PreviewMessage(isAdmin, user, text), "new_message",
                 Some(chatId), now, false, user.uid, user.email, isAdmin)
  }

  // ---------------------------------------------------------------------------
  // The optimistic list operations

  predicate HasId(entries: seq<ChatEntry>, id: string) {
    exists i :: 0 <= i < |entries| && entries[i].id == id
  }

  /** `messages.map(m => m.id === tempId ? {...m, id: realId, pending: false} : m)` */
  function ReplaceId(entries: seq<ChatEntry>, tempId: string, realId: string): (r: seq<ChatEntry>)
    ensures |r| == |entries|
    ensures forall i :: 0 <= i < |entries| ==>
      r[i] == if entries[i].id == tempId then entries[i].(id := realId, pending := false) else entries[i]
  {
    if entries == [] then []
    else [if entries[0].id == tempId then entries[0].(id := realId, pending := false) else entries[0]]
         + ReplaceId(entries[1..], tempId, realId)
  }

  /** `messages.filter(m => m.id !== tempId)` */
  function RemoveId(entries: seq<ChatEntry>, tempId: string): (r: seq<ChatEntry>)
    ensures |r| <= |entries|
    ensures forall e :: e in r <==> e in entries && e.id != tempId
  {
    if entries == [] then []
    else (if entries[0].id == tempId then [] else [entries[0]]) + RemoveId(entries[1..], tempId)
  }

  /** Removing an id the list does not hold leaves the list as it is. */
  lemma {:induction false} RemoveAbsent(entries: seq<ChatEntry>, id: string)
    requires !HasId(entries, id)
    ensures RemoveId(entries, id) == entries
  {
    if entries != [] {
      assert !HasId(entries[1..], id) by {
        forall i | 0 <= i < |entries| - 1 ensures entries[1..][i].id != id {
          assert entries[1..][i] == entries[i + 1];
        }
      }
      RemoveAbsent(entries[1..], id);
    }
  }

  lemma {:induction false} RemoveDistributes(a: seq<ChatEntry>, b: seq<ChatEntry>, id: string)
    ensures RemoveId(a + b, id) == RemoveId(a, id) + RemoveId(b, id)
  {
    if a == [] {
      assert a + b == b;
    } else {
      assert (a + b)[0] == a[0];
      assert (a + b)[1..] == a[1..] + b;
      RemoveDistributes(a[1..], b, id);
    }
  }

  /** A failed send undoes the optimistic append exactly: the list is what it
      was before. */
  lemma AppendThenRemove(entries: seq<ChatEntry>, temp: ChatEntry)
    requires !HasId(entries, temp.id)
    ensures RemoveId(entries + [temp], temp.id) == entries
  {
    RemoveDistributes(entries, [temp], temp.id);
    RemoveAbsent(entries, temp.id);
  }

  /** A confirmed send leaves the earlier messages as they were and the new one
      at the end, under its real id and no longer pending. */
  lemma AppendThenReplace(entries: seq<ChatEntry>, temp: ChatEntry, realId: string)
    requires !HasId(entries, temp.id)
    ensures ReplaceId(entries + [temp], temp.id, realId)
         == entries + [temp.(id := realId, pending := false)]
  {
    var r := ReplaceId(entries + [temp], temp.id, realId);
    forall i | 0 <= i < |entries| ensures r[i] == entries[i] {
      assert (entries + [temp])[i] == entries[i];
    }
  }

  // ---------------------------------------------------------------------------
  // The panel

  /** The shared-post message text. */
  function SharedPostText(post: PostDetails): (r: string)
    ensures |r| == 16 + |post.status| + |post.title|
    ensures r[..9] == "Shared a " && r[9..9 + |post.status|] == post.status
    ensures r[9 + |post.status|..9 + |post.status| + 7] == " item: "
    ensures r[9 + |post.status| + 7..] == post.title
  {
    "Shared a " + post.status + " item: " + post.title
  }

  /** The panel's state; `user` and `isAdmin` are the component's props. */
  class ChatPanel {
    const user: Option<ChatUser>
    const isAdmin: bool
    var isChatOpen: bool
    var message: string
    var messages: seq<ChatEntry>

    constructor (user: Option<ChatUser>, isAdmin: bool)
      ensures this.user == user && this.isAdmin == isAdmin
      ensures !isChatOpen && message == "" && messages == []
    {
      this.user, this.isAdmin := user, isAdmin;
      isChatOpen, message, messages := false, "", [];
    }

    /** The subscription delivers a new snapshot, replacing the local list. */
    method OnSnapshot(docs: seq<Doc<ChatMessage>>)
      modifies this`messages
      ensures messages == EntriesOf(docs)
    {
      messages := EntriesOf(docs);
    }

    /** `handleSubmit` at time `now`. `chatWrite` is how the store answers the
        `addDoc` of the message and `notificationWrite` how it answers the
        `addDoc` of the notification, if each is made. */
    method HandleSubmit(db: Database, now: int, chatWrite: AddResult, notificationWrite: AddResult)
      requires chatWrite.Added? ==> chatWrite.id !in db.chatting
      requires notificationWrite.Added? ==> notificationWrite.id !in db.notifications
      modifies this`message, this`messages, db`chatting, db`notifications
      ensures Trim(old(message)) == "" || user.None? ==>
        && message == old(message) && messages == old(messages)
        && db.chatting == old(db.chatting) && db.notifications == old(db.notifications)
      ensures Trim(old(message)) != "" && user.Some? ==>
        var text := Trim(old(message));
        var temp := ChatEntry(TempId(now), NewMessage(user.value, isAdmin, text, now), true);
        var withTemp := old(messages) + [temp];
        && message == ""
        && (chatWrite.AddFailed? ==>
              && messages == RemoveId(withTemp, temp.id)
              && db.chatting == old(db.chatting) && db.notifications == old(db.notifications))
        && (chatWrite.Added? ==>
              && db.chatting == old(db.chatting)[chatWrite.id := temp.msg]
              && (notificationWrite.AddFailed? ==>
                    messages == RemoveId(withTemp, temp.id)
                    && db.notifications == old(db.notifications))
              && (notificationWrite.Added? ==>
                    && messages == ReplaceId(withTemp, temp.id, chatWrite.id)
                    && db.notifications == old(db.notifications)[notificationWrite.id :=
                         NewNotification(isAdmin, user.value, text, chatWrite.id, now)]))
    {
      if Trim(message) == "" || user.None? {
        return;
      }
      var text := Trim(message);
      var newMessage := NewMessage(user.value, isAdmin, text, now);
      var tempId := TempId(now);
      messages := messages + [ChatEntry(tempId, newMessage, true)];
      message := "";
      match chatWrite {
        case AddFailed(_) =>
          messages := RemoveId(messages, tempId);
        case Added(chatId) =>
          db.chatting := db.chatting[chatId := newMessage];
          match notificationWrite {
            case AddFailed(_) =>
              messages := RemoveId(messages, tempId);
            case Added(notificationId) =>
              db.notifications := db.notifications[notificationId :=
                NewNotification(isAdmin, user.value, text, chatId, now)];
              messages := ReplaceId(messages, tempId, chatId);
          }
      }
    }

    /** `handleSharedPost(post)`: the shared message goes to the store only (no
        optimistic entry), and the chat opens when the store accepts it. */
    method HandleSharedPost(db: Database, post: PostDetails, now: int, write: AddResult)
      requires write.Added? ==> write.id !in db.chatting
      modifies this`isChatOpen, db`chatting
      ensures user.None? || write.AddFailed? ==>
        isChatOpen == old(isChatOpen) && db.chatting == old(db.chatting)
      ensures user.Some? && write.Added? ==>
        && isChatOpen
        && db.chatting == old(db.chatting)[write.id :=
             ChatMessage(SharedPostText(post), user.value.uid, user.value.email, isAdmin, now,
                         false, Some(post))]
    {
      if user.None? {
        return;
      }
      var shared := ChatMessage(SharedPostText(post), user.value.uid, user.value.email, isAdmin,
                                now, false, Some(post));
      if write.Added? {
        db.chatting := db.chatting[write.id := shared];
        isChatOpen := true;
      }
    }
  }

  /** When the temporary id is new to the list, a failed send leaves the list
      as it was and a confirmed one appends the message under its real id.
      Blank text is exactly white-space-only text. */
  lemma SendOutcomes(entries: seq<ChatEntry>, user: ChatUser, isAdmin: bool, message: string,
                     now: int, realId: string)
    requires !HasId(entries, TempId(now))
    ensures Trim(message) == "" <==> AllWhitespace(message)
    ensures var temp := ChatEntry(TempId(now), NewMessage(user, isAdmin, Trim(message), now), true);
      && RemoveId(entries + [temp], temp.id) == entries
      && ReplaceId(entries + [temp], temp.id, realId)
         == entries + [ChatEntry(realId, NewMessage(user, isAdmin, Trim(message), now), false)]
  {
    TrimEmptyIff(message);
    var temp := ChatEntry(TempId(now), NewMessage(user, isAdmin, Trim(message), now), true);
    AppendThenRemove(entries, temp);
    AppendThenReplace(entries, temp, realId);
  }
}
