/** Properties that span several source files: what the report forms write,
    read back by the admin panel, and the notifications the chat writes, read
    back by the notification bell. */
module Workflow {
  import opened Store
  import opened ReportForm
  import ReportFoundItem
  import ReportLostItem
  import opened AdminPanel
  import ChatSystem
  import NotificationSystem

  /** A new report claims nothing, so adding it keeps every claimed item
      backed by its approved claim. */
  lemma ReportKeepsBacked(t: Tables, id: string, f: Fields, image: ReportFoundItem.ImageFile,
                          compressed: string, now: int)
    requires ClaimsBacked(t)
    ensures ClaimsBacked(Tables(t.claims,
              t.items[id := ReportFoundItem.FoundItemRecord(f, image, compressed, now)]))
    ensures ClaimsBacked(Tables(t.claims, t.items[id := ReportLostItem.LostItemRecord(f, now)]))
  {
    var found := t.items[id := ReportFoundItem.FoundItemRecord(f, image, compressed, now)];
    var lost := t.items[id := ReportLostItem.LostItemRecord(f, now)];
    forall other | other in found && found[other].claimStatus == Some("claimed")
      ensures other != id && found[other] == t.items[other]
    {
    }
    forall other | other in lost && lost[other].claimStatus == Some("claimed")
      ensures other != id && lost[other] == t.items[other]
    {
    }
  }

  /** As written, the item list reads the image from `imageData`, which the
      found-report form does not write (it writes `image` and `imageUrl`): a
      reported image never shows in the admin list. */
  lemma FoundReportImageHidden(f: Fields, image: ReportFoundItem.ImageFile, compressed: string,
                               now: int, id: string)
    ensures var it := ReportFoundItem.FoundItemRecord(f, image, compressed, now);
      && it.image == Some(compressed)
      && AdminItemList([Doc(id, it)])[0].image == Placeholder
  {
  }

  /** As written, the notification for a user's chat message is addressed to
      'admin', which every user's notification feed matches; the notification
      for an admin's message is addressed to the admin who sent it. */
  lemma ChatNotificationAudience(sender: ChatSystem.ChatUser, isAdmin: bool, text: string,
                                 chatId: string, now: int, viewer: string)
    ensures var n := ChatSystem.NewNotification(isAdmin, sender, text, chatId, now);
      && (!isAdmin ==> NotificationSystem.VisibleTo(viewer, n))
      && (isAdmin ==> n.userId == sender.uid && NotificationSystem.VisibleTo(sender.uid, n))
      && !n.read && n.chatMessageId == Some(chatId)
  {
  }
}
