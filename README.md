# Lost-and-found: claim resolution, report forms, notifications and chat

A Dafny model of the client-side rules of a campus lost-and-found web
application. The application keeps everything in a hosted document store with
four collections — `items`, `claims`, `notifications` and `chatting` — and
its logic is a handful of event handlers over those collections:

- the **admin panel** approves or rejects a claim, rewriting the claim and the
  item it names, marks an item as found, lists the pending claims joined to
  their items, and lists all items with an image fallback;
- the **found-item** and **lost-item report forms** check that every field is
  filled in, check the contact e-mail against `^[^\s@]+@[^\s@]+\.[^\s@]+$`,
  and add one item document;
- the **notification bell** counts unread notifications, marks one read when
  it is clicked, and labels each with "Nm ago", "Nh ago" or "Nd ago";
- the **chat panel** sends a message by appending a temporary entry to its
  local list, then renames or removes it depending on the store's answer, and
  writes a notification with a 50-character preview.

The store is the class `Store.Database`, whose four map fields are the
collections; each handler is a method that changes those maps (and the
component's own state, a class per component) and states the new state
exactly. Where a handler's effect is worth reasoning about across several
calls (claim resolution, marking found, marking read, the optimistic list
updates) it is also given as a function, and the lemmas are about that
function. The whole-store rule the admin handlers keep is `AdminPanel.ClaimsBacked`:
every item whose `claimStatus` is 'claimed' names an approved claim for that
item, made by the user the item names as claimant. Every write of the
modelled code keeps it (`ResolveKeepsBacked`, `MarkFoundKeepsBacked`,
`Workflow.ReportKeepsBacked`).

Some consequences of the code as written are proved as lemmas. None of them is
claimed to be a defect:

- a claim can be approved or rejected whatever its status, so a second
  approval for one item leaves two approved claims, and rejecting a left-over
  claim releases an item that another claim won;
- marking a claimed item as found sets `status` to 'found' and leaves
  `claimStatus` 'claimed';
- the admin item list reads the image from `imageData`, which the found-report
  form never writes (it writes `image` and `imageUrl`);
- a user's chat subscription matches messages stored under the user's uid or
  under 'admin', but an admin's message is stored under the admin's own uid;
  the notification for an admin's message goes to that same admin, and the
  notification for a user's message goes to 'admin', which every user's bell
  subscription matches.

Modules: `JsText` (JavaScript white space, `trim`, integer rendering),
`Store` (the documents and the database), `Query` (what a query snapshot
is), `ReportForm` (the shared fields and e-mail check), `ReportFoundItem`,
`ReportLostItem`, `AdminPanel`, `NotificationSystem`, `ChatSystem`, and
`Workflow` (properties that span several of them).

## Model

| member | source | states |
|---|---|---|
| `JsText.Trim` | src/components/ChatSystem.js:48 | `String.prototype.trim`: the leading white space is dropped, then the trailing white space of what remains |
| `JsText.LeadingSpace` | src/components/ChatSystem.js:48 | the start of `trim`: the count covers only white space and stops at the first other character |
| `JsText.ContentEnd` | src/components/ChatSystem.js:48 | the end of `trim`: everything from the returned length on is white space, and the character before it is not |
| `JsText.TrimKeepsMiddle` | src/components/ChatSystem.js:52 | `trim` keeps a contiguous middle part of the text, drops only white space on each side, and leaves no white space at either end |
| `JsText.TrimEmptyIff` | src/components/ChatSystem.js:48 | a message is blank after `trim` exactly when it is all white space |
| `JsText.NatToString` | src/components/NotificationSystem.js:69-71 | the rendering of a count is a non-empty run of decimal digits with no leading zero |
| `JsText.IntToString` | src/components/ChatSystem.js:61 | the decimal text a template literal or string `+` gives an integer: a `-` for a negative one, then the digits of its magnitude |
| `JsText.IntToStringRoundTrip` | src/components/ChatSystem.js:61 | parsing the text an integer renders to gives the integer back |
| `JsText.IntToStringInjective` | src/components/ChatSystem.js:61 | different integers render to different texts |
| `ReportForm.AllFilled` | src/ReportFoundItem.js:84 | the eight text fields are all non-empty (each `!field` test of the form is false) |
| `ReportForm.IsValidEmail` | src/ReportFoundItem.js:90-91 | the e-mail test as a string test: a non-empty `@`-free, white-space-free part before the first `@`, and after it such a part holding a `.` that is neither its first nor its last character |
| `ReportForm.EmailCheckIsRegex` | src/ReportFoundItem.js:90-91 | the string test accepts exactly the strings the regular expression `^[^\s@]+@[^\s@]+\.[^\s@]+$` matches, in both directions |
| `ReportForm.ValidEmailHasOneAt` | src/ReportLostItem.js:28-29 | an accepted address has exactly one `@`, and something before it |
| `ReportForm.IndexOf` | src/ReportFoundItem.js:90 | the position of the first occurrence of a character, or the length when it does not occur |
| `ReportFoundItem.IsImageType` | src/ReportFoundItem.js:28 | a file is accepted as an image when its MIME type starts with `image/` |
| `ReportFoundItem.CheckSubmission` | src/ReportFoundItem.js:84-94 | a found report goes ahead exactly when all eight fields and an image are present and the e-mail matches; otherwise the required-fields message wins over the e-mail message |
| `ReportFoundItem.FoundItemRecord` | src/ReportFoundItem.js:110-127 | the found-item document keeps the eight fields, has `title` = item name, `status` 'found', is not lost, is found, and has `image` = `imageUrl` = the compressed data and the file's type, and no claim fields |
| `ReportFoundItem.FoundReportForm.HandleImageChange` | src/ReportFoundItem.js:25-38 | no file changes nothing; an `image/` type keeps the file, its preview and clears the error; any other type clears file and preview and sets the error |
| `ReportFoundItem.FoundReportForm.HandleSubmit` | src/ReportFoundItem.js:82-138 | a failed check shows its message and writes nothing; otherwise one found-item document is added under the store's new id, or the store's error is shown, and `uploading` ends false |
| `ReportLostItem.CheckSubmission` | src/ReportLostItem.js:20-32 | a lost report goes ahead exactly when all eight fields are present and the e-mail matches; no image is needed; the required-fields message wins over the e-mail message |
| `ReportLostItem.LostItemRecord` | src/ReportLostItem.js:40-51 | the lost-item document keeps the eight fields, is lost, carries the time, and has no title, status, image or claim fields |
| `ReportLostItem.LostReportForm.HandleSubmit` | src/ReportLostItem.js:20-62 | a failed check shows its message and writes nothing; otherwise one lost-item document is added, or "Failed to report item. Please try again." is shown, and `uploading` ends false |
| `AdminPanel.ApprovedClaim` | src/AdminPanel.js:117-120 | the approval payload merged into the claim: `claimStatus` 'approved' and `processedAt` the time, every other field kept |
| `AdminPanel.RejectedClaim` | src/AdminPanel.js:131-134 | the rejection payload merged into the claim: `claimStatus` 'rejected' and `processedAt` the time, every other field kept |
| `AdminPanel.ClaimedItem` | src/AdminPanel.js:122-127 | the approval payload merged into the item: status and claim status 'claimed', `claimedBy` the claimant, `claimId` the claim, every other field kept |
| `AdminPanel.ReleasedItem` | src/AdminPanel.js:136-141 | the rejection payload merged into the item: status 'available', claim status 'unclaimed', no claimant and no claim, every other field kept |
| `AdminPanel.FoundItem` | src/AdminPanel.js:157-160 | the mark-as-found payload merged into the item: status 'found' and `foundAt` the time, every other field kept |
| `AdminPanel.Resolve` | src/AdminPanel.js:103-144 | `handleClaimAction` on the two collections: an unknown claim is not found; 'approve' and 'reject' write the claim, then the item it names, failing after the claim write when that item does not exist; any other action writes nothing |
| `AdminPanel.HandleClaimAction` | src/AdminPanel.js:103-152 | the claim and item collections afterwards, and the outcome, are those of the resolution function for the same claim id, action and time |
| `AdminPanel.ResolveApprove` | src/AdminPanel.js:116-129 | approval sets the claim to 'approved' with `processedAt`, and the item to status and claim status 'claimed', `claimedBy` the claimant and `claimId` the claim; no other field changes; a missing item fails after the claim was written |
| `AdminPanel.ResolveReject` | src/AdminPanel.js:130-143 | rejection sets the claim to 'rejected' with `processedAt`, and the item to 'available', 'unclaimed', no claimant and no claim; no other field changes; a missing item fails after the claim was written |
| `AdminPanel.ResolveNoChange` | src/AdminPanel.js:103-144 | an unknown claim id is reported as not found and changes nothing; an action other than 'approve' or 'reject' changes nothing |
| `AdminPanel.ResolveFrame` | src/AdminPanel.js:114-141 | only the named claim and the item it names can change, and no document is added or removed |
| `AdminPanel.ResolveIgnoresClaimStatus` | src/AdminPanel.js:103-116 | there is no pending precondition: the outcome is the same whatever status the claim had |
| `AdminPanel.ResolveTwice` | src/AdminPanel.js:103-141 | deciding the same way twice leaves the store as deciding once at the later time |
| `AdminPanel.ResolveKeepsConsistent` | src/AdminPanel.js:122-141 | after a resolution, every claimed item names a claimant and a claim, and every unclaimed item names neither, if that held before |
| `AdminPanel.ResolveKeepsBacked` | src/AdminPanel.js:116-141 | a resolution keeps every claimed item backed by an approved claim for it, from the user it names |
| `AdminPanel.SecondApprovalKeepsFirst` | src/AdminPanel.js:116-127 | approving two claims for one item, one after the other, leaves both 'approved', and the item names the second |
| `AdminPanel.StaleRejectReleasesItem` | src/AdminPanel.js:130-141 | rejecting a left-over claim after another claim for the same item was approved releases the item while the winner stays 'approved' |
| `AdminPanel.MarkFound` | src/AdminPanel.js:154-160 | `handleMarkAsFound` on the item collection: the item gets the found payload, and a missing item leaves the collection as it was |
| `AdminPanel.MarkFoundOffered` | src/AdminPanel.js:316 | the "Mark as Found" button is shown for an item whose status is not 'found' |
| `AdminPanel.HandleMarkAsFound` | src/AdminPanel.js:154-168 | the item collection afterwards is the one of marking that item found at that time; the result says whether the item existed |
| `AdminPanel.MarkFoundEffect` | src/AdminPanel.js:154-160 | marking sets `status` 'found' and `foundAt`, changes no other field of that item and no other item, and removes the "Mark as Found" offer |
| `AdminPanel.MarkFoundKeepsBacked` | src/AdminPanel.js:157-160 | marking found keeps every claimed item backed by its approved claim |
| `AdminPanel.MarkFoundOverwritesClaimedStatus` | src/AdminPanel.js:157-160 | a claimed item marked found keeps claim status 'claimed' and gets status 'found' |
| `AdminPanel.JoinItem` | src/AdminPanel.js:60-70 | a claim is joined to its item's id and data exactly when the item exists, otherwise to nothing |
| `AdminPanel.FetchPendingClaims` | src/AdminPanel.js:47-80 | the list holds, in snapshot order, each pending claim joined to its item; it holds every pending claim of the store, only pending ones, newest claim date first |
| `AdminPanel.AdminImage` | src/AdminPanel.js:93 | the shown image is `imageData` when that is a non-empty string, and the placeholder URL otherwise; it is never empty |
| `AdminPanel.AdminItemList` | src/AdminPanel.js:82-96 | the item list has one card per snapshot document, in order, with its id, its data and its image |
| `NotificationSystem.VisibleTo` | src/components/NotificationSystem.js:18 | the subscription's filter: notifications addressed to the user or to 'admin' |
| `NotificationSystem.IsFeed` | src/components/NotificationSystem.js:16-20 | a snapshot of the subscription: the filtered notifications of the collection, each once, newest first |
| `NotificationSystem.AdminAddressedInEveryFeed` | src/components/NotificationSystem.js:16-20 | a notification addressed to 'admin' is in the feed of every user |
| `NotificationSystem.UnreadCount` | src/components/NotificationSystem.js:35 | the unread count is at most the list length, zero exactly when all are read, the length exactly when none is |
| `NotificationSystem.MarkReadIn` | src/components/NotificationSystem.js:43-46 | after marking an id read, the list has the same length, that id's entries are read and everything else is unchanged |
| `NotificationSystem.MarkReadLowersCount` | src/components/NotificationSystem.js:35-46 | marking read the one unread notification with its id lowers the unread count by exactly one |
| `NotificationSystem.FeedAfterMarkRead` | src/components/NotificationSystem.js:16-58 | after a click marks a notification read in the store, the old feed snapshot with that notification marked read is a feed snapshot of the new store |
| `NotificationSystem.ClickLowersFeedCount` | src/components/NotificationSystem.js:22-58 | clicking an unread notification of the feed gives a store whose feed, the old one with that notification read, has exactly one unread notification fewer |
| `NotificationSystem.MarkRead` | src/components/NotificationSystem.js:41-50 | marking read sets only `read` of that one notification; no other notification changes; a missing id changes nothing |
| `NotificationSystem.MarkAsRead` | src/components/NotificationSystem.js:41-50 | the notification collection afterwards is the one of marking that id read |
| `NotificationSystem.MarkReadIdempotent` | src/components/NotificationSystem.js:43-46 | marking read twice is marking read once |
| `NotificationSystem.NotificationBell.OnSnapshot` | src/components/NotificationSystem.js:22-36 | a snapshot replaces the list and sets the unread count to the number of unread notifications in it |
| `NotificationSystem.NotificationBell.ToggleDropdown` | src/components/NotificationSystem.js:88-93 | the bell icon flips whether the dropdown is shown |
| `NotificationSystem.NotificationBell.HandleNotificationClick` | src/components/NotificationSystem.js:52-58 | clicking an unread notification marks it read in the store, clicking a read one writes nothing, and the dropdown closes either way |
| `NotificationSystem.Bucket` | src/components/NotificationSystem.js:64-71 | the unit and count of the label: whole minutes below an hour, whole hours below a day, whole days otherwise, each by chained floors |
| `NotificationSystem.Label` | src/components/NotificationSystem.js:69-71 | the label text: the count followed by "m ago", "h ago" or "d ago" |
| `NotificationSystem.BucketBounds` | src/components/NotificationSystem.js:63-71 | below an hour the label counts whole minutes elapsed, below a day whole hours (1 to 23), from a day on whole days, each the floor of the elapsed time by its unit |
| `NotificationSystem.HoursFloor` | src/components/NotificationSystem.js:65-66 | flooring milliseconds by 60000 and then by 60 is flooring by 3600000 |
| `NotificationSystem.DaysFloor` | src/components/NotificationSystem.js:66-67 | flooring milliseconds by 3600000 and then by 24 is flooring by 86400000 |
| `NotificationSystem.FormatTimestamp` | src/components/NotificationSystem.js:61 | anything but a date is labelled with the empty string |
| `NotificationSystem.LabelInjective` | src/components/NotificationSystem.js:69-71 | two labels are equal exactly when they show the same unit and count |
| `ChatSystem.ChatVisible` | src/components/ChatSystem.js:24-30 | an admin's subscription admits every message; a user's admits messages stored under the user's uid or under 'admin' |
| `ChatSystem.IsChatFeed` | src/components/ChatSystem.js:24-30 | a snapshot of the chat subscription: the admitted messages of the collection, each once, oldest first |
| `ChatSystem.EntriesOf` | src/components/ChatSystem.js:32-38 | a snapshot becomes the local list entry by entry, none pending |
| `ChatSystem.AdminMessageHiddenFromUser` | src/components/ChatSystem.js:24-30 | a message sent by an admin whose uid is not 'admin' does not match another user's subscription |
| `ChatSystem.NewMessage` | src/components/ChatSystem.js:51-58 | the message a send builds: the trimmed text, the sender's uid and e-mail, the admin flag, the time, unread, no shared post |
| `ChatSystem.TempId` | src/components/ChatSystem.js:61 | the temporary id `'temp-'` followed by the milliseconds of the send |
| `ChatSystem.TempIdInjective` | src/components/ChatSystem.js:61 | sends at different milliseconds get different temporary ids |
| `ChatSystem.Recipient` | src/components/ChatSystem.js:80 | the notification goes to the sender's own uid when the sender is an admin, to 'admin' otherwise |
| `ChatSystem.EmailPrefix` | src/components/ChatSystem.js:81 | the sender name is the part of the address before its first `@`, the whole address when it has none |
| `ChatSystem.SenderName` | src/components/ChatSystem.js:81 | the sender shown in the notification: "Admin" for an admin, otherwise the part of the e-mail before the `@` |
| `ChatSystem.Preview` | src/components/ChatSystem.js:81 | a text of at most 50 characters is shown whole; a longer one is cut to its first 50 characters followed by `...` |
| `ChatSystem.PreviewMessage` | src/components/ChatSystem.js:81 | the notification text: "New message from ", the sender, ": " and the preview of the text |
| `ChatSystem.NewNotification` | src/components/ChatSystem.js:79-89 | the notification a send writes: to the recipient, with the preview text, type 'new_message', the stored message's id, the time, unread, and the sender's uid, e-mail and admin flag |
| `ChatSystem.PreviewMessageShape` | src/components/ChatSystem.js:81 | the notification text is the sender line followed by the shown part of the text, and ends in `...` exactly when the text is longer than 50 |
| `ChatSystem.ReplaceId` | src/components/ChatSystem.js:93-99 | confirming keeps the list length; entries with the temporary id get the real id and stop being pending; every other entry is unchanged |
| `ChatSystem.RemoveId` | src/components/ChatSystem.js:103-105 | the list after a failed send holds exactly the earlier entries whose id is not the temporary id |
| `ChatSystem.AppendThenRemove` | src/components/ChatSystem.js:61-105 | a failed send undoes the optimistic append exactly |
| `ChatSystem.AppendThenReplace` | src/components/ChatSystem.js:61-99 | a confirmed send leaves the earlier entries as they were and the new message last, under its real id, no longer pending |
| `ChatSystem.SharedPostText` | src/components/ChatSystem.js:114 | the shared-post text is "Shared a ", the post's status, " item: " and its title |
| `ChatSystem.ChatPanel.OnSnapshot` | src/components/ChatSystem.js:32-41 | a snapshot replaces the local list |
| `ChatSystem.ChatPanel.HandleSubmit` | src/components/ChatSystem.js:46-107 | a blank message or no user changes nothing; otherwise the input clears, the message is stored if the store accepts it, and the list ends with the temporary entry renamed (both writes accepted) or removed (either write refused) |
| `ChatSystem.ChatPanel.HandleSharedPost` | src/components/ChatSystem.js:109-142 | with a user, the shared-post message is stored and the chat opens when the store accepts it; nothing is added to the local list |
| `ChatSystem.SendOutcomes` | src/components/ChatSystem.js:46-105 | for a temporary id new to the list, a failed send restores the list and a confirmed one appends the trimmed message under its real id |
| `Query.IsSnapshot` | src/AdminPanel.js:49-55 | what a `where`/`orderBy` query returns: documents of the collection that match, each once, every match present, sorted by the key in the given direction |
| `Workflow.ReportKeepsBacked` | src/ReportFoundItem.js:110-127 | adding a found or a lost report keeps every claimed item backed by its approved claim |
| `Workflow.FoundReportImageHidden` | src/AdminPanel.js:90-93 | a found report stores its image, yet its card in the admin list shows the placeholder |
| `Workflow.ChatNotificationAudience` | src/components/ChatSystem.js:79-89 | a user's message notifies 'admin', which every user's bell matches; an admin's message notifies the sending admin |

## Left out

- Store, authentication and routing I/O (`getDocs`, `getDoc`, `addDoc`, `updateDoc`, `onSnapshot`, `serverTimestamp`, toasts, `alert`, `navigate`, the admin-access check) are not modelled as calls. Each write is a change of a map, the store's fresh id or thrown error for `addDoc` is a parameter, and a query snapshot is an input described by `Query.IsSnapshot`.
- Network failures of `updateDoc`, `getDoc` and `getDocs` are left out. The update of a missing document is modelled, because it fails deterministically.
- The two writes of `handleClaimAction` are modelled in order without interleaving. Other clients, snapshot delivery racing the optimistic chat update, and the refetches after each action are left out.
- Intermediate component states between awaits are left out, such as `uploading` being true and the error being cleared while the write is in flight. Only the state after the handler is stated.
- Image compression (`compressImage`) uses canvas and floating-point scaling, so its result is a parameter. `URL.createObjectURL` is a parameter too.
- ReportFoundItem.FoundReportForm.HandleSubmit: assumes the image compression finishes. `compressImage` settles only from the image's `onload` and has no error path, so an `image/` file the browser cannot decode leaves the submission waiting forever with `uploading` true and nothing written; a promise that never settles is not modelled.
- Dates are integers of milliseconds. `toISOString`, `toDate`, `toLocaleString` and the invalid-`Date` case (`NaN` arithmetic) are left out.
- A claim is assumed to carry both `itemId` and `userId`, and its `itemId` (like the claim id passed to `handleClaimAction`) is assumed to be a valid document id: one non-empty path segment. Otherwise `doc` throws before either write of `handleClaimAction`, so nothing is written and "Failed to process claim" is shown, and the throw inside the loop of `fetchPendingClaims` aborts the whole fetch so no list is set; an id with further `/` segments may instead name a document of a nested collection. None of this is modelled, because claim creation is not in the modelled files.
- Field truthiness is simplified: an absent field and a `null` one are both `None`, and notification `read` is a boolean.
- Strings are sequences of Unicode scalar values, whereas `substring(0, 50)` and `length` count UTF-16 code units. Characters outside the Basic Multilingual Plane therefore count once here and twice in the code.
- ChatSystem.ChatPanel.OnSnapshot and NotificationSystem.NotificationBell.OnSnapshot do not require their inputs to be snapshots of the store. They only copy them, and the subscriptions are described separately by `ChatSystem.IsChatFeed` and `NotificationSystem.IsFeed`.
- Rendering (JSX) and display fallbacks ("Not provided", "Untitled Item", the `onError` image fallback) are left out. So are the dropdown and tab state of the admin panel, the auto-scroll, and closing the bell when clicking outside it.
- Sign-in, sign-up, the profile page, settings and the screen reader are left out as thin wrappers over the identity provider and the browser.
