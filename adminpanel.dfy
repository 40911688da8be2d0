/** The admin panel (src/AdminPanel.js): resolving a claim, marking an item
    as found, and the two lists the panel shows, pending claims joined to
    their items and all items with an image fallback. */
module AdminPanel {
  import opened Store
  import opened Query

  const Placeholder := "https://via.placeholder.com/400x300?text=No+Image"

  /** The two collections the panel writes. */
  datatype Tables = Tables(claims: map<string, Claim>, items: map<string, Item>)

  /** How `handleClaimAction` ends: the toast it shows, or none for an action
      it does not know. `Failed` is the catch branch ("Failed to process
      claim"), reached here when the item to update does not exist. */
  datatype ClaimOutcome = ClaimNotFound | Approved | Rejected | NoAction | Failed

  datatype Resolution = Resolution(tables: Tables, outcome: ClaimOutcome)

  // ---------------------------------------------------------------------------
  // The field updates `handleClaimAction` and `handleMarkAsFound` merge into a
  // document (`updateDoc` keeps every field it is not given).

  function ApprovedClaim(c: Claim, now: int): Claim {
    c.(claimStatus := "approved", processedAt := Some(now))
  }

  function RejectedClaim(c: Claim, now: int): Claim {
    c.(claimStatus := "rejected", processedAt := Some(now))
  }

  function ClaimedItem(it: Item, userId: string, claimId: string): Item {
    it.(status := Some("claimed"), claimStatus := Some("claimed"),
        claimedBy := Some(userId), claimId := Some(claimId))
  }

  function ReleasedItem(it: Item): Item {
    it.(status := Some("available"), claimStatus := Some("unclaimed"),
        claimedBy := None, claimId := None)
  }

  function FoundItem(it: Item, now: int): Item {
    it.(status := Some("found"), foundAt := Some(now))
  }

  // ---------------------------------------------------------------------------
  // Claim resolution

  /** What `handleClaimAction(claimId, action)` does to the store, at time
      `now`. The claim is written first, then the item it names; `updateDoc`
      of an item that does not exist throws, so the claim is then written and
      the item is not. */
  function Resolve(t: Tables, claimId: string, action: string, now: int): Resolution {
    if claimId !in t.claims then Resolution(t, ClaimNotFound)
    else
      var c := t.claims[claimId];
      if action == "approve" then
        var claims := t.claims[claimId := ApprovedClaim(c, now)];
        if c.itemId in t.items then
          Resolution(Tables(claims, t.items[c.itemId := ClaimedItem(t.items[c.itemId], c.userId, claimId)]),
                     Approved)
        else Resolution(Tables(claims, t.items), Failed)
      else if action == "reject" then
        var claims := t.claims[claimId := RejectedClaim(c, now)];
        if c.itemId in t.items then
          Resolution(Tables(claims, t.items[c.itemId := ReleasedItem(t.items[c.itemId])]), Rejected)
        else Resolution(Tables(claims, t.items), Failed)
      else Resolution(t, NoAction)
  }

  /** `handleClaimAction`, step by step against the store. */
  method HandleClaimAction(db: Database, claimId: string, action: string, now: int)
    returns (outcome: ClaimOutcome)
    modifies db`claims, db`items
    ensures Resolution(Tables(db.claims, db.items), outcome)
         == Resolve(Tables(old(db.claims), old(db.items)), claimId, action, now)
  {
    if claimId !in db.claims {
      return ClaimNotFound;
    }
    var claim := db.claims[claimId];
    var itemId := claim.itemId;
    outcome := NoAction;
    if action == "approve" {
      db.claims := db.claims[claimId := ApprovedClaim(claim, now)];
      if itemId !in db.items {
        return Failed;
      }
      db.items := db.items[itemId := ClaimedItem(db.items[itemId], claim.userId, claimId)];
      outcome := Approved;
    } else if action == "reject" {
      db.claims := db.claims[claimId := RejectedClaim(claim, now)];
      if itemId !in db.items {
        return Failed;
      }
      db.items := db.items[itemId := ReleasedItem(db.items[itemId])];
      outcome := Rejected;
    }
  }

  /** Approval: the claim becomes 'approved' with its processing time, and the
      item it names becomes claimed by the claimant under this claim. No other
      field of either document changes. */
  lemma ResolveApprove(t: Tables, claimId: string, now: int)
    requires claimId in t.claims
    ensures var c := t.claims[claimId];
      var r := Resolve(t, claimId, "approve", now);
      && claimId in r.tables.claims
      && var c' := r.tables.claims[claimId];
      && c'.claimStatus == "approved" && c'.processedAt == Some(now)
      && c'.(claimStatus := c.claimStatus, processedAt := c.processedAt) == c
      && (c.itemId in t.items ==>
            && r.outcome == Approved
            && c.itemId in r.tables.items
            && var it := t.items[c.itemId];
            && var it' := r.tables.items[c.itemId];
            && it'.status == Some("claimed") && it'.claimStatus == Some("claimed")
            && it'.claimedBy == Some(c.userId) && it'.claimId == Some(claimId)
            && it'.(status := it.status, claimStatus := it.claimStatus,
                    claimedBy := it.claimedBy, claimId := it.claimId) == it)
      && (c.itemId !in t.items ==> r.outcome == Failed && r.tables.items == t.items)
  {
  }

  /** Rejection: the claim becomes 'rejected' with its processing time, and the
      item it names is released: 'available', 'unclaimed', no claimant and no
      claim. No other field of either document changes. */
  lemma ResolveReject(t: Tables, claimId: string, now: int)
    requires claimId in t.claims
    ensures var c := t.claims[claimId];
      var r := Resolve(t, claimId, "reject", now);
      && claimId in r.tables.claims
      && var c' := r.tables.claims[claimId];
      && c'.claimStatus == "rejected" && c'.processedAt == Some(now)
      && c'.(claimStatus := c.claimStatus, processedAt := c.processedAt) == c
      && (c.itemId in t.items ==>
            && r.outcome == Rejected
            && c.itemId in r.tables.items
            && var it := t.items[c.itemId];
            && var it' := r.tables.items[c.itemId];
            && it'.status == Some("available") && it'.claimStatus == Some("unclaimed")
            && it'.claimedBy == None && it'.claimId == None
            && it'.(status := it.status, claimStatus := it.claimStatus,
                    claimedBy := it.claimedBy, claimId := it.claimId) == it)
      && (c.itemId !in t.items ==> r.outcome == Failed && r.tables.items == t.items)
  {
  }

  /** A claim id the store does not hold is reported and nothing changes; an
      action other than 'approve' or 'reject' changes nothing either. */
  lemma ResolveNoChange(t: Tables, claimId: string, action: string, now: int)
    requires claimId !in t.claims || (action != "approve" && action != "reject")
    ensures Resolve(t, claimId, action, now).tables == t
    ensures claimId !in t.claims ==> Resolve(t, claimId, action, now).outcome == ClaimNotFound
    ensures claimId in t.claims ==> Resolve(t, claimId, action, now).outcome == NoAction
  {
  }

  /** Only the named claim and the item it names can change; no document is
      added or removed. */
  lemma ResolveFrame(t: Tables, claimId: string, action: string, now: int)
    ensures var r := Resolve(t, claimId, action, now).tables;
      && r.claims.Keys == t.claims.Keys && r.items.Keys == t.items.Keys
      && (forall id :: id in t.claims && id != claimId ==> r.claims[id] == t.claims[id])
      && (forall id :: id in t.items && (claimId !in t.claims || id != t.claims[claimId].itemId)
            ==> r.items[id] == t.items[id])
  {
  }

  /** There is no "still pending" test: a decision rewrites the claim whatever
      state it is in, so the result does not depend on the claim's status. */
  lemma ResolveIgnoresClaimStatus(t: Tables, claimId: string, action: string, now: int, s: string)
    requires claimId in t.claims
    requires action == "approve" || action == "reject"
    ensures var t' := Tables(t.claims[claimId := t.claims[claimId].(claimStatus := s)], t.items);
      Resolve(t', claimId, action, now) == Resolve(t, claimId, action, now)
  {
    var t' := Tables(t.claims[claimId := t.claims[claimId].(claimStatus := s)], t.items);
    var c := t.claims[claimId];
    assert ApprovedClaim(c.(claimStatus := s), now) == ApprovedClaim(c, now);
    assert RejectedClaim(c.(claimStatus := s), now) == RejectedClaim(c, now);
    assert t'.claims[claimId := ApprovedClaim(c, now)] == t.claims[claimId := ApprovedClaim(c, now)];
    assert t'.claims[claimId := RejectedClaim(c, now)] == t.claims[claimId := RejectedClaim(c, now)];
  }

  /** Deciding the same way twice leaves the store as deciding once at the
      later time: only `processedAt` records that there were two decisions. */
  lemma {:induction false} ResolveTwice(t: Tables, claimId: string, action: string, now1: int, now2: int)
    ensures var r1 := Resolve(t, claimId, action, now1);
      && Resolve(r1.tables, claimId, action, now2).tables == Resolve(t, claimId, action, now2).tables
  {
    if claimId in t.claims && (action == "approve" || action == "reject") {
      var c := t.claims[claimId];
      var r1 := Resolve(t, claimId, action, now1).tables;
      assert r1.claims[claimId].itemId == c.itemId && r1.claims[claimId].userId == c.userId;
      assert (c.itemId in r1.items) == (c.itemId in t.items);
      if action == "approve" {
        assert r1.claims[claimId := ApprovedClaim(r1.claims[claimId], now2)]
            == t.claims[claimId := ApprovedClaim(c, now2)];
        if c.itemId in t.items {
          assert ClaimedItem(r1.items[c.itemId], c.userId, claimId)
              == ClaimedItem(t.items[c.itemId], c.userId, claimId);
        }
      } else {
        assert r1.claims[claimId := RejectedClaim(r1.claims[claimId], now2)]
            == t.claims[claimId := RejectedClaim(c, now2)];
        if c.itemId in t.items {
          assert ReleasedItem(r1.items[c.itemId]) == ReleasedItem(t.items[c.itemId]);
        }
      }
    }
  }

  // ---------------------------------------------------------------------------
  // The claim fields of the store stay consistent

  /** A claimed item names a claimant and a claim; an unclaimed one names
      neither. */
  predicate ClaimFieldsConsistent(it: Item) {
    && (it.claimStatus == Some("claimed") ==> it.claimedBy.Some? && it.claimId.Some?)
    && (it.claimStatus == Some("unclaimed") ==> it.claimedBy == None && it.claimId == None)
  }

  /** Every claimed item is backed by an approved claim for that very item,
      made by the user the item names as claimant. */
  ghost predicate ClaimsBacked(t: Tables) {
    forall id :: id in t.items && t.items[id].claimStatus == Some("claimed") ==>
      && ClaimFieldsConsistent(t.items[id])
      && var cid := t.items[id].claimId.value;
      && cid in t.claims
      && t.claims[cid].claimStatus == "approved"
      && t.claims[cid].itemId == id
      && t.items[id].claimedBy == Some(t.claims[cid].userId)
  }

  ghost predicate AllConsistent(items: map<string, Item>) {
    forall id :: id in items ==> ClaimFieldsConsistent(items[id])
  }

  /** Resolving a claim keeps every item's claim fields consistent. */
  lemma ResolveKeepsConsistent(t: Tables, claimId: string, action: string, now: int)
    requires AllConsistent(t.items)
    ensures AllConsistent(Resolve(t, claimId, action, now).tables.items)
  {
  }

  /** Resolving a claim keeps every claimed item backed by its approved claim. */
  lemma ResolveKeepsBacked(t: Tables, claimId: string, action: string, now: int)
    requires ClaimsBacked(t)
    ensures ClaimsBacked(Resolve(t, claimId, action, now).tables)
  {
    var r := Resolve(t, claimId, action, now).tables;
    if claimId in t.claims && (action == "approve" || action == "reject") {
      var c := t.claims[claimId];
      forall id | id in r.items && r.items[id].claimStatus == Some("claimed")
        ensures ClaimFieldsConsistent(r.items[id])
        ensures var cid := r.items[id].claimId.value;
          && cid in r.claims && r.claims[cid].claimStatus == "approved"
          && r.claims[cid].itemId == id && r.items[id].claimedBy == Some(r.claims[cid].userId)
      {
        if id == c.itemId && c.itemId in t.items {
          assert action == "approve";
        } else {
          assert r.items[id] == t.items[id];
          var cid := t.items[id].claimId.value;
          assert cid != claimId;
          assert r.claims[cid] == t.claims[cid];
        }
      }
    }
  }

  /** As written, approving a second claim for an item that an earlier approval
      already claimed leaves both claims 'approved'; the item then names the
      later one. */
  lemma SecondApprovalKeepsFirst(t: Tables, first: string, second: string, now1: int, now2: int)
    requires first in t.claims && second in t.claims && first != second
    requires t.claims[first].itemId == t.claims[second].itemId
    requires t.claims[first].itemId in t.items
    ensures var r1 := Resolve(t, first, "approve", now1).tables;
      var r2 := Resolve(r1, second, "approve", now2).tables;
      var itemId := t.claims[first].itemId;
      && r2.claims[first].claimStatus == "approved"
      && r2.claims[second].claimStatus == "approved"
      && r2.items[itemId].claimId == Some(second)
  {
  }

  /** As written, rejecting a left-over claim for an item that another claim
      already won releases the item while the winning claim stays 'approved'. */
  lemma StaleRejectReleasesItem(t: Tables, winner: string, stale: string, now1: int, now2: int)
    requires winner in t.claims && stale in t.claims && winner != stale
    requires t.claims[winner].itemId == t.claims[stale].itemId
    requires t.claims[winner].itemId in t.items
    ensures var r1 := Resolve(t, winner, "approve", now1).tables;
      var r2 := Resolve(r1, stale, "reject", now2).tables;
      var itemId := t.claims[winner].itemId;
      && r2.claims[winner].claimStatus == "approved"
      && r2.items[itemId].claimStatus == Some("unclaimed")
      && r2.items[itemId].claimedBy == None
  {
  }

  // ---------------------------------------------------------------------------
  // Marking an item as found

  /** What `handleMarkAsFound(itemId)` does to `items` at time `now`; the
      update of a missing item throws and changes nothing. */
  function MarkFound(items: map<string, Item>, itemId: string, now: int): map<string, Item> {
    if itemId in items then items[itemId := FoundItem(items[itemId], now)] else items
  }

  method HandleMarkAsFound(db: Database, itemId: string, now: int) returns (ok: bool)
    modifies db`items
    ensures ok == (itemId in old(db.items))
    ensures db.items == MarkFound(old(db.items), itemId, now)
  {
    if itemId !in db.items {
      return false;
    }
    db.items := db.items[itemId := FoundItem(db.items[itemId], now)];
    ok := true;
  }

  /** The panel offers "Mark as Found" for an item not already 'found'. */
  predicate MarkFoundOffered(it: Item) {
    it.status != Some("found")
  }

  /** Marking sets `status` to 'found' and `foundAt` to the time, changes no
      other field (the claim fields included) and no other item; afterwards
      the button is no longer offered. */
  lemma MarkFoundEffect(items: map<string, Item>, itemId: string, now: int)
    ensures var r := MarkFound(items, itemId, now);
      && r.Keys == items.Keys
      && (forall id :: id in items && id != itemId ==> r[id] == items[id])
      && (itemId in items ==>
            && r[itemId].status == Some("found") && r[itemId].foundAt == Some(now)
            && r[itemId].(status := items[itemId].status, foundAt := items[itemId].foundAt)
               == items[itemId]
            && !MarkFoundOffered(r[itemId]))
  {
  }

  /** Marking an item as found keeps the claims backed. */
  lemma MarkFoundKeepsBacked(t: Tables, itemId: string, now: int)
    requires ClaimsBacked(t)
    ensures ClaimsBacked(Tables(t.claims, MarkFound(t.items, itemId, now)))
  {
  }

  /** As written, marking a claimed item as found leaves it 'claimed' in
      `claimStatus` with `status` 'found', so `status` no longer says that the
      item is claimed. */
  lemma MarkFoundOverwritesClaimedStatus(items: map<string, Item>, itemId: string, now: int)
    requires itemId in items && items[itemId].claimStatus == Some("claimed")
    ensures var it := MarkFound(items, itemId, now)[itemId];
      it.claimStatus == Some("claimed") && it.status == Some("found")
  {
  }

  // ---------------------------------------------------------------------------
  // The pending-claims list

  /** One entry of the pending-claims list: the claim joined to its item, or
      to nothing when the item does not exist. */
  datatype PendingEntry = PendingEntry(id: string, claim: Claim, item: Option<Doc<Item>>)

  predicate IsPending(c: Claim) {
    c.claimStatus == "pending"
  }

  function ClaimDateOf(c: Claim): int {
    c.claimDate
  }

  function JoinItem(items: map<string, Item>, c: Claim): (r: Option<Doc<Item>>)
    ensures r.Some? <==> c.itemId in items
    ensures r.Some? ==> r.value.id == c.itemId && r.value.data == items[c.itemId]
  {
    if c.itemId in items then Some(Doc(c.itemId, items[c.itemId])) else None
  }

  /** `fetchPendingClaims`: `snapshot` is what the query for pending claims,
      newest claim first, returns; each claim is joined to its item. */
  method FetchPendingClaims(db: Database, snapshot: seq<Doc<Claim>>) returns (entries: seq<PendingEntry>)
    requires IsSnapshot(db.claims, IsPending, ClaimDateOf, true, snapshot)
    ensures |entries| == |snapshot|
    ensures forall i :: 0 <= i < |entries| ==>
      entries[i] == PendingEntry(snapshot[i].id, snapshot[i].data, JoinItem(db.items, snapshot[i].data))
    ensures forall i :: 0 <= i < |entries| ==>
      && entries[i].id in db.claims && db.claims[entries[i].id] == entries[i].claim
      && entries[i].claim.claimStatus == "pending"
    ensures forall id :: id in db.claims && db.claims[id].claimStatus == "pending" ==>
      exists i :: 0 <= i < |entries| && entries[i].id == id
    ensures forall i, j :: 0 <= i < j < |entries| ==>
      entries[j].claim.claimDate <= entries[i].claim.claimDate
  {
    entries := [];
    var k := 0;
    while k < |snapshot|
      invariant 0 <= k <= |snapshot|
      invariant |entries| == k
      invariant forall i :: 0 <= i < k ==>
        entries[i] == PendingEntry(snapshot[i].id, snapshot[i].data, JoinItem(db.items, snapshot[i].data))
    {
      var claimDoc := snapshot[k];
      var item := if claimDoc.data.itemId in db.items
                  then Some(Doc(claimDoc.data.itemId, db.items[claimDoc.data.itemId]))
                  else None;
      entries := entries + [PendingEntry(claimDoc.id, claimDoc.data, item)];
      k := k + 1;
    }
    forall id | id in db.claims && db.claims[id].claimStatus == "pending"
      ensures exists i :: 0 <= i < |entries| && entries[i].id == id
    {
      assert IsPending(db.claims[id]);
      var i :| 0 <= i < |snapshot| && snapshot[i].id == id;
      assert entries[i].id == id;
    }
  }

  // ---------------------------------------------------------------------------
  // The item list

  /** One card of the item list: the document and the image it shows. */
  datatype AdminItem = AdminItem(id: string, item: Item, image: string)

  /** `imageData || placeholder`: the stored image data when it is a non-empty
      string, the placeholder otherwise. */
  function AdminImage(it: Item): (r: string)
    ensures it.imageData.Some? && it.imageData.value != "" ==> r == it.imageData.value
    ensures it.imageData == None || it.imageData == Some("") ==> r == Placeholder
    ensures r != ""
  {
    if it.imageData.Some? && it.imageData.value != "" then it.imageData.value else Placeholder
  }

  /** `fetchItems`: the snapshot of all items, newest first, each with its image. */
  function AdminItemList(snapshot: seq<Doc<Item>>): (r: seq<AdminItem>)
    ensures |r| == |snapshot|
    ensures forall i :: 0 <= i < |r| ==>
      r[i].id == snapshot[i].id && r[i].item == snapshot[i].data && r[i].image == AdminImage(snapshot[i].data)
  {
    if snapshot == [] then []
    else [AdminItem(snapshot[0].id, snapshot[0].data, AdminImage(snapshot[0].data))]
         + AdminItemList(snapshot[1..])
  }
}
