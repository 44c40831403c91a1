/** The admin handlers: ad moderation, commission rates and payout
    processing. Every route here sits behind the admin role check, so the
    caller's id is simply the `adminId` parameter. */
module AdminController {
  import opened Common
  import opened Tables
  import opened Schema
  import opened Database
  import opened Pagination
  import opened Ledger

  // ---------------------------------------------------------------- ads

  predicate IsPendingAd(ad: Ad)
  {
    ad.status == AdPending
  }

  /** The ads waiting for review, in table order. */
  function PendingAds(t: Table<Ad>): (r: Table<Ad>)
    ensures |r| <= |t|
    ensures forall k :: 0 <= k < |r| ==> r[k] in t && r[k].data.status == AdPending
    ensures forall k :: 0 <= k < |t| && t[k].data.status == AdPending ==> t[k] in r
    ensures KeysIncreasing(t) ==> KeysIncreasing(r)
  {
    Select(t, IsPendingAd)
  }

  datatype PendingAdsPage = PendingAdsPage(ads: seq<Row<Ad>>, total: nat, page: int, totalPages: Option<int>)

  /** `getPendingAds`: one page of the pending ads, newest first, with the
      number of pending ads and of pages. A negative LIMIT or OFFSET makes
      the query fail. */
  function GetPendingAds(ads: Table<Ad>, page: Option<int>, limit: Option<int>): (r: Reply<PendingAdsPage>)
    ensures var q := ReadPageQuery(page, limit);
      && (r.Fail? <==> QueryRefused(q))
      && (r.Fail? ==> r == Fail(500, "Failed to get pending ads"))
      && (r.Ok? ==>
        && r.body.total == |PendingAds(ads)|
        && r.body.page == q.page
        && r.body.totalPages == TotalPages(r.body.total, q.limit)
        && |r.body.ads| == (if q.offset >= r.body.total then 0 else Min(q.limit, r.body.total - q.offset))
        && forall k :: 0 <= k < |r.body.ads| ==>
             && r.body.ads[k] in ads && r.body.ads[k].data.status == AdPending
             && q.offset + k < r.body.total
             && r.body.ads[k] == NewestFirst(PendingAds(ads))[q.offset + k])
  {
    var q := ReadPageQuery(page, limit);
    if QueryRefused(q) then Fail(500, "Failed to get pending ads")
    else
      var pending := PendingAds(ads);
      var newest := NewestFirst(pending);
      var rows := Window(newest, q.limit, q.offset);
      assert forall k :: 0 <= k < |rows| ==> rows[k] in pending;
      Ok(PendingAdsPage(rows, |pending|, q.page, TotalPages(|pending|, q.limit)))
  }

  /** Paging through the pending ads with a positive limit shows each of
      them: the `k`-th newest pending ad is entry `k % limit` of page
      `k / limit + 1`, and no other page's window covers position `k`. */
  lemma EveryPendingAdIsListed(ads: Table<Ad>, limit: int, k: nat, page: int)
    requires limit > 0 && k < |PendingAds(ads)|
    ensures var r := GetPendingAds(ads, Some(k / limit + 1), Some(limit));
      && r.Ok? && k % limit < |r.body.ads|
      && r.body.ads[k % limit] == NewestFirst(PendingAds(ads))[k]
      && 1 <= r.body.page <= r.body.totalPages.value
    ensures var q := ReadPageQuery(Some(page), Some(limit));
      q.offset <= k < q.offset + limit ==> page == k / limit + 1
  {
    var n := |PendingAds(ads)|;
    var d := k / limit;
    RowOnExactlyOnePage(n, limit, k, page);
    PageOfRow(n, limit, k);
    var r := GetPendingAds(ads, Some(d + 1), Some(limit));
    assert r.Ok? && r.body.total == n;
  }

  function Approve(ad: Ad, adminId: nat, now: int): Ad
  {
    ad.(status := AdApproved, approvedBy := Some(adminId), approvedAt := Some(now))
  }

  function Reject(ad: Ad, reason: string, adminId: nat, now: int): Ad
  {
    ad.(status := AdRejected, rejectionReason := Some(reason), approvedBy := Some(adminId), approvedAt := Some(now))
  }

  /** `approveAd`: the ad becomes approved by this admin, whatever its
      status was; an unknown id gives 404 and changes nothing. */
  method ApproveAd(db: Db, adminId: nat, adId: nat, now: int) returns (r: Reply<Row<Ad>>)
    requires db.Valid()
    modifies db`ads
    ensures db.Valid()
    ensures match IndexOfKey(old(db.ads), adId)
      case None => r == Fail(404, "Ad not found") && db.ads == old(db.ads)
      case Some(i) =>
        && db.ads == old(db.ads)[i := Row(adId, Approve(old(db.ads)[i].data, adminId, now))]
        && r == Ok(db.ads[i])
        && r.body.data.status == AdApproved && r.body.data.approvedBy == Some(adminId)
  {
    var found := IndexOfKey(db.ads, adId);
    if found.None? {
      return Fail(404, "Ad not found");
    }
    var i := found.value;
    var row := Row(adId, Approve(db.ads[i].data, adminId, now));
    db.ads := db.ads[i := row];
    r := Ok(row);
  }

  /** `rejectAd`: a missing or empty reason gives 400 before any update;
      otherwise the ad becomes rejected with that reason, recorded against
      this admin; an unknown id gives 404 and changes nothing. */
  method RejectAd(db: Db, adminId: nat, adId: nat, reason: Option<string>, now: int) returns (r: Reply<Row<Ad>>)
    requires db.Valid()
    modifies db`ads
    ensures db.Valid()
    ensures !TextGiven(reason) ==> r == Fail(400, "Rejection reason required") && db.ads == old(db.ads)
    ensures TextGiven(reason) ==> match IndexOfKey(old(db.ads), adId)
      case None => r == Fail(404, "Ad not found") && db.ads == old(db.ads)
      case Some(i) =>
        && db.ads == old(db.ads)[i := Row(adId, Reject(old(db.ads)[i].data, reason.value, adminId, now))]
        && r == Ok(db.ads[i])
        && r.body.data.status == AdRejected && r.body.data.rejectionReason == reason
  {
    if !TextGiven(reason) {
      return Fail(400, "Rejection reason required");
    }
    var found := IndexOfKey(db.ads, adId);
    if found.None? {
      return Fail(404, "Ad not found");
    }
    var i := found.value;
    var row := Row(adId, Reject(db.ads[i].data, reason.value, adminId, now));
    db.ads := db.ads[i := row];
    r := Ok(row);
  }

  // ---------------------------------------------------------------- venues

  /** `!commissionRate || commissionRate < 0 || commissionRate > 100`
      rejects; zero is falsy, so the accepted rates are exactly (0, 100]. */
  function CommissionRateAccepted(rate: Option<real>): (ok: bool)
    ensures ok <==> rate.Some? && 0.0 < rate.value <= 100.0
  {
    !(rate.None? || rate.value == 0.0 || rate.value < 0.0 || rate.value > 100.0)
  }

  /** `updateVenueCommission`: an accepted rate replaces that venue's
      commission rate and nothing else; a rejected rate gives 400 and an
      unknown venue 404, both without change. */
  method UpdateVenueCommission(db: Db, venueId: nat, rate: Option<real>) returns (r: Reply<Row<Venue>>)
    requires db.Valid()
    modifies db`venues
    ensures db.Valid()
    ensures !CommissionRateAccepted(rate) ==> r == Fail(400, "Invalid commission rate") && db.venues == old(db.venues)
    ensures CommissionRateAccepted(rate) ==> match IndexOfKey(old(db.venues), venueId)
      case None => r == Fail(404, "Venue not found") && db.venues == old(db.venues)
      case Some(i) =>
        && db.venues == old(db.venues)[i := Row(venueId, old(db.venues)[i].data.(commissionRate := rate.value))]
        && r == Ok(db.venues[i])
  {
    if !CommissionRateAccepted(rate) {
      return Fail(400, "Invalid commission rate");
    }
    var found := IndexOfKey(db.venues, venueId);
    if found.None? {
      return Fail(404, "Venue not found");
    }
    var i := found.value;
    var row := Row(venueId, db.venues[i].data.(commissionRate := rate.value));
    db.venues := db.venues[i := row];
    r := Ok(row);
  }

  // ---------------------------------------------------------------- payouts

  /** The audit columns `processPayout` writes. */
  function CompletedBy(p: PayoutRequest, transactionId: Option<string>, notes: Option<string>, adminId: nat, now: int): PayoutRequest
  {
    p.(status := Completed, transactionId := transactionId, notes := notes, processedBy := Some(adminId), processedAt := Some(now))
  }

  /** `UPDATE venues SET current_balance = current_balance - amount WHERE id = venueId`:
      the venue with that key loses exactly `amount` (with no floor), every
      other venue is untouched, and an unknown key matches nothing. */
  function Debit(venues: Table<Venue>, venueId: nat, amount: Cents): (r: Table<Venue>)
    requires KeysIncreasing(venues)
    ensures |r| == |venues| && KeysIncreasing(r)
    ensures forall k :: 0 <= k < |venues| ==> r[k].id == venues[k].id
    ensures forall k :: 0 <= k < |venues| ==>
      r[k].data == if venues[k].id == venueId
                   then venues[k].data.(currentBalance := venues[k].data.currentBalance - amount)
                   else venues[k].data
  {
    match IndexOfKey(venues, venueId)
    case None => venues
    case Some(i) => venues[i := Row(venueId, venues[i].data.(currentBalance := venues[i].data.currentBalance - amount))]
  }

  /** `processPayout`, one BEGIN/COMMIT. The request becomes completed with
      the given audit columns and its venue is debited by its amount; there
      is no check of the request's status or of the venue's balance. An
      unknown request id throws inside the transaction: ROLLBACK, 500, and
      no table changes. `debitThrows` stands for the venue UPDATE throwing:
      the completed status is rolled back with it, and the answer is 500.
      On success every venue's `Earned` total is kept,
      except that re-processing an already completed request lowers its
      venue's by the amount: it is paid twice. */
  method ProcessPayout(db: Db, adminId: nat, requestId: nat, transactionId: Option<string>, notes: Option<string>, now: int,
                       debitThrows: bool)
    returns (r: Reply<Row<PayoutRequest>>)
    requires db.Valid()
    modifies db`payouts, db`venues
    ensures db.Valid()
    ensures match IndexOfKey(old(db.payouts), requestId)
      case None =>
        r == Fail(500, "Failed to process payout") && db.payouts == old(db.payouts) && db.venues == old(db.venues)
      case Some(i) =>
        var p := old(db.payouts)[i].data;
        if debitThrows then
          r == Fail(500, "Failed to process payout") && db.payouts == old(db.payouts) && db.venues == old(db.venues)
        else
          && db.payouts == old(db.payouts)[i := Row(requestId, CompletedBy(p, transactionId, notes, adminId, now))]
          && db.venues == Debit(old(db.venues), p.venueId, p.amount)
          && r == Ok(db.payouts[i])
          && (forall k :: 0 <= k < |db.venues| ==>
               Earned(db.venues[k], db.payouts) ==
               Earned(old(db.venues)[k], old(db.payouts))
                 - (if db.venues[k].id == p.venueId && p.status == Completed then p.amount else 0))
  {
    var savedPayouts, savedVenues := db.payouts, db.venues;
    // BEGIN
    var found := IndexOfKey(db.payouts, requestId);
    if found.None? {
      // the UPDATE matched no row: throw, ROLLBACK
      db.payouts, db.venues := savedPayouts, savedVenues;
      return Fail(500, "Failed to process payout");
    }
    var i := found.value;
    var payout := Row(requestId, CompletedBy(db.payouts[i].data, transactionId, notes, adminId, now));
    db.payouts := db.payouts[i := payout];
    if debitThrows {
      // the venue UPDATE threw: ROLLBACK
      db.payouts, db.venues := savedPayouts, savedVenues;
      return Fail(500, "Failed to process payout");
    }
    db.venues := Debit(db.venues, payout.data.venueId, payout.data.amount);
    // COMMIT
    r := Ok(payout);
    forall k | 0 <= k < |db.venues|
      ensures Earned(db.venues[k], db.payouts) ==
              Earned(savedVenues[k], savedPayouts)
                - (if db.venues[k].id == payout.data.venueId && savedPayouts[i].data.status == Completed
                   then payout.data.amount else 0)
    {
      CompletingAddsOnce(savedPayouts, i, payout, savedVenues[k].id);
    }
  }

  /** Nothing stops a completed request from being processed again: both
      calls succeed and its venue is debited twice. */
  method ProcessingTwiceDebitsTwice(db: Db, adminId: nat, requestId: nat, v: nat, now: int)
    returns (first: Reply<Row<PayoutRequest>>, second: Reply<Row<PayoutRequest>>)
    requires db.Valid()
    requires IndexOfKey(db.payouts, requestId).Some?
    requires v < |db.venues| && db.venues[v].id == db.payouts[IndexOfKey(db.payouts, requestId).value].data.venueId
    modifies db`payouts, db`venues
    ensures first.Ok? && second.Ok? && second.body.data.status == Completed
    ensures |db.venues| == |old(db.venues)|
    ensures var p := old(db.payouts)[IndexOfKey(old(db.payouts), requestId).value].data;
      db.venues[v].data.currentBalance == old(db.venues)[v].data.currentBalance - 2 * p.amount
  {
    ghost var i := IndexOfKey(db.payouts, requestId).value;
    ghost var amount := db.payouts[i].data.amount;
    first := ProcessPayout(db, adminId, requestId, None, None, now, false);
    IndexOfKeyUnique(db.payouts, requestId, i);
    second := ProcessPayout(db, adminId, requestId, None, None, now, false);
  }
}
