/** The venue handlers: earnings and payout history listings, payout
    requests and profile edits. Every route sits behind the venue role
    check; `userId` is the authenticated caller. */
module VenueController {
  import opened Common
  import opened Tables
  import opened Schema
  import opened Database
  import opened Pagination
  import opened Ledger

  // ---------------------------------------------------------------- earnings

  function EarningsOf(t: Table<Earning>, venueId: nat): (r: Table<Earning>)
    ensures forall k :: 0 <= k < |r| ==> r[k] in t && r[k].data.venueId == venueId
    ensures forall k :: 0 <= k < |t| && t[k].data.venueId == venueId ==> t[k] in r
    ensures KeysIncreasing(t) ==> KeysIncreasing(r)
  {
    Select(t, (e: Earning) => e.venueId == venueId)
  }

  datatype EarningsPage = EarningsPage(earnings: seq<Row<Earning>>, total: nat, page: int, totalPages: Option<int>)

  /** `getEarnings`: one page of the caller's earnings, newest first, with
      their number and the number of pages. No venue gives 404; a negative
      LIMIT or OFFSET makes the query fail. */
  function GetEarnings(venues: Table<Venue>, earnings: Table<Earning>, userId: nat, page: Option<int>, limit: Option<int>)
    : (r: Reply<EarningsPage>)
    ensures VenueOfUser(venues, userId).None? ==> r == Fail(404, "Venue not found")
    ensures VenueOfUser(venues, userId).Some? ==>
      var venueId := venues[VenueOfUser(venues, userId).value].id;
      var q := ReadPageQuery(page, limit);
      && (r.Fail? <==> QueryRefused(q))
      && (r.Fail? ==> r == Fail(500, "Failed to get earnings"))
      && (r.Ok? ==>
        && r.body.total == |EarningsOf(earnings, venueId)|
        && r.body.page == q.page
        && r.body.totalPages == TotalPages(r.body.total, q.limit)
        && |r.body.earnings| == (if q.offset >= r.body.total then 0 else Min(q.limit, r.body.total - q.offset))
        && forall k :: 0 <= k < |r.body.earnings| ==>
             && r.body.earnings[k] in earnings && r.body.earnings[k].data.venueId == venueId
             && q.offset + k < r.body.total
             && r.body.earnings[k] == NewestFirst(EarningsOf(earnings, venueId))[q.offset + k])
  {
    var q := ReadPageQuery(page, limit);
    match VenueOfUser(venues, userId)
    case None => Fail(404, "Venue not found")
    case Some(i) =>
      if QueryRefused(q) then Fail(500, "Failed to get earnings")
      else
        var own := EarningsOf(earnings, venues[i].id);
        var rows := Window(NewestFirst(own), q.limit, q.offset);
        assert forall k :: 0 <= k < |rows| ==> rows[k] in own;
        Ok(EarningsPage(rows, |own|, q.page, TotalPages(|own|, q.limit)))
  }

  /** Paging through a venue's earnings with a positive limit shows each
      of them: the `k`-th newest is entry `k % limit` of page
      `k / limit + 1`, and no other page's window covers position `k`. */
  lemma EveryEarningIsListed(venues: Table<Venue>, earnings: Table<Earning>, userId: nat, limit: int, k: nat, page: int)
    requires VenueOfUser(venues, userId).Some?
    requires limit > 0 && k < |EarningsOf(earnings, venues[VenueOfUser(venues, userId).value].id)|
    ensures var own := EarningsOf(earnings, venues[VenueOfUser(venues, userId).value].id);
      var r := GetEarnings(venues, earnings, userId, Some(k / limit + 1), Some(limit));
      && r.Ok? && k % limit < |r.body.earnings|
      && r.body.earnings[k % limit] == NewestFirst(own)[k]
      && 1 <= r.body.page <= r.body.totalPages.value
    ensures var q := ReadPageQuery(Some(page), Some(limit));
      q.offset <= k < q.offset + limit ==> page == k / limit + 1
  {
    var own := EarningsOf(earnings, venues[VenueOfUser(venues, userId).value].id);
    var n := |own|;
    var d := k / limit;
    RowOnExactlyOnePage(n, limit, k, page);
    PageOfRow(n, limit, k);
    var r := GetEarnings(venues, earnings, userId, Some(d + 1), Some(limit));
    assert r.Ok? && r.body.total == n;
  }

  // ---------------------------------------------------------------- payouts

  /** `parseFloat(process.env.MINIMUM_PAYOUT) || 100`: an unset or zero
      setting falls back to 100 dollars. */
  function MinimumPayout(setting: Option<Cents>): (m: Cents)
    ensures NumberGiven(setting) ==> m == setting.value
    ensures !NumberGiven(setting) ==> m == 10000
  {
    if NumberGiven(setting) then setting.value else 10000
  }

  function DigitChar(d: nat): char
    requires d < 10
  {
    "0123456789"[d]
  }

  function DecimalText(n: nat): string
  {
    if n < 10 then [DigitChar(n)] else DecimalText(n / 10) + [DigitChar(n % 10)]
  }

  /** How JavaScript prints an amount of dollars given in cents: no
      fractional part when whole, no trailing zero otherwise. */
  function DollarsText(c: Cents): string
    decreases if c < 0 then 1 else 0
  {
    if c < 0 then "-" + DollarsText(-c)
    else
      var cents := c % 100;
      DecimalText(c / 100) +
        if cents == 0 then ""
        else if cents % 10 == 0 then "." + [DigitChar(cents / 10)]
        else "." + [DigitChar(cents / 10), DigitChar(cents % 10)]
  }

  /** The two amount checks of `requestPayout`, in order. An amount equal to
      the balance passes; pending requests are not counted against it. */
  function PayoutRefusal(amount: Cents, minimum: Cents, balance: Cents): (r: Option<string>)
    ensures r.None? <==> minimum <= amount <= balance
    ensures amount < minimum ==> r == Some("Minimum payout amount is $" + DollarsText(minimum))
    ensures minimum <= amount && amount > balance ==> r == Some("Insufficient balance")
  {
    if amount < minimum then Some("Minimum payout amount is $" + DollarsText(minimum))
    else if amount > balance then Some("Insufficient balance")
    else None
  }

  /** The row `requestPayout` inserts; its status is the column default. */
  function NewPayoutRequest(venueId: nat, amount: Cents, payoutMethod: Option<string>, payoutDetails: Option<string>): PayoutRequest
  {
    PayoutRequest(venueId, amount, payoutMethod, payoutDetails, Pending, None, None, None, None)
  }

  /** `requestPayout`: no venue for the caller gives 404 before any amount
      check; a refused amount gives 400; otherwise exactly one pending
      request is appended for this venue and no balance moves, so every
      venue's `Earned` total is unchanged. */
  method RequestPayout(db: Db, userId: nat, amount: Cents, payoutMethod: Option<string>,
                       payoutDetails: Option<string>, minimumSetting: Option<Cents>)
    returns (r: Reply<Row<PayoutRequest>>)
    requires db.Valid()
    modifies db`payouts, db`payoutSerial
    ensures db.Valid()
    ensures match VenueOfUser(db.venues, userId)
      case None =>
        r == Fail(404, "Venue not found") && db.payouts == old(db.payouts) && db.payoutSerial == old(db.payoutSerial)
      case Some(i) =>
        match PayoutRefusal(amount, MinimumPayout(minimumSetting), db.venues[i].data.currentBalance)
        case Some(message) =>
          r == Fail(400, message) && db.payouts == old(db.payouts) && db.payoutSerial == old(db.payoutSerial)
        case None =>
          var row := Row(old(db.payoutSerial), NewPayoutRequest(db.venues[i].id, amount, payoutMethod, payoutDetails));
          db.payouts == old(db.payouts) + [row] && db.payoutSerial == old(db.payoutSerial) + 1 && r == Ok(row)
    ensures forall k :: 0 <= k < |db.venues| ==> Earned(db.venues[k], db.payouts) == Earned(db.venues[k], old(db.payouts))
  {
    var found := VenueOfUser(db.venues, userId);
    if found.None? {
      return Fail(404, "Venue not found");
    }
    var venue := db.venues[found.value];
    var refusal := PayoutRefusal(amount, MinimumPayout(minimumSetting), venue.data.currentBalance);
    if refusal.Some? {
      return Fail(400, refusal.value);
    }
    var row := Row(db.payoutSerial, NewPayoutRequest(venue.id, amount, payoutMethod, payoutDetails));
    forall k | 0 <= k < |db.venues| ensures PaidOut(db.payouts + [row], db.venues[k].id) == PaidOut(db.payouts, db.venues[k].id) {
      AppendingUnpaidKeepsPaidOut(db.payouts, row, db.venues[k].id);
    }
    db.payouts := db.payouts + [row];
    db.payoutSerial := db.payoutSerial + 1;
    r := Ok(row);
  }

  /** The balance check looks only at the balance, so two requests that
      each fit are both accepted though together they exceed it. */
  method PendingRequestsCanOverdraw(db: Db, userId: nat, first: Cents, second: Cents, minimumSetting: Option<Cents>)
    returns (r1: Reply<Row<PayoutRequest>>, r2: Reply<Row<PayoutRequest>>)
    requires db.Valid()
    requires VenueOfUser(db.venues, userId).Some?
    requires var balance := db.venues[VenueOfUser(db.venues, userId).value].data.currentBalance;
      MinimumPayout(minimumSetting) <= first <= balance && MinimumPayout(minimumSetting) <= second <= balance
    modifies db`payouts, db`payoutSerial
    ensures r1.Ok? && r2.Ok? && r1.body.data.status == Pending && r2.body.data.status == Pending
    ensures db.payouts == old(db.payouts) + [r1.body, r2.body]
  {
    r1 := RequestPayout(db, userId, first, None, None, minimumSetting);
    r2 := RequestPayout(db, userId, second, None, None, minimumSetting);
  }

  function PayoutsOf(t: Table<PayoutRequest>, venueId: nat): (r: Table<PayoutRequest>)
    ensures forall k :: 0 <= k < |r| ==> r[k] in t && r[k].data.venueId == venueId
    ensures forall k :: 0 <= k < |t| && t[k].data.venueId == venueId ==> t[k] in r
    ensures KeysIncreasing(t) ==> KeysIncreasing(r)
  {
    Select(t, (p: PayoutRequest) => p.venueId == venueId)
  }

  /** `getPayoutHistory`: exactly the caller venue's requests, newest
      first; no venue gives 404. */
  function GetPayoutHistory(venues: Table<Venue>, payouts: Table<PayoutRequest>, userId: nat)
    : (r: Reply<seq<Row<PayoutRequest>>>)
    ensures VenueOfUser(venues, userId).None? ==> r == Fail(404, "Venue not found")
    ensures VenueOfUser(venues, userId).Some? ==>
      var venueId := venues[VenueOfUser(venues, userId).value].id;
      && r.Ok?
      && (forall k :: 0 <= k < |r.body| ==> r.body[k] in payouts && r.body[k].data.venueId == venueId)
      && (forall k :: 0 <= k < |payouts| && payouts[k].data.venueId == venueId ==> payouts[k] in r.body)
      && (KeysIncreasing(payouts) ==> forall i, j :: 0 <= i < j < |r.body| ==> r.body[i].id > r.body[j].id)
  {
    match VenueOfUser(venues, userId)
    case None => Fail(404, "Venue not found")
    case Some(i) =>
      var own := PayoutsOf(payouts, venues[i].id);
      var newest := NewestFirst(own);
      assert forall k :: 0 <= k < |own| ==> own[k] in newest by {
        forall k | 0 <= k < |own| ensures own[k] in newest {
          assert newest[|own| - 1 - k] == own[k];
        }
      }
      PayoutsNewestFirst(payouts, own);
      Ok(newest)
  }

  lemma PayoutsNewestFirst(payouts: Table<PayoutRequest>, own: Table<PayoutRequest>)
    requires KeysIncreasing(payouts) ==> KeysIncreasing(own)
    ensures KeysIncreasing(payouts) ==> forall i, j :: 0 <= i < j < |own| ==> NewestFirst(own)[i].id > NewestFirst(own)[j].id
  {
    if KeysIncreasing(payouts) { NewestFirstKeysDecrease(own); }
  }

  // ---------------------------------------------------------------- profile

  /** The eight profile fields of `updateProfile`; a missing or null field is `None`. */
  datatype ProfilePatch = ProfilePatch(
    businessName: Option<string>,
    address: Option<string>,
    city: Option<string>,
    state: Option<string>,
    zipCode: Option<string>,
    payoutMethod: Option<string>,
    payoutEmail: Option<string>,
    payoutPhone: Option<string>)

  /** `SET column = COALESCE($n, column)` for each profile column: a given
      field overwrites (even with ""), an absent one keeps the old value,
      and the balance, commission rate, owner and active flag are untouched. */
  function MergeProfile(v: Venue, p: ProfilePatch): (r: Venue)
    ensures r.businessName == Coalesce(p.businessName, v.businessName)
    ensures r.address == Coalesce(p.address, v.address)
    ensures r.city == Coalesce(p.city, v.city)
    ensures r.state == Coalesce(p.state, v.state)
    ensures r.zipCode == Coalesce(p.zipCode, v.zipCode)
    ensures r.payoutMethod == (if p.payoutMethod.Some? then p.payoutMethod else v.payoutMethod)
    ensures r.payoutEmail == (if p.payoutEmail.Some? then p.payoutEmail else v.payoutEmail)
    ensures r.payoutPhone == (if p.payoutPhone.Some? then p.payoutPhone else v.payoutPhone)
    ensures r.userId == v.userId && r.commissionRate == v.commissionRate
    ensures r.currentBalance == v.currentBalance && r.isActive == v.isActive
  {
    v.(businessName := Coalesce(p.businessName, v.businessName),
       address := Coalesce(p.address, v.address),
       city := Coalesce(p.city, v.city),
       state := Coalesce(p.state, v.state),
       zipCode := Coalesce(p.zipCode, v.zipCode),
       payoutMethod := if p.payoutMethod.Some? then p.payoutMethod else v.payoutMethod,
       payoutEmail := if p.payoutEmail.Some? then p.payoutEmail else v.payoutEmail,
       payoutPhone := if p.payoutPhone.Some? then p.payoutPhone else v.payoutPhone)
  }

  /** Sending the same profile edit twice has the effect of sending it once. */
  lemma MergeProfileIdempotent(v: Venue, p: ProfilePatch)
    ensures MergeProfile(MergeProfile(v, p), p) == MergeProfile(v, p)
  {
  }

  /** An edit with every field absent changes nothing. */
  lemma EmptyPatchKeepsVenue(v: Venue)
    ensures MergeProfile(v, ProfilePatch(None, None, None, None, None, None, None, None)) == v
  {
  }

  /** A later value where one is given, the earlier one otherwise. */
  function Override<T>(later: Option<T>, earlier: Option<T>): Option<T>
  {
    if later.Some? then later else earlier
  }

  /** The single edit that has the effect of `earlier` followed by `later`. */
  function Overlay(later: ProfilePatch, earlier: ProfilePatch): ProfilePatch
  {
    ProfilePatch(
      Override(later.businessName, earlier.businessName),
      Override(later.address, earlier.address),
      Override(later.city, earlier.city),
      Override(later.state, earlier.state),
      Override(later.zipCode, earlier.zipCode),
      Override(later.payoutMethod, earlier.payoutMethod),
      Override(later.payoutEmail, earlier.payoutEmail),
      Override(later.payoutPhone, earlier.payoutPhone))
  }

  /** Two successive edits equal one edit in which the later one's given
      fields win: no field of the earlier edit is lost unless overwritten. */
  lemma SuccessiveEditsCompose(v: Venue, earlier: ProfilePatch, later: ProfilePatch)
    ensures MergeProfile(MergeProfile(v, earlier), later) == MergeProfile(v, Overlay(later, earlier))
  {
  }

  /** `UPDATE venues SET ... WHERE user_id = $9`: every venue of that user
      gets the edit, every other row is untouched. */
  function ProfilesUpdated(venues: Table<Venue>, userId: nat, p: ProfilePatch): (r: Table<Venue>)
    ensures |r| == |venues|
    ensures forall k :: 0 <= k < |venues| ==> r[k].id == venues[k].id
    ensures forall k :: 0 <= k < |venues| ==>
      r[k].data == if venues[k].data.userId == userId then MergeProfile(venues[k].data, p) else venues[k].data
    ensures KeysIncreasing(venues) ==> KeysIncreasing(r)
  {
    seq(|venues|, k requires 0 <= k < |venues| =>
      if venues[k].data.userId == userId then Row(venues[k].id, MergeProfile(venues[k].data, p)) else venues[k])
  }

  /** Repeating the same profile update leaves the table as one update did. */
  lemma ProfilesUpdatedIdempotent(venues: Table<Venue>, userId: nat, p: ProfilePatch)
    ensures ProfilesUpdated(ProfilesUpdated(venues, userId, p), userId, p) == ProfilesUpdated(venues, userId, p)
  {
    var once := ProfilesUpdated(venues, userId, p);
    var twice := ProfilesUpdated(once, userId, p);
    forall k | 0 <= k < |venues| ensures twice[k] == once[k] {
      MergeProfileIdempotent(venues[k].data, p);
    }
  }

  /** A profile update never moves a venue to another owner, so every
      user's venue lookup finds the same row position afterwards. */
  lemma ProfilesUpdatedKeepsOwners(venues: Table<Venue>, userId: nat, p: ProfilePatch, anyUser: nat)
    ensures VenueOfUser(ProfilesUpdated(venues, userId, p), anyUser) == VenueOfUser(venues, anyUser)
  {
    var updated := ProfilesUpdated(venues, userId, p);
    assert forall k :: 0 <= k < |venues| ==> updated[k].data.userId == venues[k].data.userId;
  }

  /** `updateProfile`: the caller's venue rows get the edit and the first
      of them is returned; no venue gives 404 with no change. */
  method UpdateProfile(db: Db, userId: nat, p: ProfilePatch) returns (r: Reply<Row<Venue>>)
    requires db.Valid()
    modifies db`venues
    ensures db.Valid()
    ensures db.venues == ProfilesUpdated(old(db.venues), userId, p)
    ensures match VenueOfUser(old(db.venues), userId)
      case None => r == Fail(404, "Venue not found") && db.venues == old(db.venues)
      case Some(i) => r == Ok(db.venues[i]) && r.body.data == MergeProfile(old(db.venues)[i].data, p)
  {
    var found := VenueOfUser(db.venues, userId);
    db.venues := ProfilesUpdated(db.venues, userId, p);
    if found.None? {
      return Fail(404, "Venue not found");
    }
    r := Ok(db.venues[found.value]);
  }
}
