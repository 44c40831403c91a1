/** The advertiser handlers: creating campaigns, uploading and enhancing
    ads, listing the screens on offer, and booking screens for a campaign.
    Every route sits behind the advertiser role check; `userId` is the
    authenticated caller. */
module AdvertiserController {
  import opened Common
  import opened Tables
  import opened Schema
  import opened Database
  import opened Collation

  // ---------------------------------------------------------------- campaigns

  /** `!campaignName || !budget`: both must be truthy, so an empty name or
      a zero budget is refused (a negative budget is not). */
  function CampaignInputAccepted(campaignName: Option<string>, budget: Option<Cents>): (ok: bool)
    ensures ok <==> campaignName.Some? && campaignName.value != "" && budget.Some? && budget.value != 0
  {
    TextGiven(campaignName) && NumberGiven(budget)
  }

  /** `createCampaign`: the input check comes before the advertiser lookup;
      a new campaign is appended for the caller's advertiser account and
      answered with 201. */
  method CreateCampaign(db: Db, userId: nat, campaignName: Option<string>, budget: Option<Cents>,
                        startDate: Option<string>, endDate: Option<string>)
    returns (r: Reply<Row<Campaign>>)
    requires db.Valid()
    modifies db`campaigns, db`campaignSerial
    ensures db.Valid()
    ensures !CampaignInputAccepted(campaignName, budget) ==>
      r == Fail(400, "Campaign name and budget required") &&
      db.campaigns == old(db.campaigns) && db.campaignSerial == old(db.campaignSerial)
    ensures CampaignInputAccepted(campaignName, budget) ==> match AdvertiserOfUser(db.advertisers, userId)
      case None =>
        r == Fail(404, "Advertiser not found") &&
        db.campaigns == old(db.campaigns) && db.campaignSerial == old(db.campaignSerial)
      case Some(i) =>
        var row := Row(old(db.campaignSerial), Campaign(db.advertisers[i].id, campaignName.value, budget.value, startDate, endDate));
        db.campaigns == old(db.campaigns) + [row] && db.campaignSerial == old(db.campaignSerial) + 1 && r == Created(row)
  {
    if !CampaignInputAccepted(campaignName, budget) {
      return Fail(400, "Campaign name and budget required");
    }
    var found := AdvertiserOfUser(db.advertisers, userId);
    if found.None? {
      return Fail(404, "Advertiser not found");
    }
    var row := Row(db.campaignSerial, Campaign(db.advertisers[found.value].id, campaignName.value, budget.value, startDate, endDate));
    db.campaigns := db.campaigns + [row];
    db.campaignSerial := db.campaignSerial + 1;
    r := Created(row);
  }

  // ---------------------------------------------------------------- ads

  /** `mimetype.startsWith('video/') ? 'video' : 'image'`. */
  function AdTypeOf(mimetype: string): (t: AdType)
    ensures t == Video <==> |mimetype| >= 6 && mimetype[..6] == "video/"
    ensures t == Image <==> !(|mimetype| >= 6 && mimetype[..6] == "video/")
  {
    if "video/" <= mimetype then Video else Image
  }

  /** `duration || 10`: the multipart field is text, so only a missing or
      empty field (`None`) takes the default; a given "0" stays 0. */
  function DurationOrDefault(duration: Option<int>): (d: int)
    ensures duration.None? ==> d == 10
    ensures duration.Some? ==> d == duration.value
  {
    match duration
    case None => 10
    case Some(seconds) => seconds
  }

  /** The file multer stored for the upload. */
  datatype UploadedFile = UploadedFile(mimetype: string, path: string)

  /** `uploadAd`: no file gives 400, then a missing campaign id gives 400,
      then no advertiser gives 404; otherwise one ad is appended, awaiting
      review, typed by the file's MIME type, and answered with 201. The
      campaign is not checked to belong to the caller. */
  method UploadAd(db: Db, userId: nat, file: Option<UploadedFile>, campaignId: Option<nat>,
                  title: Option<string>, description: Option<string>, duration: Option<int>)
    returns (r: Reply<Row<Ad>>)
    requires db.Valid()
    modifies db`ads, db`adSerial
    ensures db.Valid()
    ensures file.None? ==> r == Fail(400, "No file uploaded") && db.ads == old(db.ads) && db.adSerial == old(db.adSerial)
    ensures file.Some? && campaignId.None? ==>
      r == Fail(400, "Campaign ID required") && db.ads == old(db.ads) && db.adSerial == old(db.adSerial)
    ensures file.Some? && campaignId.Some? ==> match AdvertiserOfUser(db.advertisers, userId)
      case None => r == Fail(404, "Advertiser not found") && db.ads == old(db.ads) && db.adSerial == old(db.adSerial)
      case Some(i) =>
        var ad := Ad(campaignId.value, db.advertisers[i].id, AdTypeOf(file.value.mimetype), file.value.path,
                     title, description, DurationOrDefault(duration), AdPending, None, None, None, None);
        && db.ads == old(db.ads) + [Row(old(db.adSerial), ad)]
        && db.adSerial == old(db.adSerial) + 1
        && r == Created(Row(old(db.adSerial), ad))
  {
    if file.None? {
      return Fail(400, "No file uploaded");
    }
    if campaignId.None? {
      return Fail(400, "Campaign ID required");
    }
    var found := AdvertiserOfUser(db.advertisers, userId);
    if found.None? {
      return Fail(404, "Advertiser not found");
    }
    var ad := Ad(campaignId.value, db.advertisers[found.value].id, AdTypeOf(file.value.mimetype), file.value.path,
                 title, description, DurationOrDefault(duration), AdPending, None, None, None, None);
    var row := Row(db.adSerial, ad);
    db.ads := db.ads + [row];
    db.adSerial := db.adSerial + 1;
    r := Created(row);
  }

  /** `enhanceAd` without its file read and AI call, whose failure is
      `externalFails`. An unknown ad gives 404 and a video 400, before any
      outside call; on success the ad's enhanced path is set to its own
      file path and nothing else changes. The ad is not checked to belong
      to the caller. */
  method EnhanceAd(db: Db, adId: nat, externalFails: bool) returns (r: Reply<Row<Ad>>)
    requires db.Valid()
    modifies db`ads
    ensures db.Valid()
    ensures match IndexOfKey(old(db.ads), adId)
      case None => r == Fail(404, "Ad not found") && db.ads == old(db.ads)
      case Some(i) =>
        var ad := old(db.ads)[i].data;
        if ad.adType != Image then r == Fail(400, "Only images can be enhanced") && db.ads == old(db.ads)
        else if externalFails then r == Fail(500, "Failed to enhance ad") && db.ads == old(db.ads)
        else
          && db.ads == old(db.ads)[i := Row(adId, ad.(enhancedFilePath := Some(ad.filePath)))]
          && r == Ok(db.ads[i])
  {
    var found := IndexOfKey(db.ads, adId);
    if found.None? {
      return Fail(404, "Ad not found");
    }
    var i := found.value;
    var ad := db.ads[i].data;
    if ad.adType != Image {
      return Fail(400, "Only images can be enhanced");
    }
    if externalFails {
      return Fail(500, "Failed to enhance ad");
    }
    var row := Row(adId, ad.(enhancedFilePath := Some(ad.filePath)));
    db.ads := db.ads[i := row];
    r := Ok(row);
  }

  // ---------------------------------------------------------------- locations on offer

  /** The flat price quoted and booked per screen per week: 35.00 dollars. */
  const WeeklyCost: Cents := 3500

  /** One row of the available-locations listing. */
  datatype Listing = Listing(
    venueId: nat,
    businessName: string,
    address: string,
    city: string,
    state: string,
    zipCode: string,
    latitude: Option<real>,
    longitude: Option<real>,
    screenId: nat,
    screenName: string,
    estimatedDailyViews: int,
    weeklyCost: Cents)

  /** A venue row joined with one of its screen rows. */
  datatype Offer = Offer(venue: Row<Venue>, screen: Row<Screen>)

  /** The columns the listing selects from a joined pair. */
  function ListingOf(o: Offer): Listing
  {
    Listing(o.venue.id, o.venue.data.businessName, o.venue.data.address, o.venue.data.city, o.venue.data.state,
            o.venue.data.zipCode, o.venue.data.latitude, o.venue.data.longitude,
            o.screen.id, o.screen.data.screenName, o.screen.data.estimatedDailyViews, WeeklyCost)
  }

  /** The join condition and filters: the screen is at this venue, both are
      active, and the zip code matches when one is given. */
  predicate Available(v: Row<Venue>, s: Row<Screen>, zipCode: Option<string>)
  {
    && s.data.venueId == v.id
    && v.data.isActive
    && s.data.status == "active"
    && (TextGiven(zipCode) ==> v.data.zipCode == zipCode.value)
  }

  /** The available screens of venue `v`, paired with it. */
  function ScreensOf(v: Row<Venue>, screens: Table<Screen>, zipCode: Option<string>): (r: seq<Offer>)
    ensures forall k :: 0 <= k < |r| ==> r[k].venue == v && r[k].screen in screens && Available(v, r[k].screen, zipCode)
    ensures forall j :: 0 <= j < |screens| && Available(v, screens[j], zipCode) ==> Offer(v, screens[j]) in r
  {
    if |screens| == 0 then []
    else
      var rest := ScreensOf(v, screens[1..], zipCode);
      assert forall j :: 1 <= j < |screens| ==> screens[j] == screens[1..][j - 1];
      if Available(v, screens[0], zipCode) then [Offer(v, screens[0])] + rest else rest
  }

  /** `FROM venues v JOIN screens s ON v.id = s.venue_id WHERE ...`, venue by venue. */
  function Join(venues: Table<Venue>, screens: Table<Screen>, zipCode: Option<string>): (r: seq<Offer>)
    ensures forall k :: 0 <= k < |r| ==>
      r[k].venue in venues && r[k].screen in screens && Available(r[k].venue, r[k].screen, zipCode)
    ensures forall i, j :: 0 <= i < |venues| && 0 <= j < |screens| && Available(venues[i], screens[j], zipCode) ==>
      Offer(venues[i], screens[j]) in r
  {
    if |venues| == 0 then []
    else
      var here := ScreensOf(venues[0], screens, zipCode);
      var rest := Join(venues[1..], screens, zipCode);
      assert forall i :: 1 <= i < |venues| ==> venues[i] == venues[1..][i - 1];
      here + rest
  }

  /** `ORDER BY v.city, v.business_name` compares two listings. */
  predicate ListingLe(x: Listing, y: Listing)
  {
    if x.city != y.city then TextLe(x.city, y.city) else TextLe(x.businessName, y.businessName)
  }

  lemma ListingLeTotal(x: Listing, y: Listing)
    ensures ListingLe(x, y) || ListingLe(y, x)
  {
    TextLeTotal(x.city, y.city);
    TextLeTotal(x.businessName, y.businessName);
  }

  lemma ListingLeTransitive(x: Listing, y: Listing, z: Listing)
    requires ListingLe(x, y) && ListingLe(y, z)
    ensures ListingLe(x, z)
  {
    if x.city == y.city == z.city {
      TextLeTransitive(x.businessName, y.businessName, z.businessName);
    } else if x.city != y.city && y.city != z.city {
      TextLeTransitive(x.city, y.city, z.city);
      if x.city == z.city {
        TextLeAntisymmetric(x.city, y.city);
      }
    }
  }

  predicate OfferLe(x: Offer, y: Offer)
  {
    ListingLe(ListingOf(x), ListingOf(y))
  }

  /** Each offer is in order with the next one. */
  predicate OffersSorted(s: seq<Offer>)
  {
    forall k :: 0 <= k < |s| - 1 ==> OfferLe(s[k], s[k + 1])
  }

  /** In a sorted sequence every earlier offer comes no later than every later one. */
  lemma {:induction false} SortedInOrder(s: seq<Offer>, i: nat, j: nat)
    requires OffersSorted(s)
    requires i <= j < |s|
    ensures OfferLe(s[i], s[j])
    decreases j - i
  {
    if i == j {
      TextLeTotal(ListingOf(s[i]).businessName, ListingOf(s[i]).businessName);
    } else {
      SortedInOrder(s, i + 1, j);
      ListingLeTransitive(ListingOf(s[i]), ListingOf(s[i + 1]), ListingOf(s[j]));
    }
  }

  function InsertOffer(x: Offer, s: seq<Offer>): (r: seq<Offer>)
    requires OffersSorted(s)
    ensures OffersSorted(r)
    ensures multiset(r) == multiset(s) + multiset{x}
    ensures |s| > 0 ==> r[0] == x || r[0] == s[0]
  {
    if |s| == 0 then [x]
    else if OfferLe(x, s[0]) then [x] + s
    else
      var rest := InsertOffer(x, s[1..]);
      ListingLeTotal(ListingOf(x), ListingOf(s[0]));
      assert s == [s[0]] + s[1..];
      [s[0]] + rest
  }

  /** Insertion sort: one of the orders the database may return rows in. */
  function SortOffers(s: seq<Offer>): (r: seq<Offer>)
    ensures OffersSorted(r)
    ensures multiset(r) == multiset(s)
  {
    if |s| == 0 then []
    else
      assert s == [s[0]] + s[1..];
      InsertOffer(s[0], SortOffers(s[1..]))
  }

  /** Sorting keeps exactly the offers it was given. */
  lemma SortKeepsOffers(s: seq<Offer>)
    ensures |SortOffers(s)| == |s|
    ensures forall o :: o in SortOffers(s) <==> o in s
  {
    var r := SortOffers(s);
    assert |r| == |multiset(r)| == |multiset(s)| == |s|;
    forall o ensures o in r <==> o in s {
      assert o in r <==> o in multiset(r);
      assert o in s <==> o in multiset(s);
    }
  }

  /** The columns selected from each offer, in order. */
  function Listings(offers: seq<Offer>): (r: seq<Listing>)
    ensures |r| == |offers|
    ensures forall k :: 0 <= k < |offers| ==> r[k] == ListingOf(offers[k])
  {
    seq(|offers|, k requires 0 <= k < |offers| => ListingOf(offers[k]))
  }

  lemma ListingsCons(x: Offer, s: seq<Offer>)
    ensures Listings([x] + s) == [ListingOf(x)] + Listings(s)
  {
    var l, m := Listings([x] + s), [ListingOf(x)] + Listings(s);
    forall k | 0 <= k < |l| ensures l[k] == m[k] {
      if k > 0 {
        assert ([x] + s)[k] == s[k - 1];
      }
    }
  }

  /** Inserting an offer adds exactly its listing to the listings. */
  lemma {:induction false} ListingsOfInsert(x: Offer, s: seq<Offer>)
    requires OffersSorted(s)
    ensures multiset(Listings(InsertOffer(x, s))) == multiset(Listings(s)) + multiset{ListingOf(x)}
    decreases |s|
  {
    if |s| == 0 {
      ListingsCons(x, s);
    } else if OfferLe(x, s[0]) {
      ListingsCons(x, s);
    } else {
      assert s == [s[0]] + s[1..];
      ListingsOfInsert(x, s[1..]);
      ListingsCons(s[0], InsertOffer(x, s[1..]));
      ListingsCons(s[0], s[1..]);
    }
  }

  /** Sorting the offers permutes their listings: one listing per offer, no
      more and no fewer. */
  lemma {:induction false} ListingsOfSort(s: seq<Offer>)
    ensures multiset(Listings(SortOffers(s))) == multiset(Listings(s))
    decreases |s|
  {
    if |s| > 0 {
      assert s == [s[0]] + s[1..];
      ListingsOfSort(s[1..]);
      ListingsOfInsert(s[0], SortOffers(s[1..]));
      ListingsCons(s[0], s[1..]);
    }
  }

  /** Rows listed in `ORDER BY v.city, v.business_name` order. */
  predicate InCityOrder(rows: seq<Listing>)
  {
    forall a, b :: 0 <= a <= b < |rows| ==> ListingLe(rows[a], rows[b])
  }

  /** Every row lists an available (venue, screen) pair. */
  ghost predicate FromAvailablePairs(venues: Table<Venue>, screens: Table<Screen>, zipCode: Option<string>, rows: seq<Listing>)
  {
    forall k :: 0 <= k < |rows| ==>
      exists o: Offer :: (o.venue in venues && o.screen in screens && Available(o.venue, o.screen, zipCode) &&
        rows[k] == ListingOf(o))
  }

  /** Every available (venue, screen) pair is listed. */
  predicate ListsAllAvailable(venues: Table<Venue>, screens: Table<Screen>, zipCode: Option<string>, rows: seq<Listing>)
  {
    forall i, j :: 0 <= i < |venues| && 0 <= j < |screens| && Available(venues[i], screens[j], zipCode) ==>
      ListingOf(Offer(venues[i], screens[j])) in rows
  }

  /** Every row is quoted at the flat weekly cost and, when a zip code is
      given, lies at that zip code. */
  predicate QuotedAt(zipCode: Option<string>, rows: seq<Listing>)
  {
    forall k :: 0 <= k < |rows| ==>
      rows[k].weeklyCost == WeeklyCost && (TextGiven(zipCode) ==> rows[k].zipCode == zipCode.value)
  }

  /** A sorted sequence of offers lists in city order. */
  lemma ListingsInOrder(s: seq<Offer>)
    requires OffersSorted(s)
    ensures InCityOrder(Listings(s))
  {
    forall a, b | 0 <= a <= b < |s| ensures ListingLe(Listings(s)[a], Listings(s)[b]) {
      SortedInOrder(s, a, b);
    }
  }

  /** Listing the offers of the join, in any order, lists exactly the
      available pairs. */
  lemma ListingsMatchJoin(venues: Table<Venue>, screens: Table<Screen>, zipCode: Option<string>, s: seq<Offer>)
    requires forall o :: o in s <==> o in Join(venues, screens, zipCode)
    ensures FromAvailablePairs(venues, screens, zipCode, Listings(s))
    ensures ListsAllAvailable(venues, screens, zipCode, Listings(s))
    ensures QuotedAt(zipCode, Listings(s))
  {
    var listed := Listings(s);
    var joined := Join(venues, screens, zipCode);
    forall k | 0 <= k < |s|
      ensures s[k].venue in venues && s[k].screen in screens && Available(s[k].venue, s[k].screen, zipCode)
      ensures listed[k] == ListingOf(s[k])
    {
      assert s[k] in joined;
      var m :| 0 <= m < |joined| && joined[m] == s[k];
    }
    forall i, j | 0 <= i < |venues| && 0 <= j < |screens| && Available(venues[i], screens[j], zipCode)
      ensures ListingOf(Offer(venues[i], screens[j])) in listed
    {
      assert Offer(venues[i], screens[j]) in joined;
      var m :| 0 <= m < |s| && s[m] == Offer(venues[i], screens[j]);
      assert listed[m] == ListingOf(s[m]);
    }
  }

  /** `getAvailableLocations`: exactly the active screens of active venues
      (at the given zip code, when one is given), one row per joined pair,
      each quoted at the flat weekly cost, ordered by city and then
      business name. Rows that tie on both come in an order the database
      chooses; this is one of them. The `radius` parameter is read but
      unused. */
  function GetAvailableLocations(venues: Table<Venue>, screens: Table<Screen>, zipCode: Option<string>)
    : (r: Reply<seq<Listing>>)
    ensures r.Ok?
    ensures |r.body| == |Join(venues, screens, zipCode)|
    ensures multiset(r.body) == multiset(Listings(Join(venues, screens, zipCode)))
    ensures InCityOrder(r.body)
    ensures FromAvailablePairs(venues, screens, zipCode, r.body)
    ensures ListsAllAvailable(venues, screens, zipCode, r.body)
    ensures QuotedAt(zipCode, r.body)
  {
    var sorted := SortOffers(Join(venues, screens, zipCode));
    SortKeepsOffers(Join(venues, screens, zipCode));
    ListingsInOrder(sorted);
    ListingsMatchJoin(venues, screens, zipCode, sorted);
    ListingsOfSort(Join(venues, screens, zipCode));
    Ok(Listings(sorted))
  }

  // ---------------------------------------------------------------- booking screens

  /** The values `addCampaignLocations` inserts for one screen. */
  function Booking(campaignId: nat, screenId: nat, startDate: Option<string>, endDate: Option<string>): CampaignLocation
  {
    CampaignLocation(campaignId, screenId, WeeklyCost, startDate, endDate)
  }

  /** Some row already books this (campaign, screen) pair. */
  ghost predicate Booked(rows: Table<CampaignLocation>, campaignId: nat, screenId: nat)
  {
    exists k :: 0 <= k < |rows| && rows[k].data.campaignId == campaignId && rows[k].data.screenId == screenId
  }

  /** The rows of campaign_locations, the next key, and the rows inserted so far. */
  datatype Batch = Batch(rows: Table<CampaignLocation>, serial: nat, added: seq<Row<CampaignLocation>>)

  /** One `INSERT ... ON CONFLICT (campaign_id, screen_id) DO NOTHING
      RETURNING *`: an already booked pair inserts and returns nothing;
      otherwise the row is appended under the next key and returned. */
  function InsertIfAbsent(rows: Table<CampaignLocation>, serial: nat, location: CampaignLocation): (b: Batch)
    ensures Booked(rows, location.campaignId, location.screenId) ==> b == Batch(rows, serial, [])
    ensures !Booked(rows, location.campaignId, location.screenId) ==>
      b == Batch(rows + [Row(serial, location)], serial + 1, [Row(serial, location)])
  {
    match FirstWhere(rows, (l: CampaignLocation) => l.campaignId == location.campaignId && l.screenId == location.screenId)
    case Some(_) => Batch(rows, serial, [])
    case None => Batch(rows + [Row(serial, location)], serial + 1, [Row(serial, location)])
  }

  /** The loop of `addCampaignLocations` as a function of its input list:
      one insert-if-absent per screen id, in order. The table only grows,
      by the rows returned, each under the next key. */
  function InsertEach(rows: Table<CampaignLocation>, serial: nat, campaignId: nat, screenIds: seq<nat>,
                      startDate: Option<string>, endDate: Option<string>): (b: Batch)
    ensures b.rows == rows + b.added
    ensures |b.added| <= |screenIds|
    ensures b.serial == serial + |b.added|
    decreases |screenIds|
  {
    if |screenIds| == 0 then Batch(rows, serial, [])
    else
      var before := InsertEach(rows, serial, campaignId, screenIds[..|screenIds| - 1], startDate, endDate);
      var step := InsertIfAbsent(before.rows, before.serial, Booking(campaignId, screenIds[|screenIds| - 1], startDate, endDate));
      Batch(step.rows, step.serial, before.added + step.added)
  }

  /** One more screen id is one more insert-if-absent. */
  lemma InsertEachStep(rows: Table<CampaignLocation>, serial: nat, campaignId: nat, screenIds: seq<nat>, i: nat,
                       startDate: Option<string>, endDate: Option<string>)
    requires i < |screenIds|
    ensures var before := InsertEach(rows, serial, campaignId, screenIds[..i], startDate, endDate);
      var step := InsertIfAbsent(before.rows, before.serial, Booking(campaignId, screenIds[i], startDate, endDate));
      InsertEach(rows, serial, campaignId, screenIds[..i + 1], startDate, endDate) == Batch(step.rows, step.serial, before.added + step.added)
  {
    assert screenIds[..i + 1][..i] == screenIds[..i];
  }

  /** A pair booked before more rows are appended is still booked. */
  lemma BookedKept(rows: Table<CampaignLocation>, more: Table<CampaignLocation>, campaignId: nat, screenId: nat)
    requires Booked(rows, campaignId, screenId)
    ensures Booked(rows + more, campaignId, screenId)
  {
    var k :| 0 <= k < |rows| && rows[k].data.campaignId == campaignId && rows[k].data.screenId == screenId;
    assert (rows + more)[k] == rows[k];
  }

  /** Each of `added` books one of `screenIds` for this campaign at the
      flat weekly cost, under key `serial + k`, and its pair is not booked
      in `rows`. */
  ghost predicate NewBookings(rows: Table<CampaignLocation>, serial: nat, campaignId: nat, screenIds: seq<nat>,
                              startDate: Option<string>, endDate: Option<string>, added: seq<Row<CampaignLocation>>)
  {
    forall k :: 0 <= k < |added| ==>
      && added[k].id == serial + k
      && added[k].data == Booking(campaignId, added[k].data.screenId, startDate, endDate)
      && added[k].data.screenId in screenIds
      && !Booked(rows, campaignId, added[k].data.screenId)
  }

  /** The rows the loop returns are new bookings of requested screens. */
  lemma {:induction false} InsertEachAddsNewBookings(rows: Table<CampaignLocation>, serial: nat, campaignId: nat,
                                                     screenIds: seq<nat>, startDate: Option<string>, endDate: Option<string>)
    ensures NewBookings(rows, serial, campaignId, screenIds, startDate, endDate,
                        InsertEach(rows, serial, campaignId, screenIds, startDate, endDate).added)
    decreases |screenIds|
  {
    if |screenIds| > 0 {
      var init, last := screenIds[..|screenIds| - 1], screenIds[|screenIds| - 1];
      var before := InsertEach(rows, serial, campaignId, init, startDate, endDate);
      var step := InsertIfAbsent(before.rows, before.serial, Booking(campaignId, last, startDate, endDate));
      InsertEachAddsNewBookings(rows, serial, campaignId, init, startDate, endDate);
      assert NewBookings(rows, serial, campaignId, init, startDate, endDate, before.added);
      var added := InsertEach(rows, serial, campaignId, screenIds, startDate, endDate).added;
      assert added == before.added + step.added;
      forall k | 0 <= k < |added|
        ensures added[k].id == serial + k
        ensures added[k].data == Booking(campaignId, added[k].data.screenId, startDate, endDate)
        ensures added[k].data.screenId in screenIds
        ensures !Booked(rows, campaignId, added[k].data.screenId)
      {
        if k < |before.added| {
          assert added[k] == before.added[k];
          assert before.added[k].data.screenId in init;
        } else {
          assert step.added == [Row(before.serial, Booking(campaignId, last, startDate, endDate))];
          assert added[k] == step.added[0];
          if Booked(rows, campaignId, last) {
            BookedKept(rows, before.added, campaignId, last);
          }
        }
      }
    }
  }

  /** After the loop every requested (campaign, screen) pair is booked. */
  lemma {:induction false} InsertEachBooksAll(rows: Table<CampaignLocation>, serial: nat, campaignId: nat,
                                              screenIds: seq<nat>, startDate: Option<string>, endDate: Option<string>)
    ensures var b := InsertEach(rows, serial, campaignId, screenIds, startDate, endDate);
      forall s :: s in screenIds ==> Booked(b.rows, campaignId, s)
    decreases |screenIds|
  {
    if |screenIds| > 0 {
      var init, last := screenIds[..|screenIds| - 1], screenIds[|screenIds| - 1];
      var before := InsertEach(rows, serial, campaignId, init, startDate, endDate);
      var step := InsertIfAbsent(before.rows, before.serial, Booking(campaignId, last, startDate, endDate));
      InsertEachBooksAll(rows, serial, campaignId, init, startDate, endDate);
      forall s | s in screenIds ensures Booked(step.rows, campaignId, s) {
        if s == last {
          if step.added != [] {
            assert step.rows[|before.rows|].data == Booking(campaignId, last, startDate, endDate);
          }
        } else {
          assert s in init;
          BookedKept(before.rows, step.added, campaignId, s);
        }
      }
    }
  }

  /** Insert-if-absent keeps (campaign, screen) pairs unique. */
  lemma InsertIfAbsentKeepsPairsUnique(rows: Table<CampaignLocation>, serial: nat, location: CampaignLocation)
    requires PairsUnique(rows)
    ensures PairsUnique(InsertIfAbsent(rows, serial, location).rows)
  {
    var b := InsertIfAbsent(rows, serial, location);
    if !Booked(rows, location.campaignId, location.screenId) {
      forall i, j | 0 <= i < j < |b.rows|
        ensures b.rows[i].data.campaignId != b.rows[j].data.campaignId || b.rows[i].data.screenId != b.rows[j].data.screenId
      {
        if j == |rows| {
          assert b.rows[i] == rows[i];
        } else {
          assert b.rows[i] == rows[i] && b.rows[j] == rows[j];
        }
      }
    }
  }

  /** The loop never books a pair twice. */
  lemma {:induction false} InsertEachKeepsPairsUnique(rows: Table<CampaignLocation>, serial: nat, campaignId: nat,
                                                      screenIds: seq<nat>, startDate: Option<string>, endDate: Option<string>)
    requires PairsUnique(rows)
    ensures PairsUnique(InsertEach(rows, serial, campaignId, screenIds, startDate, endDate).rows)
    decreases |screenIds|
  {
    if |screenIds| > 0 {
      var init, last := screenIds[..|screenIds| - 1], screenIds[|screenIds| - 1];
      var before := InsertEach(rows, serial, campaignId, init, startDate, endDate);
      InsertEachKeepsPairsUnique(rows, serial, campaignId, init, startDate, endDate);
      InsertIfAbsentKeepsPairsUnique(before.rows, before.serial, Booking(campaignId, last, startDate, endDate));
    }
  }

  /** What the handler answers with holds one row per distinct screen id
      not booked before the call, and each such screen id has its row: a
      screen id repeated in the input yields one row. */
  lemma AddedAreTheNewPairs(rows: Table<CampaignLocation>, serial: nat, campaignId: nat, screenIds: seq<nat>,
                            startDate: Option<string>, endDate: Option<string>)
    requires PairsUnique(rows)
    ensures var b := InsertEach(rows, serial, campaignId, screenIds, startDate, endDate);
      && (forall i, j :: 0 <= i < j < |b.added| ==> b.added[i].data.screenId != b.added[j].data.screenId)
      && (forall s :: s in screenIds && !Booked(rows, campaignId, s) ==>
            exists k :: 0 <= k < |b.added| && b.added[k].data.screenId == s)
  {
    var b := InsertEach(rows, serial, campaignId, screenIds, startDate, endDate);
    InsertEachAddsNewBookings(rows, serial, campaignId, screenIds, startDate, endDate);
    InsertEachBooksAll(rows, serial, campaignId, screenIds, startDate, endDate);
    InsertEachKeepsPairsUnique(rows, serial, campaignId, screenIds, startDate, endDate);
    forall i, j | 0 <= i < j < |b.added| ensures b.added[i].data.screenId != b.added[j].data.screenId {
      assert b.rows[|rows| + i] == b.added[i] && b.rows[|rows| + j] == b.added[j];
      assert NewBookings(rows, serial, campaignId, screenIds, startDate, endDate, b.added);
      assert b.added[i].data.campaignId == campaignId == b.added[j].data.campaignId;
    }
    forall s | s in screenIds && !Booked(rows, campaignId, s)
      ensures exists k :: 0 <= k < |b.added| && b.added[k].data.screenId == s
    {
      var m :| 0 <= m < |b.rows| && b.rows[m].data.campaignId == campaignId && b.rows[m].data.screenId == s;
      if m >= |rows| {
        assert b.rows[m] == b.added[m - |rows|];
      }
    }
  }

  /** After the loop every requested pair is booked by exactly one row. */
  lemma RequestedPairsBookedOnce(rows: Table<CampaignLocation>, serial: nat, campaignId: nat, screenIds: seq<nat>,
                                 startDate: Option<string>, endDate: Option<string>, s: nat)
    requires PairsUnique(rows)
    requires s in screenIds
    ensures var b := InsertEach(rows, serial, campaignId, screenIds, startDate, endDate);
      && Booked(b.rows, campaignId, s)
      && forall i, j :: (0 <= i < |b.rows| && 0 <= j < |b.rows| &&
           b.rows[i].data.campaignId == campaignId && b.rows[i].data.screenId == s &&
           b.rows[j].data.campaignId == campaignId && b.rows[j].data.screenId == s) ==> i == j
  {
    InsertEachBooksAll(rows, serial, campaignId, screenIds, startDate, endDate);
    InsertEachKeepsPairsUnique(rows, serial, campaignId, screenIds, startDate, endDate);
  }

  /** Keys stay unique and ordered, and the sequence stays ahead of them. */
  lemma InsertEachKeepsKeys(rows: Table<CampaignLocation>, serial: nat, campaignId: nat, screenIds: seq<nat>,
                            startDate: Option<string>, endDate: Option<string>)
    requires KeysIncreasing(rows) && KeysBelow(rows, serial)
    ensures var b := InsertEach(rows, serial, campaignId, screenIds, startDate, endDate);
      KeysIncreasing(b.rows) && KeysBelow(b.rows, b.serial)
  {
    var b := InsertEach(rows, serial, campaignId, screenIds, startDate, endDate);
    InsertEachAddsNewBookings(rows, serial, campaignId, screenIds, startDate, endDate);
    assert forall k :: 0 <= k < |rows| ==> b.rows[k] == rows[k];
    assert forall k :: |rows| <= k < |b.rows| ==> b.rows[k] == b.added[k - |rows|];
  }

  /** `addCampaignLocations`. A missing or empty screen list gives 400
      before a transaction is opened. Then, inside one BEGIN/COMMIT, each
      screen id in turn is inserted if its pair is not booked yet, and the
      rows inserted are returned. An insert that throws (the `failAt`-th,
      counting from 0) rolls every insert of this call back and gives 500.
      Neither the campaign's owner nor the screens are checked. */
  method AddCampaignLocations(db: Db, campaignId: nat, screenIds: Option<seq<nat>>,
                              startDate: Option<string>, endDate: Option<string>, failAt: Option<nat>)
    returns (r: Reply<seq<Row<CampaignLocation>>>)
    requires db.Valid()
    modifies db`locations, db`locationSerial
    ensures db.Valid()
    ensures screenIds.None? || |screenIds.value| == 0 ==>
      r == Fail(400, "At least one screen required") &&
      db.locations == old(db.locations) && db.locationSerial == old(db.locationSerial)
    ensures screenIds.Some? && |screenIds.value| > 0 && failAt.Some? && failAt.value < |screenIds.value| ==>
      r == Fail(500, "Failed to add locations") &&
      db.locations == old(db.locations) && db.locationSerial == old(db.locationSerial)
    ensures screenIds.Some? && |screenIds.value| > 0 && !(failAt.Some? && failAt.value < |screenIds.value|) ==>
      var b := InsertEach(old(db.locations), old(db.locationSerial), campaignId, screenIds.value, startDate, endDate);
      db.locations == b.rows && db.locationSerial == b.serial && r == Ok(b.added)
  {
    if screenIds.None? || |screenIds.value| == 0 {
      return Fail(400, "At least one screen required");
    }
    var ids := screenIds.value;
    var savedRows, savedSerial := db.locations, db.locationSerial;
    // BEGIN
    var failing := if failAt.Some? && failAt.value < |ids| then failAt.value else |ids|;
    var added: seq<Row<CampaignLocation>> := [];
    var i := 0;
    while i < |ids|
      invariant 0 <= i <= failing <= |ids|
      invariant Batch(db.locations, db.locationSerial, added) == InsertEach(savedRows, savedSerial, campaignId, ids[..i], startDate, endDate)
    {
      if i == failing {
        // the INSERT threw: ROLLBACK
        db.locations, db.locationSerial := savedRows, savedSerial;
        return Fail(500, "Failed to add locations");
      }
      var step := InsertIfAbsent(db.locations, db.locationSerial, Booking(campaignId, ids[i], startDate, endDate));
      InsertEachStep(savedRows, savedSerial, campaignId, ids, i, startDate, endDate);
      db.locations, db.locationSerial := step.rows, step.serial;
      added := added + step.added;
      i := i + 1;
    }
    // COMMIT
    assert ids[..i] == ids;
    InsertEachKeepsKeys(savedRows, savedSerial, campaignId, ids, startDate, endDate);
    InsertEachKeepsPairsUnique(savedRows, savedSerial, campaignId, ids, startDate, endDate);
    r := Ok(added);
  }
}
