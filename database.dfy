/** The shared database handle every controller queries: one object whose
    fields are the tables, and one field per SERIAL sequence a handler
    inserts through. */
module Database {
  import opened Common
  import opened Tables
  import opened Schema

  /** (campaign_id, screen_id) is unique in campaign_locations: the
      `ON CONFLICT (campaign_id, screen_id)` clause needs such a constraint. */
  ghost predicate PairsUnique(t: Table<CampaignLocation>)
  {
    forall i, j :: 0 <= i < j < |t| ==>
      t[i].data.campaignId != t[j].data.campaignId || t[i].data.screenId != t[j].data.screenId
  }

  /** `SELECT ... FROM venues WHERE user_id = $1`: the caller's venue, the
      first row when there are several. */
  function VenueOfUser(venues: Table<Venue>, userId: nat): (r: Option<nat>)
    ensures r.Some? ==> r.value < |venues| && venues[r.value].data.userId == userId
    ensures r.Some? ==> forall k :: 0 <= k < r.value ==> venues[k].data.userId != userId
    ensures r.None? ==> forall k :: 0 <= k < |venues| ==> venues[k].data.userId != userId
  {
    FirstWhere(venues, (v: Venue) => v.userId == userId)
  }

  /** `SELECT ... FROM advertisers WHERE user_id = $1`: the caller's
      advertiser account, the first row when there are several. */
  function AdvertiserOfUser(advertisers: Table<Advertiser>, userId: nat): (r: Option<nat>)
    ensures r.Some? ==> r.value < |advertisers| && advertisers[r.value].data.userId == userId
    ensures r.Some? ==> forall k :: 0 <= k < r.value ==> advertisers[k].data.userId != userId
    ensures r.None? ==> forall k :: 0 <= k < |advertisers| ==> advertisers[k].data.userId != userId
  {
    FirstWhere(advertisers, (a: Advertiser) => a.userId == userId)
  }

  class Db {
    var venues: Table<Venue>
    var screens: Table<Screen>
    var payouts: Table<PayoutRequest>
    var advertisers: Table<Advertiser>
    var transactions: Table<PaymentTransaction>
    var ads: Table<Ad>
    var campaigns: Table<Campaign>
    var locations: Table<CampaignLocation>
    var earnings: Table<Earning>

    var payoutSerial: nat
    var transactionSerial: nat
    var adSerial: nat
    var campaignSerial: nat
    var locationSerial: nat

    /** Primary keys are unique and ordered by creation; each sequence is
        ahead of every key it produced; booked (campaign, screen) pairs are unique. */
    ghost predicate Valid()
      reads this
    {
      && KeysIncreasing(venues)
      && KeysIncreasing(screens)
      && KeysIncreasing(advertisers)
      && KeysIncreasing(earnings)
      && KeysIncreasing(payouts) && KeysBelow(payouts, payoutSerial)
      && KeysIncreasing(transactions) && KeysBelow(transactions, transactionSerial)
      && KeysIncreasing(ads) && KeysBelow(ads, adSerial)
      && KeysIncreasing(campaigns) && KeysBelow(campaigns, campaignSerial)
      && KeysIncreasing(locations) && KeysBelow(locations, locationSerial)
      && PairsUnique(locations)
    }

    /** A database with empty tables and fresh sequences. */
    constructor ()
      ensures Valid()
      ensures venues == [] && screens == [] && payouts == [] && advertisers == []
      ensures transactions == [] && ads == [] && campaigns == [] && locations == [] && earnings == []
    {
      venues, screens, payouts, advertisers := [], [], [], [];
      transactions, ads, campaigns, locations, earnings := [], [], [], [], [];
      payoutSerial, transactionSerial, adSerial, campaignSerial, locationSerial := 1, 1, 1, 1, 1;
    }
  }
}
