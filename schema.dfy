/** The columns of the tables the controllers read and write. Only the
    columns some modelled handler touches are kept; timestamps are whatever
    CURRENT_TIMESTAMP was, passed in as an integer. */
module Schema {
  import opened Common

  /** A venue's profile, its commission rate (a percentage) and the balance
      the marketplace owes it. */
  datatype Venue = Venue(
    userId: nat,
    businessName: string,
    address: string,
    city: string,
    state: string,
    zipCode: string,
    latitude: Option<real>,
    longitude: Option<real>,
    payoutMethod: Option<string>,
    payoutEmail: Option<string>,
    payoutPhone: Option<string>,
    commissionRate: real,
    currentBalance: Cents,
    isActive: bool)

  /** A display screen at a venue; `status` is the text column, 'active' when in service. */
  datatype Screen = Screen(
    venueId: nat,
    screenName: string,
    status: string,
    estimatedDailyViews: int)

  datatype PayoutStatus = Pending | Approved | Completed | Rejected

  /** A venue's request to withdraw part of its balance, with the audit
      columns an admin fills in when processing it. */
  datatype PayoutRequest = PayoutRequest(
    venueId: nat,
    amount: Cents,
    payoutMethod: Option<string>,
    payoutDetails: Option<string>,
    status: PayoutStatus,
    transactionId: Option<string>,
    notes: Option<string>,
    processedBy: Option<nat>,
    processedAt: Option<int>)

  /** An advertiser's prepaid balance, lifetime deposits and payment-provider customer. */
  datatype Advertiser = Advertiser(
    userId: nat,
    businessName: string,
    stripeCustomerId: Option<string>,
    accountBalance: Cents,
    totalSpent: Cents)

  /** One row of payment_transactions; type and status are the text columns. */
  datatype PaymentTransaction = PaymentTransaction(
    advertiserId: nat,
    amount: Cents,
    transactionType: string,
    stripePaymentIntentId: string,
    status: string)

  datatype AdType = Image | Video

  datatype AdStatus = AdPending | AdApproved | AdRejected

  /** An uploaded creative and its moderation state. */
  datatype Ad = Ad(
    campaignId: nat,
    advertiserId: nat,
    adType: AdType,
    filePath: string,
    title: Option<string>,
    description: Option<string>,
    duration: int,
    status: AdStatus,
    approvedBy: Option<nat>,
    approvedAt: Option<int>,
    rejectionReason: Option<string>,
    enhancedFilePath: Option<string>)

  datatype Campaign = Campaign(
    advertiserId: nat,
    campaignName: string,
    budget: Cents,
    startDate: Option<string>,
    endDate: Option<string>)

  /** A screen booked for a campaign; (campaignId, screenId) is unique. */
  datatype CampaignLocation = CampaignLocation(
    campaignId: nat,
    screenId: nat,
    weeklyCost: Cents,
    startDate: Option<string>,
    endDate: Option<string>)

  /** What a venue earned from one booked location. */
  datatype Earning = Earning(
    venueId: nat,
    campaignLocationId: nat,
    amount: Cents,
    status: string)
}
