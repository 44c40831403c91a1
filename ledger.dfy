/** The money columns seen as a ledger. The code keeps no entry log for
    payouts and no deduplication for deposits; these sums over the request
    and transaction tables are what a ledger would reconcile against, and
    the lemmas say how the handlers move them. */
module Ledger {
  import opened Common
  import opened Tables
  import opened Schema

  /** What one payout request contributes to venue `v`'s paid-out total. */
  function PaidShare(p: PayoutRequest, v: nat): int
  {
    if p.venueId == v && p.status == Completed then p.amount else 0
  }

  /** Money paid out to venue `v`: the amounts of its completed requests. */
  function PaidOut(t: Table<PayoutRequest>, v: nat): int
  {
    if |t| == 0 then 0 else PaidShare(t[0].data, v) + PaidOut(t[1..], v)
  }

  /** What one transaction row contributes to advertiser `a`'s deposits. */
  function DepositShare(x: PaymentTransaction, a: nat): int
  {
    if x.advertiserId == a && x.transactionType == "deposit" && x.status == "succeeded" then x.amount else 0
  }

  /** Money deposited by advertiser `a`: its succeeded deposit rows. */
  function Deposited(t: Table<PaymentTransaction>, a: nat): int
  {
    if |t| == 0 then 0 else DepositShare(t[0].data, a) + Deposited(t[1..], a)
  }

  /** A venue's earnings as the books show them: what it is still owed
      plus what has been paid out to it. */
  function Earned(v: Row<Venue>, payouts: Table<PayoutRequest>): int
  {
    v.data.currentBalance + PaidOut(payouts, v.id)
  }

  lemma {:induction false} PaidOutAppend(t: Table<PayoutRequest>, r: Row<PayoutRequest>, v: nat)
    ensures PaidOut(t + [r], v) == PaidOut(t, v) + PaidShare(r.data, v)
  {
    if |t| == 0 {
      assert (t + [r])[1..] == [];
    } else {
      assert (t + [r])[1..] == t[1..] + [r];
      PaidOutAppend(t[1..], r, v);
    }
  }

  lemma {:induction false} PaidOutSet(t: Table<PayoutRequest>, i: nat, r: Row<PayoutRequest>, v: nat)
    requires i < |t|
    ensures PaidOut(t[i := r], v) == PaidOut(t, v) - PaidShare(t[i].data, v) + PaidShare(r.data, v)
  {
    if i == 0 {
      assert t[i := r][1..] == t[1..];
    } else {
      assert t[i := r][1..] == t[1..][i - 1 := r];
      PaidOutSet(t[1..], i - 1, r, v);
    }
  }

  /** Marking request `i` completed (same venue, same amount) adds its
      amount to its venue's paid-out total only if it was not completed
      already; no other venue's total moves. */
  lemma CompletingAddsOnce(t: Table<PayoutRequest>, i: nat, r: Row<PayoutRequest>, v: nat)
    requires i < |t|
    requires r.data.venueId == t[i].data.venueId && r.data.amount == t[i].data.amount
    requires r.data.status == Completed
    ensures PaidOut(t[i := r], v) ==
      PaidOut(t, v) + (if t[i].data.venueId == v && t[i].data.status != Completed then t[i].data.amount else 0)
  {
    PaidOutSet(t, i, r, v);
  }

  /** A new request that is not completed leaves every paid-out total alone. */
  lemma AppendingUnpaidKeepsPaidOut(t: Table<PayoutRequest>, r: Row<PayoutRequest>, v: nat)
    requires r.data.status != Completed
    ensures PaidOut(t + [r], v) == PaidOut(t, v)
  {
    PaidOutAppend(t, r, v);
  }

  lemma {:induction false} DepositedAppend(t: Table<PaymentTransaction>, r: Row<PaymentTransaction>, a: nat)
    ensures Deposited(t + [r], a) == Deposited(t, a) + DepositShare(r.data, a)
  {
    if |t| == 0 {
      assert (t + [r])[1..] == [];
    } else {
      assert (t + [r])[1..] == t[1..] + [r];
      DepositedAppend(t[1..], r, a);
    }
  }
}
