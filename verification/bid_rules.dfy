/** The acceptance rule of `POST /products/:id/bids`, as a pure decision over
    one database state: which requests are refused, with which error, and
    which bid row an accepted request stores. */
module BidRules {
  import opened Wrappers
  import opened Records
  import opened Text
  import opened Pricing

  /** The three refusals: HTTP 400 "Missing required fields", HTTP 404
      "Product not found" and HTTP 400 "Bid must be higher than current
      price". */
  datatype BidError = MissingFields | ProductNotFound | BidTooLow

  /** One of the three required fields is falsy: an empty name, an empty
      phone number, or an amount that is absent or 0. */
  predicate LacksRequiredField(req: BidRequest) {
    req.bidderName == "" || req.phoneNumber == "" || req.amount.None? || req.amount.value == 0
  }

  /** The refusal, if any, for a bid `req` on listing `pid`. The checks run
      in the controller's order: required fields, then the listing, then
      the price; the boundary is strict, so a bid equal to the current
      price is refused. */
  function Decide(t: Tables, pid: nat, req: BidRequest): (r: Option<BidError>)
    ensures r == Some(MissingFields) <==> LacksRequiredField(req)
    ensures r == Some(ProductNotFound) <==> !LacksRequiredField(req) && pid !in t.products
    ensures r == Some(BidTooLow) <==>
      && !LacksRequiredField(req) && pid in t.products
      && req.amount.value <= CurrentPrice(t.bids, t.products[pid])
    ensures r.None? <==>
      && !LacksRequiredField(req) && pid in t.products
      && req.amount.value > CurrentPrice(t.bids, t.products[pid])
  {
    if LacksRequiredField(req) then Some(MissingFields)
    else if pid !in t.products then Some(ProductNotFound)
    else if req.amount.value <= CurrentPrice(t.bids, t.products[pid]) then Some(BidTooLow)
    else None
  }

  /** The row stored for an accepted bid: the name is split at its first
      space into first and last name. */
  function NewBidRow(id: nat, pid: nat, req: BidRequest, now: int): (row: BidRow)
    requires req.amount.Some?
    ensures row.id == id && row.createdAt == now
    ensures row.productId == pid && row.amount == req.amount.value
    ensures (row.firstName, row.lastName) == SplitName(req.bidderName)
    ensures row.phoneNumber == req.phoneNumber && row.isAnonymous == req.isAnonymous
    ensures ' ' in req.bidderName ==> JoinName(row.firstName, row.lastName) == req.bidderName
    ensures ' ' !in req.bidderName ==> row.firstName == req.bidderName && row.lastName == ""
  {
    var name := SplitName(req.bidderName);
    BidRow(id, pid, name.0, name.1, req.phoneNumber, req.amount.value, req.isAnonymous, now)
  }

  /** The database after storing the accepted bid `req` on `pid`. */
  function WithBid(t: Tables, pid: nat, req: BidRequest, id: nat, now: int): Tables
    requires req.amount.Some?
  {
    t.(bids := t.bids + [NewBidRow(id, pid, req, now)])
  }

  /** Once a bid is accepted its amount is the listing's price, so sending
      the same request again is refused as too low. */
  lemma {:induction false} RepeatedBidRefused(t: Tables, pid: nat, req: BidRequest, id: nat, now: int)
    requires Decide(t, pid, req).None?
    requires NonzeroAmounts(t.bids) && t.products[pid].id == pid
    ensures CurrentPrice(WithBid(t, pid, req, id, now).bids, t.products[pid]) == req.amount.value
    ensures Decide(WithBid(t, pid, req, id, now), pid, req) == Some(BidTooLow)
  {
    AcceptedBidSetsPrice(t.bids, t.products[pid], NewBidRow(id, pid, req, now));
  }

  /** Accepting a bid on one listing changes no decision about another. */
  lemma {:induction false} OtherListingsUnaffected(t: Tables, pid: nat, req: BidRequest, id: nat, now: int,
                                                   q: nat, other: BidRequest)
    requires req.amount.Some?
    requires q != pid && (q in t.products ==> t.products[q].id == q)
    ensures Decide(WithBid(t, pid, req, id, now), q, other) == Decide(t, q, other)
  {
    if q in t.products {
      OtherPriceUnchanged(t.bids, t.products[q], NewBidRow(id, pid, req, now));
    }
  }
}
