/** Price derivation: the current price of a listing is never stored; it is
    the highest bid amount on it, or its starting price when that is missing
    (`MAX(amount) || starting_price`). */
module Pricing {
  import opened Wrappers
  import opened Records
  import opened Sequences

  function OfProduct(pid: nat): BidRow -> bool {
    (b: BidRow) => b.productId == pid
  }

  function NotOfProduct(pid: nat): BidRow -> bool {
    (b: BidRow) => b.productId != pid
  }

  /** `SELECT ... FROM bids WHERE product_id = pid`, in insertion order. */
  function BidsOf(bids: seq<BidRow>, pid: nat): (r: seq<BidRow>)
    ensures forall b :: b in r <==> b in bids && b.productId == pid
    ensures |r| <= |bids|
  {
    Filter(bids, OfProduct(pid))
  }

  lemma BidsOfAppend(bids: seq<BidRow>, nb: BidRow, pid: nat)
    ensures BidsOf(bids + [nb], pid) == BidsOf(bids, pid) + (if nb.productId == pid then [nb] else [])
  {
    FilterAppend(bids, [nb], OfProduct(pid));
  }

  /** `MAX(amount)`: `None` (SQL `NULL`) over no rows, otherwise an amount
      that some row has and no row exceeds. */
  function MaxAmount(bs: seq<BidRow>): (m: Option<int>)
    ensures m.None? <==> bs == []
    ensures m.Some? ==> forall b :: b in bs ==> b.amount <= m.value
    ensures m.Some? ==> exists b :: b in bs && b.amount == m.value
  {
    if bs == [] then None
    else
      var init := bs[..|bs| - 1];
      var last := bs[|bs| - 1];
      assert bs == init + [last];
      match MaxAmount(init)
      case None => Some(last.amount)
      case Some(m) => Some(if m < last.amount then last.amount else m)
  }

  predicate NonzeroAmounts(bids: seq<BidRow>) {
    forall b :: b in bids ==> b.amount != 0
  }

  /** The current price of listing `p`: the maximum of its bids, falling back
      to the starting price when there is no bid or when the maximum is the
      falsy amount 0. */
  function CurrentPrice(bids: seq<BidRow>, p: ProductRow): (price: int)
    ensures BidsOf(bids, p.id) == [] ==> price == p.startingPrice
    ensures NonzeroAmounts(bids) && BidsOf(bids, p.id) != [] ==>
      && (forall b :: b in bids && b.productId == p.id ==> b.amount <= price)
      && (exists b :: b in bids && b.productId == p.id && b.amount == price)
  {
    match MaxAmount(BidsOf(bids, p.id))
    case None => p.startingPrice
    case Some(m) => if m != 0 then m else p.startingPrice
  }

  /** Amounts strictly increase along `bs`. */
  predicate AmountsIncrease(bs: seq<BidRow>) {
    forall i, j :: 0 <= i < j < |bs| ==> bs[i].amount < bs[j].amount
  }

  /** The bids of every listing, in the order they were stored, have
      strictly increasing amounts. */
  ghost predicate BidsIncrease(bids: seq<BidRow>) {
    forall pid :: AmountsIncrease(BidsOf(bids, pid))
  }

  /** A bid accepted under the rule `amount > currentPrice` becomes the new
      current price and exceeds every earlier bid on that listing. */
  lemma AcceptedBidSetsPrice(bids: seq<BidRow>, p: ProductRow, nb: BidRow)
    requires NonzeroAmounts(bids)
    requires nb.productId == p.id && nb.amount != 0 && nb.amount > CurrentPrice(bids, p)
    ensures CurrentPrice(bids + [nb], p) == nb.amount
    ensures forall b :: b in bids && b.productId == p.id ==> b.amount < nb.amount
  {
    var before := BidsOf(bids, p.id);
    BidsOfAppend(bids, nb, p.id);
    var after := before + [nb];
    assert after[..|after| - 1] == before;
  }

  /** A bid on one listing leaves every other listing's price as it was. */
  lemma OtherPriceUnchanged(bids: seq<BidRow>, q: ProductRow, nb: BidRow)
    requires nb.productId != q.id
    ensures CurrentPrice(bids + [nb], q) == CurrentPrice(bids, q)
  {
    BidsOfAppend(bids, nb, q.id);
  }

  /** Accepting a bid never lowers any listing's current price. */
  lemma PriceNeverDecreases(bids: seq<BidRow>, p: ProductRow, nb: BidRow, q: ProductRow)
    requires NonzeroAmounts(bids)
    requires nb.productId == p.id && nb.amount != 0 && nb.amount > CurrentPrice(bids, p)
    requires q == p || q.id != p.id
    ensures CurrentPrice(bids + [nb], q) >= CurrentPrice(bids, q)
  {
    if q == p {
      AcceptedBidSetsPrice(bids, p, nb);
    } else {
      OtherPriceUnchanged(bids, q, nb);
    }
  }

  /** Appending an accepted bid keeps every listing's bid history strictly
      increasing. */
  lemma AcceptKeepsIncrease(bids: seq<BidRow>, p: ProductRow, nb: BidRow)
    requires BidsIncrease(bids) && NonzeroAmounts(bids)
    requires nb.productId == p.id && nb.amount != 0 && nb.amount > CurrentPrice(bids, p)
    ensures BidsIncrease(bids + [nb])
  {
    AcceptedBidSetsPrice(bids, p, nb);
    forall q ensures AmountsIncrease(BidsOf(bids + [nb], q)) {
      BidsOfAppend(bids, nb, q);
      var before := BidsOf(bids, q);
      assert AmountsIncrease(before);
      if q == p.id {
        var after := before + [nb];
        forall i, j | 0 <= i < j < |after| ensures after[i].amount < after[j].amount {
          if j == |before| {
            assert after[i] in before;
          }
        }
      }
    }
  }

  /** Removing every bid of one listing keeps the others' histories, and so
      keeps them increasing. */
  lemma RemoveListingKeepsIncrease(bids: seq<BidRow>, pid: nat)
    requires BidsIncrease(bids)
    ensures BidsIncrease(Filter(bids, NotOfProduct(pid)))
    ensures forall q :: q != pid ==> BidsOf(Filter(bids, NotOfProduct(pid)), q) == BidsOf(bids, q)
    ensures BidsOf(Filter(bids, NotOfProduct(pid)), pid) == []
  {
    var kept := Filter(bids, NotOfProduct(pid));
    forall q | q != pid ensures BidsOf(kept, q) == BidsOf(bids, q) {
      FilterNarrow(bids, NotOfProduct(pid), OfProduct(q));
    }
    FilterKeepsNone(kept, OfProduct(pid));
    forall q ensures AmountsIncrease(BidsOf(kept, q)) {
      assert AmountsIncrease(BidsOf(bids, q));
    }
  }
}
