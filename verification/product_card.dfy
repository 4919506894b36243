/** The product card of the home page: its bid count and its link. Its
    countdown is `Countdown.Decompose`. */
module ProductCard {
  import opened Wrappers
  import opened Records
  import opened Text
  import opened Pricing
  import opened Catalog

  /** `(bidsCount ?? bids.length) || 0`: the reported count when there is
      one, 0 included, and the length of the bid list otherwise. */
  function DisplayedBidCount(p: Product): (n: nat)
    ensures p.bidsCount.Some? ==> n == p.bidsCount.value
    ensures p.bidsCount.None? ==> n == |p.bids|
  {
    var counted := if p.bidsCount.Some? then p.bidsCount.value else |p.bids|;
    if counted == 0 then 0 else counted
  }

  /** The card shows the number of bids stored for the listing whether it is
      fed an entry of the public list or the product page's object. */
  lemma {:induction false} CardCountsStoredBids(t: Tables, pid: nat)
    requires pid in t.products && t.products[pid].id == pid
    ensures DisplayedBidCount(ListView(t, t.products[pid])) == |BidsOf(t.bids, pid)|
    ensures DisplayedBidCount(ProductDetail(t, pid).value) == |BidsOf(t.bids, pid)|
  {
  }

  const ProductPath := "/product/"

  /** `/product/${id}`: the path prefix followed by the id in decimal. */
  function ProductLink(id: nat): (link: string)
    ensures |link| > |ProductPath| && link[..|ProductPath|] == ProductPath
    ensures forall i :: |ProductPath| <= i < |link| ==> IsDigit(link[i])
  {
    ProductPath + DecimalString(id)
  }

  /** The id can be read back from the link, so different listings get
      different links. */
  lemma {:induction false} LinkNamesListing(a: nat, b: nat)
    ensures DigitsValue(ProductLink(a)[|ProductPath|..]) == a
    ensures ProductLink(a) == ProductLink(b) ==> a == b
  {
    assert ProductLink(a)[|ProductPath|..] == DecimalString(a);
    assert ProductLink(b)[|ProductPath|..] == DecimalString(b);
  }
}
