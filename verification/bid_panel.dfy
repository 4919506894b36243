/** The bidding panel of the product page and of the product modal: the
    product shown, the carousel position, the bid form and its messages,
    and the touch positions of a swipe, which only the product page
    handles. React state setters become field
    updates; the request itself is the caller's, who reports its outcome
    with `BidAccepted` or `BidRefused`. */
module BidPanel {
  import opened Wrappers
  import opened Records
  import opened Pricing
  import opened Catalog
  import opened Carousel
  import opened BidForm

  /** The amount the form proposes above the current price. */
  const DefaultRaise := 1000

  /** Shown when a refused request carries no message. */
  const DefaultSubmitError := "Une erreur s'est produite lors de la soumission de l'offre"

  /** The error line under the form: a failed form check or the server's
      refusal. */
  datatype PanelError = Invalid(reason: FormError) | Refused(message: string)

  /** `product.bids.length > 0 ? product.bids[0] : null`. */
  function LastBid(p: Product): Option<Bid> {
    if |p.bids| > 0 then Some(p.bids[0]) else None
  }

  /** On a product page object the bid shown as the last one is the highest
      bid, and its amount is the current price. */
  lemma {:induction false} LastBidIsHighest(t: Tables, pid: nat)
    requires pid in t.products
    ensures LastBid(ProductDetail(t, pid).value).Some? <==> BidsOf(t.bids, pid) != []
    ensures LastBid(ProductDetail(t, pid).value).Some? ==>
      var top := LastBid(ProductDetail(t, pid).value).value;
      && top.amount == ProductDetail(t, pid).value.currentPrice
      && top.amount == MaxAmount(BidsOf(t.bids, pid)).value
      && forall b :: b in ProductDetail(t, pid).value.bids ==> b.amount <= top.amount
  {
    var p := ProductDetail(t, pid).value;
    if p.bids != [] {
      forall b | b in p.bids ensures b.amount <= p.bids[0].amount {
        var j :| 0 <= j < |p.bids| && p.bids[j] == b;
      }
    }
  }

  class Panel {
    var product: Product
    var imageIndex: ImageIndex
    var touchStart: real
    var touchEnd: real
    var form: BidFormValues
    var lastProductId: nat
    var error: Option<PanelError>
    var success: bool

    /** The first render: first image, no touch, an empty form proposing
        the current price plus 1000. */
    constructor(initial: Product)
      ensures product == initial && imageIndex == At(0) && touchStart == 0.0 && touchEnd == 0.0
      ensures form == BidFormValues("", "", "", Numeric(initial.currentPrice + DefaultRaise), false)
      ensures lastProductId == initial.id && error.None? && !success
    {
      product := initial;
      imageIndex := At(0);
      touchStart := 0.0;
      touchEnd := 0.0;
      form := BidFormValues("", "", "", Numeric(initial.currentPrice + DefaultRaise), false);
      lastProductId := initial.id;
      error := None;
      success := false;
    }

    /** A new product object from the parent. The proposed amount is reset
        only when it is a different listing, so an amount the bidder has
        cleared or typed survives a refresh of the same listing. */
    method Sync(incoming: Product)
      modifies this`product, this`lastProductId, this`form
      ensures product == incoming && lastProductId == incoming.id
      ensures old(lastProductId) != incoming.id ==>
        form == old(form).(amount := Numeric(incoming.currentPrice + DefaultRaise))
      ensures old(lastProductId) == incoming.id ==> form == old(form)
    {
      product := incoming;
      if lastProductId != incoming.id {
        lastProductId := incoming.id;
        form := form.(amount := Numeric(incoming.currentPrice + DefaultRaise));
      }
    }

    /** `handleNextImage`. */
    method NextImage()
      modifies this`imageIndex
      ensures imageIndex == Next(old(imageIndex), |product.images|)
    {
      imageIndex := Next(imageIndex, |product.images|);
    }

    /** `handlePrevImage`. */
    method PrevImage()
      modifies this`imageIndex
      ensures imageIndex == Prev(old(imageIndex), |product.images|)
    {
      imageIndex := Prev(imageIndex, |product.images|);
    }

    /** A click on the dot of image `k`; there is one dot per image. */
    method SelectImage(k: nat)
      requires k < |product.images|
      modifies this`imageIndex
      ensures imageIndex == At(k)
    {
      imageIndex := At(k);
    }

    /** `handleTouchStart`: the horizontal position of the finger. */
    method TouchStart(x: real)
      modifies this`touchStart
      ensures touchStart == x
    {
      touchStart := x;
    }

    /** `handleTouchMove`. */
    method TouchMove(x: real)
      modifies this`touchEnd
      ensures touchEnd == x
    {
      touchEnd := x;
    }

    /** `handleTouchEnd`: a gesture with a falsy position does nothing;
        otherwise the carousel moves as `Swipe` says and both positions go
        back to 0. */
    method TouchEnd()
      modifies this`imageIndex, this`touchStart, this`touchEnd
      ensures Swipe(old(touchStart), old(touchEnd)).None? ==>
        imageIndex == old(imageIndex) && touchStart == old(touchStart) && touchEnd == old(touchEnd)
      ensures Swipe(old(touchStart), old(touchEnd)).Some? ==>
        && imageIndex == Apply(Swipe(old(touchStart), old(touchEnd)).value, old(imageIndex), |product.images|)
        && touchStart == 0.0 && touchEnd == 0.0
    {
      if touchStart == 0.0 || touchEnd == 0.0 {
        return;
      }
      var distance := touchStart - touchEnd;
      if distance > 50.0 {
        NextImage();
      }
      if distance < -50.0 {
        PrevImage();
      }
      touchStart := 0.0;
      touchEnd := 0.0;
    }

    /** `handleSubmit` up to the request: both messages are cleared, then
        the form is checked against the price shown; a failed check is
        shown and nothing is sent. */
    method Submit() returns (req: Option<BidRequest>)
      modifies this`error, this`success
      ensures !success
      ensures ValidateBidForm(form, product.currentPrice).Success? ==>
        req == Some(ValidateBidForm(form, product.currentPrice).value) && error.None?
      ensures ValidateBidForm(form, product.currentPrice).Failure? ==>
        req.None? && error == Some(Invalid(ValidateBidForm(form, product.currentPrice).error))
    {
      error := None;
      success := false;
      var checked := ValidateBidForm(form, product.currentPrice);
      if checked.Failure? {
        error := Some(Invalid(checked.error));
        return None;
      }
      req := Some(checked.value);
    }

    /** The server's product after an accepted bid: it is shown, with the
        success message, and the form proposes its price plus 1000. */
    method BidAccepted(updated: Product)
      modifies this`product, this`success, this`form
      ensures product == updated && success
      ensures form == old(form).(amount := Numeric(updated.currentPrice + DefaultRaise))
    {
      product := updated;
      success := true;
      form := form.(amount := Numeric(updated.currentPrice + DefaultRaise));
    }

    /** A refused or failed request: its message, or the default one. */
    method BidRefused(message: string)
      modifies this`error
      ensures error == Some(Refused(if message == "" then DefaultSubmitError else message))
    {
      error := Some(Refused(if message == "" then DefaultSubmitError else message));
    }
  }
}
