/** The bid form's submit check, shared by the product page and the product
    modal: required fields, the phone pattern `^0\d{9}$`, and an amount of
    at least the displayed price plus one. */
module BidForm {
  import opened Wrappers
  import opened Records
  import opened Text
  import opened Pricing
  import opened Catalog
  import opened BidRules

  /** The three messages the form shows, in the order they are checked. */
  datatype FormError = MissingField | BadPhone | AmountTooLow

  /** `/^0\d{9}$/.test(phone)`: ten characters, a leading `'0'`, all ASCII
      digits. */
  predicate PhoneValid(phone: string) {
    |phone| == 10 && phone[0] == '0' && forall i :: 1 <= i < |phone| ==> IsDigit(phone[i])
  }

  /** The amount the form sends, if it reads as a number. */
  function AmountValue(a: FormAmount): Option<int> {
    match a
    case Numeric(v) => Some(v)
    case _ => None
  }

  /** `handleSubmit` up to the request: the first failing check names the
      message, and otherwise the request carries `first + " " + last`. */
  function ValidateBidForm(form: BidFormValues, currentPrice: int): (r: Result<BidRequest, FormError>)
    ensures r == Failure(MissingField) <==> form.firstName == "" || form.lastName == "" || form.phoneNumber == ""
    ensures r == Failure(BadPhone) <==>
      form.firstName != "" && form.lastName != "" && form.phoneNumber != "" && !PhoneValid(form.phoneNumber)
    ensures r == Failure(AmountTooLow) <==>
      && form.firstName != "" && form.lastName != "" && PhoneValid(form.phoneNumber)
      && (AmountValue(form.amount).None? || AmountValue(form.amount).value < currentPrice + 1)
    ensures r.Success? ==>
      && r.value.bidderName == JoinName(form.firstName, form.lastName)
      && r.value.phoneNumber == form.phoneNumber && PhoneValid(r.value.phoneNumber)
      && r.value.amount.Some? && r.value.amount.value > currentPrice
      && r.value.isAnonymous == form.isAnonymous
  {
    if form.firstName == "" || form.lastName == "" || form.phoneNumber == "" then Failure(MissingField)
    else if !PhoneValid(form.phoneNumber) then Failure(BadPhone)
    else match form.amount
      case Numeric(v) =>
        if v < currentPrice + 1 then Failure(AmountTooLow)
        else Success(BidRequest(JoinName(form.firstName, form.lastName), form.phoneNumber, Some(v), form.isAnonymous))
      case _ => Failure(AmountTooLow)
  }

  /** A request the form lets through passes the server's rule as long as
      the price the form showed is not behind the server's and is not
      negative. */
  lemma {:induction false} FormAcceptedServerAccepts(t: Tables, pid: nat, form: BidFormValues, shownPrice: int)
    requires ValidateBidForm(form, shownPrice).Success?
    requires pid in t.products && shownPrice >= CurrentPrice(t.bids, t.products[pid]) && shownPrice >= 0
    ensures Decide(t, pid, ValidateBidForm(form, shownPrice).value).None?
  {
    var req := ValidateBidForm(form, shownPrice).value;
    assert req.bidderName[|form.firstName|] == ' ';
  }

  /** A non-negative price the form shows that is behind the server's lets
      through a bid the server refuses. */
  lemma {:induction false} StalePriceRefused(t: Tables, pid: nat, form: BidFormValues, shownPrice: int)
    requires ValidateBidForm(form, shownPrice).Success?
    requires shownPrice >= 0
    requires pid in t.products && AmountValue(form.amount).value <= CurrentPrice(t.bids, t.products[pid])
    ensures Decide(t, pid, ValidateBidForm(form, shownPrice).value) == Some(BidTooLow)
  {
    var req := ValidateBidForm(form, shownPrice).value;
    assert req.bidderName[|form.firstName|] == ' ';
  }

  /** The bid list shows the name exactly as the form sent it, though the
      server stores it split at the first space. */
  lemma {:induction false} NameShownAsTyped(form: BidFormValues, shownPrice: int, id: nat, pid: nat, now: int)
    requires ValidateBidForm(form, shownPrice).Success?
    ensures FormatBid(NewBidRow(id, pid, ValidateBidForm(form, shownPrice).value, now)).bidderName ==
            JoinName(form.firstName, form.lastName)
  {
    var req := ValidateBidForm(form, shownPrice).value;
    assert req.bidderName[|form.firstName|] == ' ';
  }
}
