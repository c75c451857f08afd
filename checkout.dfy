/** The checkout page: the coupon evaluator (`setCouponHandle`), the payment
    step (`proceedToPayment`) with its three guards, and the page state they
    read and write. The coupon and payment endpoints are not called: their
    answer is a parameter of the handler that awaits it. The clock is the
    parameter `now`, in milliseconds. */
module Checkout {
  import opened Text
  import Email
  import opened CartButtons

  datatype PaymentMethod = MercadoPago | Asaas | PayPal | Stripe

  datatype DeliveryMethod = EmailDelivery

  /** A field of a JSON answer that the page compares with `null`: a field
      that is missing is `undefined`, which is not `null`. */
  datatype Field<T> = Absent | Null | Present(value: T)

  /** The `coupon` record of a successful coupon answer. */
  datatype Coupon = Coupon(
    maxUses: Field<int>, uses: int, minPrice: Field<real>, expiresAt: Option<int>, discount: real)

  /** How the coupon request ended: an ok answer, an answer that is not ok
      with its `error`, or an exception (network failure, unreadable body). */
  datatype CouponResponse = CouponOk(coupon: Coupon) | CouponNotOk(error: string) | CouponThrows

  /** The toast a rejected coupon shows. */
  datatype CouponRejection =
    | ServerError(message: string)
    | Exhausted
    | Expired
    | BelowMinimum(minPrice: real)
    | UnknownCouponError

  datatype CouponOutcome = Rejected(reason: CouponRejection) | Applied(discounted: real, totalToPay: real)

  /** `maxUses !== null && uses >= maxUses`; a missing `maxUses` compares
      false, like `null`. */
  predicate IsExhausted(c: Coupon)
  {
    c.maxUses.Present? && c.uses >= c.maxUses.value
  }

  /** `expiresAt && new Date(expiresAt) < new Date()`. */
  predicate IsExpired(c: Coupon, now: int)
  {
    c.expiresAt.Some? && c.expiresAt.value < now
  }

  /** `minPrice !== null && cartTotal < minPrice`; a missing `minPrice`
      compares false, like `null`. */
  predicate IsBelowMinimum(c: Coupon, cartTotal: real)
  {
    c.minPrice.Present? && cartTotal < c.minPrice.value
  }

  /** What `setCouponHandle` decides for a cart total and the coupon answer:
      the coupon applies exactly when the answer is ok and none of the three
      checks rejects it; then the discount is `discount` percent of the cart
      total and the two amounts add up to the cart total. */
  function EvaluateCoupon(response: CouponResponse, cartTotal: real, now: int): (r: CouponOutcome)
    ensures r.Applied? <==>
      && response.CouponOk?
      && !IsExhausted(response.coupon)
      && !IsExpired(response.coupon, now)
      && !IsBelowMinimum(response.coupon, cartTotal)
    ensures r.Applied? ==>
      && r.discounted == cartTotal * response.coupon.discount / 100.0
      && r.discounted + r.totalToPay == cartTotal
  {
    match response
    case CouponNotOk(message) => Rejected(ServerError(message))
    case CouponThrows => Rejected(UnknownCouponError)
    case CouponOk(c) =>
      if IsExhausted(c) then Rejected(Exhausted)
      else if IsExpired(c, now) then Rejected(Expired)
      else if IsBelowMinimum(c, cartTotal) then Rejected(BelowMinimum(c.minPrice.value))
      else
        var discountAfterCoupon := (cartTotal * c.discount) / 100.0;
        Applied(discountAfterCoupon, cartTotal - discountAfterCoupon)
  }

  /** The checks run in a fixed order and the first that fails names the
      rejection: an exhausted coupon is reported as exhausted even when it
      has also expired, an expired one as expired even below the minimum. */
  lemma CouponRejectionOrder(response: CouponResponse, cartTotal: real, now: int)
    ensures response.CouponNotOk? ==> EvaluateCoupon(response, cartTotal, now) == Rejected(ServerError(response.error))
    ensures response.CouponThrows? ==> EvaluateCoupon(response, cartTotal, now) == Rejected(UnknownCouponError)
    ensures response.CouponOk? && IsExhausted(response.coupon) ==>
      EvaluateCoupon(response, cartTotal, now) == Rejected(Exhausted)
    ensures response.CouponOk? && !IsExhausted(response.coupon) && IsExpired(response.coupon, now) ==>
      EvaluateCoupon(response, cartTotal, now) == Rejected(Expired)
    ensures (response.CouponOk? && !IsExhausted(response.coupon) && !IsExpired(response.coupon, now)
             && IsBelowMinimum(response.coupon, cartTotal)) ==>
      EvaluateCoupon(response, cartTotal, now) == Rejected(BelowMinimum(response.coupon.minPrice.value))
  {
  }

  /** The amount to pay is not clamped: a coupon above 100 percent on a
      positive cart total leaves a negative amount to pay; a coupon between
      0 and 100 percent keeps it between 0 and the cart total. */
  lemma CouponAmountBounds(c: Coupon, cartTotal: real, now: int)
    requires !IsExhausted(c) && !IsExpired(c, now) && !IsBelowMinimum(c, cartTotal)
    ensures var r := EvaluateCoupon(CouponOk(c), cartTotal, now);
      && r.Applied?
      && (cartTotal > 0.0 && c.discount > 100.0 ==> r.totalToPay < 0.0)
      && (cartTotal >= 0.0 && 0.0 <= c.discount <= 100.0 ==> 0.0 <= r.totalToPay <= cartTotal)
  {
    var d := cartTotal * c.discount / 100.0;
    if cartTotal > 0.0 && c.discount > 100.0 {
      assert d > cartTotal;
    }
    if cartTotal >= 0.0 && 0.0 <= c.discount <= 100.0 {
      assert 0.0 <= d <= cartTotal;
    }
  }

  /** A coupon used once of one allowed is exhausted; one with a minimum of
      100 on a cart of 50 is below the minimum. */
  lemma CouponRejectionExamples(now: int)
    ensures EvaluateCoupon(CouponOk(Coupon(Present(1), 1, Null, None, 10.0)), 50.0, now) == Rejected(Exhausted)
    ensures EvaluateCoupon(CouponOk(Coupon(Null, 0, Present(100.0), None, 10.0)), 50.0, now) == Rejected(BelowMinimum(100.0))
    ensures EvaluateCoupon(CouponOk(Coupon(Absent, 7, Absent, Some(now), 10.0)), 50.0, now).Applied?
  {
  }

  /** The guard of `proceedToPayment` that fails first, if any. */
  datatype Guard = NoPaymentMethod | TermsNotAccepted | InvalidEmail

  /** The guards in their order: payment method, terms, e-mail (empty or not
      accepted by `validateEmail`). None fails exactly when a method is
      selected, the terms are accepted and the e-mail is valid. */
  function FirstFailingGuard(selectedPayment: Option<PaymentMethod>, termsAccepted: bool, email: string): (g: Option<Guard>)
    ensures g.None? <==> selectedPayment.Some? && termsAccepted && Email.ValidateEmail(email)
    ensures selectedPayment.None? ==> g == Some(NoPaymentMethod)
    ensures selectedPayment.Some? && !termsAccepted ==> g == Some(TermsNotAccepted)
    ensures selectedPayment.Some? && termsAccepted && !Email.ValidateEmail(email) ==> g == Some(InvalidEmail)
  {
    if selectedPayment.None? then Some(NoPaymentMethod)
    else if !termsAccepted then Some(TermsNotAccepted)
    else if email == "" || !Email.ValidateEmail(email) then Some(InvalidEmail)
    else None
  }

  /** An e-mail that passes the guards matches the regular expression. */
  lemma SubmittedEmailMatchesPattern(selectedPayment: Option<PaymentMethod>, termsAccepted: bool, email: string)
    requires FirstFailingGuard(selectedPayment, termsAccepted, email).None?
    ensures Email.EmailPattern(email) && email != ""
  {
    Email.ValidateEmailIffPattern(email);
  }

  /** How the payment request ended: an ok answer with its `checkoutUrl`, an
      answer that is not ok with its `error`, or an exception. */
  datatype PaymentResponse = PaymentOk(checkoutUrl: Field<string>) | PaymentNotOk(error: string) | PaymentThrows

  /** What the shopper sees after `proceedToPayment`. */
  datatype PaymentOutcome =
    | GuardFailed(guard: Guard)
    | Redirected(target: Field<string>)
    | StayedOnPage
    | PaymentError(message: string)
    | UnknownPaymentError

  /** The body of the payment request. */
  datatype PaymentRequest = PaymentRequest(
    price: real, paymentMethod: PaymentMethod, storeId: Option<int>, email: string, items: seq<LineItem>)

  /** The body of the coupon request. */
  datatype CouponRequest = CouponRequest(name: string, storeId: Option<int>)

  /** The page's reaction to the payment answer: it navigates only on an ok
      answer whose `checkoutUrl` is not `null` (a missing one included), and
      surfaces the server's message on an answer that is not ok. */
  function ResponseOutcome(response: PaymentResponse): (r: PaymentOutcome)
    ensures r.Redirected? <==> response.PaymentOk? && response.checkoutUrl != Null
    ensures r.Redirected? ==> r.target == response.checkoutUrl
    ensures r.PaymentError? <==> response.PaymentNotOk?
    ensures r.PaymentError? ==> r.message == response.error
    ensures r == UnknownPaymentError <==> response.PaymentThrows?
    ensures r == StayedOnPage <==> response == PaymentOk(Null)
    ensures !r.GuardFailed?
  {
    match response
    case PaymentOk(url) => if url != Null then Redirected(url) else StayedOnPage
    case PaymentNotOk(message) => PaymentError(message)
    case PaymentThrows => UnknownPaymentError
  }

  /** The checkout page's state. `cartTotal` and `items` are what the cart
      store last rendered; `storeId` is the `storeId` cookie read as a
      number (`None` where `Number` gives NaN); `couponRequests` and
      `paymentRequests` record the bodies sent to the two endpoints, oldest
      first. */
  class CheckoutPage {
    var cartTotal: real
    var items: seq<LineItem>
    const storeId: Option<int>
    var coupon: string
    var discounted: real
    var totalToPay: real
    var emailToSend: string
    var selectedPayment: Option<PaymentMethod>
    var selectedDelivery: Option<DeliveryMethod>
    var termsAccepted: bool
    var disabledWhenRequesting: bool
    var couponRequests: seq<CouponRequest>
    var paymentRequests: seq<PaymentRequest>
    /** The cart total that `discounted` and `totalToPay` were priced from. */
    ghost var pricedTotal: real

    /** The discount and the amount to pay always add up to the cart total
        they were priced from, which need not be the current one. */
    ghost predicate Valid()
      reads this
    {
      discounted + totalToPay == pricedTotal
    }

    /** The page as first rendered: `totalToPay` starts as the cart total. */
    constructor (cartTotal: real, items: seq<LineItem>, storeId: Option<int>)
      ensures Valid()
      ensures this.cartTotal == cartTotal && this.items == items && this.storeId == storeId
      ensures coupon == "" && discounted == 0.0 && totalToPay == cartTotal && pricedTotal == cartTotal
      ensures emailToSend == "" && selectedPayment == None && selectedDelivery == None
      ensures !termsAccepted && !disabledWhenRequesting
      ensures couponRequests == [] && paymentRequests == []
    {
      this.cartTotal := cartTotal;
      this.items := items;
      this.storeId := storeId;
      coupon := "";
      discounted := 0.0;
      totalToPay := cartTotal;
      emailToSend := "";
      selectedPayment := None;
      selectedDelivery := None;
      termsAccepted := false;
      disabledWhenRequesting := false;
      couponRequests := [];
      paymentRequests := [];
      pricedTotal := cartTotal;
    }

    /** The cart store re-renders the page with a new total and new lines.
        `totalToPay` is state of the page and is left as it was. */
    method CartChanged(newTotal: real, newItems: seq<LineItem>)
      modifies this`cartTotal, this`items
      ensures cartTotal == newTotal && items == newItems
    {
      cartTotal := newTotal;
      items := newItems;
    }

    method SelectPayment(m: PaymentMethod)
      modifies this`selectedPayment
      ensures selectedPayment == Some(m)
    {
      selectedPayment := Some(m);
    }

    method SelectDelivery(d: DeliveryMethod)
      modifies this`selectedDelivery
      ensures selectedDelivery == Some(d)
    {
      selectedDelivery := Some(d);
    }

    method SetEmail(email: string)
      modifies this`emailToSend
      ensures emailToSend == email
    {
      emailToSend := email;
    }

    method SetTermsAccepted(accepted: bool)
      modifies this`termsAccepted
      ensures termsAccepted == accepted
    {
      termsAccepted := accepted;
    }

    method SetCouponCode(code: string)
      modifies this`coupon
      ensures coupon == code
    {
      coupon := code;
    }

    /** The "Continuar para Pagamento" button can be clicked. */
    predicate PayButtonEnabled()
      reads this
    {
      !disabledWhenRequesting && emailToSend != "" && termsAccepted && selectedPayment.Some?
    }

    /** `setCouponHandle`: sends the code, then applies the evaluator's
        decision. Only a coupon that applies writes `discounted` and
        `totalToPay`; every rejection and every exception leaves them. */
    method ApplyCoupon(response: CouponResponse, now: int) returns (outcome: CouponOutcome)
      requires Valid()
      modifies this`discounted, this`totalToPay, this`couponRequests, this`pricedTotal
      ensures Valid()
      ensures couponRequests == old(couponRequests) + [CouponRequest(coupon, storeId)]
      ensures outcome == EvaluateCoupon(response, cartTotal, now)
      ensures outcome.Applied? ==>
        discounted == outcome.discounted && totalToPay == outcome.totalToPay && pricedTotal == cartTotal
      ensures outcome.Rejected? ==>
        discounted == old(discounted) && totalToPay == old(totalToPay) && pricedTotal == old(pricedTotal)
    {
      couponRequests := couponRequests + [CouponRequest(coupon, storeId)];
      match response {
        case CouponNotOk(message) =>
          outcome := Rejected(ServerError(message));
        case CouponThrows =>
          outcome := Rejected(UnknownCouponError);
        case CouponOk(c) =>
          if c.maxUses.Present? && c.uses >= c.maxUses.value {
            outcome := Rejected(Exhausted);
          } else if c.expiresAt.Some? && c.expiresAt.value < now {
            outcome := Rejected(Expired);
          } else if c.minPrice.Present? && cartTotal < c.minPrice.value {
            outcome := Rejected(BelowMinimum(c.minPrice.value));
          } else {
            var discountAfterCoupon := (cartTotal * c.discount) / 100.0;
            var totalAfterDiscount := cartTotal - discountAfterCoupon;
            discounted := discountAfterCoupon;
            totalToPay := totalAfterDiscount;
            pricedTotal := cartTotal;
            outcome := Applied(discountAfterCoupon, totalAfterDiscount);
          }
      }
    }

    /** `proceedToPayment`: disables the button, checks the guards in order
        and returns on the first that fails without sending anything;
        otherwise sends `totalToPay` (not the cart total) with the method,
        store, e-mail and items, and reacts to the answer. Every way out
        enables the button again. */
    method ProceedToPayment(response: PaymentResponse) returns (outcome: PaymentOutcome)
      modifies this`disabledWhenRequesting, this`paymentRequests
      ensures !disabledWhenRequesting
      ensures var g := FirstFailingGuard(selectedPayment, termsAccepted, emailToSend);
        && (g.Some? ==> outcome == GuardFailed(g.value) && paymentRequests == old(paymentRequests))
        && (g.None? ==>
              && paymentRequests == old(paymentRequests) +
                   [PaymentRequest(totalToPay, selectedPayment.value, storeId, emailToSend, items)]
              && outcome == ResponseOutcome(response))
    {
      disabledWhenRequesting := true;

      if selectedPayment.None? {
        disabledWhenRequesting := false;
        return GuardFailed(NoPaymentMethod);
      }
      if !termsAccepted {
        disabledWhenRequesting := false;
        return GuardFailed(TermsNotAccepted);
      }
      if emailToSend == "" || !Email.ValidateEmail(emailToSend) {
        disabledWhenRequesting := false;
        return GuardFailed(InvalidEmail);
      }

      paymentRequests := paymentRequests +
        [PaymentRequest(totalToPay, selectedPayment.value, storeId, emailToSend, items)];

      match response {
        case PaymentThrows =>
          outcome := UnknownPaymentError;
          disabledWhenRequesting := false;
        case PaymentNotOk(message) =>
          outcome := PaymentError(message);
          disabledWhenRequesting := false;
        case PaymentOk(checkoutUrl) =>
          outcome := if checkoutUrl != Null then Redirected(checkoutUrl) else StayedOnPage;
          disabledWhenRequesting := false;
      }
    }
  }

  /** With the pay button enabled, only the e-mail guard can still fail:
      the button already demands a payment method, accepted terms and a
      non-empty e-mail. */
  lemma EnabledButtonLeavesEmailGuard(p: CheckoutPage)
    requires p.PayButtonEnabled()
    ensures FirstFailingGuard(p.selectedPayment, p.termsAccepted, p.emailToSend) in {None, Some(InvalidEmail)}
    ensures FirstFailingGuard(p.selectedPayment, p.termsAccepted, p.emailToSend) == None <==>
      Email.ValidateEmail(p.emailToSend)
  {
  }

  /** A cart of 200 with a 10 percent coupon: 20 off, and the payment
      request carries 180. */
  method CouponThenPayScenario(email: string) returns (sent: seq<PaymentRequest>)
    requires Email.ValidateEmail(email)
    ensures |sent| == 1 && sent[0].price == 180.0 && sent[0].email == email
  {
    var item := LineItem("1", "Produto", 100.0, None, Some(2));
    var page := new CheckoutPage(200.0, [item], Some(7));
    page.SetCouponCode("DEZ");
    var applied := page.ApplyCoupon(CouponOk(Coupon(Null, 0, Null, None, 10.0)), 0);
    assert applied == Applied(20.0, 180.0);
    page.SelectPayment(Stripe);
    page.SetTermsAccepted(true);
    page.SetEmail(email);
    var paid := page.ProceedToPayment(PaymentOk(Present("https://pay")));
    sent := page.paymentRequests;
  }

  /** A shopper who changes the cart after the page was rendered still pays
      the total the page was rendered with: `totalToPay` follows neither
      quantity changes nor a new cart total. */
  method StaleTotalScenario(email: string) returns (sent: seq<PaymentRequest>)
    requires Email.ValidateEmail(email)
    ensures |sent| == 1 && sent[0].price == 100.0
  {
    var item := LineItem("1", "Produto", 100.0, None, Some(1));
    var page := new CheckoutPage(100.0, [item], Some(7));
    page.CartChanged(200.0, [item.(quantity := Some(2))]);
    page.SelectPayment(MercadoPago);
    page.SetTermsAccepted(true);
    page.SetEmail(email);
    var paid := page.ProceedToPayment(PaymentNotOk("recusado"));
    sent := page.paymentRequests;
  }

  /** A failing guard sends nothing: without accepted terms no payment
      request goes out, whatever the rest of the page holds. */
  method TermsNotAcceptedScenario() returns (sent: seq<PaymentRequest>, outcome: PaymentOutcome)
    ensures sent == [] && outcome == GuardFailed(TermsNotAccepted)
  {
    var page := new CheckoutPage(50.0, [], None);
    page.SelectPayment(PayPal);
    page.SetEmail("a@b.co");
    outcome := page.ProceedToPayment(PaymentOk(Present("https://pay")));
    sent := page.paymentRequests;
  }
}
