/** The checkout dialog's component state and its handlers. Each React
    `useState` hook becomes a field; each handler becomes a method that
    overwrites the fields it sets and leaves the others alone. The parent's
    `open` flag is a field too, since `onOpenChange` is wired to the parent's
    setter; the 2-second `setTimeout` of a successful payment is a count of
    pending close callbacks and an explicit event that fires one of them.
    A handler wired to a button or an input has as its precondition that the
    dialog is open and shows the step on which that control is rendered. */
module CheckoutDialog {
  import opened Text
  import opened CheckoutValidation

  datatype Step = DetailsStep | PaymentStep | ConfirmationStep

  class Dialog {
    var open: bool
    var step: Step
    var formData: DetailsForm
    var paymentData: PaymentForm
    var detailsErrors: map<DetailsField, string>
    var paymentErrors: map<PaymentField, string>
    /** Close callbacks scheduled by successful payments and not yet run;
        nothing ever cancels them. */
    var pendingCloses: nat

    /** What every reachable state satisfies: the payment and confirmation
        steps are only ever entered with details that passed validation (and
        no details errors recorded), and the confirmation is only ever shown
        with no payment errors recorded and its close callback still
        pending. */
    predicate Valid()
      reads this
    {
      && (step != DetailsStep ==>
            IsDetailsValid(formData) && IsEmail(formData.email) && detailsErrors == map[])
      && (step == ConfirmationStep ==> paymentErrors == map[] && pendingCloses > 0)
    }

    /** The state the component is created in and that `resetForm` restores. */
    predicate Pristine()
      reads this
    {
      && step == DetailsStep
      && detailsErrors == map[]
      && paymentErrors == map[]
      && formData == EmptyDetails()
      && paymentData == InitialPayment()
    }

    constructor (isOpen: bool)
      ensures open == isOpen && Pristine() && pendingCloses == 0
      ensures Valid()
    {
      open := isOpen;
      step := DetailsStep;
      formData := EmptyDetails();
      paymentData := InitialPayment();
      detailsErrors := map[];
      paymentErrors := map[];
      pendingCloses := 0;
    }

    /** `handleDetailsChange`: only the named detail field changes (see
        `WithDetail`). */
    method HandleDetailsChange(field: DetailsField, value: string)
      requires Valid() && open && step == DetailsStep
      modifies this`formData
      ensures Valid()
      ensures formData == WithDetail(old(formData), field, value)
    {
      formData := WithDetail(formData, field, value);
    }

    /** `handlePaymentChange`: the raw value goes into the named field (the
        cardholder-name input is the one wired to it). */
    method HandlePaymentChange(field: PaymentField, value: string)
      requires Valid() && open && step == PaymentStep
      requires IsCardMethod(paymentData.paymentMethod)
      modifies this`paymentData
      ensures Valid()
      ensures paymentData == WithPayment(old(paymentData), field, value)
    {
      paymentData := WithPayment(paymentData, field, value);
    }

    /** `handlePaymentMethodChange`. */
    method HandlePaymentMethodChange(value: string)
      requires Valid() && open && step == PaymentStep
      modifies this`paymentData
      ensures Valid()
      ensures paymentData == old(paymentData).(paymentMethod := value)
    {
      paymentData := paymentData.(paymentMethod := value);
    }

    /** The card-number input: digits only, at most 16 of them. */
    method HandleCardNumberInput(raw: string)
      requires Valid() && open && step == PaymentStep
      requires IsCardMethod(paymentData.paymentMethod)
      modifies this`paymentData
      ensures Valid()
      ensures paymentData == old(paymentData).(cardNumber := Sanitize(raw, CardNumberCap))
    {
      paymentData := paymentData.(cardNumber := Sanitize(raw, CardNumberCap));
    }

    /** The expiry-month input: digits only, at most 2 of them. */
    method HandleExpiryMonthInput(raw: string)
      requires Valid() && open && step == PaymentStep
      requires IsCardMethod(paymentData.paymentMethod)
      modifies this`paymentData
      ensures Valid()
      ensures paymentData == old(paymentData).(expiryMonth := Sanitize(raw, ExpiryMonthCap))
    {
      paymentData := paymentData.(expiryMonth := Sanitize(raw, ExpiryMonthCap));
    }

    /** The expiry-year input: digits only, at most 2 of them. */
    method HandleExpiryYearInput(raw: string)
      requires Valid() && open && step == PaymentStep
      requires IsCardMethod(paymentData.paymentMethod)
      modifies this`paymentData
      ensures Valid()
      ensures paymentData == old(paymentData).(expiryYear := Sanitize(raw, ExpiryYearCap))
    {
      paymentData := paymentData.(expiryYear := Sanitize(raw, ExpiryYearCap));
    }

    /** The CVV input: digits only, at most 3 of them. */
    method HandleCvvInput(raw: string)
      requires Valid() && open && step == PaymentStep
      requires IsCardMethod(paymentData.paymentMethod)
      modifies this`paymentData
      ensures Valid()
      ensures paymentData == old(paymentData).(cvv := Sanitize(raw, CvvCap))
    {
      paymentData := paymentData.(cvv := Sanitize(raw, CvvCap));
    }

    /** `validateDetailsForm`, which only `handleNext` calls: the error
        record of the current details (one conditional assignment per field,
        see `DetailsErrors`) is stored, and the form passes when the record
        has no keys. */
    method ValidateDetailsForm() returns (ok: bool)
      requires Valid() && step == DetailsStep
      modifies this`detailsErrors
      ensures Valid()
      ensures detailsErrors == DetailsErrors(formData)
      ensures forall fld :: fld in detailsErrors <==> DetailsFieldError(formData, fld).Some?
      ensures ok <==> detailsErrors == map[]
      ensures ok <==> IsDetailsValid(formData) && IsEmail(formData.email)
    {
      var errors := DetailsErrors(formData);
      detailsErrors := errors;
      ok := |errors| == 0;
      forall fld
        ensures fld in errors <==> DetailsFieldError(formData, fld).Some?
      {
        DetailsErrorsAt(formData, fld);
      }
      DetailsValidIff(formData);
    }

    /** `validatePaymentForm`, which only `handleProcessPayment` calls: the
        error record of the current payment (one conditional assignment per
        card field, see `PaymentErrors`) is stored, and the form passes when
        the record has no keys. */
    method ValidatePaymentForm() returns (ok: bool)
      requires Valid() && step == PaymentStep
      modifies this`paymentErrors
      ensures Valid()
      ensures paymentErrors == PaymentErrors(paymentData)
      ensures forall fld :: fld in paymentErrors <==> PaymentFieldError(paymentData, fld).Some?
      ensures ok <==> paymentErrors == map[]
    {
      var errors := PaymentErrors(paymentData);
      paymentErrors := errors;
      ok := |errors| == 0;
      forall fld
        ensures fld in errors <==> PaymentFieldError(paymentData, fld).Some?
      {
        PaymentErrorsAt(paymentData, fld);
      }
    }

    /** `handleNext` (the Continue button of the details step): validate the
        details and advance only if they pass. */
    method HandleNext()
      requires Valid() && open && step == DetailsStep
      modifies this`detailsErrors, this`step
      ensures Valid()
      ensures detailsErrors == DetailsErrors(formData)
      ensures step == if detailsErrors == map[] then PaymentStep else DetailsStep
      ensures step == PaymentStep <==> IsDetailsValid(formData) && IsEmail(formData.email)
    {
      var ok := ValidateDetailsForm();
      if ok {
        step := PaymentStep;
      }
    }

    /** `handleProcessPayment` (the Process Payment button of the payment
        step): validate the payment, and on success show the confirmation and
        schedule the close callback. */
    method HandleProcessPayment()
      requires Valid() && open && step == PaymentStep
      modifies this`paymentErrors, this`step, this`pendingCloses
      ensures Valid()
      ensures paymentErrors == PaymentErrors(paymentData)
      ensures paymentErrors == map[] ==>
                step == ConfirmationStep && pendingCloses == old(pendingCloses) + 1
      ensures paymentErrors != map[] ==>
                step == PaymentStep && pendingCloses == old(pendingCloses)
      ensures step == ConfirmationStep ==> IsDetailsValid(formData) && IsEmail(formData.email)
    {
      var ok := ValidatePaymentForm();
      if ok {
        step := ConfirmationStep;
        pendingCloses := pendingCloses + 1;
      }
    }

    /** `resetForm`. */
    method ResetForm()
      modifies this`step, this`detailsErrors, this`paymentErrors, this`formData, this`paymentData
      ensures Pristine() && Valid()
    {
      step := DetailsStep;
      detailsErrors := map[];
      paymentErrors := map[];
      formData := EmptyDetails();
      paymentData := InitialPayment();
    }

    /** The Back button of the payment step: only the step changes, so the
        entered details and recorded errors stay. */
    method Back()
      requires Valid() && open && step == PaymentStep
      modifies this`step
      ensures Valid() && step == DetailsStep
    {
      step := DetailsStep;
    }

    /** `onOpenChange`, which the parent wires to its own `open` setter; the
        dialog itself also calls it when dismissed. */
    method OnOpenChange(isOpen: bool)
      requires Valid()
      modifies this`open
      ensures Valid() && open == isOpen
    {
      open := isOpen;
    }

    /** The Cancel button of the details step: it closes the dialog and
        resets nothing. */
    method Cancel()
      requires Valid() && open && step == DetailsStep
      modifies this`open
      ensures Valid() && !open
    {
      OnOpenChange(false);
    }

    /** One scheduled close callback runs: it closes the dialog and resets
        the form, whatever the dialog shows at that moment. */
    method CloseTimerFires()
      requires Valid() && pendingCloses > 0
      modifies this
      ensures Valid() && !open && Pristine()
      ensures pendingCloses == old(pendingCloses) - 1
    {
      OnOpenChange(false);
      ResetForm();
      pendingCloses := pendingCloses - 1;
    }
  }

  /** An empty submission stays on the details step with nine errors. */
  method EmptySubmissionScenario()
  {
    var d := new Dialog(true);
    d.HandleNext();
    EmptyDetailsHasNineErrors();
    assert d.step == DetailsStep && |d.detailsErrors| == 9;
  }

  /** The user types every detail field in turn: whatever the form held, it
      then holds the entry. */
  method TypeDetails(d: Dialog, entry: DetailsForm)
    requires d.Valid() && d.open && d.step == DetailsStep
    modifies d`formData
    ensures d.Valid() && d.formData == entry
  {
    var f := d.formData;
    d.HandleDetailsChange(FirstName, entry.firstName);
    assert d.formData == f.(firstName := entry.firstName);
    d.HandleDetailsChange(LastName, entry.lastName);
    assert d.formData == f.(firstName := entry.firstName, lastName := entry.lastName);
    d.HandleDetailsChange(Email, entry.email);
    d.HandleDetailsChange(Phone, entry.phone);
    assert d.formData == entry.(address := f.address, city := f.city, state := f.state,
                                zipCode := f.zipCode, country := f.country);
    d.HandleDetailsChange(Address, entry.address);
    d.HandleDetailsChange(City, entry.city);
    d.HandleDetailsChange(State, entry.state);
    assert d.formData == entry.(zipCode := f.zipCode, country := f.country);
    d.HandleDetailsChange(ZipCode, entry.zipCode);
    d.HandleDetailsChange(Country, entry.country);
  }

  /** The details step, for any complete entry: it passes with no errors and
      the dialog moves on to the payment step; Back then returns to the
      details with the entry still there. */
  method DetailsScenario(entry: DetailsForm)
    requires IsDetailsValid(entry) && IsEmail(entry.email)
  {
    var d := new Dialog(true);
    TypeDetails(d, entry);
    DetailsValidIff(entry);
    d.HandleNext();
    assert d.step == PaymentStep && d.detailsErrors == map[];
    d.Back();
    assert d.step == DetailsStep && d.formData == entry;
  }

  /** A fresh dialog that has been given a complete details entry and moved
      on to the payment step. */
  method ReachPayment(entry: DetailsForm) returns (d: Dialog)
    requires IsDetailsValid(entry) && IsEmail(entry.email)
    ensures fresh(d) && d.Valid() && d.open && d.step == PaymentStep && d.pendingCloses == 0
    ensures d.formData == entry && d.paymentData == InitialPayment()
  {
    d := new Dialog(true);
    TypeDetails(d, entry);
    DetailsValidIff(entry);
    d.HandleNext();
  }

  /** The user types the card fields: digit strings within the caps pass
      the sanitisers unchanged, so the card fields then hold what was typed
      and the method is untouched. */
  method TypeCard(d: Dialog, name: string, number: string, month: string, year: string, cvv: string)
    requires AllDigits(number) && |number| <= CardNumberCap
    requires AllDigits(month) && |month| <= ExpiryMonthCap
    requires AllDigits(year) && |year| <= ExpiryYearCap
    requires AllDigits(cvv) && |cvv| <= CvvCap
    requires d.Valid() && d.open && d.step == PaymentStep
    requires IsCardMethod(d.paymentData.paymentMethod)
    modifies d`paymentData
    ensures d.Valid()
    ensures d.paymentData == PaymentForm(name, number, month, year, cvv, old(d.paymentData.paymentMethod))
  {
    d.HandlePaymentChange(CardName, name);
    d.HandleCardNumberInput(number);
    SanitizeFixedPoints(number, CardNumberCap);
    d.HandleExpiryMonthInput(month);
    SanitizeFixedPoints(month, ExpiryMonthCap);
    d.HandleExpiryYearInput(year);
    SanitizeFixedPoints(year, ExpiryYearCap);
    d.HandleCvvInput(cvv);
    SanitizeFixedPoints(cvv, CvvCap);
  }

  /** A card number shorter than sixteen digits keeps the dialog on the
      payment step, with the length error recorded and no close scheduled. */
  method ShortCardNumberScenario(entry: DetailsForm, shortNumber: string)
    requires IsDetailsValid(entry) && IsEmail(entry.email)
    requires AllDigits(shortNumber) && 0 < |shortNumber| < 16
  {
    CreditCardIsCardMethod();
    var d := ReachPayment(entry);
    d.HandleCardNumberInput(shortNumber);
    SanitizeFixedPoints(shortNumber, CardNumberCap);
    d.HandleProcessPayment();
    CardPaymentErrorsAt(d.paymentData);
    assert d.paymentErrors[CardNumber] == "Card number must be 16 digits" by {
      PaymentErrorsAt(d.paymentData, CardNumber);
    }
    assert d.step == PaymentStep && d.pendingCloses == 0;
  }

  /** A complete credit-card entry typed on the payment step confirms and
      schedules the close; the close callback then shuts the dialog and
      restores the empty forms. */
  method PaymentScenario(entry: DetailsForm,
                         name: string, number: string, month: string, year: string, cvv: string)
    requires IsDetailsValid(entry) && IsEmail(entry.email)
    requires name != ""
    requires AllDigits(number) && |number| == 16
    requires AllDigits(month) && 0 < |month| <= 2
    requires AllDigits(year) && 0 < |year| <= 2
    requires AllDigits(cvv) && |cvv| == 3
  {
    CreditCardIsCardMethod();
    var d := ReachPayment(entry);
    TypeCard(d, name, number, month, year, cvv);
    CardPaymentErrorsAt(d.paymentData);
    d.HandleProcessPayment();
    assert d.step == ConfirmationStep && d.pendingCloses == 1;

    d.CloseTimerFires();
    assert !d.open && d.Pristine() && d.pendingCloses == 0;
  }

  /** Once the details are through, a PayPal payment confirms at once. If
      the dialog is dismissed and opened again before the close callback
      runs, it reopens on the confirmation, and the old callback then closes
      and resets it. */
  method StaleCloseScenario(entry: DetailsForm)
    requires IsDetailsValid(entry) && IsEmail(entry.email)
  {
    var d := ReachPayment(entry);
    d.HandlePaymentMethodChange("paypal");
    PaypalAccepted(d.paymentData);
    d.HandleProcessPayment();
    assert d.step == ConfirmationStep && d.pendingCloses == 1;

    d.OnOpenChange(false);
    d.OnOpenChange(true);
    assert d.open && d.step == ConfirmationStep && d.pendingCloses == 1;

    d.CloseTimerFires();
    assert !d.open && d.Pristine();
  }
}
