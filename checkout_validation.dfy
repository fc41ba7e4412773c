/** The pure half of the checkout dialog: the two forms, the per-field error
    rules of the shipping-details and payment validators, the looser checks
    `isDetailsValid` (every field present) and `isPaymentValid` (for
    "credit-card": every card field present, a 16-character number and a
    3-character CVV), the e-mail pattern and the digit sanitisers of the card
    inputs. */
module CheckoutValidation {
  import opened Seqs
  import opened Text

  // ---------------------------------------------------------------------
  // Error records

  /** The record a validator builds with one conditional assignment per key,
      in the order of `keys`: `errors[k] = message` for each key whose check
      yields a message. */
  function Collect<K(==)>(keys: seq<K>, check: K -> Option<string>): map<K, string> {
    if keys == [] then map[]
    else
      var k := keys[|keys| - 1];
      var e := Collect(keys[..|keys| - 1], check);
      if check(k).Some? then e[k := check(k).value] else e
  }

  /** A key has an entry exactly when it is one of the tested keys and its
      check yields a message, and the entry is that message. */
  lemma {:induction false} CollectAt<K>(keys: seq<K>, check: K -> Option<string>, k: K)
    ensures k in Collect(keys, check) <==> k in keys && check(k).Some?
    ensures k in Collect(keys, check) ==> Collect(keys, check)[k] == check(k).value
  {
    if keys != [] {
      var init := keys[..|keys| - 1];
      assert keys == init + [keys[|keys| - 1]];
      CollectAt(init, check, k);
    }
  }

  // ---------------------------------------------------------------------
  // Shipping details

  datatype DetailsForm = DetailsForm(
    firstName: string, lastName: string, email: string, phone: string,
    address: string, city: string, state: string, zipCode: string, country: string)

  /** The `name` attributes of the nine detail inputs. */
  datatype DetailsField =
    FirstName | LastName | Email | Phone | Address | City | State | ZipCode | Country

  const AllDetailsFields: set<DetailsField> :=
    {FirstName, LastName, Email, Phone, Address, City, State, ZipCode, Country}

  lemma AllDetailsFieldsComplete()
    ensures forall fld: DetailsField :: fld in AllDetailsFields
    ensures |AllDetailsFields| == 9
  {
    forall fld: DetailsField
      ensures fld in AllDetailsFields
    {
      match fld
      case FirstName =>
      case LastName =>
      case Email =>
      case Phone =>
      case Address =>
      case City =>
      case State =>
      case ZipCode =>
      case Country =>
    }
  }

  /** The form every checkout starts from (and `resetForm` restores). */
  function EmptyDetails(): DetailsForm {
    DetailsForm("", "", "", "", "", "", "", "", "")
  }

  function DetailsValue(f: DetailsForm, fld: DetailsField): string {
    match fld
    case FirstName => f.firstName
    case LastName => f.lastName
    case Email => f.email
    case Phone => f.phone
    case Address => f.address
    case City => f.city
    case State => f.state
    case ZipCode => f.zipCode
    case Country => f.country
  }

  /** `{ ...formData, [name]: value }`: the named field takes the value and
      every other field keeps its own. */
  function WithDetail(f: DetailsForm, fld: DetailsField, value: string): (r: DetailsForm)
    ensures DetailsValue(r, fld) == value
    ensures forall g :: g != fld ==> DetailsValue(r, g) == DetailsValue(f, g)
  {
    match fld
    case FirstName => f.(firstName := value)
    case LastName => f.(lastName := value)
    case Email => f.(email := value)
    case Phone => f.(phone := value)
    case Address => f.(address := value)
    case City => f.(city := value)
    case State => f.(state := value)
    case ZipCode => f.(zipCode := value)
    case Country => f.(country := value)
  }

  function RequiredMessage(fld: DetailsField): string {
    match fld
    case FirstName => "First name is required"
    case LastName => "Last name is required"
    case Email => "Email is required"
    case Phone => "Phone number is required"
    case Address => "Address is required"
    case City => "City is required"
    case State => "State is required"
    case ZipCode => "ZIP code is required"
    case Country => "Country is required"
  }

  const InvalidEmailMessage: string := "Please enter a valid email"

  /** The message `validateDetailsForm` records for one field, if any. */
  function DetailsFieldError(f: DetailsForm, fld: DetailsField): Option<string> {
    if DetailsValue(f, fld) == "" then Some(RequiredMessage(fld))
    else if fld == Email && !IsEmail(f.email) then Some(InvalidEmailMessage)
    else None
  }

  /** The keys in the order `validateDetailsForm` tests them. */
  const DetailsOrder: seq<DetailsField> :=
    [FirstName, LastName, Email, Phone, Address, City, State, ZipCode, Country]

  function DetailsCheck(f: DetailsForm): DetailsField -> Option<string> {
    fld => DetailsFieldError(f, fld)
  }

  /** The `errors` record `validateDetailsForm` builds. */
  function DetailsErrors(f: DetailsForm): map<DetailsField, string> {
    Collect(DetailsOrder, DetailsCheck(f))
  }

  /** `isDetailsValid`: presence of all nine fields, nothing more. */
  predicate IsDetailsValid(f: DetailsForm) {
    forall fld: DetailsField :: DetailsValue(f, fld) != ""
  }

  /** A field has an entry in the record exactly when it has an error, and
      the entry is that error's message: the field is empty, or it is the
      e-mail field and lacks the e-mail shape. */
  lemma DetailsErrorsAt(f: DetailsForm, fld: DetailsField)
    ensures fld in DetailsErrors(f) <==> DetailsFieldError(f, fld).Some?
    ensures fld in DetailsErrors(f) ==> DetailsErrors(f)[fld] == DetailsFieldError(f, fld).value
    ensures fld in DetailsErrors(f) <==>
              DetailsValue(f, fld) == "" || (fld == Email && !IsEmail(f.email))
    ensures DetailsValue(f, fld) == "" ==> DetailsErrors(f)[fld] == RequiredMessage(fld)
    ensures DetailsValue(f, fld) != "" && fld == Email && !IsEmail(f.email) ==>
              DetailsErrors(f)[fld] == InvalidEmailMessage
  {
    CollectAt(DetailsOrder, DetailsCheck(f), fld);
    assert fld in DetailsOrder by {
      match fld
      case FirstName => assert DetailsOrder[0] == fld;
      case LastName => assert DetailsOrder[1] == fld;
      case Email => assert DetailsOrder[2] == fld;
      case Phone => assert DetailsOrder[3] == fld;
      case Address => assert DetailsOrder[4] == fld;
      case City => assert DetailsOrder[5] == fld;
      case State => assert DetailsOrder[6] == fld;
      case ZipCode => assert DetailsOrder[7] == fld;
      case Country => assert DetailsOrder[8] == fld;
    }
  }

  /** The fields with entries are exactly the empty ones, plus the e-mail
      when it is filled in but lacks the e-mail shape. */
  lemma DetailsErrorKeys(f: DetailsForm)
    ensures DetailsErrors(f).Keys ==
              set fld | fld in AllDetailsFields &&
                        (DetailsValue(f, fld) == "" || (fld == Email && f.email != "" && !IsEmail(f.email)))
  {
    AllDetailsFieldsComplete();
    forall fld
      ensures fld in DetailsErrors(f) <==>
                DetailsValue(f, fld) == "" || (fld == Email && f.email != "" && !IsEmail(f.email))
    {
      DetailsErrorsAt(f, fld);
    }
  }

  /** On the all-empty form every one of the nine fields is reported missing. */
  lemma EmptyDetailsHasNineErrors()
    ensures DetailsErrors(EmptyDetails()).Keys == AllDetailsFields
    ensures |DetailsErrors(EmptyDetails())| == 9
    ensures forall fld :: fld in AllDetailsFields ==>
              DetailsErrors(EmptyDetails())[fld] == RequiredMessage(fld)
  {
    AllDetailsFieldsComplete();
    forall fld: DetailsField
      ensures fld in DetailsErrors(EmptyDetails())
      ensures DetailsErrors(EmptyDetails())[fld] == RequiredMessage(fld)
    {
      DetailsErrorsAt(EmptyDetails(), fld);
    }
  }

  /** `validateDetailsForm()` returns true exactly when every field is
      present and the e-mail has the e-mail shape. */
  lemma DetailsValidIff(f: DetailsForm)
    ensures DetailsErrors(f) == map[] <==> IsDetailsValid(f) && IsEmail(f.email)
  {
    if DetailsErrors(f) == map[] {
      forall fld: DetailsField
        ensures DetailsValue(f, fld) != ""
      {
        DetailsErrorsAt(f, fld);
      }
      DetailsErrorsAt(f, Email);
    } else {
      var fld :| fld in DetailsErrors(f);
      DetailsErrorsAt(f, fld);
    }
  }

  /** Passing the validator implies passing the presence check. */
  lemma ValidatedDetailsArePresent(f: DetailsForm)
    requires DetailsErrors(f) == map[]
    ensures IsDetailsValid(f)
  {
    DetailsValidIff(f);
  }

  /** The converse fails: with every field filled and a malformed e-mail the
      presence check passes while the validator reports exactly one error,
      on the e-mail field. */
  lemma MalformedEmailOnlyError(f: DetailsForm)
    requires IsDetailsValid(f) && !IsEmail(f.email)
    ensures DetailsErrors(f) == map[Email := InvalidEmailMessage]
  {
    forall fld: DetailsField
      ensures fld in DetailsErrors(f) <==> fld == Email
    {
      DetailsErrorsAt(f, fld);
    }
    DetailsErrorsAt(f, Email);
  }

  // ---------------------------------------------------------------------
  // The e-mail pattern ^[^\s@]+@[^\s@]+\.[^\s@]+$

  /** The class `[^\s@]`. */
  predicate InEmailClass(c: char) {
    !IsWhitespace(c) && c != '@'
  }

  predicate AllInEmailClass(s: string) {
    forall k :: 0 <= k < |s| ==> InEmailClass(s[k])
  }

  predicate IsAtSign(c: char) {
    c == '@'
  }

  /** `s` splits as `local "@" d1 "." d2` with the '@' at `i`, the '.' at
      `j` and the three parts non-empty strings of `[^\s@]`. */
  predicate EmailSplit(s: string, i: int, j: int) {
    && 0 < i && i + 1 < j && j + 1 < |s|
    && s[i] == '@' && s[j] == '.'
    && AllInEmailClass(s[..i]) && AllInEmailClass(s[i + 1..j]) && AllInEmailClass(s[j + 1..])
  }

  /** The language of the regular expression, whole-string anchored. */
  ghost predicate MatchesEmailPattern(s: string) {
    exists i, j :: EmailSplit(s, i, j)
  }

  predicate HasInteriorDot(d: string) {
    exists k | 1 <= k < |d| - 1 :: d[k] == '.'
  }

  /** The e-mail test as a scan: no white space anywhere, a first '@' that is
      not the first character, no second '@', and a '.' in the domain that
      is neither its first nor its last character. */
  predicate IsEmail(s: string) {
    var at := FindIndex(s, IsAtSign);
    && !Any(s, IsWhitespace)
    && 0 < at < |s|
    && !Any(s[at + 1..], IsAtSign)
    && HasInteriorDot(s[at + 1..])
  }

  /** The scan accepts exactly the strings the regular expression matches. */
  lemma IsEmailMatchesPattern(s: string)
    ensures IsEmail(s) <==> MatchesEmailPattern(s)
  {
    if IsEmail(s) {
      var at := FindIndex(s, IsAtSign);
      var d := s[at + 1..];
      var k :| 1 <= k < |d| - 1 && d[k] == '.';
      var j := at + 1 + k;
      assert s[j] == d[k];
      forall m | 0 <= m < |s| && m != at
        ensures InEmailClass(s[m])
      {
        if m > at {
          assert s[m] == d[m - at - 1];
        }
      }
      assert EmailSplit(s, at, j);
    }
    if MatchesEmailPattern(s) {
      var i, j :| EmailSplit(s, i, j);
      forall m | 0 <= m < |s| && m != i
        ensures InEmailClass(s[m]) || m == j
      {
        if m < i {
          assert s[m] == s[..i][m];
        } else if i < m < j {
          assert s[m] == s[i + 1..j][m - i - 1];
        } else if m > j {
          assert s[m] == s[j + 1..][m - j - 1];
        }
      }
      assert FindIndex(s, IsAtSign) == i;
      var d := s[i + 1..];
      assert d[j - i - 1] == '.';
      assert !Any(d, IsAtSign) by {
        forall m | 0 <= m < |d|
          ensures !IsAtSign(d[m])
        {
          assert d[m] == s[i + 1 + m];
        }
      }
    }
  }

  /** What the e-mail test rejects: any white space, no '@' at all, an '@'
      as the first character, or two '@' signs. */
  lemma EmailRejections(s: string)
    ensures (exists k :: 0 <= k < |s| && IsWhitespace(s[k])) ==> !IsEmail(s)
    ensures (forall k :: 0 <= k < |s| ==> s[k] != '@') ==> !IsEmail(s)
    ensures |s| > 0 && s[0] == '@' ==> !IsEmail(s)
    ensures (exists a, b :: 0 <= a < b < |s| && s[a] == '@' && s[b] == '@') ==> !IsEmail(s)
  {
    if IsEmail(s) {
      var at := FindIndex(s, IsAtSign);
      forall b | at < b < |s|
        ensures s[b] != '@'
      {
        assert s[at + 1..][b - at - 1] == s[b];
      }
    }
  }

  /** "john@doe" has no dot in its domain. */
  lemma NoDotDomainIsNotEmail()
    ensures !IsEmail("john@doe")
  {
    var s := "john@doe";
    var at := FindIndex(s, IsAtSign);
    assert s[4] == '@';
    assert at == 4;
    assert s[at + 1..] == "doe";
  }

  /** "johndoe.com" has no '@'. */
  lemma NoAtSignIsNotEmail()
    ensures !IsEmail("johndoe.com")
  {
    var s := "johndoe.com";
    assert forall k :: 0 <= k < |s| ==> s[k] != '@';
  }

  /** "john@example.com" has the e-mail shape. */
  lemma WellFormedEmail()
    ensures IsEmail("john@example.com")
  {
    var s := "john@example.com";
    assert EmailSplit(s, 4, 12) by {
      forall k | 0 <= k < |s| && k != 4
        ensures InEmailClass(s[k])
      {
        assert '!' <= s[k] <= '~';
      }
    }
    IsEmailMatchesPattern(s);
  }

  // ---------------------------------------------------------------------
  // Payment

  datatype PaymentForm = PaymentForm(
    cardName: string, cardNumber: string, expiryMonth: string, expiryYear: string,
    cvv: string, paymentMethod: string)

  /** The card inputs; the payment method has its own select handler. */
  datatype PaymentField = CardName | CardNumber | ExpiryMonth | ExpiryYear | Cvv

  const AllPaymentFields: set<PaymentField> := {CardName, CardNumber, ExpiryMonth, ExpiryYear, Cvv}

  lemma AllPaymentFieldsComplete()
    ensures forall fld: PaymentField :: fld in AllPaymentFields
    ensures |AllPaymentFields| == 5
  {
    forall fld: PaymentField
      ensures fld in AllPaymentFields
    {
      match fld
      case CardName =>
      case CardNumber =>
      case ExpiryMonth =>
      case ExpiryYear =>
      case Cvv =>
    }
  }

  /** The payment form every checkout starts from (and `resetForm` restores). */
  function InitialPayment(): PaymentForm {
    PaymentForm("", "", "", "", "", "credit-card")
  }

  function PaymentValue(p: PaymentForm, fld: PaymentField): string {
    match fld
    case CardName => p.cardName
    case CardNumber => p.cardNumber
    case ExpiryMonth => p.expiryMonth
    case ExpiryYear => p.expiryYear
    case Cvv => p.cvv
  }

  /** `{ ...paymentData, [name]: value }`. */
  function WithPayment(p: PaymentForm, fld: PaymentField, value: string): (r: PaymentForm)
    ensures PaymentValue(r, fld) == value
    ensures forall g :: g != fld ==> PaymentValue(r, g) == PaymentValue(p, g)
    ensures r.paymentMethod == p.paymentMethod
  {
    match fld
    case CardName => p.(cardName := value)
    case CardNumber => p.(cardNumber := value)
    case ExpiryMonth => p.(expiryMonth := value)
    case ExpiryYear => p.(expiryYear := value)
    case Cvv => p.(cvv := value)
  }

  /** `paymentMethod.includes("card")`. */
  predicate IsCardMethod(paymentMethod: string) {
    Includes(paymentMethod, "card")
  }

  /** The message `validatePaymentForm` records for one field, if any. */
  function PaymentFieldError(p: PaymentForm, fld: PaymentField): Option<string> {
    if !IsCardMethod(p.paymentMethod) then None
    else
      match fld
      case CardName =>
        if p.cardName == "" then Some("Cardholder name is required") else None
      case CardNumber =>
        if p.cardNumber == "" then Some("Card number is required")
        else if |p.cardNumber| != 16 then Some("Card number must be 16 digits")
        else None
      case ExpiryMonth =>
        if p.expiryMonth == "" then Some("Month is required") else None
      case ExpiryYear =>
        if p.expiryYear == "" then Some("Year is required") else None
      case Cvv =>
        if p.cvv == "" then Some("CVV is required")
        else if |p.cvv| != 3 then Some("CVV must be 3 digits")
        else None
  }

  /** The keys in the order `validatePaymentForm` tests them. */
  const PaymentOrder: seq<PaymentField> := [CardName, CardNumber, ExpiryMonth, ExpiryYear, Cvv]

  function PaymentCheck(p: PaymentForm): PaymentField -> Option<string> {
    fld => PaymentFieldError(p, fld)
  }

  /** The `errors` record `validatePaymentForm` builds. */
  function PaymentErrors(p: PaymentForm): map<PaymentField, string> {
    Collect(PaymentOrder, PaymentCheck(p))
  }

  /** `isPaymentValid`: card checks only for the exact method "credit-card". */
  predicate IsPaymentValid(p: PaymentForm) {
    if p.paymentMethod == "credit-card" then
      && p.cardName != ""
      && |p.cardNumber| == 16
      && p.expiryMonth != ""
      && p.expiryYear != ""
      && |p.cvv| == 3
    else true
  }

  /** A field has an entry in the record exactly when it has an error, and
      the entry is that error's message. */
  lemma PaymentErrorsAt(p: PaymentForm, fld: PaymentField)
    ensures fld in PaymentErrors(p) <==> PaymentFieldError(p, fld).Some?
    ensures fld in PaymentErrors(p) ==> PaymentErrors(p)[fld] == PaymentFieldError(p, fld).value
  {
    CollectAt(PaymentOrder, PaymentCheck(p), fld);
    assert fld in PaymentOrder by {
      match fld
      case CardName => assert PaymentOrder[0] == fld;
      case CardNumber => assert PaymentOrder[1] == fld;
      case ExpiryMonth => assert PaymentOrder[2] == fld;
      case ExpiryYear => assert PaymentOrder[3] == fld;
      case Cvv => assert PaymentOrder[4] == fld;
    }
  }

  /** For a card method each field's error condition; there is no range
      check on the month or the year. */
  lemma CardPaymentErrorsAt(p: PaymentForm)
    requires IsCardMethod(p.paymentMethod)
    ensures CardName in PaymentErrors(p) <==> p.cardName == ""
    ensures CardNumber in PaymentErrors(p) <==> p.cardNumber == "" || |p.cardNumber| != 16
    ensures ExpiryMonth in PaymentErrors(p) <==> p.expiryMonth == ""
    ensures ExpiryYear in PaymentErrors(p) <==> p.expiryYear == ""
    ensures Cvv in PaymentErrors(p) <==> p.cvv == "" || |p.cvv| != 3
    ensures PaymentErrors(p) == map[] <==>
              p.cardName != "" && |p.cardNumber| == 16 && p.expiryMonth != ""
              && p.expiryYear != "" && |p.cvv| == 3
  {
    forall fld: PaymentField
      ensures fld in PaymentErrors(p) <==> PaymentFieldError(p, fld).Some?
    {
      PaymentErrorsAt(p, fld);
    }
  }

  /** A method whose name does not contain "card" is never rejected,
      whatever the card fields hold. */
  lemma NonCardPaymentAccepted(p: PaymentForm)
    requires !IsCardMethod(p.paymentMethod)
    ensures PaymentErrors(p) == map[]
  {
    forall fld: PaymentField
      ensures fld !in PaymentErrors(p)
    {
      PaymentErrorsAt(p, fld);
    }
  }

  /** "paypal" does not contain "card", so a PayPal payment always passes. */
  lemma PaypalAccepted(p: PaymentForm)
    requires p.paymentMethod == "paypal"
    ensures PaymentErrors(p) == map[]
  {
    forall k | 0 <= k <= |p.paymentMethod| - 4
      ensures !OccursAt(p.paymentMethod, "card", k)
    {
      assert p.paymentMethod[k..k + 4][0] == p.paymentMethod[k] != 'c';
    }
    NonCardPaymentAccepted(p);
  }

  lemma CreditCardIsCardMethod()
    ensures IsCardMethod("credit-card")
    ensures IsCardMethod("debit-card")
  {
    assert OccursAt("credit-card", "card", 7);
    assert OccursAt("debit-card", "card", 6);
  }

  /** Passing `validatePaymentForm` implies passing `isPaymentValid`. */
  lemma ValidatedPaymentIsValid(p: PaymentForm)
    requires PaymentErrors(p) == map[]
    ensures IsPaymentValid(p)
  {
    if p.paymentMethod == "credit-card" {
      CreditCardIsCardMethod();
      CardPaymentErrorsAt(p);
    }
  }

  /** For "credit-card" the two checks agree. */
  lemma CreditCardChecksAgree(p: PaymentForm)
    requires p.paymentMethod == "credit-card"
    ensures PaymentErrors(p) == map[] <==> IsPaymentValid(p)
  {
    CreditCardIsCardMethod();
    CardPaymentErrorsAt(p);
  }

  /** For "debit-card" `isPaymentValid` holds even with the card fields
      empty, while `validatePaymentForm` reports all five of them. */
  lemma DebitCardChecksDisagree()
    ensures IsPaymentValid(InitialPayment().(paymentMethod := "debit-card"))
    ensures PaymentErrors(InitialPayment().(paymentMethod := "debit-card")).Keys == AllPaymentFields
  {
    var p := InitialPayment().(paymentMethod := "debit-card");
    CreditCardIsCardMethod();
    AllPaymentFieldsComplete();
    forall fld: PaymentField
      ensures fld in PaymentErrors(p)
    {
      PaymentErrorsAt(p, fld);
    }
  }

  /** A complete credit-card entry passes; a six-digit card number is
      rejected for its length alone. */
  lemma CardExamples()
    ensures PaymentErrors(PaymentForm("Jane Doe", "4111111111111111", "12", "29", "123",
                                      "credit-card")) == map[]
    ensures PaymentErrors(PaymentForm("Jane Doe", "411111", "12", "29", "123", "credit-card"))
            == map[CardNumber := "Card number must be 16 digits"]
  {
    CreditCardIsCardMethod();
    var good := PaymentForm("Jane Doe", "4111111111111111", "12", "29", "123", "credit-card");
    var bad := PaymentForm("Jane Doe", "411111", "12", "29", "123", "credit-card");
    forall fld: PaymentField
      ensures fld !in PaymentErrors(good)
      ensures fld in PaymentErrors(bad) <==> fld == CardNumber
    {
      PaymentErrorsAt(good, fld);
      PaymentErrorsAt(bad, fld);
    }
    PaymentErrorsAt(bad, CardNumber);
    assert PaymentErrors(bad).Keys == {CardNumber};
  }

  // ---------------------------------------------------------------------
  // Sanitisers of the card inputs: `value.replace(/\D/g, "").slice(0, cap)`

  const CardNumberCap: nat := 16
  const ExpiryMonthCap: nat := 2
  const ExpiryYearCap: nat := 2
  const CvvCap: nat := 3

  /** `replace(/\D/g, "")`: the digits of `s`, in order. */
  function DigitsOnly(s: string): (r: string)
    ensures AllDigits(r)
    ensures forall c :: c in r <==> c in s && IsDigit(c)
    ensures multiset(r) <= multiset(s)
    ensures forall c :: multiset(r)[c] == if IsDigit(c) then multiset(s)[c] else 0
  {
    FilterMembership(s, IsDigit);
    FilterSubMultiset(s, IsDigit);
    forall c ensures multiset(Filter(s, IsDigit))[c] == if IsDigit(c) then multiset(s)[c] else 0 {
      FilterCount(s, IsDigit, c);
    }
    Filter(s, IsDigit)
  }

  function Sanitize(raw: string, cap: nat): (r: string)
    ensures AllDigits(r)
    ensures |r| <= cap
    ensures r <= DigitsOnly(raw)
    ensures |r| == if |DigitsOnly(raw)| < cap then |DigitsOnly(raw)| else cap
  {
    Take(DigitsOnly(raw), cap)
  }

  /** A string of digits passes through `DigitsOnly` unchanged. */
  lemma DigitsOnlyOfDigits(s: string)
    requires AllDigits(s)
    ensures DigitsOnly(s) == s
  {
    FilterKeepsAll(s, IsDigit);
  }

  /** Sanitising a sanitised value changes nothing. */
  lemma SanitizeIdempotent(raw: string, cap: nat)
    ensures Sanitize(Sanitize(raw, cap), cap) == Sanitize(raw, cap)
  {
    DigitsOnlyOfDigits(Sanitize(raw, cap));
  }

  /** The values the sanitiser leaves alone are exactly the digit strings
      of at most `cap` characters. */
  lemma SanitizeFixedPoints(s: string, cap: nat)
    ensures Sanitize(s, cap) == s <==> AllDigits(s) && |s| <= cap
  {
    if AllDigits(s) && |s| <= cap {
      DigitsOnlyOfDigits(s);
    }
  }

  /** Digits that follow the first `cap` digits have no effect. */
  lemma SanitizeIgnoresExtraDigits(raw: string, extra: string, cap: nat)
    requires |DigitsOnly(raw)| >= cap
    ensures Sanitize(raw + extra, cap) == Sanitize(raw, cap)
  {
    FilterAppend(raw, extra, IsDigit);
  }
}
