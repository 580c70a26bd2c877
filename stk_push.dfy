/**
 * Preparation of an M-Pesa STK push request (the mpesa_stk_push view): field
 * presence, phone-number normalisation to the Kenyan country code, amount
 * truncation and the minimum-amount check. The provider call itself is not
 * modelled: a request that passes every check ends in `Dispatch` carrying the
 * record that would be handed to the provider.
 */
module StkPush {
  import opened Wrappers
  import opened Text
  import opened PyValue

  /** Kenya's country calling code, which every dispatched number starts with. */
  const CountryCode: string := "254"

  const CallbackUrl: string := "https://mydomain.com/mpesa/callback/"

  /** The decoded JSON body, or the failure to decode it. */
  datatype PushBody = Undecodable | Fields(phone: Value, amount: Value, tenantId: Value)

  datatype PushRequest = PushRequest(isPost: bool, body: PushBody)

  /** The arguments the view hands to the provider client. */
  datatype StkRequest = StkRequest(
    phoneNumber: string,
    amount: int,
    accountReference: string,
    transactionDesc: string,
    callbackUrl: string)

  datatype PushOutcome =
    | MethodNotAllowed
    | MissingFields
    | AmountTooSmall
    | ServerError
    | Dispatch(request: StkRequest)

  /**
   * The HTTP status of the view's response. `Dispatch` stands for a provider
   * call that returned, whose answer is relayed with 200.
   */
  function HttpStatus(out: PushOutcome): (status: int)
    ensures status == 200 <==> out.Dispatch?
    ensures 400 <= status < 600 <==> !out.Dispatch?
  {
    match out
    case MethodNotAllowed => 405
    case MissingFields => 400
    case AmountTooSmall => 400
    case ServerError => 500
    case Dispatch(_) => 200
  }

  /**
   * The subscriber part of a stripped number: what follows the country code
   * in the normalised form. A trunk "0" or a "+" is dropped, and so is a
   * country code that is already there.
   */
  function NationalPart(t: string): (r: string)
    ensures |r| <= |t| && r == t[|t| - |r|..]
  {
    if StartsWith(t, "0") then t[1..]
    else if StartsWith(t, "+") then (if StartsWith(t[1..], CountryCode) then t[4..] else t[1..])
    else if StartsWith(t, CountryCode) then t[3..]
    else t
  }

  /** The normalised form of a phone number: the country code, then the subscriber part. */
  function Normalized(raw: string): string {
    CountryCode + NationalPart(Strip(raw))
  }

  /** The view's step-by-step rewriting of the phone number. */
  method NormalizePhone(raw: string) returns (phone: string)
    ensures phone == Normalized(raw)
    ensures StartsWith(phone, CountryCode)
  {
    phone := Strip(raw);
    ghost var t := phone;
    if StartsWith(phone, "0") {
      phone := CountryCode + phone[1..];
    } else if StartsWith(phone, "+") {
      phone := phone[1..];
      if StartsWith(phone, CountryCode) {
        SplitPrefix(phone, CountryCode);
      }
    } else if StartsWith(phone, CountryCode) {
      SplitPrefix(phone, CountryCode);
    }
    assert StartsWith(phone, CountryCode) ==> phone == CountryCode + NationalPart(t);
    if !StartsWith(phone, CountryCode) {
      phone := CountryCode + phone;
    }
  }

  /**
   * The view's checks in order: POST only, a decodable body, all three fields
   * truthy, a convertible amount, an amount of at least 1; then the request
   * with the normalised number, the truncated amount and the account
   * reference and description built from the tenant id.
   */
  method PreparePush(req: PushRequest) returns (out: PushOutcome)
    ensures out == MethodNotAllowed <==> !req.isPost
    ensures req.isPost && req.body.Undecodable? ==> out == ServerError
    ensures out == MissingFields <==>
      req.isPost && req.body.Fields? &&
      !(Truthy(req.body.phone) && Truthy(req.body.amount) && Truthy(req.body.tenantId))
    ensures out == ServerError && req.body.Fields? ==> WholeNumber(req.body.amount).None?
    ensures out == AmountTooSmall <==>
      req.isPost && req.body.Fields? &&
      Truthy(req.body.phone) && Truthy(req.body.amount) && Truthy(req.body.tenantId) &&
      WholeNumber(req.body.amount).Some? && WholeNumber(req.body.amount).value < 1
    ensures out.Dispatch? <==>
      req.isPost && req.body.Fields? &&
      Truthy(req.body.phone) && Truthy(req.body.amount) && Truthy(req.body.tenantId) &&
      WholeNumber(req.body.amount).Some? && WholeNumber(req.body.amount).value >= 1
    ensures out.Dispatch? ==>
      var id := PyStr(req.body.tenantId);
      out.request == StkRequest(
        Normalized(PyStr(req.body.phone)),
        WholeNumber(req.body.amount).value,
        "RENT-" + id,
        "Rent Payment for Tenant " + id,
        CallbackUrl)
  {
    if !req.isPost {
      return MethodNotAllowed;
    }
    match req.body
    case Undecodable =>
      return ServerError;
    case Fields(phoneValue, amountValue, tenantId) =>
      if !(Truthy(phoneValue) && Truthy(amountValue) && Truthy(tenantId)) {
        return MissingFields;
      }
      var phone := NormalizePhone(PyStr(phoneValue));
      var amount := WholeNumber(amountValue);
      if amount.None? {
        return ServerError;
      }
      if amount.value < 1 {
        return AmountTooSmall;
      }
      var id := PyStr(tenantId);
      out := Dispatch(StkRequest(phone, amount.value, "RENT-" + id, "Rent Payment for Tenant " + id, CallbackUrl));
  }

  /** Whatever the input, a normalised number has no surrounding whitespace. */
  lemma NormalizedTrimmed(raw: string)
    ensures Trimmed(Normalized(raw))
  {
    CountryCodeBeforeSuffix(Strip(raw), NationalPart(Strip(raw)));
  }

  /** The country code followed by the end of a stripped string has no surrounding whitespace. */
  lemma CountryCodeBeforeSuffix(t: string, p: string)
    requires Trimmed(t) && |p| <= |t| && p == t[|t| - |p|..]
    ensures Trimmed(CountryCode + p)
  {
    var n := CountryCode + p;
    assert n[0] == '2';
    if p == [] {
      assert n[|n| - 1] == '4';
    } else {
      assert n[|n| - 1] == t[|t| - 1];
    }
  }

  /** A number that is stripped and already starts with the country code is left as it is. */
  lemma {:induction false} NormalizedFixesNormal(s: string)
    requires Trimmed(s) && StartsWith(s, CountryCode)
    ensures Normalized(s) == s
  {
    StripTrimmed(s);
    SplitPrefix(s, CountryCode);
    assert !StartsWith(s, "0") && !StartsWith(s, "+");
    assert NationalPart(s) == s[3..];
  }

  /** Normalising twice is normalising once. */
  lemma NormalizeIdempotent(raw: string)
    ensures Normalized(Normalized(raw)) == Normalized(raw)
  {
    NormalizedTrimmed(raw);
    NormalizedFixesNormal(Normalized(raw));
  }

  /** A local number with the trunk "0" gets the country code in place of the "0". */
  lemma TrunkZeroReplaced(raw: string)
    requires StartsWith(Strip(raw), "0")
    ensures Normalized(raw) == CountryCode + Strip(raw)[1..]
  {
  }

  /** A leading "+" is dropped, and the country code is added only when it is missing. */
  lemma PlusDropped(raw: string)
    requires StartsWith(Strip(raw), "+")
    ensures var rest := Strip(raw)[1..];
      Normalized(raw) == if StartsWith(rest, CountryCode) then rest else CountryCode + rest
  {
    var rest := Strip(raw)[1..];
    if StartsWith(rest, CountryCode) {
      SplitPrefix(rest, CountryCode);
    }
  }

  /** The local form of a number gets the country code in place of the trunk "0". */
  lemma LocalFormExample()
    ensures Normalized("0712345678") == "254712345678"
  {
    var s := "0712345678";
    StripTrimmed(s);
    assert StartsWith(s, "0");
    assert NationalPart(s) == s[1..];
  }

  /** The international form loses its "+". */
  lemma InternationalFormExample()
    ensures Normalized("+254712345678") == "254712345678"
  {
    var s := "+254712345678";
    StripTrimmed(s);
    assert !StartsWith(s, "0") && StartsWith(s, "+") && StartsWith(s[1..], CountryCode);
    assert NationalPart(s) == s[4..];
  }

  /** A bare subscriber number gets the country code in front. */
  lemma BareFormExample()
    ensures Normalized("712345678") == "254712345678"
  {
    var s := "712345678";
    StripTrimmed(s);
    assert !StartsWith(s, "0") && !StartsWith(s, "+") && !StartsWith(s, CountryCode);
  }
}
