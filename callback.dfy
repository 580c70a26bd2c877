/**
 * The M-Pesa result callback (the mpesa_callback view). On ResultCode 0 the
 * handler reads Amount, MpesaReceiptNumber and PhoneNumber from the metadata
 * items (the last item of each name wins), takes the first tenant, in tenant
 * order, whose phone ends with the last nine characters of the payer's number,
 * and, when there is such a tenant and a truthy amount, appends one completed
 * rent payment to the ledger. Every POST is acknowledged; only an exception
 * turns the acknowledgement's ResultCode into 1. The result code is compared
 * with Python's `==`, under which False also equals 0.
 */
module Callback {
  import opened Wrappers
  import opened Text
  import opened PyValue
  import opened Models
  import Store

  /** One entry of CallbackMetadata.Item; a missing Name or Value reads as Null. */
  datatype Item = Item(name: Value, value: Value)

  /**
   * The decoded request body, reduced to the fields of Body.stkCallback (Null
   * where a key is absent, no items where CallbackMetadata is absent), or the
   * exception raised while decoding it or walking into it.
   */
  datatype CallbackBody =
    | Unreadable(error: string)
    | Envelope(resultCode: Value, resultDesc: Value, checkoutRequestId: Value, items: seq<Item>)

  datatype CallbackRequest = CallbackRequest(isPost: bool, body: CallbackBody)

  /**
   * Success is {"ResultCode": 0, "ResultDesc": "Success"}; Failure is
   * {"ResultCode": 1, "ResultDesc": str(e)}; InvalidRequest is the 400 answer
   * to anything but POST.
   */
  datatype CallbackResponse = Success | Failure(reason: string) | InvalidRequest

  function ResultCode(r: CallbackResponse): (code: int)
    requires !r.InvalidRequest?
    ensures code == 0 <==> r == Success
    ensures r.Failure? ==> code == 1
  {
    if r == Success then 0 else 1
  }

  function HttpStatus(r: CallbackResponse): (status: int)
    ensures status == 400 <==> r == InvalidRequest
    ensures r != InvalidRequest ==> status == 200
  {
    if r == InvalidRequest then 400 else 200
  }

  /** How many characters of the payer's number must match the end of a tenant's phone. */
  const MatchLength: nat := 9

  /** Text of the exception raised when a truthy amount is not a number. */
  const InvalidAmountMessage: string := "value must be a decimal number."

  /** The position of the last item named `name`. */
  function LastNamed(items: seq<Item>, name: string): (r: Option<nat>)
    ensures r.Some? ==> r.value < |items| && items[r.value].name == Str(name)
    ensures r.Some? ==> forall k | r.value < k < |items| :: items[k].name != Str(name)
    ensures r.None? <==> forall k | 0 <= k < |items| :: items[k].name != Str(name)
  {
    if items == [] then None
    else if items[|items| - 1].name == Str(name) then Some(|items| - 1)
    else LastNamed(items[..|items| - 1], name)
  }

  /** The value the metadata gives `name`: that of its last item, or Null when no item has the name. */
  function Lookup(items: seq<Item>, name: string): Value {
    match LastNamed(items, name)
    case None => Null
    case Some(k) => items[k].value
  }

  /** A later item with the same name overrides every earlier one. */
  lemma LastOneWins(items: seq<Item>, name: string, v: Value)
    ensures Lookup(items + [Item(Str(name), v)], name) == v
  {
  }

  /** An item with another name does not change what a name reads as. */
  lemma OtherNamesIgnored(items: seq<Item>, name: string, other: Value, v: Value)
    requires other != Str(name)
    ensures Lookup(items + [Item(other, v)], name) == Lookup(items, name)
  {
    assert (items + [Item(other, v)])[..|items|] == items;
  }

  /** Lookup is determined by the last item of the name, wherever it is. */
  lemma {:induction false} LookupIsLastItem(items: seq<Item>, name: string, k: nat)
    requires k < |items| && items[k].name == Str(name)
    requires forall j | k < j < |items| :: items[j].name != Str(name)
    ensures Lookup(items, name) == items[k].value
  {
    if k < |items| - 1 {
      LookupIsLastItem(items[..|items| - 1], name, k);
    }
  }

  /** The loop of the view over the metadata items. */
  method ScanMetadata(items: seq<Item>) returns (amount: Value, receipt: Value, phone: Value)
    ensures amount == Lookup(items, "Amount")
    ensures receipt == Lookup(items, "MpesaReceiptNumber")
    ensures phone == Lookup(items, "PhoneNumber")
  {
    amount, receipt, phone := Null, Null, Null;
    var i := 0;
    while i < |items|
      invariant 0 <= i <= |items|
      invariant amount == Lookup(items[..i], "Amount")
      invariant receipt == Lookup(items[..i], "MpesaReceiptNumber")
      invariant phone == Lookup(items[..i], "PhoneNumber")
    {
      var item := items[i];
      assert items[..i + 1][..i] == items[..i];
      if item.name == Str("Amount") {
        amount := item.value;
      } else if item.name == Str("MpesaReceiptNumber") {
        receipt := item.value;
      } else if item.name == Str("PhoneNumber") {
        phone := item.value;
      }
      i := i + 1;
    }
    assert items[..i] == items;
  }

  /** `Tenant.objects.filter(phone__endswith=suffix)`. */
  predicate PhoneMatches(t: Tenant, suffix: string) {
    EndsWith(t.phone, suffix)
  }

  /**
   * `.first()` of the matching tenants under the tenant ordering: the match
   * that no other match precedes; among matches with equal names, the one
   * stored first.
   */
  function FirstMatch(ts: seq<Tenant>, suffix: string): (r: Option<nat>)
    ensures r.Some? ==> r.value < |ts| && PhoneMatches(ts[r.value], suffix)
    ensures r.None? <==> forall i | 0 <= i < |ts| :: !PhoneMatches(ts[i], suffix)
  {
    if ts == [] then None
    else
      var prev := FirstMatch(ts[..|ts| - 1], suffix);
      var last := |ts| - 1;
      if PhoneMatches(ts[last], suffix) && (prev.None? || TenantBefore(ts[last], ts[prev.value])) then Some(last)
      else prev
  }

  /** The chosen tenant comes first in tenant order among all matches, and ties go to the earliest stored. */
  lemma {:induction false} FirstMatchIsFirstInOrder(ts: seq<Tenant>, suffix: string)
    requires FirstMatch(ts, suffix).Some?
    ensures var m := FirstMatch(ts, suffix).value;
      && (forall i | 0 <= i < |ts| && PhoneMatches(ts[i], suffix) :: !TenantBefore(ts[i], ts[m]))
      && (forall i | 0 <= i < m && PhoneMatches(ts[i], suffix) :: TenantBefore(ts[m], ts[i]))
  {
    var init := ts[..|ts| - 1];
    var prev := FirstMatch(init, suffix);
    var last := |ts| - 1;
    var m := FirstMatch(ts, suffix).value;
    assert forall i | 0 <= i < last :: ts[i] == init[i];
    if prev.Some? {
      FirstMatchIsFirstInOrder(init, suffix);
    }
    if m == last {
      forall i | 0 <= i < |ts| && PhoneMatches(ts[i], suffix)
        ensures !TenantBefore(ts[i], ts[m]) && (i < m ==> TenantBefore(ts[m], ts[i]))
      {
        TenantOrder(ts[m], ts[m], ts[m]);
        if i < last {
          BeatsPrevious(ts[i], ts[m], ts[prev.value]);
        }
      }
    } else {
      assert prev == Some(m);
      forall i | 0 <= i < |ts| && PhoneMatches(ts[i], suffix)
        ensures !TenantBefore(ts[i], ts[m]) && (i < m ==> TenantBefore(ts[m], ts[i]))
      {
      }
    }
  }

  /**
   * A new match `m` ordered before the previous first match `p` also comes
   * strictly before every match `a` that `p` was not preceded by.
   */
  lemma BeatsPrevious(a: Tenant, m: Tenant, p: Tenant)
    requires TenantBefore(m, p) && !TenantBefore(a, p)
    ensures !TenantBefore(a, m) && TenantBefore(m, a)
  {
    TenantOrder(a, m, p);
    TenantOrder(m, a, p);
  }

  /** What a readable callback does to the ledger. */
  datatype Effect = NoEntry | Entry(payment: Payment) | Raised(error: string)

  /**
   * The effect of a readable callback on a store with these tenants, as a
   * function of the decoded fields: the metadata values are the last of their
   * name, the tenant is FirstMatch on the last nine characters of str(phone),
   * and the amount (whole currency units) is stored in hundredths.
   */
  function CallbackEffect(ts: seq<Tenant>, body: CallbackBody, today: int): (e: Effect)
    requires body.Envelope?
    ensures e.Entry? ==> e.payment.tenantId in Store.TenantIds(ts)
  {
    if !EqualsZero(body.resultCode) then NoEntry
    else
      var amount := Lookup(body.items, "Amount");
      var receipt := Lookup(body.items, "MpesaReceiptNumber");
      var phone := Lookup(body.items, "PhoneNumber");
      match FirstMatch(ts, LastN(PyStr(phone), MatchLength))
      case None => NoEntry
      case Some(i) =>
        if !Truthy(amount) then NoEntry
        else match WholeNumber(amount)
          case None => Raised(InvalidAmountMessage)
          case Some(n) =>
            Entry(Payment(
              ts[i].id,
              n * 100,
              Rent,
              Mpesa,
              today,
              if Truthy(receipt) then PyStr(receipt) else "",
              "M-Pesa payment - " + PyStr(body.checkoutRequestId),
              Completed))
  }

  /** The view's work on a readable body, computed step by step as the view does. */
  method DecideEffect(ts: seq<Tenant>, body: CallbackBody, today: int) returns (e: Effect)
    requires body.Envelope?
    ensures e == CallbackEffect(ts, body, today)
  {
    if !EqualsZero(body.resultCode) {
      return NoEntry;
    }
    var amount, receipt, phone := ScanMetadata(body.items);
    var suffix := LastN(PyStr(phone), MatchLength);
    var tenant := FirstMatch(ts, suffix);
    if tenant.None? || !Truthy(amount) {
      return NoEntry;
    }
    var t := ts[tenant.value];
    var n := WholeNumber(amount);
    if n.None? {
      return Raised(InvalidAmountMessage);
    }
    var reference := if Truthy(receipt) then PyStr(receipt) else "";
    e := Entry(Payment(t.id, n.value * 100, Rent, Mpesa, today, reference,
                       "M-Pesa payment - " + PyStr(body.checkoutRequestId), Completed));
  }

  /**
   * The handler. Only the ledger may change, by at most one appended
   * payment, and exactly as CallbackEffect says.
   */
  method HandleCallback(store: Store.Store, req: CallbackRequest, today: int) returns (resp: CallbackResponse)
    requires store.Valid()
    modifies store`payments
    ensures store.Valid()
    ensures store.properties == old(store.properties) && store.units == old(store.units)
    ensures store.tenants == old(store.tenants)
    ensures !req.isPost ==> resp == InvalidRequest && store.payments == old(store.payments)
    ensures req.isPost && req.body.Unreadable? ==>
      resp == Failure(req.body.error) && store.payments == old(store.payments)
    ensures req.isPost && req.body.Envelope? ==> Acknowledged(CallbackEffect(old(store.tenants), req.body, today), resp, old(store.payments), store.payments)
  {
    if !req.isPost {
      return InvalidRequest;
    }
    if req.body.Unreadable? {
      return Failure(req.body.error);
    }
    resp := ApplyEffect(store, req.body, today);
  }

  /** How the response and the new ledger follow from an effect. */
  predicate Acknowledged(e: Effect, resp: CallbackResponse, before: seq<Payment>, after: seq<Payment>) {
    match e
    case NoEntry => resp == Success && after == before
    case Entry(p) => resp == Success && after == before + [p]
    case Raised(msg) => resp == Failure(msg) && after == before
  }

  /** The handling of a readable envelope: decide the effect, then write it. */
  method ApplyEffect(store: Store.Store, body: CallbackBody, today: int) returns (resp: CallbackResponse)
    requires store.Valid() && body.Envelope?
    modifies store`payments
    ensures store.Valid()
    ensures Acknowledged(CallbackEffect(store.tenants, body, today), resp, old(store.payments), store.payments)
  {
    var e := DecideEffect(store.tenants, body, today);
    match e
    case NoEntry =>
      resp := Success;
    case Entry(p) =>
      store.AddPayment(p);
      resp := Success;
    case Raised(msg) =>
      resp := Failure(msg);
  }

  /** A payment is written exactly when the result code is 0, a tenant matches and the amount is truthy and a number. */
  lemma EntryExactlyWhen(ts: seq<Tenant>, body: CallbackBody, today: int)
    requires body.Envelope?
    ensures var amount := Lookup(body.items, "Amount");
      var suffix := LastN(PyStr(Lookup(body.items, "PhoneNumber")), MatchLength);
      CallbackEffect(ts, body, today).Entry? <==>
        && EqualsZero(body.resultCode)
        && (exists i | 0 <= i < |ts| :: PhoneMatches(ts[i], suffix))
        && Truthy(amount)
        && WholeNumber(amount).Some?
  {
  }

  /**
   * The written payment: a completed M-Pesa rent payment dated today, for the
   * first tenant in order whose phone ends with the payer number's last nine
   * characters, with the receipt (or "") as reference and the checkout
   * request id in the description.
   */
  lemma EntryDescribesPayment(ts: seq<Tenant>, body: CallbackBody, today: int)
    requires body.Envelope? && CallbackEffect(ts, body, today).Entry?
    ensures var p := CallbackEffect(ts, body, today).payment;
      var phone := PyStr(Lookup(body.items, "PhoneNumber"));
      var receipt := Lookup(body.items, "MpesaReceiptNumber");
      && p.paymentType == Rent && p.paymentMethod == Mpesa && p.status == Completed
      && p.paymentDate == today
      && p.amount == 100 * WholeNumber(Lookup(body.items, "Amount")).value
      && p.referenceNumber == (if Truthy(receipt) then PyStr(receipt) else "")
      && p.description == "M-Pesa payment - " + PyStr(body.checkoutRequestId)
      && exists i | 0 <= i < |ts| ::
           && ts[i].id == p.tenantId
           && EndsWith(ts[i].phone, LastN(phone, MatchLength))
           && (forall j | 0 <= j < |ts| && PhoneMatches(ts[j], LastN(phone, MatchLength)) :: !TenantBefore(ts[j], ts[i]))
  {
    var suffix := LastN(PyStr(Lookup(body.items, "PhoneNumber")), MatchLength);
    var m := FirstMatch(ts, suffix).value;
    var amount := Lookup(body.items, "Amount");
    var receipt := Lookup(body.items, "MpesaReceiptNumber");
    assert CallbackEffect(ts, body, today).payment ==
      Payment(ts[m].id, WholeNumber(amount).value * 100, Rent, Mpesa, today,
              if Truthy(receipt) then PyStr(receipt) else "",
              "M-Pesa payment - " + PyStr(body.checkoutRequestId), Completed);
    FirstMatchIsFirstInOrder(ts, suffix);
    assert EndsWith(ts[m].phone, suffix);
  }

  /** A callback without metadata items, or with a non-zero result code, writes nothing. */
  lemma NothingWithoutSuccessOrMetadata(ts: seq<Tenant>, body: CallbackBody, today: int)
    requires body.Envelope? && (!EqualsZero(body.resultCode) || body.items == [])
    ensures CallbackEffect(ts, body, today) == NoEntry
  {
  }

  /**
   * The handler keeps no record of the checkout requests it has seen: the
   * same callback delivered twice writes the same payment twice.
   */
  method DeliveredTwice(store: Store.Store, req: CallbackRequest, today: int)
    requires store.Valid() && req.isPost && req.body.Envelope?
    requires CallbackEffect(store.tenants, req.body, today).Entry?
    modifies store`payments
    ensures var p := CallbackEffect(old(store.tenants), req.body, today).payment;
      store.payments == old(store.payments) + [p, p]
  {
    var first := HandleCallback(store, req, today);
    var second := HandleCallback(store, req, today);
  }

  /**
   * A successful payment of 1500 from 254712345678 for the tenant whose phone
   * is stored as 0712345678: one completed M-Pesa rent payment of 1500.00,
   * described by the checkout request id.
   */
  lemma SuccessfulPaymentExample(t: Tenant, payer: Value, checkoutId: string, today: int)
    requires t.phone == "0712345678" && payer == Int(254712345678)
    ensures CallbackEffect([t], Envelope(Int(0), Str("ok"), Str(checkoutId), ExampleItems(payer)), today) ==
        Entry(Payment(t.id, 150000, Rent, Mpesa, today, "QKX1", "M-Pesa payment - " + checkoutId, Completed))
  {
    var body := Envelope(Int(0), Str("ok"), Str(checkoutId), ExampleItems(payer));
    ExampleLookups(payer);
    ExampleMatch(t, payer);
    EffectOfMatch([t], body, today, 0, 1500);
    assert Truthy(Str("QKX1")) && PyStr(Str("QKX1")) == "QKX1";
  }

  /** The tenant stored as 0712345678 is the one matched for the payer 254712345678. */
  lemma ExampleMatch(t: Tenant, payer: Value)
    requires t.phone == "0712345678" && payer == Int(254712345678)
    ensures FirstMatch([t], LastN(PyStr(payer), MatchLength)) == Some(0)
  {
    PayerNumberText(payer);
    var suffix := LastN(PyStr(payer), MatchLength);
    assert suffix == "712345678";
    assert EndsWith(t.phone, suffix);
    assert [t][..0] == [];
  }

  /** Metadata of a completed payment of 1500 with receipt QKX1 from `payer`. */
  function ExampleItems(payer: Value): seq<Item> {
    [Item(Str("Amount"), Int(1500)),
     Item(Str("MpesaReceiptNumber"), Str("QKX1")),
     Item(Str("PhoneNumber"), payer)]
  }

  /** What the view reads from ExampleItems. */
  lemma ExampleLookups(payer: Value)
    ensures Lookup(ExampleItems(payer), "PhoneNumber") == payer
    ensures Lookup(ExampleItems(payer), "MpesaReceiptNumber") == Str("QKX1")
    ensures Lookup(ExampleItems(payer), "Amount") == Int(1500)
  {
    var items := ExampleItems(payer);
    LookupIsLastItem(items, "PhoneNumber", 2);
    LookupIsLastItem(items, "MpesaReceiptNumber", 1);
    LookupIsLastItem(items, "Amount", 0);
  }

  /** The effect of a successful callback whose payer matches tenant i and whose amount is the number n. */
  lemma EffectOfMatch(ts: seq<Tenant>, body: CallbackBody, today: int, i: nat, n: int)
    requires body.Envelope? && EqualsZero(body.resultCode)
    requires FirstMatch(ts, LastN(PyStr(Lookup(body.items, "PhoneNumber")), MatchLength)) == Some(i)
    requires Lookup(body.items, "Amount") == Int(n) && n != 0
    ensures var receipt := Lookup(body.items, "MpesaReceiptNumber");
      CallbackEffect(ts, body, today) ==
        Entry(Payment(ts[i].id, n * 100, Rent, Mpesa, today,
                      if Truthy(receipt) then PyStr(receipt) else "",
                      "M-Pesa payment - " + PyStr(body.checkoutRequestId), Completed))
  {
  }

  /** str() of the payer number as the callback sends it. */
  lemma PayerNumberText(payer: Value)
    requires payer == Int(254712345678)
    ensures PyStr(payer) == "254712345678"
  {
    assert NatToDecimal(25) == "25";
    assert NatToDecimal(254) == "254";
    assert NatToDecimal(2547) == "2547";
    assert NatToDecimal(25471) == "25471";
    assert NatToDecimal(254712) == "254712";
    assert NatToDecimal(2547123) == "2547123";
    assert NatToDecimal(25471234) == "25471234";
    assert NatToDecimal(254712345) == "254712345";
    assert NatToDecimal(2547123456) == "2547123456";
    assert NatToDecimal(25471234567) == "25471234567";
  }
}
