/**
 * js/order.js: the order form's field validator, its submit handler (validate every
 * required field, then send, then fall back), the locally generated order id and
 * the copy kept in localStorage under 'aquaBlueOrders'.
 */
module OrderForm {
  import opened Wrappers
  import opened Decimal
  import opened Json
  import opened JsText
  import opened Browser
  import Server

  // ---------------------------------------------------------------------------
  // validateField

  /** A control passes when it is not required-and-blank, not a malformed e-mail, and not a telephone number of the wrong length. */
  predicate FieldValid(required: bool, kind: string, raw: string) {
    var value := Trim(raw);
    && !(required && value == "")
    && !(kind == "email" && value != "" && !EmailShape(value))
    && !(kind == "tel" && value != "" && |value| != 10)
  }

  /**
   * What the validator accepts, stated on the raw value: a required control needs a
   * character other than white space; a filled e-mail control must match the pattern
   * once trimmed; a filled telephone control must be 10 characters long once trimmed
   * (which characters they are is not checked). A blank optional control always passes.
   */
  lemma FieldValidMeaning(required: bool, kind: string, raw: string)
    ensures FieldValid(required, kind, raw) <==>
      && (required ==> !Blank(raw))
      && (kind == "email" && !Blank(raw) ==> MatchesEmailPattern(Trim(raw)))
      && (kind == "tel" && !Blank(raw) ==> |Trim(raw)| == 10)
    ensures !required && Blank(raw) ==> FieldValid(required, kind, raw)
  {
    TrimEmpty(raw);
    EmailShapeIsPattern(Trim(raw));
  }

  /** validateField: decide, then add or remove the class 'error' accordingly. */
  method ValidateField(field: Field) returns (isValid: bool)
    modifies field
    ensures isValid == FieldOk(field)
    ensures field.hasError == !isValid
  {
    var value := Trim(field.value);
    isValid := true;
    if field.required && value == "" {
      isValid := false;
    }
    if field.kind == "email" && value != "" {
      if !EmailShape(value) {
        isValid := false;
      }
    }
    if field.kind == "tel" && value != "" {
      if |value| != 10 {
        isValid := false;
      }
    }
    if !isValid {
      field.hasError := true;
    } else {
      field.hasError := false;
    }
  }

  /** The validator's verdict on a control as it stands. */
  predicate FieldOk(f: Field) {
    FieldValid(f.required, f.kind, f.value)
  }

  predicate AllRequiredValid(form: seq<Field>) {
    forall k | 0 <= k < |form| :: form[k].required ==> FieldOk(form[k])
  }

  /**
   * The forEach over the required controls: every one is validated and marked, even
   * after an invalid one has been seen; the others are left alone.
   */
  method ValidateRequiredFields(form: seq<Field>) returns (isValid: bool)
    modifies set f | f in form
    ensures isValid <==> AllRequiredValid(form)
    ensures forall k | 0 <= k < |form| :: form[k].required ==> form[k].hasError == !FieldOk(form[k])
    ensures forall k | 0 <= k < |form| :: !form[k].required ==> form[k].hasError == old(form[k].hasError)
  {
    isValid := true;
    for i := 0 to |form|
      invariant isValid <==> forall k | 0 <= k < i :: form[k].required ==> FieldOk(form[k])
      invariant forall k | 0 <= k < i :: form[k].required ==> form[k].hasError == !FieldOk(form[k])
      invariant forall k | 0 <= k < |form| :: !form[k].required ==> form[k].hasError == old(form[k].hasError)
    {
      var field := form[i];
      if field.required {
        var ok := ValidateField(field);
        if !ok {
          isValid := false;
        }
      }
    }
  }

  // ---------------------------------------------------------------------------
  // The request body

  /** The orderData object: FormData values, with email and notes defaulting to ''. */
  datatype OrderData = OrderData(
    name: Option<string>,
    mobile: Option<string>,
    email: string,
    address: Option<string>,
    productType: Option<string>,
    quantity: Option<string>,
    deliveryTime: Option<string>,
    deliveryDate: Option<string>,
    notes: string)

  function CollectOrder(form: seq<Field>): OrderData
  {
    OrderData(
      FormGet(form, "name"), FormGet(form, "mobile"), OrEmpty(FormGet(form, "email")),
      FormGet(form, "address"), FormGet(form, "productType"), FormGet(form, "quantity"),
      FormGet(form, "deliveryTime"), FormGet(form, "deliveryDate"), OrEmpty(FormGet(form, "notes")))
  }

  /** The object create_order receives. */
  function OrderPayload(d: OrderData): Payload {
    map[
      "name" := Encoded(d.name), "mobile" := Encoded(d.mobile), "email" := JStr(d.email),
      "address" := Encoded(d.address), "productType" := Encoded(d.productType),
      "quantity" := Encoded(d.quantity), "deliveryTime" := Encoded(d.deliveryTime),
      "deliveryDate" := Encoded(d.deliveryDate), "notes" := JStr(d.notes)]
  }

  lemma RequiredControlFilled(form: seq<Field>, name: string)
    requires HasRequiredControl(form, name) && AllRequiredValid(form)
    ensures FormGet(form, name).Some? && FormGet(form, name).value != ""
  {
    var c := form[FirstNamed(form, name).value];
    assert FieldOk(c);
  }

  /** Under each key the server requires, `p` holds the FormData value of the control with that name. */
  predicate CarriesForm(p: Payload, form: seq<Field>) {
    && "name" in p && p["name"] == Encoded(FormGet(form, "name"))
    && "mobile" in p && p["mobile"] == Encoded(FormGet(form, "mobile"))
    && "address" in p && p["address"] == Encoded(FormGet(form, "address"))
    && "productType" in p && p["productType"] == Encoded(FormGet(form, "productType"))
    && "quantity" in p && p["quantity"] == Encoded(FormGet(form, "quantity"))
    && "deliveryTime" in p && p["deliveryTime"] == Encoded(FormGet(form, "deliveryTime"))
    && "deliveryDate" in p && p["deliveryDate"] == Encoded(FormGet(form, "deliveryDate"))
  }

  /** The entries of the payload under the keys the server requires. */
  lemma PayloadEntries(d: OrderData)
    ensures && "name" in OrderPayload(d) && "mobile" in OrderPayload(d) && "address" in OrderPayload(d)
            && "productType" in OrderPayload(d) && "quantity" in OrderPayload(d)
            && "deliveryTime" in OrderPayload(d) && "deliveryDate" in OrderPayload(d)
    ensures OrderPayload(d)["name"] == Encoded(d.name)
    ensures OrderPayload(d)["mobile"] == Encoded(d.mobile)
    ensures OrderPayload(d)["address"] == Encoded(d.address)
    ensures OrderPayload(d)["productType"] == Encoded(d.productType)
    ensures OrderPayload(d)["quantity"] == Encoded(d.quantity)
    ensures OrderPayload(d)["deliveryTime"] == Encoded(d.deliveryTime)
    ensures OrderPayload(d)["deliveryDate"] == Encoded(d.deliveryDate)
  {
  }

  lemma PayloadCarriesForm(form: seq<Field>)
    ensures CarriesForm(OrderPayload(CollectOrder(form)), form)
  {
    PayloadEntries(CollectOrder(form));
  }

  /** The entry for the k-th required key is the non-empty value of its required control. */
  lemma RequiredEntry(form: seq<Field>, p: Payload, k: nat)
    requires k < |Server.OrderFields| && CarriesForm(p, form)
    requires HasRequiredControl(form, Server.OrderFields[k]) && AllRequiredValid(form)
    ensures Server.OrderFields[k] in p && p[Server.OrderFields[k]].JStr? && p[Server.OrderFields[k]].s != ""
  {
    var f := Server.OrderFields[k];
    RequiredControlFilled(form, f);
    if k == 0 {
      assert f == "name";
    } else if k == 1 {
      assert f == "mobile";
    } else if k == 2 {
      assert f == "address";
    } else if k == 3 {
      assert f == "productType";
    } else if k == 4 {
      assert f == "quantity";
    } else if k == 5 {
      assert f == "deliveryTime";
    } else {
      assert f == "deliveryDate";
    }
  }

  /**
   * When the form has a required control for each field the server insists on, a
   * request the validator lets through never comes back 400: every such field arrives
   * as a non-empty string.
   */
  lemma ValidatedOrderPassesPresenceCheck(form: seq<Field>)
    requires forall k | 0 <= k < |Server.OrderFields| :: HasRequiredControl(form, Server.OrderFields[k])
    requires AllRequiredValid(form)
    ensures Server.TextPayload(OrderPayload(CollectOrder(form)), Server.OrderFields)
    ensures Server.FirstMissing(OrderPayload(CollectOrder(form)), Server.OrderFields).None?
  {
    var p := OrderPayload(CollectOrder(form));
    PayloadCarriesForm(form);
    forall k | 0 <= k < |Server.OrderFields|
      ensures Server.OrderFields[k] in p && p[Server.OrderFields[k]].JStr? && p[Server.OrderFields[k]].s != ""
    {
      RequiredEntry(form, p, k);
    }
    Server.TextPayloadValid(p, Server.OrderFields);
  }

  // ---------------------------------------------------------------------------
  // generateOrderId

  const OrderIdDigits: nat := 8

  /** 'AQB-' followed by the last 8 characters of Date.now().toString(). */
  function GenerateOrderId(now: TimeValue): string {
    Server.ReferencePrefix + Suffix(IntString(now), OrderIdDigits)
  }

  /**
   * A generated id is the prefix and at most 8 characters; for a clock at or after the
   * epoch they are digits holding the time modulo 10^8, and there are exactly 8 of them
   * once the clock has 8 digits.
   */
  lemma GeneratedIdFormat(now: TimeValue)
    ensures |GenerateOrderId(now)| <= |Server.ReferencePrefix| + OrderIdDigits
    ensures GenerateOrderId(now)[..|Server.ReferencePrefix|] == Server.ReferencePrefix
    ensures now >= 0 ==> AllDigits(GenerateOrderId(now)[|Server.ReferencePrefix|..])
    ensures now >= 0 ==> DigitsValue(GenerateOrderId(now)[|Server.ReferencePrefix|..]) == now % Pow10(OrderIdDigits)
    ensures now >= Pow10(OrderIdDigits - 1) ==> |GenerateOrderId(now)| == |Server.ReferencePrefix| + OrderIdDigits
  {
    var id := GenerateOrderId(now);
    assert id[|Server.ReferencePrefix|..] == Suffix(IntString(now), OrderIdDigits);
    if now >= 0 {
      SuffixValue(now, OrderIdDigits);
      DecimalLength(now, OrderIdDigits - 1);
    }
  }

  /**
   * From 10^7 ms after the epoch on, the fallback id is exactly the reference the server
   * would give an order whose id is the clock modulo 10^8: a customer cannot tell them apart.
   */
  lemma GeneratedIdIsReference(now: TimeValue)
    requires now >= Pow10(OrderIdDigits - 1)
    ensures GenerateOrderId(now) == Server.OrderReference(now % Pow10(OrderIdDigits))
  {
    var n := now % Pow10(OrderIdDigits);
    var tail := Suffix(DecimalString(now), OrderIdDigits);
    GeneratedIdFormat(now);
    SuffixValue(now, OrderIdDigits);
    DecimalLength(n, OrderIdDigits);
    Server.ReferenceFormat(n);
    var digits := Server.OrderReference(n)[|Server.ReferencePrefix|..];
    DigitsInjective(tail, digits);
    assert Server.OrderReference(n) == Server.ReferencePrefix + digits;
  }

  /**
   * Two readings of the clock (after 10^7 ms past the epoch) give the same id exactly when
   * they agree modulo 10^8 ms, about 27.8 hours: readings one millisecond apart differ.
   */
  lemma GeneratedIdsAgree(t1: TimeValue, t2: TimeValue)
    requires t1 >= Pow10(OrderIdDigits - 1) && t2 >= Pow10(OrderIdDigits - 1)
    ensures GenerateOrderId(t1) == GenerateOrderId(t2) <==> t1 % Pow10(OrderIdDigits) == t2 % Pow10(OrderIdDigits)
  {
    GeneratedIdIsReference(t1);
    GeneratedIdIsReference(t2);
    if GenerateOrderId(t1) == GenerateOrderId(t2) {
      Server.ReferenceInjective(t1 % Pow10(OrderIdDigits), t2 % Pow10(OrderIdDigits));
    }
  }

  // ---------------------------------------------------------------------------
  // saveOrderLocally

  /** An entry of 'aquaBlueOrders': the order data, a generated id and an ISO-8601 stamp. */
  datatype SavedOrder = SavedOrder(data: OrderData, orderId: string, timestamp: string)

  /** The list stored under 'aquaBlueOrders' (an absent key reads as the empty list). */
  class OrderStorage {
    var items: seq<SavedOrder>

    constructor ()
      ensures items == []
    {
      items := [];
    }

    /**
     * Read the list, push one entry, write the list back. The id comes from its own
     * reading of the clock; `iso` is new Date().toISOString().
     */
    method SaveOrderLocally(data: OrderData, now: TimeValue, iso: string)
      modifies this
      ensures items == old(items) + [SavedOrder(data, GenerateOrderId(now), iso)]
    {
      var orders := items;
      orders := orders + [SavedOrder(data, GenerateOrderId(now), iso)];
      items := orders;
    }
  }

  // ---------------------------------------------------------------------------
  // The submit handler

  /** Whether the handler ends in its catch block: no response, or an OK response whose body is not JSON or is null. */
  predicate SavesLocally(net: FetchOutcome) {
    net.NetworkError? || (net.ok && net.body.Unparsable?)
  }

  /** The id the success view shows: `result.order_id || generateOrderId()` on an OK response, a generated one otherwise. */
  function ShownOrderId(net: FetchOutcome, now: TimeValue): (id: string)
    ensures id != ""
    ensures net.Response? && net.ok && net.body.Parsed? && net.body.orderId.Some? && net.body.orderId.value != "" ==>
      id == net.body.orderId.value
  {
    if net.Response? && net.ok && net.body.Parsed? && net.body.orderId.Some? && net.body.orderId.value != "" then
      net.body.orderId.value
    else
      GenerateOrderId(now)
  }

  /** A reference the server sends back reaches the success view unchanged. */
  lemma ServerReferenceShown(id: nat, clock: TimeValue)
    ensures ShownOrderId(Response(true, Parsed(Some(Server.OrderReference(id)))), clock) == Server.OrderReference(id)
  {
    Server.ReferenceFormat(id);
  }

  /**
   * The submit handler. `net` is how fetch() ends, `saveClock` and `iso` the clock
   * readings saveOrderLocally takes, `shownClock` the reading behind a displayed
   * generated id. It answers the body it sent (None when validation stopped it) and
   * the id shown in the success view.
   */
  method SubmitOrder(form: seq<Field>, storage: OrderStorage, net: FetchOutcome,
                     saveClock: TimeValue, iso: string, shownClock: TimeValue)
    returns (sent: Option<OrderData>, shownId: Option<string>)
    modifies (set f | f in form), storage
    ensures sent.Some? <==> AllRequiredValid(form)
    ensures sent.Some? ==> sent.value == CollectOrder(form)
    ensures shownId.Some? <==> sent.Some?
    ensures sent.Some? ==> shownId.value == ShownOrderId(net, shownClock)
    ensures storage.items ==
      if sent.Some? && SavesLocally(net) then old(storage.items) + [SavedOrder(sent.value, GenerateOrderId(saveClock), iso)]
      else old(storage.items)
    ensures forall k | 0 <= k < |form| :: form[k].required ==> form[k].hasError == !FieldOk(form[k])
    ensures forall k | 0 <= k < |form| :: !form[k].required ==> form[k].hasError == old(form[k].hasError)
  {
    var orderData := CollectOrder(form);
    var isValid := ValidateRequiredFields(form);
    if !isValid {
      return None, None;
    }
    sent := Some(orderData);
    match net
    case NetworkError =>
      storage.SaveOrderLocally(orderData, saveClock, iso);
      shownId := Some(GenerateOrderId(shownClock));
    case Response(ok, body) =>
      if ok {
        match body
        case Unparsable =>
          storage.SaveOrderLocally(orderData, saveClock, iso);
          shownId := Some(GenerateOrderId(shownClock));
        case Parsed(orderId) =>
          if orderId.Some? && orderId.value != "" {
            shownId := Some(orderId.value);
          } else {
            shownId := Some(GenerateOrderId(shownClock));
          }
      } else {
        shownId := Some(GenerateOrderId(shownClock));
      }
  }
}
