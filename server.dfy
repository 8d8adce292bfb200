/**
 * The request handlers of app.py over an in-memory model of the two SQLite tables:
 * POST /api/orders (create_order), POST /api/contact (create_contact), GET /admin
 * (admin) and GET /api/orders (get_orders).
 *
 * The clock behind CURRENT_TIMESTAMP is the `now` argument of each insert; the store
 * asks that it never run backwards, so creation stamps grow with insertion order.
 */
module Server {
  import opened Wrappers
  import opened Decimal
  import opened Json
  import opened Notify

  /** A row of the orders table. */
  datatype Order = Order(
    id: nat,
    name: SqlValue,
    mobile: SqlValue,
    email: SqlValue,
    address: SqlValue,
    productType: SqlValue,
    quantity: int,
    deliveryTime: SqlValue,
    deliveryDate: SqlValue,
    notes: SqlValue,
    status: string,
    createdAt: nat)

  /** A row of the contact_messages table. */
  datatype ContactMessage = ContactMessage(
    id: nat,
    name: SqlValue,
    email: SqlValue,
    phone: SqlValue,
    subject: SqlValue,
    message: SqlValue,
    createdAt: nat)

  /** One element of the GET /api/orders array: every column of the row except notes. */
  datatype OrderView = OrderView(
    id: nat,
    name: SqlValue,
    mobile: SqlValue,
    email: SqlValue,
    address: SqlValue,
    productType: SqlValue,
    quantity: int,
    deliveryTime: SqlValue,
    deliveryDate: SqlValue,
    status: string,
    createdAt: nat)

  /** What a POST handler answers. */
  datatype Reply =
    | OrderPlaced(orderId: string)  // 201 {success, message: 'Order placed successfully', order_id}
    | MessageSent                   // 201 {success, message: 'Message sent successfully'}
    | MissingField(field: string)   // 400 {error: 'Missing required field: <field>'}
    | ServerError(fault: Fault)     // 500 {error: str(e)}

  const DefaultStatus: string := "pending"
  const ReferencePrefix: string := "AQB-"
  const ReferenceWidth: nat := 8
  const ListingLimit: nat := 50

  /** The required keys of an order payload, in the order they are checked. */
  const OrderFields: seq<string> :=
    ["name", "mobile", "address", "productType", "quantity", "deliveryTime", "deliveryDate"]

  /** The required keys of a contact payload, in the order they are checked. */
  const ContactFields: seq<string> := ["name", "email", "phone", "subject", "message"]

  function StatusCode(r: Reply): (code: int)
    ensures code == 201 <==> r.OrderPlaced? || r.MessageSent?
    ensures code == 400 <==> r.MissingField?
    ensures code == 500 <==> r.ServerError?
  {
    match r
    case OrderPlaced(_) => 201
    case MessageSent => 201
    case MissingField(_) => 400
    case ServerError(_) => 500
  }

  /** The body of a 400: `{"error": "Missing required field: <field>"}`. */
  function MissingFieldBody(field: string): Json {
    JObject(map["error" := JStr("Missing required field: " + field)])
  }

  /** The JSON body of a reply; the text of a server error (str(e)) is not modelled. */
  function ReplyBody(r: Reply): Json
    requires !r.ServerError?
  {
    match r
    case OrderPlaced(ref) =>
      JObject(map["success" := JBool(true), "message" := JStr("Order placed successfully"), "order_id" := JStr(ref)])
    case MessageSent =>
      JObject(map["success" := JBool(true), "message" := JStr("Message sent successfully")])
    case MissingField(f) => MissingFieldBody(f)
  }

  // ---------------------------------------------------------------------------
  // Validation of required fields

  /** The first field, in list order, that is absent or falsy in the payload. */
  function FirstMissing(data: Payload, fields: seq<string>): (r: Option<string>)
    ensures r.Some? ==> r.value in fields && !Present(data, r.value)
    ensures r.None? <==> forall k | 0 <= k < |fields| :: Present(data, fields[k])
    ensures r.None? ==> forall f | f in fields :: f in data
  {
    if fields == [] then None
    else if !Present(data, fields[0]) then Some(fields[0])
    else FirstMissing(data, fields[1..])
  }

  /** The field FirstMissing names is the first one missing: every field before it is present. */
  lemma {:induction false} FirstMissingIsFirst(data: Payload, fields: seq<string>, k: nat)
    requires k < |fields| && !Present(data, fields[k])
    requires forall j | 0 <= j < k :: Present(data, fields[j])
    ensures FirstMissing(data, fields) == Some(fields[k])
  {
    if k > 0 {
      assert Present(data, fields[0]);
      FirstMissingIsFirst(data, fields[1..], k - 1);
    }
  }

  /** Every key the orders INSERT reads with data[...]. */
  predicate HasOrderKeys(data: Payload) {
    && "name" in data && "mobile" in data && "address" in data && "productType" in data
    && "quantity" in data && "deliveryTime" in data && "deliveryDate" in data
  }

  /** Every key the contact_messages INSERT reads with data[...]. */
  predicate HasContactKeys(data: Payload) {
    "name" in data && "email" in data && "phone" in data && "subject" in data && "message" in data
  }

  /** A payload that passed the order checks holds every key the INSERT reads. */
  lemma OrderKeysPresent(data: Payload)
    requires FirstMissing(data, OrderFields).None?
    ensures HasOrderKeys(data)
  {
    assert Present(data, OrderFields[0]) && Present(data, OrderFields[1]) && Present(data, OrderFields[2]);
    assert Present(data, OrderFields[3]) && Present(data, OrderFields[4]) && Present(data, OrderFields[5]);
    assert Present(data, OrderFields[6]);
  }

  lemma ContactKeysPresent(data: Payload)
    requires FirstMissing(data, ContactFields).None?
    ensures HasContactKeys(data)
  {
    assert Present(data, ContactFields[0]) && Present(data, ContactFields[1]) && Present(data, ContactFields[2]);
    assert Present(data, ContactFields[3]) && Present(data, ContactFields[4]);
  }

  /** The validation loop of both handlers: stop at the first field that is absent or falsy. */
  method FindMissingField(data: Payload, fields: seq<string>) returns (missing: Option<string>)
    ensures missing == FirstMissing(data, fields)
  {
    var i := 0;
    assert fields[i..] == fields;
    while i < |fields|
      invariant 0 <= i <= |fields|
      invariant FirstMissing(data, fields[i..]) == FirstMissing(data, fields)
    {
      var field := fields[i];
      if field !in data || !Truthy(data[field]) {
        return Some(field);
      }
      assert fields[i..][1..] == fields[i + 1..];
      i := i + 1;
    }
    return None;
  }

  // ---------------------------------------------------------------------------
  // The order reference

  /** f'AQB-{order_id:08d}': the prefix, then the id in decimal left-padded with zeros to 8 digits. */
  function OrderReference(id: nat): string {
    ReferencePrefix + ZeroPad(DecimalString(id), ReferenceWidth)
  }

  /**
   * A reference is the prefix followed by digits that read back as the id; it is exactly
   * 12 characters long for ids below 10^8 and longer (never truncated) above.
   */
  lemma ReferenceFormat(id: nat)
    ensures |OrderReference(id)| == |ReferencePrefix| + Max(ReferenceWidth, |DecimalString(id)|)
    ensures OrderReference(id)[..|ReferencePrefix|] == ReferencePrefix
    ensures AllDigits(OrderReference(id)[|ReferencePrefix|..])
    ensures DigitsValue(OrderReference(id)[|ReferencePrefix|..]) == id
    ensures |OrderReference(id)| == 12 <==> id < Pow10(ReferenceWidth)
  {
    var digits := ZeroPad(DecimalString(id), ReferenceWidth);
    ZeroPadRoundTrip(id, ReferenceWidth);
    DecimalLength(id, ReferenceWidth);
    assert OrderReference(id)[|ReferencePrefix|..] == digits;
  }

  /** Distinct ids give distinct references. */
  lemma ReferenceInjective(a: nat, b: nat)
    requires OrderReference(a) == OrderReference(b)
    ensures a == b
  {
    ReferenceFormat(a);
    ReferenceFormat(b);
    assert OrderReference(a)[|ReferencePrefix|..] == OrderReference(b)[|ReferencePrefix|..];
  }

  // ---------------------------------------------------------------------------
  // Building the rows the INSERT statements write

  /** The parameters of the orders INSERT, in column order; quantity is already int(). */
  function OrderParams(data: Payload, quantity: int): seq<Param>
    requires HasOrderKeys(data)
  {
    [ Param("name", data["name"]),
      Param("mobile", data["mobile"]),
      Param("email", GetOrDefault(data, "email", JStr(""))),
      Param("address", data["address"]),
      Param("product_type", data["productType"]),
      Param("quantity", JInt(quantity)),
      Param("delivery_time", data["deliveryTime"]),
      Param("delivery_date", data["deliveryDate"]),
      Param("notes", GetOrDefault(data, "notes", JStr(""))) ]
  }

  /**
   * The row the orders INSERT writes for a payload that passed validation, or why the
   * statement fails: int(quantity) runs first, then the driver binds the nine
   * parameters in order, then AUTOINCREMENT hands out `id`.
   */
  function NewOrder(data: Payload, id: nat, now: nat): (r: Result<Order, Fault>)
    requires HasOrderKeys(data)
    ensures PyInt(data["quantity"]).Err? ==> r == Err(NotAnInteger)
    ensures id > MaxSqlInteger ==> r.Err?
    ensures r.Ok? ==> r.value.id == id && r.value.createdAt == now && r.value.status == DefaultStatus
    ensures r.Ok? ==> PyInt(data["quantity"]) == Ok(r.value.quantity)
    ensures r.Ok? <==>
      && PyInt(data["quantity"]).Ok?
      && BindAll(OrderParams(data, PyInt(data["quantity"]).value)).Ok?
      && id <= MaxSqlInteger
  {
    match PyInt(data["quantity"])
    case Err(f) => Err(f)
    case Ok(q) =>
      var params := OrderParams(data, q);
      match BindAll(params)
      case Err(f) => Err(f)
      case Ok(vs) =>
        if id > MaxSqlInteger then Err(DatabaseFull)
        else Ok(Order(id, vs[0], vs[1], vs[2], vs[3], vs[4], q, vs[6], vs[7], vs[8], DefaultStatus, now))
  }

  /** Each column of an inserted order is the value the driver bound from its payload key. */
  lemma NewOrderColumns(data: Payload, id: nat, now: nat)
    requires HasOrderKeys(data) && NewOrder(data, id, now).Ok?
    ensures var o := NewOrder(data, id, now).value;
      && Bind(data["name"], "name") == Ok(o.name)
      && Bind(data["mobile"], "mobile") == Ok(o.mobile)
      && Bind(GetOrDefault(data, "email", JStr("")), "email") == Ok(o.email)
      && Bind(data["address"], "address") == Ok(o.address)
      && Bind(data["productType"], "product_type") == Ok(o.productType)
      && Bind(data["deliveryTime"], "delivery_time") == Ok(o.deliveryTime)
      && Bind(data["deliveryDate"], "delivery_date") == Ok(o.deliveryDate)
      && Bind(GetOrDefault(data, "notes", JStr("")), "notes") == Ok(o.notes)
    ensures "email" !in data ==> NewOrder(data, id, now).value.email == SqlText("")
    ensures "notes" !in data ==> NewOrder(data, id, now).value.notes == SqlText("")
  {
    var q := PyInt(data["quantity"]).value;
    var params := OrderParams(data, q);
    assert BindAll(params).Ok?;
  }

  /** The parameters of the contact_messages INSERT, in column order. */
  function ContactParams(data: Payload): seq<Param>
    requires HasContactKeys(data)
  {
    [ Param("name", data["name"]),
      Param("email", data["email"]),
      Param("phone", data["phone"]),
      Param("subject", data["subject"]),
      Param("message", data["message"]) ]
  }

  /** The row the contact_messages INSERT writes for a validated payload, or why it fails. */
  function NewContact(data: Payload, id: nat, now: nat): (r: Result<ContactMessage, Fault>)
    requires HasContactKeys(data)
    ensures id > MaxSqlInteger ==> r.Err?
    ensures r.Ok? ==> r.value.id == id && r.value.createdAt == now
    ensures r.Ok? <==> BindAll(ContactParams(data)).Ok? && id <= MaxSqlInteger
  {
    match BindAll(ContactParams(data))
    case Err(f) => Err(f)
    case Ok(vs) =>
      if id > MaxSqlInteger then Err(DatabaseFull)
      else Ok(ContactMessage(id, vs[0], vs[1], vs[2], vs[3], vs[4], now))
  }

  /** Each column of an inserted contact message is the value the driver bound from its payload key. */
  lemma NewContactColumns(data: Payload, id: nat, now: nat)
    requires HasContactKeys(data) && NewContact(data, id, now).Ok?
    ensures var c := NewContact(data, id, now).value;
      && Bind(data["name"], "name") == Ok(c.name)
      && Bind(data["email"], "email") == Ok(c.email)
      && Bind(data["phone"], "phone") == Ok(c.phone)
      && Bind(data["subject"], "subject") == Ok(c.subject)
      && Bind(data["message"], "message") == Ok(c.message)
  {
    assert BindAll(ContactParams(data)).Ok?;
  }

  /** The row GET /api/orders reports for an order. */
  function View(o: Order): OrderView {
    OrderView(o.id, o.name, o.mobile, o.email, o.address, o.productType, o.quantity,
              o.deliveryTime, o.deliveryDate, o.status, o.createdAt)
  }

  /** The view forgets the notes and nothing else. */
  lemma ViewOmitsOnlyNotes(a: Order, b: Order)
    ensures View(a) == View(b) <==> a.(notes := b.notes) == b
  {
  }

  // ---------------------------------------------------------------------------
  // Tables and listing order

  /** Ids grow strictly with insertion, stay below the AUTOINCREMENT counter, and stamps never decrease. */
  ghost predicate OrdersWellFormed(rows: seq<Order>, nextId: nat) {
    && nextId >= 1
    && (forall i | 0 <= i < |rows| :: 1 <= rows[i].id < nextId)
    && (forall i, j | 0 <= i < j < |rows| :: rows[i].id < rows[j].id && rows[i].createdAt <= rows[j].createdAt)
  }

  ghost predicate ContactsWellFormed(rows: seq<ContactMessage>, nextId: nat) {
    && nextId >= 1
    && (forall i | 0 <= i < |rows| :: 1 <= rows[i].id < nextId)
    && (forall i, j | 0 <= i < j < |rows| :: rows[i].id < rows[j].id && rows[i].createdAt <= rows[j].createdAt)
  }

  /** Appending the row AUTOINCREMENT numbered, stamped no earlier than the others, keeps the table well formed. */
  lemma AppendOrder(rows: seq<Order>, nextId: nat, o: Order)
    requires OrdersWellFormed(rows, nextId)
    requires o.id == nextId && forall i | 0 <= i < |rows| :: rows[i].createdAt <= o.createdAt
    ensures OrdersWellFormed(rows + [o], nextId + 1)
  {
  }

  lemma AppendContact(rows: seq<ContactMessage>, nextId: nat, c: ContactMessage)
    requires ContactsWellFormed(rows, nextId)
    requires c.id == nextId && forall i | 0 <= i < |rows| :: rows[i].createdAt <= c.createdAt
    ensures ContactsWellFormed(rows + [c], nextId + 1)
  {
  }

  /** The rows newest first: the order `ORDER BY created_at DESC` yields on stamps that grow with insertion. */
  function Reverse<T>(s: seq<T>): (r: seq<T>)
    ensures |r| == |s|
    ensures forall i | 0 <= i < |s| :: r[i] == s[|s| - 1 - i]
    ensures multiset(r) == multiset(s)
  {
    if s == [] then []
    else
      assert s == [s[0]] + s[1..];
      Reverse(s[1..]) + [s[0]]
  }

  /**
   * A listing that walks a well-formed orders table back from its last row (what
   * `ORDER BY created_at DESC LIMIT n` returns): distinct rows of the table, ids and
   * stamps descending, and every row left out is no newer than any row listed.
   */
  lemma NewestOrders(rows: seq<Order>, nextId: nat, v: seq<Order>)
    requires OrdersWellFormed(rows, nextId) && |v| <= |rows|
    requires forall i | 0 <= i < |v| :: v[i] == rows[|rows| - 1 - i]
    ensures forall i | 0 <= i < |v| :: v[i] in rows
    ensures forall i, j | 0 <= i < j < |v| :: v[i].createdAt >= v[j].createdAt && v[i].id > v[j].id
    ensures forall o, i | o in rows && o !in v && 0 <= i < |v| :: o.createdAt <= v[i].createdAt
  {
    assert forall k | |rows| - |v| <= k < |rows| :: v[|rows| - 1 - k] == rows[k];
    forall o, i | o in rows && o !in v && 0 <= i < |v|
      ensures o.createdAt <= v[i].createdAt
    {
      var k :| 0 <= k < |rows| && rows[k] == o;
    }
  }

  lemma NewestContacts(rows: seq<ContactMessage>, nextId: nat, v: seq<ContactMessage>)
    requires ContactsWellFormed(rows, nextId) && |v| <= |rows|
    requires forall i | 0 <= i < |v| :: v[i] == rows[|rows| - 1 - i]
    ensures forall i | 0 <= i < |v| :: v[i] in rows
    ensures forall i, j | 0 <= i < j < |v| :: v[i].createdAt >= v[j].createdAt && v[i].id > v[j].id
    ensures forall c, i | c in rows && c !in v && 0 <= i < |v| :: c.createdAt <= v[i].createdAt
  {
    assert forall k | |rows| - |v| <= k < |rows| :: v[|rows| - 1 - k] == rows[k];
    forall c, i | c in rows && c !in v && 0 <= i < |v|
      ensures c.createdAt <= v[i].createdAt
    {
      var k :| 0 <= k < |rows| && rows[k] == c;
    }
  }

  /** The first n rows of the table newest first: the last n rows, from the end backwards. */
  function Newest<T>(rows: seq<T>, n: nat): seq<T>
    requires n <= |rows|
  {
    seq(n, i requires 0 <= i < n => rows[|rows| - 1 - i])
  }

  // ---------------------------------------------------------------------------
  // What a submission does to a table

  /** The reply of a POST handler and the table (rows and AUTOINCREMENT counter) after it. */
  datatype Outcome<R> = Outcome(reply: Reply, rows: seq<R>, nextId: nat)

  /** create_order on the orders table: validate, insert, answer with the reference. */
  function SubmitOrder(rows: seq<Order>, nextId: nat, data: Payload, now: nat): Outcome<Order> {
    match FirstMissing(data, OrderFields)
    case Some(f) => Outcome(MissingField(f), rows, nextId)
    case None =>
      OrderKeysPresent(data);
      match NewOrder(data, nextId, now)
      case Err(e) => Outcome(ServerError(e), rows, nextId)
      case Ok(o) => Outcome(OrderPlaced(OrderReference(o.id)), rows + [o], nextId + 1)
  }

  /** create_contact on the contact_messages table. */
  function SubmitContact(rows: seq<ContactMessage>, nextId: nat, data: Payload, now: nat): Outcome<ContactMessage> {
    match FirstMissing(data, ContactFields)
    case Some(f) => Outcome(MissingField(f), rows, nextId)
    case None =>
      ContactKeysPresent(data);
      match NewContact(data, nextId, now)
      case Err(e) => Outcome(ServerError(e), rows, nextId)
      case Ok(c) => Outcome(MessageSent, rows + [c], nextId + 1)
  }

  /**
   * A payload with a missing or falsy required field is answered 400 naming the first such
   * field, and leaves the table as it was; so does any failure of the INSERT.
   */
  lemma OrderRejection(rows: seq<Order>, nextId: nat, data: Payload, now: nat)
    ensures var out := SubmitOrder(rows, nextId, data, now);
      out.reply.MissingField? <==> FirstMissing(data, OrderFields).Some?
    ensures var out := SubmitOrder(rows, nextId, data, now);
      FirstMissing(data, OrderFields).Some? ==>
        && out.reply.field == FirstMissing(data, OrderFields).value
        && StatusCode(out.reply) == 400
        && ReplyBody(out.reply) == MissingFieldBody(FirstMissing(data, OrderFields).value)
    ensures var out := SubmitOrder(rows, nextId, data, now);
      !out.reply.OrderPlaced? ==> out.rows == rows && out.nextId == nextId
  {
  }

  /**
   * The same for a contact message: a missing or falsy field is answered 400 naming the
   * first such field, and any reply but 201 leaves the table and its counter as they were.
   */
  lemma ContactRejection(rows: seq<ContactMessage>, nextId: nat, data: Payload, now: nat)
    ensures var out := SubmitContact(rows, nextId, data, now);
      out.reply.MissingField? <==> FirstMissing(data, ContactFields).Some?
    ensures var out := SubmitContact(rows, nextId, data, now);
      FirstMissing(data, ContactFields).Some? ==>
        && out.reply.field == FirstMissing(data, ContactFields).value
        && StatusCode(out.reply) == 400
        && ReplyBody(out.reply) == MissingFieldBody(FirstMissing(data, ContactFields).value)
    ensures var out := SubmitContact(rows, nextId, data, now);
      !out.reply.MessageSent? ==> out.rows == rows && out.nextId == nextId
  {
  }

  /** A validated payload whose row can be built is appended and answered with its reference. */
  lemma OrderStored(rows: seq<Order>, nextId: nat, data: Payload, now: nat, o: Order)
    requires FirstMissing(data, OrderFields).None? && HasOrderKeys(data)
    requires NewOrder(data, nextId, now) == Ok(o)
    ensures SubmitOrder(rows, nextId, data, now) == Outcome(OrderPlaced(OrderReference(o.id)), rows + [o], nextId + 1)
  {
  }

  /** A validated contact payload whose row can be built is appended and answered 201. */
  lemma ContactStored(rows: seq<ContactMessage>, nextId: nat, data: Payload, now: nat, c: ContactMessage)
    requires FirstMissing(data, ContactFields).None? && HasContactKeys(data)
    requires NewContact(data, nextId, now) == Ok(c)
    ensures SubmitContact(rows, nextId, data, now) == Outcome(MessageSent, rows + [c], nextId + 1)
  {
  }

  /** A quantity int() cannot coerce ends in a 500 before anything is stored. */
  lemma UncoercibleQuantity(rows: seq<Order>, nextId: nat, data: Payload, now: nat)
    requires FirstMissing(data, OrderFields).None? && PyInt(data["quantity"]).Err?
    ensures SubmitOrder(rows, nextId, data, now) == Outcome(ServerError(NotAnInteger), rows, nextId)
  {
  }

  /**
   * An accepted order is appended as the one new row, under the next id, which is larger
   * than every earlier id; its status is 'pending', its stamp is `now`, and the reply
   * carries that id's reference (ReferenceFormat: it reads back as the id). The table
   * stays well formed whatever the outcome.
   */
  lemma OrderAcceptance(rows: seq<Order>, nextId: nat, data: Payload, now: nat)
    requires OrdersWellFormed(rows, nextId)
    requires forall i | 0 <= i < |rows| :: rows[i].createdAt <= now
    ensures var out := SubmitOrder(rows, nextId, data, now);
      OrdersWellFormed(out.rows, out.nextId)
    ensures var out := SubmitOrder(rows, nextId, data, now);
      out.reply.OrderPlaced? ==>
        && |out.rows| == |rows| + 1 && out.rows[..|rows|] == rows && out.nextId == nextId + 1
        && out.rows[|rows|].id == nextId
        && (forall k | 0 <= k < |rows| :: rows[k].id < nextId)
        && out.rows[|rows|].status == DefaultStatus
        && out.rows[|rows|].createdAt == now
        && out.reply.orderId == OrderReference(nextId)
        && StatusCode(out.reply) == 201
        && ReplyBody(out.reply).members["order_id"] == JStr(OrderReference(nextId))
        && HasOrderKeys(data) && NewOrder(data, nextId, now).Ok?
        && out.rows[|rows|] == NewOrder(data, nextId, now).value
  {
    if FirstMissing(data, OrderFields).None? {
      OrderKeysPresent(data);
      if NewOrder(data, nextId, now).Ok? {
        var o := NewOrder(data, nextId, now).value;
        AppendOrder(rows, nextId, o);
        assert (rows + [o])[..|rows|] == rows;
      }
    }
  }

  /** An accepted contact message is appended as the one new row, with a fresh id. */
  lemma ContactAcceptance(rows: seq<ContactMessage>, nextId: nat, data: Payload, now: nat)
    requires ContactsWellFormed(rows, nextId)
    requires forall i | 0 <= i < |rows| :: rows[i].createdAt <= now
    ensures var out := SubmitContact(rows, nextId, data, now);
      ContactsWellFormed(out.rows, out.nextId)
    ensures var out := SubmitContact(rows, nextId, data, now);
      out.reply.MessageSent? ==>
        && |out.rows| == |rows| + 1 && out.rows[..|rows|] == rows && out.nextId == nextId + 1
        && (forall k | 0 <= k < |rows| :: rows[k].id < out.rows[|rows|].id)
        && out.rows[|rows|].createdAt == now
        && HasContactKeys(data) && NewContact(data, nextId, now).Ok?
        && out.rows[|rows|] == NewContact(data, nextId, now).value
    ensures var out := SubmitContact(rows, nextId, data, now);
      !out.reply.MessageSent? ==> out.rows == rows && out.nextId == nextId
  {
    if FirstMissing(data, ContactFields).None? {
      ContactKeysPresent(data);
      if NewContact(data, nextId, now).Ok? {
        var c := NewContact(data, nextId, now).value;
        AppendContact(rows, nextId, c);
        assert (rows + [c])[..|rows|] == rows;
      }
    }
  }

  /** Every required field holds a non-empty string, as the browser forms send them. */
  predicate TextPayload(data: Payload, fields: seq<string>) {
    forall k | 0 <= k < |fields| :: fields[k] in data && data[fields[k]].JStr? && data[fields[k]].s != ""
  }

  /** Absent, or any string. */
  predicate OptionalText(data: Payload, key: string) {
    key !in data || data[key].JStr?
  }

  /**
   * A payload of non-empty strings with a quantity written in decimal within SQLite's
   * integer range, as the order form posts it, is accepted: the row NewOrder describes
   * (every field as TEXT, the quantity as that integer) is appended under the next id,
   * and the reply carries that id's reference.
   */
  lemma TextOrderAccepted(rows: seq<Order>, nextId: nat, data: Payload, now: nat, quantity: int)
    requires TextPayload(data, OrderFields)
    requires OptionalText(data, "email") && OptionalText(data, "notes")
    requires "quantity" in data && data["quantity"] == JStr(IntString(quantity))
    requires MinSqlInteger <= quantity <= MaxSqlInteger
    requires nextId <= MaxSqlInteger
    ensures FirstMissing(data, OrderFields).None? && HasOrderKeys(data) && NewOrder(data, nextId, now).Ok?
    ensures NewOrder(data, nextId, now).value.quantity == quantity
    ensures SubmitOrder(rows, nextId, data, now) ==
      Outcome(OrderPlaced(OrderReference(nextId)), rows + [NewOrder(data, nextId, now).value], nextId + 1)
  {
    TextPayloadValid(data, OrderFields);
    OrderKeysPresent(data);
    IntLiteralRoundTrip(quantity);
    TextOrderBinds(data, quantity);
    assert NewOrder(data, nextId, now).Ok?;
  }

  /** A payload of non-empty strings for all five fields is stored as a new contact message. */
  lemma TextContactAccepted(rows: seq<ContactMessage>, nextId: nat, data: Payload, now: nat)
    requires TextPayload(data, ContactFields)
    requires nextId <= MaxSqlInteger
    ensures FirstMissing(data, ContactFields).None? && HasContactKeys(data) && NewContact(data, nextId, now).Ok?
    ensures SubmitContact(rows, nextId, data, now) ==
      Outcome(MessageSent, rows + [NewContact(data, nextId, now).value], nextId + 1)
  {
    TextPayloadValid(data, ContactFields);
    ContactKeysPresent(data);
    var params := ContactParams(data);
    forall k | 0 <= k < |params|
      ensures Bind(params[k].value, params[k].column).Ok?
    {
      assert params[k].value == data[ContactFields[k]];
    }
    assert NewContact(data, nextId, now).Ok?;
  }

  lemma TextPayloadValid(data: Payload, fields: seq<string>)
    requires TextPayload(data, fields)
    ensures FirstMissing(data, fields).None?
  {
  }

  lemma TextOrderBinds(data: Payload, quantity: int)
    requires TextPayload(data, OrderFields) && HasOrderKeys(data)
    requires OptionalText(data, "email") && OptionalText(data, "notes")
    requires MinSqlInteger <= quantity <= MaxSqlInteger
    ensures BindAll(OrderParams(data, quantity)).Ok?
  {
    var params := OrderParams(data, quantity);
    assert data[OrderFields[0]].JStr? && data[OrderFields[1]].JStr? && data[OrderFields[2]].JStr?;
    assert data[OrderFields[3]].JStr? && data[OrderFields[5]].JStr? && data[OrderFields[6]].JStr?;
    forall k | 0 <= k < |params|
      ensures Bind(params[k].value, params[k].column).Ok?
    {
      assert params[k].value.JStr? || params[k].value == JInt(quantity);
    }
  }

  /** The SQLite database: the two tables and their AUTOINCREMENT counters. */
  class Store {
    var orders: seq<Order>
    var contacts: seq<ContactMessage>
    var nextOrderId: nat
    var nextContactId: nat

    ghost predicate Valid()
      reads this
    {
      OrdersWellFormed(orders, nextOrderId) && ContactsWellFormed(contacts, nextContactId)
    }

    /** No row was stamped after `now`. */
    ghost predicate StampsUpTo(now: nat)
      reads this
    {
      && (forall i | 0 <= i < |orders| :: orders[i].createdAt <= now)
      && (forall i | 0 <= i < |contacts| :: contacts[i].createdAt <= now)
    }

    /** init_db on a fresh database file: both tables exist and are empty. */
    constructor InitDb()
      ensures Valid()
      ensures orders == [] && contacts == []
      ensures nextOrderId == 1 && nextContactId == 1
    {
      orders, contacts := [], [];
      nextOrderId, nextContactId := 1, 1;
    }

    /**
     * POST /api/orders. The notification runs only after the row is committed; whatever
     * it does (skip, send, fail inside the sender, or raise out of it, where the
     * handler's own try catches it) the reply and the tables are SubmitOrder's, which
     * does not depend on `env` or `relay`.
     */
    method CreateOrder(data: Payload, now: nat, env: Env, relay: Relay) returns (reply: Reply, mail: Option<MailOutcome>)
      requires Valid() && StampsUpTo(now)
      modifies this
      ensures Valid() && StampsUpTo(now)
      ensures SubmitOrder(old(orders), old(nextOrderId), data, now) == Outcome(reply, orders, nextOrderId)
      ensures contacts == old(contacts) && nextContactId == old(nextContactId)
      ensures mail == if reply.OrderPlaced? then Some(SendEmail(env, relay)) else None
    {
      var missing := FindMissingField(data, OrderFields);
      if missing.Some? {
        return MissingField(missing.value), None;
      }
      OrderKeysPresent(data);
      var row := NewOrder(data, nextOrderId, now);
      if row.Err? {
        return ServerError(row.error), None;
      }
      var order := row.value;
      AppendOrder(orders, nextOrderId, order);
      OrderStored(orders, nextOrderId, data, now, order);
      orders := orders + [order];
      nextOrderId := nextOrderId + 1;
      var orderRef := OrderReference(order.id);
      var outcome := SendEmail(env, relay);
      return OrderPlaced(orderRef), Some(outcome);
    }

    /** POST /api/contact, in the same shape as CreateOrder. */
    method CreateContact(data: Payload, now: nat, env: Env, relay: Relay) returns (reply: Reply, mail: Option<MailOutcome>)
      requires Valid() && StampsUpTo(now)
      modifies this
      ensures Valid() && StampsUpTo(now)
      ensures SubmitContact(old(contacts), old(nextContactId), data, now) == Outcome(reply, contacts, nextContactId)
      ensures orders == old(orders) && nextOrderId == old(nextOrderId)
      ensures mail == if reply.MessageSent? then Some(SendEmail(env, relay)) else None
    {
      var missing := FindMissingField(data, ContactFields);
      if missing.Some? {
        return MissingField(missing.value), None;
      }
      ContactKeysPresent(data);
      var row := NewContact(data, nextContactId, now);
      if row.Err? {
        return ServerError(row.error), None;
      }
      AppendContact(contacts, nextContactId, row.value);
      ContactStored(contacts, nextContactId, data, now, row.value);
      contacts := contacts + [row.value];
      nextContactId := nextContactId + 1;
      var outcome := SendEmail(env, relay);
      return MessageSent, Some(outcome);
    }

    /**
     * GET /admin: the 50 newest orders and the 50 newest messages, newest first. Each
     * listing holds distinct rows of its table (ids strictly descending), and no row
     * of the table that is not listed is newer than a listed one.
     */
    function Admin(): (view: (seq<Order>, seq<ContactMessage>))
      reads this
      requires Valid()
      ensures |view.0| == Min(ListingLimit, |orders|) && |view.1| == Min(ListingLimit, |contacts|)
      ensures forall i | 0 <= i < |view.0| :: view.0[i] in orders
      ensures forall i | 0 <= i < |view.1| :: view.1[i] in contacts
      ensures forall i, j | 0 <= i < j < |view.0| :: view.0[i].createdAt >= view.0[j].createdAt && view.0[i].id > view.0[j].id
      ensures forall i, j | 0 <= i < j < |view.1| :: view.1[i].createdAt >= view.1[j].createdAt && view.1[i].id > view.1[j].id
      ensures forall o, i | o in orders && o !in view.0 && 0 <= i < |view.0| :: o.createdAt <= view.0[i].createdAt
      ensures forall c, i | c in contacts && c !in view.1 && 0 <= i < |view.1| :: c.createdAt <= view.1[i].createdAt
    {
      var newestOrders := Newest(orders, Min(ListingLimit, |orders|));
      var newestMessages := Newest(contacts, Min(ListingLimit, |contacts|));
      NewestOrders(orders, nextOrderId, newestOrders);
      NewestContacts(contacts, nextContactId, newestMessages);
      (newestOrders, newestMessages)
    }

    /** GET /api/orders: every order, newest first, each without its notes. */
    method GetOrders() returns (list: seq<OrderView>)
      requires Valid()
      ensures |list| == |orders|
      ensures forall i | 0 <= i < |list| :: list[i] == View(orders[|orders| - 1 - i])
      ensures forall i, j | 0 <= i < j < |list| :: list[i].createdAt >= list[j].createdAt && list[i].id > list[j].id
    {
      var rows := Reverse(orders);  // SELECT * FROM orders ORDER BY created_at DESC
      list := [];
      for i := 0 to |rows|
        invariant |list| == i
        invariant forall k | 0 <= k < i :: list[k] == View(rows[k])
      {
        list := list + [View(rows[i])];
      }
    }
  }
}
