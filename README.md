# Aqua Blue order and contact handling, in Dafny

Aqua Blue is a water-delivery website. A Flask backend keeps customer orders and
contact messages in SQLite. Two browser scripts check the order and contact forms
before posting them. This project models the decision logic of both sides and proves
what it promises.

Server side (`app.py`), modules `Server`, `Json`, `Notify` and `Decimal`:

- The two tables are a `Store` class. It holds the rows and the AUTOINCREMENT counters.
  `CURRENT_TIMESTAMP` is a `now` argument that never runs backwards.
- `create_order` and `create_contact` do three things. They scan the required keys and
  stop at the first absent or falsy one (answer 400). They build the row: Python's
  `int()` on the quantity, then the sqlite3 driver binding each parameter. They append
  the row, run the mail notification, then answer 201.
- An order's reference is `AQB-` and the id zero-padded to 8 digits.
- The notification is reduced to skipped / sent / failed / raised. Once it returns, its
  outcome never changes the reply or the tables.
- `admin` returns the 50 newest orders and the 50 newest messages. `get_orders` returns
  every order, newest first, without its notes.

Browser side (`js/order.js`, `js/contact.js`), modules `OrderForm`, `ContactForm`,
`JsText` and `Browser`:

- `validateField` is a predicate on the trimmed value, and marks the field. The order
  form adds a rule: a filled telephone number must be 10 characters long.
- The e-mail regular expression `/^[^\s@]+@[^\s@]+\.[^\s@]+$/` is a ghost predicate.
  A direct decision procedure is proved equal to it.
- The submit handlers validate every required control without stopping early. They send
  nothing when one is invalid, and fall back to localStorage when the request fails.
- The fallback order id is `AQB-` and the last 8 characters of `Date.now()`.

I/O is passed in as parameters:

- the clock readings (`Date.now()`, `toISOString()`, `CURRENT_TIMESTAMP`);
- the outcome of `fetch()`;
- the process environment and whether the mail relay accepts the message.

## Model

| member | source | states |
|---|---|---|
| Server.FindMissingField | app.py:144-147 | the loop over the required keys answers the first key that is absent or falsy, or none |
| Server.FirstMissingIsFirst | app.py:144-147 | when key k is missing and every earlier key is present, the check names key k |
| Server.OrderRejection | app.py:144-147 | a 400 happens exactly when a required key is missing; its body is `{"error": "Missing required field: <key>"}` for the first such key; any reply other than 201 leaves the table and counter unchanged |
| Server.ContactRejection | app.py:189-192 | the same for contact messages: a 400 exactly when one of the five keys is missing, naming the first one in its body; any reply other than 201 leaves the table and counter unchanged |
| Server.OrderKeysPresent | app.py:144-158 | a payload that passed the order check holds every key the INSERT reads with `data[...]` |
| Server.ContactKeysPresent | app.py:189-202 | a payload that passed the contact check holds every key the INSERT reads |
| Server.StatusCode | app.py:147-180 | the status is 201 exactly for the two success replies, 400 exactly for a missing field and 500 exactly for a server error |
| Server.ReplyBody | app.py:147-177 | the JSON body of each reply; OrderRejection and ContactRejection state the 400 body and OrderAcceptance the 201 body's `order_id` |
| Server.SubmitOrder | app.py:137-180 | create_order's effect on the orders table: validation, then the row, then 201; its behaviour is stated by OrderRejection, UncoercibleQuantity, OrderAcceptance and TextOrderAccepted, and Store.CreateOrder is proved equal to it |
| Server.SubmitContact | app.py:182-219 | create_contact's effect on the contact_messages table; stated by ContactRejection, ContactAcceptance and TextContactAccepted, and Store.CreateContact is proved equal to it |
| Server.NewOrder | app.py:153-158 | int(quantity) runs before the insert and its failure is a NotAnInteger error; the row is stored exactly when int() succeeds, all nine parameters bind and the id is within the 64-bit range (so a JSON-number quantity is accepted and a list-valued email gives a 500); a stored row has the given id and stamp, status 'pending', and the coerced quantity |
| Server.NewOrderColumns | app.py:153-158 | each column is what the driver binds from its key; email and notes are '' when their keys are absent |
| Server.NewContact | app.py:198-202 | the message is stored exactly when all five parameters bind and the id is within the 64-bit range; a stored message has the given id and stamp |
| Server.NewContactColumns | app.py:198-202 | each of the five columns is what the driver binds from its key |
| Server.UncoercibleQuantity | app.py:157 | a quantity int() rejects gives a 500 and leaves the table and counter as they were |
| Server.OrderStored | app.py:153-177 | a validated payload whose row NewOrder builds is appended as that row under the next id and answered 201 with the id's reference |
| Server.ContactStored | app.py:198-216 | a validated contact payload whose row NewContact builds is appended as that row and answered 201 |
| Server.OrderAcceptance | app.py:153-177 | the table stays well formed whatever the outcome; an accepted order is one row appended after the old rows, under the next id, which exceeds every earlier id; that row is exactly NewOrder's row for the payload, with status 'pending' and stamp `now`; the reply is a 201 whose `order_id` is the reference of that id |
| Server.ContactAcceptance | app.py:198-216 | the table stays well formed; an accepted message is one row appended with an id above every earlier one and stamp `now`, and that row is exactly NewContact's row for the payload; otherwise the rows and the counter are unchanged |
| Server.TextOrderAccepted | app.py:137-177 | a payload of non-empty strings with a decimal quantity in the 64-bit range is accepted: the row is appended with that quantity and the reply carries the reference of the next id |
| Server.TextContactAccepted | app.py:182-216 | a payload of five non-empty strings is stored as a new message and answered 201 |
| Server.TextOrderBinds | app.py:153-158 | string values and an in-range integer quantity all bind |
| Server.AppendOrder | app.py:38-50 | appending the row AUTOINCREMENT numbers, with a stamp no earlier than the others, keeps ids strictly increasing and below the counter |
| Server.AppendContact | app.py:53-60 | the same for contact messages |
| Server.OrderReference | app.py:165 | `f'AQB-{order_id:08d}'`; its meaning is stated by ReferenceFormat and ReferenceInjective |
| Server.ReferenceFormat | app.py:165 | a reference is 'AQB-' and digits that read back as the id; it is 4 + max(8, digit count) long, so exactly 12 characters iff id < 10^8 |
| Server.ReferenceInjective | app.py:165 | distinct ids give distinct references |
| Server.Store.InitDb | app.py:32-63 | on a fresh database file both tables start empty, both counters at 1, and the store is well formed |
| Server.Store.CreateOrder | app.py:137-180 | the reply and the new orders table are SubmitOrder's; the contacts table is unchanged; the mail runs only after a 201, and its outcome does not change the reply; well-formedness and stamp bounds are kept |
| Server.Store.CreateContact | app.py:182-219 | the same for contact messages; the orders table is unchanged |
| Server.Newest | app.py:227-230 | the definition of `ORDER BY created_at DESC LIMIT n` on a table whose stamps grow with insertion: the last n rows, from the end backwards; its meaning is stated by NewestOrders, NewestContacts and Store.Admin |
| Server.NewestOrders | app.py:227 | a list that walks a well-formed orders table back from its last row holds distinct rows of the table, ids and stamps descending, and no row left out is newer than one listed |
| Server.NewestContacts | app.py:230 | the same for contact messages |
| Server.Store.Admin | app.py:221-234 | min(50, size) rows of each table, all drawn from the table, distinct (ids strictly descending) and newest first by stamp; no row of the table that is not shown is newer than one shown |
| Server.Store.GetOrders | app.py:236-259 | every order exactly once, as its view, newest first by stamp and by id |
| Server.ViewOmitsOnlyNotes | app.py:243-257 | two orders have the same view exactly when they differ at most in their notes |
| Server.Reverse | app.py:240 | newest first is the insertion order reversed: same length, same multiset, mirrored positions |
| Json.Truthy | app.py:146 | Python's truth value: null, false, zero, the empty string and empty containers are false |
| Json.Present | app.py:146 | `field in data and data[field]`; FirstMissingIsFirst and OrderRejection state what the loop does with it |
| Json.ParseIntLiteral | app.py:157 | int() of a string: an optional sign and one or more ASCII digits; IntLiteralRoundTrip states that it reads back str() |
| Json.PyInt | app.py:157 | int() keeps integers, maps booleans to 0 and 1, truncates floats, parses a string exactly when ParseIntLiteral accepts it, and rejects null, lists and objects with NotAnInteger |
| Json.Truncate | app.py:157 | int() of a float rounds toward zero |
| Json.IntLiteralRoundTrip | app.py:157 | int(str(i)) == i for every integer |
| Json.ZeroStringPassesAndCoercesToZero | app.py:144-158 | the string "0" passes the presence check and is stored as quantity 0 |
| Json.Bind | app.py:153-158 | a value binds unless it is a list, an object or an integer outside 64 bits; null becomes NULL, a bool or int INTEGER with its value (true 1, false 0), a float REAL and a string TEXT |
| Json.BindAll | app.py:153-158 | all parameters bind iff each binds, in order, and a failure is the failure of some parameter |
| Notify.SendEmail | app.py:261-308 | a bad SMTP_PORT raises out of the sender; with a good port, an empty user or password skips; the message is sent iff the port is good, both credentials are set and the relay accepts it; every other case is a failure the sender catches |
| Notify.NoCredentialsSkips | app.py:265-273 | with no port and no user configured the sender skips |
| Decimal.DecimalRoundTrip | app.py:165 | the decimal notation of n reads back as n |
| Decimal.DecimalLength | app.py:165 | the notation of n fits in k characters iff n < 10^k |
| Decimal.ZeroPadRoundTrip | app.py:165 | zero-padding keeps the string all digits and keeps its value |
| Decimal.SuffixValue | js/order.js:97 | the last k characters of the notation of n are digits worth n mod 10^k |
| JsText.Trim | js/order.js:115 | String.prototype.trim; stated by TrimOutside, TrimEmpty, TrimNoWhiteSpace and TrimIdempotent |
| JsText.TrimOutside | js/order.js:115 | only white space lies outside what trim() keeps, and what it keeps neither starts nor ends with white space |
| JsText.TrimEmpty | js/order.js:115-120 | the trimmed value is empty iff the raw value is all white space |
| JsText.TrimNoWhiteSpace | js/order.js:115 | a string without white space is its own trim |
| JsText.TrimIdempotent | js/order.js:115 | trimming twice is trimming once |
| JsText.EmailShapeIsPattern | js/order.js:122-127 | the direct check (no white space, one '@' with text before it, a '.' inside the domain) accepts exactly what the regular expression matches |
| Browser.FirstNamedIsFirst | js/order.js:36-44 | the lookup finds a control iff one has the name, and no earlier control has it |
| Browser.FormGet | js/order.js:36-44 | FormData.get; stated by FormGetMeaning |
| Browser.FormGetMeaning | js/order.js:36-44 | FormData.get answers null iff no control has the name, and otherwise the value of the first control that has it |
| OrderForm.FieldValid | js/order.js:114-134 | the order validator's rules on one control; stated on the raw value by FieldValidMeaning |
| OrderForm.FieldValidMeaning | js/order.js:114-134 | a required control needs a character other than white space; a filled e-mail control must match the pattern; a filled telephone control must be 10 characters long; a blank optional control passes |
| OrderForm.ValidateField | js/order.js:114-142 | the answer is the validity of the control, and the control carries 'error' iff the answer is false |
| OrderForm.ValidateRequiredFields | js/order.js:16-22 | the answer is true iff every required control is valid; every required control is marked by its own validity, even after an invalid one; other controls keep their marks |
| OrderForm.CollectOrder | js/order.js:35-45 | the orderData object; PayloadCarriesForm states what reaches the server under each required key |
| OrderForm.PayloadCarriesForm | js/order.js:34-45 | each key the server requires carries the FormData value of the control of that name |
| OrderForm.ValidatedOrderPassesPresenceCheck | js/order.js:16-45 | when each key the server requires has a required control, a form the validator lets through sends a payload of non-empty strings that the server's presence check accepts |
| OrderForm.GenerateOrderId | js/order.js:96-98 | 'AQB-' and the last 8 characters of Date.now(); stated by GeneratedIdFormat, GeneratedIdIsReference and GeneratedIdsAgree |
| OrderForm.GeneratedIdFormat | js/order.js:96-98 | a fallback id is 'AQB-' and at most 8 characters; for a clock at or after the epoch they are digits worth the clock mod 10^8, and exactly 8 once the clock has 8 digits |
| OrderForm.GeneratedIdIsReference | js/order.js:96-98 | from 10^7 ms on, the fallback id equals the server reference for the id (clock mod 10^8) |
| OrderForm.GeneratedIdsAgree | js/order.js:96-98 | two readings from 10^7 ms on give the same id iff they agree mod 10^8 ms |
| OrderForm.OrderStorage.SaveOrderLocally | js/order.js:100-109 | exactly one entry is appended to the stored list: the data, an id generated from its own clock reading, and the stamp |
| OrderForm.ShownOrderId | js/order.js:63-75 | the id shown is never empty, and is the server's order_id whenever an OK reply carries a non-empty one |
| OrderForm.ServerReferenceShown | js/order.js:63-65 | a reference the server returns reaches the success view unchanged |
| OrderForm.SubmitOrder | js/order.js:9-80 | something is sent iff every required control is valid, and it is the collected form; a success view with an id is shown iff something was sent; one entry is saved locally iff something was sent and there was no response, or an OK response whose body is not JSON or is null; controls are marked as by the validator |
| ContactForm.FieldValid | js/contact.js:98-111 | the contact validator's rules on one control; stated by FieldValidMeaning and OrderRulesStricter |
| ContactForm.FieldValidMeaning | js/contact.js:98-111 | a required control needs a character other than white space; a filled e-mail control must match the pattern; an optional telephone control always passes |
| ContactForm.OrderRulesStricter | js/contact.js:98-120 | whatever the order validator accepts this one accepts; they agree on every type other than 'tel'; a 5-character number separates them |
| ContactForm.ValidateField | js/contact.js:98-120 | the answer is the validity of the control, and the control carries 'error' iff the answer is false |
| ContactForm.ValidateRequiredFields | js/contact.js:16-21 | true iff every required control is valid; every required control is marked, even after an invalid one; other controls keep their marks |
| ContactForm.CollectContact | js/contact.js:33-39 | the contactData object; PayloadCarriesForm states what reaches the server under each key |
| ContactForm.PayloadCarriesForm | js/contact.js:33-39 | each of the five keys carries the FormData value of the control of that name |
| ContactForm.ValidatedContactAccepted | js/contact.js:16-39 | when all five keys have required controls, a form the validator lets through is stored by the server and answered 201 |
| ContactForm.ContactStorage.SaveContactLocally | js/contact.js:85-93 | exactly one entry, the data and the stamp, is appended after the existing ones |
| ContactForm.SubmitContact | js/contact.js:8-72 | something is sent iff every required control is valid; the success view is shown iff something was sent, whatever the server answers; one entry is saved locally iff something was sent and no response arrived |

## Left out

- Page serving (`serve_html_file` and the page routes), the no-cache header hook, CORS and server startup: framework plumbing and file I/O.
- Server.Store.InitDb: `init_db` runs at every start and creates tables only if they do not exist, so over an existing file it keeps the rows and the AUTOINCREMENT counters. The constructor models a fresh file only; a restart over an existing file is represented just by an arbitrary store satisfying `Valid()`.
- The SQLite connection itself. A database that cannot be opened or written (disk full, locked) is not modelled; the 500 it would cause is not represented.
- SQLite column affinity: a number bound into a TEXT column is stored as text. The model keeps the bound value.
- Rows with equal `created_at` stamps: SQLite may return them in any order. The model lists them newest-inserted first, which is one of the allowed orders.
- Server.Store.CreateOrder: the text of a 500 reply (`str(e)`) is not modelled, only the kind of fault.
- Json.PyInt: Python's `int()` also accepts surrounding white space, underscores between digits and non-ASCII digits. The model accepts an optional sign and ASCII digits only.
- Json.PyInt: Python's `int()` refuses a string of more than 4300 digits with ValueError (a 500 in the source). The model parses strings of any length: a long value answers 500 with IntegerOverflow at binding instead of NotAnInteger, and a long run of leading zeros before a small number (such as 4300 zeros then `3`) is stored here where the source answers 500.
- Json.Bind: a JSON string holding a lone surrogate (such as `"\ud800"`) decodes to a Python string sqlite3 cannot encode, and the source answers 500. A Dafny `char` cannot hold a surrogate, so such input is not representable and every string binds here.
- Notify.SendEmail: `int(SMTP_PORT)` uses the same parser, so a port such as `" 587"`, which Python accepts, is answered `Raised` here.
- `NaN`, `Infinity` and `-Infinity` in a request body: Python's `json` decodes them, and `int()` of those raises (a 500). `JFloat` holds a real, so these values are not represented.
- The relay connection has no timeout (`smtplib.SMTP(...)` at app.py:300 and app.py:344): a relay that never answers holds back the reply indefinitely. Time is not modelled; in the model every send returns.
- Request bodies that are not JSON objects (for example `null`, where `field not in data` raises): the payload is always an object here.
- The message text, subject and MIME structure of the notifications, and the SMTP conversation: only the outcome is modelled.
- Template rendering in `admin`: the model returns the two lists.
- OrderForm.FieldValid: JavaScript's `length` counts UTF-16 code units. The model counts Unicode characters, so a telephone value with characters outside the Basic Multilingual Plane is measured differently.
- `validateField` in both scripts is defined only when no global `validateField` already exists. A definition from another script is not part of this model; each form uses its own.
- The DOM side of the handlers: scrolling to the first error, focusing it, disabling the button and changing its label, and hiding the form.
- localStorage failures (quota, corrupt JSON under the key): the stored list is always readable.
- Form controls that FormData skips (disabled controls, unchecked boxes): every control contributes its value.
- A server `order_id` that is not a string, such as a number, is not modelled: the reply body carries a string or nothing.
