/**
 * js/contact.js: the contact form's field validator (the order form's rules without
 * the telephone rule), its submit handler, and the copy kept in localStorage under
 * 'aquaBlueContacts'.
 */
module ContactForm {
  import opened Wrappers
  import opened Json
  import opened JsText
  import opened Browser
  import OrderForm
  import Server

  // ---------------------------------------------------------------------------
  // validateField

  /** A control passes when it is not required-and-blank and not a malformed e-mail. */
  predicate FieldValid(required: bool, kind: string, raw: string) {
    var value := Trim(raw);
    && !(required && value == "")
    && !(kind == "email" && value != "" && !EmailShape(value))
  }

  /**
   * What the validator accepts, stated on the raw value: a required control needs a
   * character other than white space, and a filled e-mail control must match the
   * pattern once trimmed. Nothing else is checked: a telephone number of any length passes.
   */
  lemma FieldValidMeaning(required: bool, kind: string, raw: string)
    ensures FieldValid(required, kind, raw) <==>
      && (required ==> !Blank(raw))
      && (kind == "email" && !Blank(raw) ==> MatchesEmailPattern(Trim(raw)))
    ensures kind == "tel" && !required ==> FieldValid(required, kind, raw)
  {
    TrimEmpty(raw);
    EmailShapeIsPattern(Trim(raw));
  }

  /**
   * The order form's validator is the stricter of the two: whatever it accepts this one
   * accepts, and they differ only on telephone controls.
   */
  lemma OrderRulesStricter(required: bool, kind: string, raw: string)
    ensures OrderForm.FieldValid(required, kind, raw) ==> FieldValid(required, kind, raw)
    ensures kind != "tel" ==> (OrderForm.FieldValid(required, kind, raw) <==> FieldValid(required, kind, raw))
    ensures kind == "tel" && Trim(raw) == "12345" ==>
      FieldValid(false, kind, raw) && !OrderForm.FieldValid(false, kind, raw)
  {
  }

  /** validateField: decide, then add or remove the class 'error' accordingly. */
  method ValidateField(field: Field) returns (isValid: bool)
    modifies field
    ensures isValid == FieldOk(field)
    ensures field.hasError == !isValid
  {
    var value := Trim(field.value);
    isValid := true;
    if field.required && value == "" {
      isValid := false;
    }
    if field.kind == "email" && value != "" {
      if !EmailShape(value) {
        isValid := false;
      }
    }
    if !isValid {
      field.hasError := true;
    } else {
      field.hasError := false;
    }
  }

  /** The validator's verdict on a control as it stands. */
  predicate FieldOk(f: Field) {
    FieldValid(f.required, f.kind, f.value)
  }

  predicate AllRequiredValid(form: seq<Field>) {
    forall k | 0 <= k < |form| :: form[k].required ==> FieldOk(form[k])
  }

  /**
   * The forEach over the required controls: every one is validated and marked, even
   * after an invalid one has been seen; the others are left alone.
   */
  method ValidateRequiredFields(form: seq<Field>) returns (isValid: bool)
    modifies set f | f in form
    ensures isValid <==> AllRequiredValid(form)
    ensures forall k | 0 <= k < |form| :: form[k].required ==> form[k].hasError == !FieldOk(form[k])
    ensures forall k | 0 <= k < |form| :: !form[k].required ==> form[k].hasError == old(form[k].hasError)
  {
    isValid := true;
    for i := 0 to |form|
      invariant isValid <==> forall k | 0 <= k < i :: form[k].required ==> FieldOk(form[k])
      invariant forall k | 0 <= k < i :: form[k].required ==> form[k].hasError == !FieldOk(form[k])
      invariant forall k | 0 <= k < |form| :: !form[k].required ==> form[k].hasError == old(form[k].hasError)
    {
      var field := form[i];
      if field.required {
        var ok := ValidateField(field);
        if !ok {
          isValid := false;
        }
      }
    }
  }

  // ---------------------------------------------------------------------------
  // The request body

  /** The contactData object: the five FormData values, each possibly null. */
  datatype ContactData = ContactData(
    name: Option<string>,
    email: Option<string>,
    phone: Option<string>,
    subject: Option<string>,
    message: Option<string>)

  function CollectContact(form: seq<Field>): ContactData {
    ContactData(
      FormGet(form, "name"), FormGet(form, "email"), FormGet(form, "phone"),
      FormGet(form, "subject"), FormGet(form, "message"))
  }

  /** The object create_contact receives. */
  function ContactPayload(d: ContactData): Payload {
    map[
      "name" := Encoded(d.name), "email" := Encoded(d.email),
      "phone" := Encoded(d.phone), "subject" := Encoded(d.subject),
      "message" := Encoded(d.message)]
  }

  /** Under each key the server requires, `p` holds the FormData value of the control with that name. */
  predicate CarriesForm(p: Payload, form: seq<Field>) {
    && "name" in p && p["name"] == Encoded(FormGet(form, "name"))
    && "email" in p && p["email"] == Encoded(FormGet(form, "email"))
    && "phone" in p && p["phone"] == Encoded(FormGet(form, "phone"))
    && "subject" in p && p["subject"] == Encoded(FormGet(form, "subject"))
    && "message" in p && p["message"] == Encoded(FormGet(form, "message"))
  }

  lemma PayloadCarriesForm(form: seq<Field>)
    ensures CarriesForm(ContactPayload(CollectContact(form)), form)
  {
  }

  lemma RequiredControlFilled(form: seq<Field>, name: string)
    requires HasRequiredControl(form, name) && AllRequiredValid(form)
    ensures FormGet(form, name).Some? && FormGet(form, name).value != ""
  {
    var c := form[FirstNamed(form, name).value];
    assert FieldOk(c);
  }

  /** The entry for the k-th required key is the non-empty value of its required control. */
  lemma RequiredEntry(form: seq<Field>, p: Payload, k: nat)
    requires k < |Server.ContactFields| && CarriesForm(p, form)
    requires HasRequiredControl(form, Server.ContactFields[k]) && AllRequiredValid(form)
    ensures Server.ContactFields[k] in p && p[Server.ContactFields[k]].JStr? && p[Server.ContactFields[k]].s != ""
  {
    var f := Server.ContactFields[k];
    RequiredControlFilled(form, f);
    if k == 0 {
      assert f == "name";
    } else if k == 1 {
      assert f == "email";
    } else if k == 2 {
      assert f == "phone";
    } else if k == 3 {
      assert f == "subject";
    } else {
      assert f == "message";
    }
  }

  /**
   * When each of the five fields has a required control, a message the validator lets
   * through is never answered 400, and the server stores it.
   */
  lemma ValidatedContactAccepted(form: seq<Field>, rows: seq<Server.ContactMessage>, nextId: nat, now: nat)
    requires forall k | 0 <= k < |Server.ContactFields| :: HasRequiredControl(form, Server.ContactFields[k])
    requires AllRequiredValid(form)
    requires nextId <= MaxSqlInteger
    ensures Server.TextPayload(ContactPayload(CollectContact(form)), Server.ContactFields)
    ensures Server.SubmitContact(rows, nextId, ContactPayload(CollectContact(form)), now).reply == Server.MessageSent
  {
    var p := ContactPayload(CollectContact(form));
    PayloadCarriesForm(form);
    forall k | 0 <= k < |Server.ContactFields|
      ensures Server.ContactFields[k] in p && p[Server.ContactFields[k]].JStr? && p[Server.ContactFields[k]].s != ""
    {
      RequiredEntry(form, p, k);
    }
    Server.TextContactAccepted(rows, nextId, p, now);
  }

  // ---------------------------------------------------------------------------
  // saveContactLocally

  /** An entry of 'aquaBlueContacts': the message and an ISO-8601 stamp. */
  datatype SavedContact = SavedContact(data: ContactData, timestamp: string)

  /** The list stored under 'aquaBlueContacts' (an absent key reads as the empty list). */
  class ContactStorage {
    var items: seq<SavedContact>

    constructor ()
      ensures items == []
    {
      items := [];
    }

    /** Read the list, push one entry, write the list back; `iso` is new Date().toISOString(). */
    method SaveContactLocally(data: ContactData, iso: string)
      modifies this
      ensures items == old(items) + [SavedContact(data, iso)]
    {
      var contacts := items;
      contacts := contacts + [SavedContact(data, iso)];
      items := contacts;
    }
  }

  // ---------------------------------------------------------------------------
  // The submit handler

  /**
   * The submit handler. `net` is how fetch() ends and `iso` the stamp saveContactLocally
   * takes. It answers the body it sent (None when validation stopped it) and whether the
   * success view was shown: it is shown after every send, whatever the server answered,
   * and the message is kept locally only when no response arrived at all.
   */
  method SubmitContact(form: seq<Field>, storage: ContactStorage, net: FetchOutcome, iso: string)
    returns (sent: Option<ContactData>, successShown: bool)
    modifies (set f | f in form), storage
    ensures sent.Some? <==> AllRequiredValid(form)
    ensures sent.Some? ==> sent.value == CollectContact(form)
    ensures successShown <==> sent.Some?
    ensures storage.items ==
      if sent.Some? && net.NetworkError? then old(storage.items) + [SavedContact(sent.value, iso)]
      else old(storage.items)
    ensures forall k | 0 <= k < |form| :: form[k].required ==> form[k].hasError == !FieldOk(form[k])
    ensures forall k | 0 <= k < |form| :: !form[k].required ==> form[k].hasError == old(form[k].hasError)
  {
    var contactData := CollectContact(form);
    var isValid := ValidateRequiredFields(form);
    if !isValid {
      return None, false;
    }
    sent := Some(contactData);
    match net
    case NetworkError =>
      storage.SaveContactLocally(contactData, iso);
      successShown := true;
    case Response(ok, _) =>
      if ok {
        successShown := true;
      } else {
        successShown := true;
      }
  }
}
