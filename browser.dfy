/**
 * The browser objects both form scripts work with: form controls, FormData lookups,
 * the clock behind Date.now(), what a fetch() call can come back with, and how a
 * FormData value arrives at the server once the request body is encoded.
 */
module Browser {
  import opened Wrappers
  import opened Json

  /**
   * A form control. Its name, `required` attribute, `type` and current value do not
   * change while a submit handler runs; whether it carries the class 'error' does.
   */
  class Field {
    const name: string
    const required: bool
    const kind: string
    const value: string
    var hasError: bool

    constructor (name: string, required: bool, kind: string, value: string)
      ensures this.name == name && this.required == required && this.kind == kind && this.value == value
      ensures !hasError
    {
      this.name := name;
      this.required := required;
      this.kind := kind;
      this.value := value;
      hasError := false;
    }
  }

  /** The position of the first control called `name`. */
  function FirstNamed(form: seq<Field>, name: string): (r: Option<nat>)
    ensures r.Some? ==> r.value < |form| && form[r.value].name == name
  {
    if form == [] then None
    else if form[0].name == name then Some(0)
    else
      match FirstNamed(form[1..], name)
      case None => None
      case Some(k) => Some(k + 1)
  }

  /** FirstNamed finds a control exactly when one has that name, and no earlier control has it. */
  lemma {:induction false} FirstNamedIsFirst(form: seq<Field>, name: string)
    ensures FirstNamed(form, name).None? <==> forall k | 0 <= k < |form| :: form[k].name != name
    ensures FirstNamed(form, name).Some? ==> forall k | 0 <= k < FirstNamed(form, name).value :: form[k].name != name
  {
    if form != [] && form[0].name != name {
      FirstNamedIsFirst(form[1..], name);
      assert forall k | 1 <= k < |form| :: form[k] == form[1..][k - 1];
    }
  }

  /** FormData.get(name): the value of the first control called `name`, or null when there is none. */
  function FormGet(form: seq<Field>, name: string): Option<string> {
    match FirstNamed(form, name)
    case None => None
    case Some(k) => Some(form[k].value)
  }

  /**
   * FormData.get answers null exactly when no control has the name, and otherwise the
   * value of the first control that has it.
   */
  lemma FormGetMeaning(form: seq<Field>, name: string)
    ensures FormGet(form, name).None? <==> forall k | 0 <= k < |form| :: form[k].name != name
    ensures FormGet(form, name).Some? ==> exists k | 0 <= k < |form| ::
      && form[k].name == name && form[k].value == FormGet(form, name).value
      && forall j | 0 <= j < k :: form[j].name != name
  {
    FirstNamedIsFirst(form, name);
  }

  /** The first control called `name` exists and is marked required. */
  predicate HasRequiredControl(form: seq<Field>, name: string) {
    FirstNamed(form, name).Some? && form[FirstNamed(form, name).value].required
  }

  /** A FormData value after JSON.stringify and the server's JSON decoding: null stays null. */
  function Encoded(v: Option<string>): Json {
    match v
    case None => JNull
    case Some(s) => JStr(s)
  }

  /** JavaScript's `v || ''` on a FormData value: null and the empty string both give ''. */
  function OrEmpty(v: Option<string>): string
  {
    match v
    case None => ""
    case Some(x) => x
  }

  /** The largest distance from the epoch, in milliseconds, that an ECMAScript time value may have. */
  const MaxTime: int := 8_640_000_000_000_000

  /** A reading of Date.now(). */
  type TimeValue = t: int | -MaxTime <= t <= MaxTime

  /** The body of an OK response, as response.json() reads it. */
  datatype ResponseBody =
    | Unparsable                      // response.json() rejects, or yields null, so reading order_id throws
    | Parsed(orderId: Option<string>) // an object or other non-null value: its order_id member, when a string

  /** How a fetch() call ends. */
  datatype FetchOutcome =
    | NetworkError                            // the promise rejects: no response at all
    | Response(ok: bool, body: ResponseBody)  // a response; `ok` is a 2xx status
}
