/**
 * The values a request body decodes to on the server, how Python judges them
 * (truthiness, int()), and how the sqlite3 driver binds them as SQL parameters.
 */
module Json {
  import opened Wrappers
  import opened Decimal

  /** A decoded JSON value. JSON integers and JSON fractions decode to different Python types. */
  datatype Json =
    | JNull
    | JBool(b: bool)
    | JInt(i: int)
    | JFloat(r: real)
    | JStr(s: string)
    | JArray(items: seq<Json>)
    | JObject(members: map<string, Json>)

  /** A request body that decoded to a JSON object. */
  type Payload = map<string, Json>

  /** Why a request ends with a server error once validation has passed. */
  datatype Fault =
    | NotAnInteger                     // int() raised ValueError or TypeError
    | UnsupportedType(column: string)  // the driver cannot bind a list or a dict
    | IntegerOverflow                  // an int outside SQLite's signed 64-bit range
    | DatabaseFull                     // AUTOINCREMENT has used the largest rowid

  /** Python's truth value of a decoded value: null, false, zero and empty containers are false. */
  predicate Truthy(j: Json) {
    match j
    case JNull => false
    case JBool(b) => b
    case JInt(i) => i != 0
    case JFloat(r) => r != 0.0
    case JStr(s) => s != ""
    case JArray(items) => items != []
    case JObject(members) => members != map[]
  }

  /** `field in data and data[field]`: the key is there and its value is truthy. */
  predicate Present(data: Payload, field: string) {
    field in data && Truthy(data[field])
  }

  /**
   * int() applied to a string: an optional sign followed by one or more ASCII digits
   * (leading zeros allowed). Anything else makes int() raise ValueError.
   */
  function ParseIntLiteral(s: string): (r: Option<int>)
    ensures r.Some? ==> |s| >= 1
  {
    if |s| >= 2 && (s[0] == '-' || s[0] == '+') && AllDigits(s[1..]) then
      Some(if s[0] == '-' then -DigitsValue(s[1..]) else DigitsValue(s[1..]))
    else if |s| >= 1 && AllDigits(s) then
      Some(DigitsValue(s))
    else
      None
  }

  /** int() truncates a float toward zero. */
  function Truncate(r: real): (i: int)
    ensures r >= 0.0 ==> 0.0 <= i as real <= r < i as real + 1.0
    ensures r < 0.0 ==> i as real - 1.0 < r <= i as real <= 0.0
  {
    if r >= 0.0 then r.Floor else -((-r).Floor)
  }

  /** Python's int(value) on a decoded value: booleans are 0 and 1, floats truncate, strings parse. */
  function PyInt(j: Json): (r: Result<int, Fault>)
    ensures j.JInt? ==> r == Ok(j.i)
    ensures j.JBool? ==> r == Ok(if j.b then 1 else 0)
    ensures j.JFloat? ==> r == Ok(Truncate(j.r))
    ensures j.JStr? ==> (r.Ok? <==> ParseIntLiteral(j.s).Some?) && (r.Ok? ==> r.value == ParseIntLiteral(j.s).value)
    ensures j.JNull? || j.JArray? || j.JObject? ==> r == Err(NotAnInteger)
    ensures r.Err? ==> r.error == NotAnInteger
  {
    match j
    case JBool(b) => Ok(if b then 1 else 0)
    case JInt(i) => Ok(i)
    case JFloat(x) => Ok(Truncate(x))
    case JStr(s) =>
      (match ParseIntLiteral(s)
       case Some(i) => Ok(i)
       case None => Err(NotAnInteger))
    case _ => Err(NotAnInteger)
  }

  /** int() reads back what str() writes for every integer. */
  lemma IntLiteralRoundTrip(i: int)
    ensures PyInt(JStr(IntString(i))) == Ok(i)
  {
    if i < 0 {
      NegativeLiteral(i);
    } else {
      DecimalRoundTrip(i);
      DecimalDigits(i);
      assert !(IntString(i)[0] == '-' || IntString(i)[0] == '+');
    }
  }

  /** The notation of a negative integer parses back to it. */
  lemma NegativeLiteral(i: int)
    requires i < 0
    ensures ParseIntLiteral(IntString(i)) == Some(i)
  {
    var d := DecimalString(-i);
    DecimalRoundTrip(-i);
    DecimalDigits(-i);
    assert IntString(i) == "-" + d;
    MinusDigits(d);
  }

  /** A minus sign followed by digits is read as the negated value of the digits. */
  lemma MinusDigits(d: string)
    requires |d| >= 1 && AllDigits(d)
    ensures ParseIntLiteral("-" + d) == Some(-DigitsValue(d))
  {
    assert ("-" + d)[1..] == d;
  }

  /** The string "0" is truthy, so it passes the presence check, and int() turns it into 0. */
  lemma ZeroStringPassesAndCoercesToZero(data: Payload)
    requires "quantity" in data && data["quantity"] == JStr("0")
    ensures Present(data, "quantity")
    ensures PyInt(data["quantity"]) == Ok(0)
  {
    assert "0"[1..] == "";
    assert DigitsValue("0") == 10 * DigitsValue("") + 0;
  }

  /** A value as the sqlite3 driver hands it to SQLite. */
  datatype SqlValue = SqlNull | SqlInteger(i: int) | SqlReal(r: real) | SqlText(t: string)

  const MinSqlInteger: int := -0x8000_0000_0000_0000
  const MaxSqlInteger: int := 0x7FFF_FFFF_FFFF_FFFF

  /**
   * Binding one parameter: None is NULL, bool and int are INTEGER (an int outside the
   * signed 64-bit range raises OverflowError), float is REAL, str is TEXT, and a list
   * or dict raises "unsupported type".
   */
  function Bind(j: Json, column: string): (r: Result<SqlValue, Fault>)
    ensures r.Ok? <==> !j.JArray? && !j.JObject? && (j.JInt? ==> MinSqlInteger <= j.i <= MaxSqlInteger)
    ensures j.JStr? ==> r == Ok(SqlText(j.s))
    ensures j.JNull? ==> r == Ok(SqlNull)
    ensures j.JInt? && r.Ok? ==> r.value == SqlInteger(j.i)
    ensures j.JBool? ==> r == Ok(SqlInteger(if j.b then 1 else 0))
    ensures j.JFloat? ==> r == Ok(SqlReal(j.r))
    ensures r.Err? ==> r.error == (if j.JInt? then IntegerOverflow else UnsupportedType(column))
  {
    match j
    case JNull => Ok(SqlNull)
    case JBool(b) => Ok(SqlInteger(if b then 1 else 0))
    case JInt(i) => if MinSqlInteger <= i <= MaxSqlInteger then Ok(SqlInteger(i)) else Err(IntegerOverflow)
    case JFloat(x) => Ok(SqlReal(x))
    case JStr(s) => Ok(SqlText(s))
    case _ => Err(UnsupportedType(column))
  }

  /** A named statement parameter. */
  datatype Param = Param(column: string, value: Json)

  /** Binds the parameters left to right; the first one that cannot be bound aborts the statement. */
  function BindAll(params: seq<Param>): (r: Result<seq<SqlValue>, Fault>)
    ensures r.Ok? ==> |r.value| == |params|
    ensures r.Ok? ==> forall k | 0 <= k < |params| :: Bind(params[k].value, params[k].column) == Ok(r.value[k])
    ensures r.Ok? <==> forall k | 0 <= k < |params| :: Bind(params[k].value, params[k].column).Ok?
    ensures r.Err? ==> exists k | 0 <= k < |params| :: Bind(params[k].value, params[k].column) == Err(r.error)
  {
    if params == [] then Ok([])
    else
      match Bind(params[0].value, params[0].column)
      case Err(f) => Err(f)
      case Ok(v) =>
        match BindAll(params[1..])
        case Err(f) => Err(f)
        case Ok(vs) => Ok([v] + vs)
  }
}
