/** The part of zod the input schemas use: a parsed JSON value, the issues a
    failed parse reports (each at a field path), and one parser per field
    kind. A parse that fails collects the issues of every field, as zod does;
    unknown keys of an object are dropped. */
module Schema {
  import opened Common
  import opened Text

  datatype Json =
    | JNull
    | JBool(b: bool)
    | JNumber(n: real)
    | JString(s: string)
    | JArray(items: seq<Json>)
    | JObject(fields: map<string, Json>)

  datatype IssueCode =
    | InvalidType                          // wrong JSON type, or a required key missing
    | TooSmall(minimum: int, inclusive: bool)
    | WrongLength(exactly: nat)
    | InvalidFormat(format: string)        // "email", "datetime", "regex"
    | InvalidValue                         // not one of the enum's or literal's values
    | NoMatchingUnion                      // neither alternative of `.or` matched
    | NoMatchingDiscriminator

  datatype Issue = Issue(path: seq<string>, code: IssueCode)

  /** zod's `safeParse` result. */
  datatype Parsed<+T> = Valid(value: T) | Invalid(issues: seq<Issue>)

  function IssuesOf<T>(p: Parsed<T>): seq<Issue>
  {
    if p.Invalid? then p.issues else []
  }

  /** The value at `key` of an object (`undefined` otherwise). */
  function Field(j: Json, key: string): Option<Json>
  {
    if j.JObject? && key in j.fields then Some(j.fields[key]) else None
  }

  /** The string at `key`, when there is one. */
  function StrAt(j: Json, key: string): Option<string>
  {
    match Field(j, key)
    case Some(JString(s)) => Some(s)
    case _ => None
  }

  /** A string of at least `n` UTF-16 code units at `key`. */
  predicate StrMinAt(j: Json, key: string, n: nat)
  {
    StrAt(j, key).Some? && Utf16Length(StrAt(j, key).value) >= n
  }

  /** An email address at `key`. */
  predicate EmailAt(isEmail: string -> bool, j: Json, key: string)
  {
    StrAt(j, key).Some? && isEmail(StrAt(j, key).value)
  }

  /** `z.string().min(n)`; `min(0)` is a plain `z.string()`. */
  function ParseString(path: seq<string>, v: Option<Json>, min: nat): (r: Parsed<string>)
    ensures r.Valid? <==> v.Some? && v.value.JString? && Utf16Length(v.value.s) >= min
    ensures r.Valid? ==> v == Some(JString(r.value))
    ensures r.Invalid? ==> r.issues != []
  {
    match v
    case Some(JString(s)) =>
      if Utf16Length(s) >= min then Valid(s) else Invalid([Issue(path, TooSmall(min, true))])
    case _ => Invalid([Issue(path, InvalidType)])
  }

  /** `z.string().length(n)`. */
  function ParseExactString(path: seq<string>, v: Option<Json>, n: nat): (r: Parsed<string>)
    ensures r.Valid? <==> v.Some? && v.value.JString? && Utf16Length(v.value.s) == n
    ensures r.Valid? ==> v == Some(JString(r.value))
    ensures r.Invalid? ==> r.issues != []
  {
    match v
    case Some(JString(s)) =>
      if Utf16Length(s) == n then Valid(s) else Invalid([Issue(path, WrongLength(n))])
    case _ => Invalid([Issue(path, InvalidType)])
  }

  /** A string refinement such as `z.email()` or `z.iso.datetime()`: the syntax
      of the format is left to the predicate `ok`; a string that fails it is
      reported under the format's name, anything else as the wrong type. */
  function ParseFormat(ok: string -> bool, format: string, path: seq<string>, v: Option<Json>): (r: Parsed<string>)
    ensures r.Valid? <==> v.Some? && v.value.JString? && ok(v.value.s)
    ensures r.Valid? ==> v == Some(JString(r.value))
    ensures r.Invalid? && v.Some? && v.value.JString? ==> r.issues == [Issue(path, InvalidFormat(format))]
    ensures r.Invalid? && !(v.Some? && v.value.JString?) ==> r.issues == [Issue(path, InvalidType)]
  {
    match v
    case Some(JString(s)) =>
      if ok(s) then Valid(s) else Invalid([Issue(path, InvalidFormat(format))])
    case _ => Invalid([Issue(path, InvalidType)])
  }

  /** `z.email()`. */
  function ParseEmail(isEmail: string -> bool, path: seq<string>, v: Option<Json>): Parsed<string>
  {
    ParseFormat(isEmail, "email", path, v)
  }

  /** `z.enum(OrderStatus)`. */
  function ParseStatus(path: seq<string>, v: Option<Json>): (r: Parsed<OrderStatus>)
    ensures r.Valid? <==> v.Some? && v.value.JString? && StatusNamed(v.value.s).Some?
    ensures r.Valid? ==> v == Some(JString(StatusName(r.value)))
    ensures r.Invalid? ==> r.issues != []
  {
    match v
    case Some(JString(s)) =>
      (match StatusNamed(s)
       case Some(st) => Valid(st)
       case None => Invalid([Issue(path, InvalidValue)]))
    case _ => Invalid([Issue(path, InvalidValue)])
  }

  /** `.optional()` of a string parser: a missing key is fine, `null` is not. */
  function ParseOptional(v: Option<Json>, inner: Parsed<string>): (r: Parsed<Option<string>>)
    requires v.Some? ==> inner.Valid? ==> v == Some(JString(inner.value))
    requires inner.Invalid? ==> inner.issues != []
    ensures r.Valid? <==> v.None? || inner.Valid?
    ensures r.Valid? ==> (r.value.None? <==> v.None?)
    ensures r.Valid? && r.value.Some? ==> v == Some(JString(r.value.value))
    ensures r.Invalid? ==> r.issues != []
  {
    if v.None? then Valid(None)
    else match inner
      case Valid(s) => Valid(Some(s))
      case Invalid(issues) => Invalid(issues)
  }

  /** `z.boolean().default(d)`. */
  function ParseBoolDefault(path: seq<string>, v: Option<Json>, d: bool): (r: Parsed<bool>)
    ensures r.Valid? <==> v.None? || v.value.JBool?
    ensures r.Valid? ==> r.value == (if v.None? then d else v.value.b)
    ensures r.Invalid? ==> r.issues != []
  {
    match v
    case None => Valid(d)
    case Some(JBool(b)) => Valid(b)
    case _ => Invalid([Issue(path, InvalidType)])
  }

  /** The largest integer JavaScript represents exactly (`Number.MAX_SAFE_INTEGER`). */
  const MaxSafeInteger: int := 0x1F_FFFF_FFFF_FFFF

  /** `z.int()`: a number that is a safe integer. */
  predicate IsSafeInteger(n: real)
  {
    n == n.Floor as real && -MaxSafeInteger <= n.Floor <= MaxSafeInteger
  }
}
