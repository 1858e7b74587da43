/** What a Mongoose schema checks when a document is created: required paths, enum paths, and
    unique indexes on insertion. */
module Schema {
  import opened Wrappers

  /** One failing path of a validation, as Mongoose reports it. */
  datatype FieldError = Required(path: string) | NotInEnum(path: string, value: string)

  /** The error a unique index raises when an insertion repeats an indexed value. */
  datatype DuplicateKey = DuplicateKey(path: string, value: string)

  /** Mongoose's `required` on a String path fails for a missing value and for `''`. */
  predicate MissingString(v: Option<string>) {
    v.None? || v.value == ""
  }

  /** The errors of a required String path. */
  function RequireString(path: string, v: Option<string>): (r: set<FieldError>)
    ensures r == {} <==> !MissingString(v)
    ensures r <= {Required(path)}
  {
    if MissingString(v) then {Required(path)} else {}
  }

  /** The errors of a required path of any other type: only absence fails. */
  function RequirePresent<T>(path: string, v: Option<T>): (r: set<FieldError>)
    ensures r == {} <==> v.Some?
    ensures r <= {Required(path)}
  {
    if v.None? then {Required(path)} else {}
  }

  /** The errors of an enum path whose value, when given, must parse. */
  function CheckEnum<E>(path: string, v: Option<string>, parse: string -> Option<E>): (r: set<FieldError>)
    ensures r == {} <==> (v.None? || parse(v.value).Some?)
    ensures r <= (if v.Some? then {NotInEnum(path, v.value)} else {})
  {
    if v.Some? && parse(v.value).None? then {NotInEnum(path, v.value)} else {}
  }
}
