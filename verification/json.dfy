/** The value tree that `encoding/json` writes and reads. Byte-level text
    (quoting, escaping, whitespace) is below this model: a message on the
    wire is a `Value`, and encoding/decoding are functions into and out of
    it whose round trip is proved rather than assumed. */
module Json {
  import opened Wrappers
  import opened Numeric

  datatype Value =
    | Null
    | Bool(b: bool)
    | Number(n: int)
    | Str(s: string)
    | Object(fields: seq<Field>)

  datatype Field = Field(name: string, value: Value)

  /** The value stored under `name`, matched exactly; when a name repeats,
      the last occurrence is the one read. For scalar and array values this
      is what the decoder does (each occurrence overwrites the field); an
      object value repeated under one name is merged by the decoder, which
      this lookup does not model. */
  function Get(fields: seq<Field>, name: string): (r: Option<Value>)
    ensures r.None? <==> forall i :: 0 <= i < |fields| ==> fields[i].name != name
    decreases |fields|
  {
    if |fields| == 0 then None
    else if fields[|fields| - 1].name == name then Some(fields[|fields| - 1].value)
    else Get(fields[..|fields| - 1], name)
  }

  /** A name whose last occurrence is at index `i` reads as the value there. */
  lemma {:induction false} GetLastOccurrence(fields: seq<Field>, name: string, i: nat)
    requires i < |fields| && fields[i].name == name
    requires forall j :: i < j < |fields| ==> fields[j].name != name
    ensures Get(fields, name) == Some(fields[i].value)
    decreases |fields|
  {
    if i < |fields| - 1 {
      GetLastOccurrence(fields[..|fields| - 1], name, i);
    }
  }

  /** Decoding into a Go `string` field: absent and `null` leave the zero
      value, a JSON string is taken as is, anything else is a type error. */
  function AsString(v: Option<Value>, field: string): (r: Result<string, string>)
    ensures v.Some? && v.value.Str? ==> r == Success(v.value.s)
    ensures (v.None? || v == Some(Null)) ==> r == Success("")
  {
    match v
    case None => Success("")
    case Some(Null) => Success("")
    case Some(Str(s)) => Success(s)
    case Some(_) => Failure("cannot unmarshal into string field " + field)
  }

  /** Decoding into a Go `bool` field. */
  function AsBool(v: Option<Value>, field: string): (r: Result<bool, string>)
    ensures v.Some? && v.value.Bool? ==> r == Success(v.value.b)
    ensures (v.None? || v == Some(Null)) ==> r == Success(false)
  {
    match v
    case None => Success(false)
    case Some(Null) => Success(false)
    case Some(Bool(b)) => Success(b)
    case Some(_) => Failure("cannot unmarshal into bool field " + field)
  }

  /** Decoding into a Go `int`/`int64` field: a number outside 64 bits is an
      error, as is any other kind of value. */
  function AsInt64(v: Option<Value>, field: string): (r: Result<Int64, string>)
    ensures v.Some? && v.value.Number? && MinInt64 <= v.value.n <= MaxInt64 ==> r == Success(v.value.n)
    ensures v.Some? && v.value.Number? && !(MinInt64 <= v.value.n <= MaxInt64) ==> r.Failure?
    ensures (v.None? || v == Some(Null)) ==> r == Success(0)
  {
    match v
    case None => Success(0)
    case Some(Null) => Success(0)
    case Some(Number(n)) =>
      if MinInt64 <= n <= MaxInt64 then Success(n)
      else Failure("number out of range for field " + field)
    case Some(_) => Failure("cannot unmarshal into number field " + field)
  }
}
