/**
  The part of a decoded JSON request body (or query string) that the validators look at:
  a map from property name to value.  Only the value kinds that the validators distinguish
  are kept apart; every other JSON value (numbers, arrays, objects) is `Num`.
 */
module Json {

  datatype Value = Str(s: string) | Bool(b: bool) | Num(n: int)

  type Body = map<string, Value>

  /** A validation failure, naming every offending property. */
  datatype ValidationError = Invalid(fields: set<string>)

  /** The properties of `body` that are not among `allowed`: a global pipe rejects them. */
  function Extraneous(body: Body, allowed: set<string>): (r: set<string>)
    ensures forall k :: k in r <==> k in body && k !in allowed
  {
    set k | k in body && k !in allowed
  }
}
