/** Values shared by the streaming session and the candle feed. */
module Wire {

  datatype Option<+T> = None | Some(value: T)

  /** The parsed `data` object of an incoming message, reduced to the fields
      the core inspects: `tx` (de-duplication key), `token` (price re-route),
      `pool` (tick guard) and `price`. */
  datatype Payload = Payload(tx: Option<string>, token: Option<string>, pool: Option<string>, price: real)

  /** JavaScript truthiness of an optional string field: present and non-empty. */
  predicate Truthy(f: Option<string>)
  {
    f.Some? && f.value != ""
  }

  /** `data?.pool` is truthy. */
  predicate HasPool(p: Payload)
  {
    Truthy(p.pool)
  }

  /** What a template literal renders for an optional string: `undefined` when absent. */
  function Rendered(f: Option<string>): (s: string)
    ensures f.Some? ==> s == f.value
  {
    match f
    case Some(v) => v
    case None => "undefined"
  }
}
