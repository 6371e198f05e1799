/** The closed value model that replaces Go's reflection: what the encoder
    walks and what the decoder builds. */
module Values {

  /** A leaf payload. The encoder's walk does not enter a leaf; the variants
      only keep distinct payloads distinct. `Opaque` stands for anything the
      walk does not enter (floats, channels, functions, Go arrays), `Ref` for
      the value of a Go pointer. Payloads of a flat map are scalars only. */
  datatype Scalar = Str(s: string) | Int(i: int) | Bool(b: bool) | Opaque(id: nat) | Ref(addr: nat)

  /** A node of a nested value.
      - Leaf: a scalar.
      - Pointer: a non-nil Go pointer at address `addr` to `target`.
      - List: a Go slice.
      - Object: a Go map keyed by strings, or a struct keyed by field name. */
  datatype Value =
    | Leaf(scalar: Scalar)
    | Pointer(addr: nat, target: Value)
    | List(items: seq<Value>)
    | Object(fields: map<string, Value>)

  /** A flattened value: path string to leaf payload. */
  type FlatMap = map<string, Scalar>

  /** `x` occurs as a leaf payload somewhere inside `v`. */
  ghost predicate Mentions(v: Value, x: Scalar) {
    match v
    case Leaf(s) => s == x
    case Pointer(a, t) => Ref(a) == x || Mentions(t, x)
    case List(items) => exists i :: 0 <= i < |items| && Mentions(items[i], x)
    case Object(m) => exists k :: k in m && Mentions(m[k], x)
  }
}
