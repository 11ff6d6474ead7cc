/** The trees of the round trip: which of them are stored, which of their strings and keys are printed
    faithfully, and what the parser makes of their integers. */
module JsonTrees {
  import opened JsonValue
  import opened JsonLexer
  import opened JsonPrinter
  import opened JsonNumber

  /** A string that is printed between quotes and has no NUL byte. */
  predicate Faithful(s: string) {
    !IsUnquoted(s) && '\0' !in s
  }

  predicate Fits64(n: int) { INT64_MIN <= n <= INT64_MAX }

  /** A float is a number with a fraction or an exponent. */
  ghost predicate IsFloatText(text: string) {
    exists minus, whole, gs :: IsFloat(text, minus, whole, gs)
  }

  ghost predicate IsFloat(text: string, minus: bool, whole: string, gs: seq<Segment>) {
    IsNumber(whole, gs) && gs != [] && text == NumberText(minus, whole, gs)
  }

  ghost predicate PrintableScalar(s: Scalar) {
    match s
    case Int(n) => INT_MIN <= n <= INT_MAX
    case Long(n) => Fits64(n)
    case Float(text) => IsFloatText(text)
    case _ => true
  }

  /** Objects are sorted maps, and floats are texts of numbers. Keys and strings are arbitrary. */
  ghost predicate Storable(v: JSON) {
    match v
    case Leaf(s) => PrintableScalar(s)
    case Array(items) => forall i | 0 <= i < |items| :: Storable(items[i])
    case Object(fields) => Sorted(fields) && forall i | 0 <= i < |fields| :: Storable(fields[i].value)
  }

  /** A key that is the same escaped and unescaped. */
  predicate PlainKey(key: string) {
    forall i | 0 <= i < |key| :: !IsControl(key[i]) && key[i] != '"' && key[i] != '\\'
  }

  ghost predicate AllPlain(v: JSON) {
    match v
    case Leaf(_) => true
    case Array(items) => forall i | 0 <= i < |items| :: AllPlain(items[i])
    case Object(fields) => forall i | 0 <= i < |fields| :: PlainKey(fields[i].key) && AllPlain(fields[i].value)
  }

  /** A tree with plain keys. */
  ghost predicate Printable(v: JSON) {
    match v
    case Leaf(s) => PrintableScalar(s)
    case Array(items) => forall i | 0 <= i < |items| :: Printable(items[i])
    case Object(fields) =>
      && Sorted(fields)
      && forall i | 0 <= i < |fields| :: PlainKey(fields[i].key) && Printable(fields[i].value)
  }

  lemma {:induction false} PrintableIff(v: JSON)
    ensures Printable(v) <==> Storable(v) && AllPlain(v)
    decreases v
  {
    match v {
      case Leaf(_) =>
      case Array(items) =>
        forall i | 0 <= i < |items| ensures Printable(items[i]) <==> Storable(items[i]) && AllPlain(items[i]) {
          PrintableIff(items[i]);
        }
      case Object(fields) =>
        forall i | 0 <= i < |fields|
          ensures Printable(fields[i].value) <==> Storable(fields[i].value) && AllPlain(fields[i].value)
        {
          PrintableIff(fields[i].value);
        }
    }
  }

  /** No string value is of the form `<%...%>` or has a NUL byte. */
  ghost predicate AllFaithful(v: JSON) {
    match v
    case Leaf(s) => s.Str? ==> Faithful(s.s)
    case Array(items) => forall i | 0 <= i < |items| :: AllFaithful(items[i])
    case Object(fields) => forall i | 0 <= i < |fields| :: AllFaithful(fields[i].value)
  }

  /** The holder that the parser chooses for an integer. */
  function Reheld(s: Scalar): Scalar {
    match s
    case Int(n) => if INT_MIN < n < INT_MAX then Int(n) else Long(n)
    case Long(n) => if INT_MIN < n < INT_MAX then Int(n) else Long(n)
    case _ => s
  }

  /** The same tree with its integers in the holders that the parser chooses. */
  function Normal(v: JSON): JSON {
    match v
    case Leaf(s) => Leaf(Reheld(s))
    case Array(items) => Array(NormalItems(items))
    case Object(fields) => Object(NormalFields(fields))
  }

  function NormalItems(items: seq<JSON>): seq<JSON> {
    if items == [] then [] else [Normal(items[0])] + NormalItems(items[1..])
  }

  function NormalFields(fields: seq<Field<JSON>>): seq<Field<JSON>> {
    if fields == [] then []
    else [Field(fields[0].key, Normal(fields[0].value))] + NormalFields(fields[1..])
  }
}
