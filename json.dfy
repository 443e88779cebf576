/**
 * The part of the JSON library the configuration manager relies on: the
 * dynamic value kinds of a document, the top-level object operations
 * (contains, at, operator[] assignment), and the per-element conversions
 * that a typed extraction such as get<std::vector<int64_t>>() applies.
 *
 * Doubles are opaque 64-bit tokens; the library's casts between integers and
 * doubles are supplied as uninterpreted functions in a NumericCasts value.
 */
module Json {

  datatype Option<+T> = None | Some(value: T)

  newtype int64 = x: int | -0x8000_0000_0000_0000 <= x < 0x8000_0000_0000_0000
  newtype uint64 = x: int | 0 <= x < 0x1_0000_0000_0000_0000

  /** An IEEE double, kept as its bit pattern and never computed with. */
  datatype Float = Float(bits: bv64)

  type Key = string

  /** A document value: null, boolean, signed integer, unsigned integer, double, string, array or object. */
  datatype Json =
    | Null
    | Bool(b: bool)
    | Int(i: int64)
    | UInt(u: uint64)
    | Real(f: Float)
    | Str(s: string)
    | Array(elems: seq<Json>)
    | Object(fields: map<Key, Json>)

  /** The library's conversions between integers and doubles, which this model does not interpret. */
  datatype NumericCasts = NumericCasts(
    intToDouble: int -> Float,      // an integer value converted to the nearest double
    doubleToInt: Float -> int64)    // static_cast<int64_t> of a double

  /** is_number(): any of the three numeric kinds. */
  predicate IsNumber(j: Json) {
    j.Int? || j.UInt? || j.Real?
  }

  /** is_number_integer(): signed or unsigned integer, not a double. */
  predicate IsInteger(j: Json) {
    j.Int? || j.UInt?
  }

  /** contains(key): only an object has keys. */
  predicate Contains(doc: Json, key: Key) {
    doc.Object? && key in doc.fields
  }

  /** at(key), used only after contains(key) succeeded. */
  function At(doc: Json, key: Key): Json
    requires Contains(doc, key)
  {
    doc.fields[key]
  }

  /** operator[] assigns only on null (which becomes an empty object first) or on an object; anything else throws. */
  predicate Writable(doc: Json) {
    doc.Null? || doc.Object?
  }

  /** doc[key] = value: sets exactly that top-level key, whatever it held before. */
  function Put(doc: Json, key: Key, value: Json): (r: Json)
    requires Writable(doc)
    ensures r.Object? && Writable(r)
    ensures Contains(r, key) && At(r, key) == value
    ensures forall k :: k != key ==> (Contains(r, k) <==> Contains(doc, k))
    ensures forall k :: k != key && Contains(doc, k) ==> At(r, k) == At(doc, k)
  {
    var fields := if doc.Null? then map[] else doc.fields;
    Object(fields[key := value])
  }

  /** The conversion from uint64 to int64: values at or above 2^63 wrap around to negatives. */
  function ToInt64(u: uint64): (r: int64)
    ensures (r as int - u as int) % 0x1_0000_0000_0000_0000 == 0
    ensures u as int < 0x8000_0000_0000_0000 ==> r as int == u as int
  {
    if u < 0x8000_0000_0000_0000 then u as int as int64
    else (u as int - 0x1_0000_0000_0000_0000) as int64
  }

  /** get<int64_t>() of one value: any number converts; every other kind throws (None). */
  function IntegerElement(casts: NumericCasts, j: Json): Option<int64> {
    match j
    case Int(i) => Some(i)
    case UInt(u) => Some(ToInt64(u))
    case Real(f) => Some(casts.doubleToInt(f))
    case _ => None
  }

  /** get<double>() of one value: any number converts; every other kind throws (None). */
  function NumberElement(casts: NumericCasts, j: Json): Option<Float> {
    match j
    case Int(i) => Some(casts.intToDouble(i as int))
    case UInt(u) => Some(casts.intToDouble(u as int))
    case Real(f) => Some(f)
    case _ => None
  }

  /** get<std::string>() of one value: only a string converts. */
  function StringElement(j: Json): Option<string> {
    match j
    case Str(s) => Some(s)
    case _ => None
  }

  /** get<bool>() of one value: only a boolean converts. */
  function BooleanElement(j: Json): Option<bool> {
    match j
    case Bool(b) => Some(b)
    case _ => None
  }

  /**
   * get<std::vector<T>>() of an array: every element is converted, and the
   * first element that does not convert makes the whole extraction throw.
   */
  function ExtractAll<T>(elems: seq<Json>, convert: Json -> Option<T>): (r: Option<seq<T>>)
    ensures r.Some? <==> forall i :: 0 <= i < |elems| ==> convert(elems[i]).Some?
    ensures r.Some? ==> |r.value| == |elems|
    ensures r.Some? ==> forall i :: 0 <= i < |elems| ==> convert(elems[i]) == Some(r.value[i])
  {
    if elems == [] then Some([])
    else match (convert(elems[0]), ExtractAll(elems[1..], convert))
      case (Some(x), Some(rest)) => Some([x] + rest)
      case _ => None
  }
}
