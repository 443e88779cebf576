/**
 * The typed accessor layer over one configuration document: the eight
 * guard-then-extract reads, the values the eight writes store, the status
 * codes, and the properties that tie writes to reads.
 */
module Accessors {
  import opened Json

  /** The status codes the accessors and the manager report. */
  datatype Status =
    | Success
    | InvalidParameter
    | ObjectNotFound
    | NotImplemented
    | AccessDenied
    | ModuleInternalError

  /** The outcome of a read: a value for the out-parameter, or the failure status. */
  datatype Read<T> = Found(value: T) | Failed(status: Status)

  /** What the caller sees: the status, and the out-parameter, overwritten only on success. */
  function Deliver<T>(r: Read<T>, prior: T): (out: (Status, T))
    ensures r.Found? ==> out == (Success, r.value)
    ensures r.Failed? ==> out == (r.status, prior)
  {
    match r
    case Found(v) => (Success, v)
    case Failed(s) => (s, prior)
  }

  // ---------------------------------------------------------------------
  // Scalar reads: the key must exist, then the value must be of the kind.
  // ---------------------------------------------------------------------

  /** ReadInteger: only integer kinds (signed or unsigned) are accepted; an unsigned value wraps into int64. */
  function ReadInteger(doc: Json, name: Key): (r: Read<int64>)
    ensures !Contains(doc, name) ==> r == Failed(ObjectNotFound)
    ensures Contains(doc, name) ==> (r.Found? <==> IsInteger(At(doc, name)))
    ensures Contains(doc, name) && !IsInteger(At(doc, name)) ==> r == Failed(NotImplemented)
    ensures r.Found? ==> At(doc, name) == Int(r.value) || (At(doc, name).UInt? && r.value == ToInt64(At(doc, name).u))
  {
    if !Contains(doc, name) then Failed(ObjectNotFound)
    else
      var v := At(doc, name);
      if !IsInteger(v) then Failed(NotImplemented)
      else if v.Int? then Found(v.i)
      else Found(ToInt64(v.u))
  }

  /** ReadNumber: every numeric kind is accepted, integers included, and converted to a double. */
  function ReadNumber(casts: NumericCasts, doc: Json, name: Key): (r: Read<Float>)
    ensures !Contains(doc, name) ==> r == Failed(ObjectNotFound)
    ensures Contains(doc, name) ==> (r.Found? <==> IsNumber(At(doc, name)))
    ensures Contains(doc, name) && !IsNumber(At(doc, name)) ==> r == Failed(NotImplemented)
    ensures r.Found? ==> NumberElement(casts, At(doc, name)) == Some(r.value)
  {
    if !Contains(doc, name) then Failed(ObjectNotFound)
    else
      var v := At(doc, name);
      if !IsNumber(v) then Failed(NotImplemented)
      else Found(NumberElement(casts, v).value)
  }

  /** ReadString: only a string is accepted. */
  function ReadString(doc: Json, name: Key): (r: Read<string>)
    ensures !Contains(doc, name) ==> r == Failed(ObjectNotFound)
    ensures Contains(doc, name) ==> (r.Found? <==> At(doc, name).Str?)
    ensures Contains(doc, name) && !At(doc, name).Str? ==> r == Failed(NotImplemented)
    ensures r.Found? ==> At(doc, name) == Str(r.value)
  {
    if !Contains(doc, name) then Failed(ObjectNotFound)
    else
      var v := At(doc, name);
      if !v.Str? then Failed(NotImplemented)
      else Found(v.s)
  }

  /** ReadBoolean: only a boolean is accepted. */
  function ReadBoolean(doc: Json, name: Key): (r: Read<bool>)
    ensures !Contains(doc, name) ==> r == Failed(ObjectNotFound)
    ensures Contains(doc, name) ==> (r.Found? <==> At(doc, name).Bool?)
    ensures Contains(doc, name) && !At(doc, name).Bool? ==> r == Failed(NotImplemented)
    ensures r.Found? ==> At(doc, name) == Bool(r.value)
  {
    if !Contains(doc, name) then Failed(ObjectNotFound)
    else
      var v := At(doc, name);
      if !v.Bool? then Failed(NotImplemented)
      else Found(v.b)
  }

  // ---------------------------------------------------------------------
  // Array reads: the key must exist, the value must be an array, and the
  // extraction of every element must succeed, or nothing is delivered.
  // ---------------------------------------------------------------------

  /** The ladder shared by the four array reads. */
  function ReadArray<T>(doc: Json, name: Key, convert: Json -> Option<T>): (r: Read<seq<T>>)
    ensures !Contains(doc, name) ==> r == Failed(ObjectNotFound)
    ensures Contains(doc, name) && !At(doc, name).Array? ==> r == Failed(NotImplemented)
    ensures Contains(doc, name) && At(doc, name).Array? ==>
      (r.Found? <==> ExtractAll(At(doc, name).elems, convert).Some?)
    ensures r.Failed? ==> r.status == ObjectNotFound || r.status == NotImplemented
    ensures r.Found? ==> At(doc, name).Array? && ExtractAll(At(doc, name).elems, convert) == Some(r.value)
  {
    if !Contains(doc, name) then Failed(ObjectNotFound)
    else
      var v := At(doc, name);
      if !v.Array? then Failed(NotImplemented)
      else match ExtractAll(v.elems, convert)
        case None => Failed(NotImplemented)
        case Some(xs) => Found(xs)
  }

  /** ReadIntegerArray: an array of numbers only, each converted to int64 as get<int64_t> does. */
  function ReadIntegerArray(casts: NumericCasts, doc: Json, name: Key): (r: Read<seq<int64>>)
    ensures !Contains(doc, name) ==> r == Failed(ObjectNotFound)
    ensures Contains(doc, name) ==>
      (r.Found? <==> At(doc, name).Array? && forall i :: 0 <= i < |At(doc, name).elems| ==> IsNumber(At(doc, name).elems[i]))
    ensures r.Found? ==> |r.value| == |At(doc, name).elems|
    ensures r.Found? ==> forall i :: 0 <= i < |r.value| ==> IntegerElement(casts, At(doc, name).elems[i]) == Some(r.value[i])
  {
    ReadArray(doc, name, (j: Json) => IntegerElement(casts, j))
  }

  /** ReadNumberArray: an array of numbers only, each converted to a double as get<double> does. */
  function ReadNumberArray(casts: NumericCasts, doc: Json, name: Key): (r: Read<seq<Float>>)
    ensures !Contains(doc, name) ==> r == Failed(ObjectNotFound)
    ensures Contains(doc, name) ==>
      (r.Found? <==> At(doc, name).Array? && forall i :: 0 <= i < |At(doc, name).elems| ==> IsNumber(At(doc, name).elems[i]))
    ensures r.Found? ==> |r.value| == |At(doc, name).elems|
    ensures r.Found? ==> forall i :: 0 <= i < |r.value| ==> NumberElement(casts, At(doc, name).elems[i]) == Some(r.value[i])
  {
    ReadArray(doc, name, (j: Json) => NumberElement(casts, j))
  }

  /** ReadStringArray: an array of strings only, delivered as stored. */
  function ReadStringArray(doc: Json, name: Key): (r: Read<seq<string>>)
    ensures !Contains(doc, name) ==> r == Failed(ObjectNotFound)
    ensures Contains(doc, name) ==>
      (r.Found? <==> At(doc, name).Array? && forall i :: 0 <= i < |At(doc, name).elems| ==> At(doc, name).elems[i].Str?)
    ensures r.Found? ==> |r.value| == |At(doc, name).elems|
    ensures r.Found? ==> forall i :: 0 <= i < |r.value| ==> At(doc, name).elems[i] == Str(r.value[i])
  {
    ReadArray(doc, name, StringElement)
  }

  /** ReadBooleanArray: an array of booleans only, delivered as stored. */
  function ReadBooleanArray(doc: Json, name: Key): (r: Read<seq<bool>>)
    ensures !Contains(doc, name) ==> r == Failed(ObjectNotFound)
    ensures Contains(doc, name) ==>
      (r.Found? <==> At(doc, name).Array? && forall i :: 0 <= i < |At(doc, name).elems| ==> At(doc, name).elems[i].Bool?)
    ensures r.Found? ==> |r.value| == |At(doc, name).elems|
    ensures r.Found? ==> forall i :: 0 <= i < |r.value| ==> At(doc, name).elems[i] == Bool(r.value[i])
  {
    ReadArray(doc, name, BooleanElement)
  }

  // ---------------------------------------------------------------------
  // The values the writes store. The scalar writes store Int, Real, Str
  // and Bool directly; the array writes store one of these arrays.
  // WriteBooleanArray takes a vector of strings and so stores a
  // StringArrayJson.
  // ---------------------------------------------------------------------

  function ArrayJson<T>(values: seq<T>, wrap: T -> Json): (j: Json)
    ensures j.Array? && |j.elems| == |values|
    ensures forall i :: 0 <= i < |values| ==> j.elems[i] == wrap(values[i])
  {
    Array(seq(|values|, i requires 0 <= i < |values| => wrap(values[i])))
  }

  function IntegerArrayJson(values: seq<int64>): Json {
    ArrayJson(values, (v: int64) => Int(v))
  }

  function NumberArrayJson(values: seq<Float>): Json {
    ArrayJson(values, (v: Float) => Real(v))
  }

  function StringArrayJson(values: seq<string>): Json {
    ArrayJson(values, (v: string) => Str(v))
  }

  // ---------------------------------------------------------------------
  // Properties of the reads.
  // ---------------------------------------------------------------------

  /** Every read of a key the document does not hold reports ObjectNotFound, whatever kind is asked for. */
  lemma AbsentKeyNotFound(casts: NumericCasts, doc: Json, name: Key)
    requires !Contains(doc, name)
    ensures ReadInteger(doc, name) == Failed(ObjectNotFound)
    ensures ReadNumber(casts, doc, name) == Failed(ObjectNotFound)
    ensures ReadString(doc, name) == Failed(ObjectNotFound)
    ensures ReadBoolean(doc, name) == Failed(ObjectNotFound)
    ensures ReadIntegerArray(casts, doc, name) == Failed(ObjectNotFound)
    ensures ReadNumberArray(casts, doc, name) == Failed(ObjectNotFound)
    ensures ReadStringArray(doc, name) == Failed(ObjectNotFound)
    ensures ReadBooleanArray(doc, name) == Failed(ObjectNotFound)
  {
  }

  /**
   * The scalar reads check the value's kind and never convert between kinds:
   * each succeeds exactly on its own kinds and otherwise reports NotImplemented.
   */
  lemma ScalarReadsCheckKind(casts: NumericCasts, doc: Json, name: Key)
    requires Contains(doc, name)
    ensures ReadInteger(doc, name).Found? <==> At(doc, name).Int? || At(doc, name).UInt?
    ensures ReadNumber(casts, doc, name).Found? <==> At(doc, name).Int? || At(doc, name).UInt? || At(doc, name).Real?
    ensures ReadString(doc, name).Found? <==> At(doc, name).Str?
    ensures ReadBoolean(doc, name).Found? <==> At(doc, name).Bool?
    ensures !ReadInteger(doc, name).Found? ==> ReadInteger(doc, name) == Failed(NotImplemented)
    ensures !ReadNumber(casts, doc, name).Found? ==> ReadNumber(casts, doc, name) == Failed(NotImplemented)
    ensures !ReadString(doc, name).Found? ==> ReadString(doc, name) == Failed(NotImplemented)
    ensures !ReadBoolean(doc, name).Found? ==> ReadBoolean(doc, name) == Failed(NotImplemented)
  {
  }

  /** An unsigned integer read as an integer is reinterpreted modulo 2^64, and kept as it is below 2^63. */
  lemma ReadIntegerOfUnsigned(doc: Json, name: Key)
    requires Contains(doc, name) && At(doc, name).UInt?
    ensures ReadInteger(doc, name).Found?
    ensures (ReadInteger(doc, name).value as int - At(doc, name).u as int) % 0x1_0000_0000_0000_0000 == 0
    ensures At(doc, name).u as int < 0x8000_0000_0000_0000 ==> ReadInteger(doc, name).value as int == At(doc, name).u as int
  {
  }

  /**
   * An array read delivers a value exactly when the key holds an array all of
   * whose elements convert, and then delivers every element's conversion in
   * order; one element that does not convert fails the whole read.
   */
  lemma ArrayReadAllOrNothing<T>(doc: Json, name: Key, convert: Json -> Option<T>)
    requires Contains(doc, name)
    ensures ReadArray(doc, name, convert).Found? <==>
      At(doc, name).Array? && forall i :: 0 <= i < |At(doc, name).elems| ==> convert(At(doc, name).elems[i]).Some?
    ensures !ReadArray(doc, name, convert).Found? ==> ReadArray(doc, name, convert) == Failed(NotImplemented)
    ensures ReadArray(doc, name, convert).Found? ==>
      var xs := ReadArray(doc, name, convert).value;
      |xs| == |At(doc, name).elems| &&
      forall i :: 0 <= i < |xs| ==> convert(At(doc, name).elems[i]) == Some(xs[i])
  {
  }

  // ---------------------------------------------------------------------
  // Write-then-read on the same key.
  // ---------------------------------------------------------------------

  lemma WriteReadInteger(doc: Json, name: Key, v: int64)
    requires Writable(doc)
    ensures ReadInteger(Put(doc, name, Int(v)), name) == Found(v)
  {
  }

  lemma WriteReadNumber(casts: NumericCasts, doc: Json, name: Key, v: Float)
    requires Writable(doc)
    ensures ReadNumber(casts, Put(doc, name, Real(v)), name) == Found(v)
  {
  }

  lemma WriteReadString(doc: Json, name: Key, v: string)
    requires Writable(doc)
    ensures ReadString(Put(doc, name, Str(v)), name) == Found(v)
  {
  }

  lemma WriteReadBoolean(doc: Json, name: Key, v: bool)
    requires Writable(doc)
    ensures ReadBoolean(Put(doc, name, Bool(v)), name) == Found(v)
  {
  }

  /** An integer written is readable as a number: the double the library converts it to. */
  lemma WriteIntegerReadNumber(casts: NumericCasts, doc: Json, name: Key, v: int64)
    requires Writable(doc)
    ensures ReadNumber(casts, Put(doc, name, Int(v)), name) == Found(casts.intToDouble(v as int))
  {
  }

  /** A double written is not readable as an integer. */
  lemma WriteNumberReadInteger(doc: Json, name: Key, v: Float)
    requires Writable(doc)
    ensures ReadInteger(Put(doc, name, Real(v)), name) == Failed(NotImplemented)
  {
  }

  lemma WriteReadIntegerArray(casts: NumericCasts, doc: Json, name: Key, values: seq<int64>)
    requires Writable(doc)
    ensures ReadIntegerArray(casts, Put(doc, name, IntegerArrayJson(values)), name) == Found(values)
  {
    var convert := (j: Json) => IntegerElement(casts, j);
    var elems := IntegerArrayJson(values).elems;
    assert forall i :: 0 <= i < |elems| ==> convert(elems[i]) == Some(values[i]);
    var xs := ExtractAll(elems, convert);
    assert xs.Some? && xs.value == values;
  }

  lemma WriteReadNumberArray(casts: NumericCasts, doc: Json, name: Key, values: seq<Float>)
    requires Writable(doc)
    ensures ReadNumberArray(casts, Put(doc, name, NumberArrayJson(values)), name) == Found(values)
  {
    var convert := (j: Json) => NumberElement(casts, j);
    var elems := NumberArrayJson(values).elems;
    assert forall i :: 0 <= i < |elems| ==> convert(elems[i]) == Some(values[i]);
    var xs := ExtractAll(elems, convert);
    assert xs.Some? && xs.value == values;
  }

  lemma WriteReadStringArray(doc: Json, name: Key, values: seq<string>)
    requires Writable(doc)
    ensures ReadStringArray(Put(doc, name, StringArrayJson(values)), name) == Found(values)
  {
    var elems := StringArrayJson(values).elems;
    assert forall i :: 0 <= i < |elems| ==> StringElement(elems[i]) == Some(values[i]);
    var xs := ExtractAll(elems, StringElement);
    assert xs.Some? && xs.value == values;
  }

  /**
   * What WriteBooleanArray stores (an array of strings) reads back through
   * ReadStringArray, while ReadBooleanArray fails on it unless it is empty.
   */
  lemma WriteBooleanArrayReads(doc: Json, name: Key, values: seq<string>)
    requires Writable(doc)
    ensures ReadStringArray(Put(doc, name, StringArrayJson(values)), name) == Found(values)
    ensures ReadBooleanArray(Put(doc, name, StringArrayJson(values)), name) ==
      if values == [] then Found([]) else Failed(NotImplemented)
  {
    WriteReadStringArray(doc, name, values);
    var elems := StringArrayJson(values).elems;
    if values != [] {
      assert BooleanElement(elems[0]).None?;
    }
  }
}
