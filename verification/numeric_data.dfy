/**
 The two node-data value types of the calculator: DecimalData and IntegerData.

 Both are immutable tagged numbers. A float64 Decimal is abstracted as a
 mathematical `real` and an Integer as an unbounded `int`; neither class has a
 setter, so a datatype value (which can never be updated in place) is a
 faithful rendering of them.
 */
module NumericData {

  /** An optional value, used for a node's possibly absent result. */
  datatype Option<+T> = None | Some(value: T)

  /** The kind tag of a node datum: a stable identifier and a display name. */
  datatype DataType = DataType(id: string, name: string)

  const DecimalType: DataType := DataType("decimal", "Decimal")
  const IntegerType: DataType := DataType("integer", "Integer")

  /** A node datum: either a DecimalData or an IntegerData. */
  datatype Value = Decimal(x: real) | Integer(n: int)

  /** The `data_type` of the class a value belongs to. */
  function KindOf(v: Value): (k: DataType)
    ensures v.Decimal? <==> k == DecimalType
    ensures v.Integer? <==> k == IntegerType
  {
    match v
    case Decimal(_) => DecimalType
    case Integer(_) => IntegerType
  }

  /** The two kinds are told apart both by identifier and by display name. */
  lemma KindsDiffer()
    ensures DecimalType.id != IntegerType.id
    ensures DecimalType.name != IntegerType.name
    ensures KindOf(Decimal(0.0)) != KindOf(Integer(0))
  {
  }

  /** `DecimalData(number=0.0)`: the constructor with its default argument. */
  function MakeDecimal(number: real := 0.0): (v: Value)
    ensures KindOf(v) == DecimalType
  {
    Decimal(number)
  }

  /** `IntegerData(number=0)`: the constructor with its default argument. */
  function MakeInteger(number: int := 0): (v: Value)
    ensures KindOf(v) == IntegerType
  {
    Integer(number)
  }

  /**
   The numeric value a datum stands for, on the common real line, which is how
   the arithmetic nodes and the converters read `.number`. For an Integer this
   rests on reading `number` as the stored int: in the source it is a plain
   method, not a property, so `.number` is a bound method and arithmetic or
   `int(...)`/`float(...)` on it would raise a TypeError. Under the field
   reading, an Integer operand contributes its value exactly, as Python mixes
   ints and floats.
   */
  function Real(v: Value): (r: real)
    ensures v.Integer? ==> r.Floor == v.n && r == r.Floor as real
  {
    match v
    case Decimal(x) => x
    case Integer(n) => n as real
  }

  /** `number` returns exactly what the constructor was given, default included. */
  lemma NumberRoundTrip(x: real, n: int)
    ensures MakeDecimal(x).x == x && MakeInteger(n).n == n
    ensures MakeDecimal().x == 0.0 && MakeInteger().n == 0
    ensures Real(MakeDecimal(x)) == x && Real(MakeInteger(n)) == n as real
  {
  }
}
