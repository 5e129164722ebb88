/**
 The two type converters of the calculator and the converter table its entry
 point registers with the node-editor registry.
 */
module Converters {
  import opened NumericData
  import opened PyArith

  /** `integer_to_decimal_converter`: `DecimalData(float(data.number))`. */
  function IntegerToDecimal(v: Value): (r: Value)
    ensures KindOf(r) == DecimalType
    ensures Real(r) == Real(v)
  {
    Decimal(Real(v))
  }

  /** `decimal_to_integer_converter`: `IntegerData(int(data.number))`. */
  function DecimalToInteger(v: Value): (r: Value)
    ensures KindOf(r) == IntegerType
    ensures r.n == 0 || (r.n > 0 <==> Real(v) > 0.0)
    ensures AbsReal(r.n as real) <= AbsReal(Real(v))
    ensures AbsReal(Real(v) - r.n as real) < 1.0
  {
    Integer(Trunc(Real(v)))
  }

  /** The converter functions, named so that a table can hold them. */
  datatype Converter = IntegerToDecimalConverter | DecimalToIntegerConverter

  /** The kind a converter produces, whatever it is given. */
  function Produces(c: Converter): DataType {
    match c
    case IntegerToDecimalConverter => DecimalType
    case DecimalToIntegerConverter => IntegerType
  }

  /** Run the named converter; its output kind depends on the converter alone, never on v. */
  function Apply(c: Converter, v: Value): (r: Value)
    ensures KindOf(r) == Produces(c)
    ensures Real(r) == Real(v) || c.DecimalToIntegerConverter?
  {
    match c
    case IntegerToDecimalConverter => IntegerToDecimal(v)
    case DecimalToIntegerConverter => DecimalToInteger(v)
  }

  /** Conversion table keyed by (source kind, destination kind). */
  type Table = map<(DataType, DataType), Converter>

  /** `registry.register_type_converter(from, to, c)`: a later entry replaces an earlier one. */
  function Register(t: Table, from: DataType, to: DataType, c: Converter): (t': Table)
    ensures (from, to) in t' && t'[(from, to)] == c
    ensures forall k :: k in t && k != (from, to) ==> k in t' && t'[k] == t[k]
    ensures t'.Keys == t.Keys + {(from, to)}
  {
    t[(from, to) := c]
  }

  /** The table exactly as the entry point registers it, in source order. */
  function TableAsWritten(): (t: Table)
    ensures t.Keys == {(DecimalType, IntegerType), (IntegerType, DecimalType)}
    ensures forall k :: k in t ==> t[k] == DecimalToIntegerConverter
  {
    var t := Register(map[], DecimalType, IntegerType, DecimalToIntegerConverter);
    Register(t, IntegerType, DecimalType, DecimalToIntegerConverter)
  }

  /** The table with each direction served by its own converter. */
  function CorrectedTable(): (t: Table)
    ensures t.Keys == {(DecimalType, IntegerType), (IntegerType, DecimalType)}
    ensures t[(DecimalType, IntegerType)] == DecimalToIntegerConverter
    ensures t[(IntegerType, DecimalType)] == IntegerToDecimalConverter
  {
    var t := Register(map[], DecimalType, IntegerType, DecimalToIntegerConverter);
    Register(t, IntegerType, DecimalType, IntegerToDecimalConverter)
  }

  /** A table is well typed when every entry produces its destination kind. */
  predicate WellTyped(t: Table) {
    forall k :: k in t ==> Produces(t[k]) == k.1
  }

  /** Convert v to kind `to` through the table; None when nothing is registered. */
  function Convert(t: Table, v: Value, to: DataType): (r: Option<Value>)
    ensures r.Some? <==> (KindOf(v), to) in t
    ensures r.Some? && WellTyped(t) ==> KindOf(r.value) == to
  {
    var key := (KindOf(v), to);
    if key in t then Some(Apply(t[key], v)) else None
  }

  /**
   As written, both registered entries hold the truncating converter. Taken
   literally, that call on an IntegerData raises a TypeError (`int` of a bound
   method); under the field reading of `number` an Integer sent to a Decimal
   port arrives still an Integer.
   */
  lemma TableAsWrittenMisroutes()
    ensures TableAsWritten().Keys == {(DecimalType, IntegerType), (IntegerType, DecimalType)}
    ensures TableAsWritten()[(IntegerType, DecimalType)] == DecimalToIntegerConverter
    ensures !WellTyped(TableAsWritten())
    ensures Convert(TableAsWritten(), Integer(4), DecimalType) == Some(Integer(4))
    ensures KindOf(Convert(TableAsWritten(), Integer(4), DecimalType).value) != DecimalType
  {
    var t := TableAsWritten();
    assert t[(IntegerType, DecimalType)] == DecimalToIntegerConverter;
    assert Produces(t[(IntegerType, DecimalType)]) != (IntegerType, DecimalType).1;
    assert Trunc(4.0) == 4;
  }

  /** The corrected table registers the same pairs, each with a converter of the right kind. */
  lemma CorrectedTableWellTyped()
    ensures CorrectedTable().Keys == TableAsWritten().Keys
    ensures WellTyped(CorrectedTable())
    ensures CorrectedTable()[(DecimalType, IntegerType)] == TableAsWritten()[(DecimalType, IntegerType)]
  {
    var t := CorrectedTable();
    forall k | k in t
      ensures Produces(t[k]) == k.1
    {
      assert k == (DecimalType, IntegerType) || k == (IntegerType, DecimalType);
    }
  }

  /**
   Through the corrected table an Integer goes to Decimal with its value kept,
   and comes back as the same Integer.
   */
  lemma CorrectedRoundTrip(n: int)
    ensures Convert(CorrectedTable(), Integer(n), DecimalType) == Some(Decimal(n as real))
    ensures Convert(CorrectedTable(), Decimal(n as real), IntegerType) == Some(Integer(n))
  {
    assert CorrectedTable()[(IntegerType, DecimalType)] == IntegerToDecimalConverter;
    assert CorrectedTable()[(DecimalType, IntegerType)] == DecimalToIntegerConverter;
    assert Trunc(n as real) == n;
  }
}
